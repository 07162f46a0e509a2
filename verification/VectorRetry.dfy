/** What the rounds of vectored I/O come to: how much is moved, when a call fails,
    and that interrupted rounds do not count (io.c). */
module VectorRetry {
  import opened VectorIo

  // ------------------------------------------------------- how much is moved

  /** All that the system calls up to round k have reported. */
  function Reported(script: seq<Round>, k: nat): nat
    requires k <= |script|
  {
    if k == 0 then 0 else Reported(script, k - 1) + if script[k - 1].io.Moved? then script[k - 1].io.n else 0
  }

  /** What is moved is what the system calls have reported, up to the total. */
  lemma {:induction false} TakenIsReported(total: nat, script: seq<Round>, k: nat)
    requires k <= |script|
    ensures Taken(total, script, 0, k) == if Reported(script, k) < total then Reported(script, k) else total
    decreases k
  {
    if k == 0 {
    } else {
      TakenIsReported(total, script, k - 1);
    }
  }

  // ---------------------------------------------------------- when it fails

  /** A call returns -1 exactly if it is not complete and one of its rounds has
      failed, or was not interrupted and its wait has failed. */
  lemma FailsExactly(vs: seq<Vec>, script: seq<Round>, k0: nat, k: nat, reading: bool)
    requires Stops(vs, script, k0, k, reading)
    ensures ResultOf(EndAt(vs, script, k0, k, reading), 0) == Returned(-1) <==>
      EndAt(vs, script, k0, k, reading) != Complete
      && exists j {:trigger script[j]} :: k0 <= j < k && (script[j].io == Broken || (script[j].io != Interrupted && !script[j].waitOk))
  {
    forall j | k0 <= j < k && (script[j].io == Broken || (script[j].io != Interrupted && !script[j].waitOk))
      ensures EndAt(vs, script, k0, k, reading) != Pending
    {
      assert j + 1 < k ==> EndAt(vs, script, k0, j + 1, reading) == Pending;
    }
  }

  /** The same for `st_writev`. */
  lemma TotalFailsExactly(total: nat, script: seq<Round>, k: nat)
    requires TotalStops(total, script, k)
    ensures ResultOf(TotalEnd(total, script, k), total) == Returned(-1) <==>
      Taken(total, script, 0, k) < total
      && exists j {:trigger script[j]} :: 0 <= j < k && (script[j].io == Broken || (script[j].io != Interrupted && !script[j].waitOk))
  {
    forall j | 0 <= j < k && (script[j].io == Broken || (script[j].io != Interrupted && !script[j].waitOk))
      ensures TotalEnd(total, script, k) != Pending
    {
      assert j + 1 < k ==> TotalEnd(total, script, j + 1) == Pending;
    }
  }

  // ------------------------------------------------ interrupted rounds

  /** The script without its interrupted rounds. */
  function Kept(script: seq<Round>): seq<Round> {
    if script == [] then [] else (if script[0].io == Interrupted then [] else [script[0]]) + Kept(script[1..])
  }

  /** Where round k is then. */
  function Place(script: seq<Round>, k: nat): nat
    requires k <= |script|
  {
    |Kept(script[..k])|
  }

  lemma {:induction false} KeptConcat(a: seq<Round>, b: seq<Round>)
    ensures Kept(a + b) == Kept(a) + Kept(b)
  {
    if a == [] {
      assert a + b == b;
    } else {
      assert (a + b)[1..] == a[1..] + b;
      KeptConcat(a[1..], b);
    }
  }

  lemma PlaceNext(script: seq<Round>, k: nat)
    requires k < |script|
    ensures Place(script, k) <= |Kept(script)| && Place(script, k + 1) <= |Kept(script)|
    ensures if script[k].io == Interrupted then Place(script, k + 1) == Place(script, k)
            else Place(script, k + 1) == Place(script, k) + 1 && Kept(script)[Place(script, k)] == script[k]
  {
    var a, one, b := script[..k], [script[k]], script[k + 1..];
    assert script == a + one + b && script[..k + 1] == a + one;
    KeptConcat(a + one, b);
    KeptConcat(a, one);
    assert one[1..] == [];
  }

  lemma {:induction false} PlaceGrows(script: seq<Round>, j: nat, k: nat)
    requires j <= k <= |script|
    ensures Place(script, j) <= Place(script, k) <= |Kept(script)|
    decreases k
  {
    if j == k {
      assert script == script[..k] + script[k..];
      KeptConcat(script[..k], script[k..]);
    } else {
      PlaceGrows(script, j, k - 1);
      PlaceNext(script, k - 1);
    }
  }

  lemma {:induction false} TakenKept(total: nat, script: seq<Round>, k0: nat, k: nat)
    requires k0 <= k <= |script|
    ensures Place(script, k) <= |Kept(script)|
    ensures Taken(total, Kept(script), Place(script, k0), Place(script, k)) == Taken(total, script, k0, k)
    decreases k
  {
    PlaceGrows(script, k0, k);
    if k == k0 {
    } else {
      PlaceGrows(script, k0, k - 1);
      TakenKept(total, script, k0, k - 1);
      PlaceNext(script, k - 1);
    }
  }

  lemma {:induction false} AfterKept(vs: seq<Vec>, script: seq<Round>, k0: nat, k: nat, reading: bool)
    requires k0 <= k <= |script|
    ensures Place(script, k) <= |Kept(script)|
    ensures After(vs, Kept(script), Place(script, k0), Place(script, k), reading) == After(vs, script, k0, k, reading)
    decreases k
  {
    hide Kept, Advanced, CellsOf;
    PlaceGrows(script, k0, k);
    if k == k0 {
    } else {
      PlaceGrows(script, k0, k - 1);
      AfterKept(vs, script, k0, k - 1, reading);
      PlaceNext(script, k - 1);
    }
  }

  /** As long as a call is going on, it is where it would be without the
      interrupted rounds. */
  lemma {:induction false} EndKept(vs: seq<Vec>, script: seq<Round>, k0: nat, k: nat, reading: bool)
    requires k0 <= k <= |script| && forall j :: k0 <= j < k ==> EndAt(vs, script, k0, j, reading) == Pending
    ensures Place(script, k) <= |Kept(script)|
    ensures EndAt(vs, Kept(script), Place(script, k0), Place(script, k), reading) == EndAt(vs, script, k0, k, reading)
    decreases k
  {
    hide Kept, Advanced, CellsOf;
    AfterKept(vs, script, k0, k, reading);
    if k == k0 {
    } else {
      PlaceGrows(script, k0, k - 1);
      AfterKept(vs, script, k0, k - 1, reading);
      PlaceNext(script, k - 1);
      if script[k - 1].io == Interrupted {
        EndKept(vs, script, k0, k - 1, reading);
      }
    }
  }

  /** Every round that is kept comes from a round of the script. */
  lemma {:induction false} PlaceFrom(script: seq<Round>, k0: nat, k: nat, i: nat) returns (j: nat)
    requires k0 <= k <= |script| && Place(script, k0) <= i < Place(script, k)
    ensures k0 <= j < k && Place(script, j) == i
    decreases k
  {
    PlaceNext(script, k - 1);
    if i < Place(script, k - 1) {
      j := PlaceFrom(script, k0, k - 1, i);
    } else {
      j := k - 1;
    }
  }

  lemma AllPlaced(script: seq<Round>)
    ensures Place(script, |script|) == |Kept(script)| && Place(script, 0) == 0
  {
    assert script[..|script|] == script;
  }

  /** Interrupted rounds do not count: without them a call stops in the same way,
      with the same result, and has moved as much. */
  lemma InterruptsDontCount(vs: seq<Vec>, script: seq<Round>, k0: nat, k: nat, reading: bool)
    requires Stops(vs, script, k0, k, reading)
    ensures Stops(vs, Kept(script), Place(script, k0), Place(script, k), reading)
    ensures EndAt(vs, Kept(script), Place(script, k0), Place(script, k), reading) == EndAt(vs, script, k0, k, reading)
    ensures Taken(|CellsOf(vs)|, Kept(script), Place(script, k0), Place(script, k)) == Taken(|CellsOf(vs)|, script, k0, k)
  {
    hide Kept, EndAt, Taken, CellsOf;
    PlaceGrows(script, k0, k);
    AllPlaced(script);
    TakenKept(|CellsOf(vs)|, script, k0, k);
    EndKept(vs, script, k0, k, reading);
    forall i | Place(script, k0) <= i < Place(script, k)
      ensures EndAt(vs, Kept(script), Place(script, k0), i, reading) == Pending
    {
      var j := PlaceFrom(script, k0, k, i);
      EndKept(vs, script, k0, j, reading);
    }
  }

  lemma {:induction false} TotalEndKept(total: nat, script: seq<Round>, k: nat)
    requires k <= |script| && forall j :: 0 <= j < k ==> TotalEnd(total, script, j) == Pending
    ensures Place(script, k) <= |Kept(script)|
    ensures TotalEnd(total, Kept(script), Place(script, k)) == TotalEnd(total, script, k)
    decreases k
  {
    TakenKept(total, script, 0, k);
    if k == 0 {
      assert script[..0] == [];
    } else {
      PlaceGrows(script, 0, k - 1);
      PlaceNext(script, k - 1);
      if script[k - 1].io == Interrupted {
        TotalEndKept(total, script, k - 1);
      }
    }
  }

  /** The same for `st_writev`. */
  lemma TotalInterruptsDontCount(total: nat, script: seq<Round>, k: nat)
    requires TotalStops(total, script, k)
    ensures TotalStops(total, Kept(script), Place(script, k))
    ensures TotalEnd(total, Kept(script), Place(script, k)) == TotalEnd(total, script, k)
    ensures Taken(total, Kept(script), 0, Place(script, k)) == Taken(total, script, 0, k)
  {
    hide Kept, Taken, TotalEnd;
    PlaceGrows(script, 0, k);
    AllPlaced(script);
    TakenKept(total, script, 0, k);
    TotalEndKept(total, script, k);
    forall i | 0 <= i < Place(script, k)
      ensures TotalEnd(total, Kept(script), i) == Pending
    {
      var j := PlaceFrom(script, 0, k, i);
      TotalEndKept(total, script, j);
    }
  }
}
