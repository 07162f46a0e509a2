/** Vectored I/O that goes on after short counts (io.c).

    A vector denotes the memory cells it covers, in order.  The kernel is a
    script: the results of its calls, one entry for each round of a loop.  When
    the script is over the call is still going on, so that what holds at the end
    of every script holds at every moment of the call. */
module VectorIo {
  datatype Vec = Vec(base: nat, len: nat)

  /** read, write and their kind. */
  datatype Result = Moved(n: nat) | Interrupted | NotReady | Broken

  /** The result of the system call, and whether the wait that may follow
      succeeds. */
  datatype Round = Round(io: Result, waitOk: bool)

  datatype Outcome = Returned(rv: int) | GoesOn

  function Cells(v: Vec): (r: seq<nat>)
    ensures |r| == v.len
  {
    seq(v.len, i requires 0 <= i => v.base + i)
  }

  function CellsOf(vs: seq<Vec>): seq<nat> {
    if vs == [] then [] else Cells(vs[0]) + CellsOf(vs[1..])
  }

  /** The kernel moves no more than it is offered. */
  function AtMost(n: nat, offered: nat): nat {
    if n < offered then n else offered
  }

  lemma {:induction false} CellsConcat(a: seq<Vec>, b: seq<Vec>)
    ensures CellsOf(a + b) == CellsOf(a) + CellsOf(b)
  {
    if a == [] {
      assert a + b == b;
    } else {
      assert (a + b)[1..] == a[1..] + b;
      CellsConcat(a[1..], b);
    }
  }

  lemma CellsOne(v: Vec)
    ensures CellsOf([v]) == Cells(v)
  {
    assert [v][1..] == [];
  }

  lemma CellsCons(v: Vec, vs: seq<Vec>)
    ensures CellsOf([v] + vs) == Cells(v) + CellsOf(vs)
  {
    assert ([v] + vs)[1..] == vs;
  }

  /** What is left of a vector after its first n cells. */
  lemma CellsRest(v: Vec, n: nat)
    requires n <= v.len
    ensures Cells(Vec(v.base + n, v.len - n)) == Cells(v)[n..]
  {
  }

  // ----------------------------------------------- what a script comes to

  datatype End = Complete | Failed | Pending

  /** The round ends a call that is not complete: an error, or a wait that
      fails.  No wait follows a system call that was interrupted. */
  predicate Fatal(round: Round) {
    round.io.Broken? || (!round.io.Interrupted? && !round.waitOk)
  }

  /** How many of `total` cells the rounds from `k0` up to `k` move. */
  function Taken(total: nat, script: seq<Round>, k0: nat, k: nat): (n: nat)
    requires k <= |script|
    ensures n <= total
    decreases k
  {
    if k <= k0 then 0
    else
      var before := Taken(total, script, k0, k - 1);
      if script[k - 1].io.Moved? then before + AtMost(script[k - 1].io.n, total - before) else before
  }

  /** What is left of the vectors behind their first n cells. */
  function Advanced(vs: seq<Vec>, n: nat): seq<Vec> {
    if vs == [] then []
    else if n < vs[0].len then [Vec(vs[0].base + n, vs[0].len - n)] + vs[1..]
    else if n == vs[0].len then vs[1..]
    else Advanced(vs[1..], n - vs[0].len)
  }

  /** What is left of the vectors after the rounds from `k0` up to `k`.  A read
      that moves nothing is the end of the input. */
  function After(vs: seq<Vec>, script: seq<Round>, k0: nat, k: nat, reading: bool): seq<Vec>
    requires k <= |script|
    decreases k
  {
    if k <= k0 then vs
    else
      var before := After(vs, script, k0, k - 1, reading);
      if script[k - 1].io.Moved? && !(reading && NoMore(before, script[k - 1])) then
        Advanced(before, AtMost(script[k - 1].io.n, |CellsOf(before)|))
      else before
  }

  predicate NoMore(left: seq<Vec>, round: Round) {
    round.io.Moved? && AtMost(round.io.n, |CellsOf(left)|) == 0
  }

  /** Whether a call that has got as far as round `k` is over. */
  function EndAt(vs: seq<Vec>, script: seq<Round>, k0: nat, k: nat, reading: bool): End
    requires k <= |script|
  {
    if After(vs, script, k0, k, reading) == [] then Complete
    else if k <= k0 then Pending
    else if reading && NoMore(After(vs, script, k0, k - 1, reading), script[k - 1]) then Complete
    else if Fatal(script[k - 1]) then Failed
    else Pending
  }

  /** The call stops at round `k`, and not before: when it is over, or when the
      script is. */
  ghost predicate Stops(vs: seq<Vec>, script: seq<Round>, k0: nat, k: nat, reading: bool) {
    && k0 <= k <= |script|
    && (forall j :: k0 <= j < k ==> EndAt(vs, script, k0, j, reading) == Pending)
    && (EndAt(vs, script, k0, k, reading) == Pending ==> k == |script|)
  }

  /** What a call returns: `whole` if it was completed. */
  function ResultOf(end: End, whole: int): Outcome {
    match end
    case Complete => Returned(whole)
    case Failed => Returned(-1)
    case Pending => GoesOn
  }

  lemma {:induction false} AdvancedCells(vs: seq<Vec>, n: nat)
    requires n <= |CellsOf(vs)|
    ensures CellsOf(Advanced(vs, n)) == CellsOf(vs)[n..]
  {
    if vs == [] {
    } else if n < vs[0].len {
      CellsRest(vs[0], n);
      CellsCons(Vec(vs[0].base + n, vs[0].len - n), vs[1..]);
    } else if n == vs[0].len {
    } else {
      AdvancedCells(vs[1..], n - vs[0].len);
    }
  }

  /** The vectors that are left describe all but the cells moved. */
  lemma {:induction false} AfterCells(vs: seq<Vec>, script: seq<Round>, k0: nat, k: nat, reading: bool)
    requires k <= |script|
    ensures var n := Taken(|CellsOf(vs)|, script, k0, k);
      CellsOf(After(vs, script, k0, k, reading)) == CellsOf(vs)[n..]
    decreases k
  {
    hide CellsOf, Advanced;
    if k <= k0 {
    } else {
      AfterCells(vs, script, k0, k - 1, reading);
      var before, n := After(vs, script, k0, k - 1, reading), Taken(|CellsOf(vs)|, script, k0, k - 1);
      if script[k - 1].io.Moved? {
        var m := AtMost(script[k - 1].io.n, |CellsOf(before)|);
        AdvancedCells(before, m);
        assert CellsOf(vs)[n..][m..] == CellsOf(vs)[n + m..];
      }
    }
  }

  // -------------------------------------------------- residual vectors

  /** The vectors from `pos` on, in an array of vectors. */
  ghost function Rest(iov: array<Vec>, pos: nat): seq<nat>
    requires pos <= iov.Length
    reads iov
  {
    CellsOf(iov[pos..])
  }

  lemma RestStep(iov: array<Vec>, pos: nat)
    requires pos < iov.Length
    ensures Rest(iov, pos) == Cells(iov[pos]) + Rest(iov, pos + 1)
  {
    assert iov[pos..][1..] == iov[pos + 1..];
  }

  /** What stepping from vector `pos0` to vector `pos` makes of the vectors:
      those that were passed are empty, the one at `pos` has lost cells at its
      front at most, and the others are as before. */
  ghost predicate Worn(orig: seq<Vec>, now: seq<Vec>, pos0: nat, pos: nat) {
    && |now| == |orig| && pos0 <= pos <= |orig|
    && (forall j :: 0 <= j < |orig| && (j < pos0 || j > pos) ==> now[j] == orig[j])
    && (forall j :: pos0 <= j < pos ==> now[j] == Vec(orig[j].base + orig[j].len, 0))
    && (pos < |orig| ==> now[pos].base + now[pos].len == orig[pos].base + orig[pos].len
                         && (now[pos].len == 0 ==> orig[pos].len == 0))
  }

  lemma WornTwice(a: seq<Vec>, b: seq<Vec>, c: seq<Vec>, pos: nat, pos': nat)
    requires Worn(a, b, 0, pos) && Worn(b, c, pos, pos')
    ensures Worn(a, c, 0, pos')
  {
  }

  lemma RestNonEmpty(iov: array<Vec>, pos: nat)
    requires pos <= iov.Length && Rest(iov, pos) != []
    ensures pos < iov.Length
  {
  }

  /** Steps over n cells: whole vectors are emptied, and the first that is left
      is shortened. */
  method Advance(iov: array<Vec>, pos0: nat, n0: nat) returns (pos: nat)
    requires pos0 < iov.Length && n0 <= |Rest(iov, pos0)|
    modifies iov
    ensures Worn(old(iov[..]), iov[..], pos0, pos)
    ensures iov[pos..] == Advanced(old(iov[pos0..]), n0)
  {
    pos := pos0;
    var n: nat := n0;
    ghost var orig, left := iov[..], Advanced(iov[pos0..], n0);
    while n >= iov[pos].len
      invariant pos0 <= pos < iov.Length && n <= |Rest(iov, pos)|
      invariant Advanced(iov[pos..], n) == left
      invariant Emptied(orig, iov[..], pos0, pos)
      decreases iov.Length - pos
    {
      RestStep(iov, pos);
      ghost var was := iov[..];
      n := n - iov[pos].len;
      Empty(iov, pos);
      EmptiedNext(orig, was, iov[..], pos0, pos);
      pos := pos + 1;
      if n == 0 {
        break;
      }
      RestNonEmpty(iov, pos);
    }
    if pos < iov.Length {
      ghost var was := iov[..];
      Shorten(iov, pos, n);
      EmptiedWorn(orig, was, iov[..], pos0, pos, n);
    }
  }

  /** The vectors from `pos0` to `pos` are empty, the others are as before. */
  ghost predicate Emptied(orig: seq<Vec>, now: seq<Vec>, pos0: nat, pos: nat) {
    && |now| == |orig| && pos0 <= pos <= |orig|
    && (forall j :: 0 <= j < |orig| && (j < pos0 || j >= pos) ==> now[j] == orig[j])
    && (forall j :: pos0 <= j < pos ==> now[j] == Vec(orig[j].base + orig[j].len, 0))
  }

  lemma EmptiedNext(orig: seq<Vec>, was: seq<Vec>, now: seq<Vec>, pos0: nat, pos: nat)
    requires Emptied(orig, was, pos0, pos) && pos < |orig|
    requires now == was[pos := Vec(was[pos].base + was[pos].len, 0)]
    ensures Emptied(orig, now, pos0, pos + 1)
  {
  }

  lemma EmptiedWorn(orig: seq<Vec>, was: seq<Vec>, now: seq<Vec>, pos0: nat, pos: nat, n: nat)
    requires Emptied(orig, was, pos0, pos) && pos < |orig| && (n == 0 || n < orig[pos].len)
    requires now == was[pos := Vec(was[pos].base + n, was[pos].len - n)]
    ensures Worn(orig, now, pos0, pos)
  {
  }

  method Empty(iov: array<Vec>, pos: nat)
    requires pos < iov.Length
    modifies iov
    ensures iov[..] == old(iov[..])[pos := Vec(old(iov[pos]).base + old(iov[pos]).len, 0)]
    ensures iov[pos + 1..] == old(iov[pos..])[1..]
  {
    iov[pos] := Vec(iov[pos].base + iov[pos].len, 0);
  }

  method Shorten(iov: array<Vec>, pos: nat, n: nat)
    requires pos < iov.Length && n <= iov[pos].len
    modifies iov
    ensures iov[..] == old(iov[..])[pos := Vec(old(iov[pos]).base + n, old(iov[pos]).len - n)]
    ensures iov[pos..] == [Vec(old(iov[pos]).base + n, old(iov[pos]).len - n)] + old(iov[pos..])[1..]
  {
    iov[pos] := Vec(iov[pos].base + n, iov[pos].len - n);
  }

  /** How far a call has come: the cells moved so far, and then the cells of
      the vectors that are left, are the cells of the original vectors. */
  ghost predicate Conserved(cells: seq<nat>, moved: seq<nat>, rest: seq<nat>) {
    cells == moved + rest
  }

  /** The array of vectors stands where the rounds up to `k` have brought it,
      and `moved` are the cells that the kernel was given or has filled. */
  ghost predicate Reached(vs: seq<Vec>, now: seq<Vec>, pos: nat, moved: seq<nat>, script: seq<Round>, k0: nat, k: nat, reading: bool) {
    && k0 <= k <= |script|
    && Worn(vs, now, 0, pos) && now[pos..] == After(vs, script, k0, k, reading)
    && moved == CellsOf(vs)[..Taken(|CellsOf(vs)|, script, k0, k)]
    && (forall j :: k0 <= j < k ==> EndAt(vs, script, k0, j, reading) == Pending)
  }

  lemma ReachedStart(vs: seq<Vec>, script: seq<Round>, k0: nat, reading: bool)
    requires k0 <= |script|
    ensures Reached(vs, vs, 0, [], script, k0, k0, reading)
    ensures EndAt(vs, script, k0, k0, reading) == if vs == [] then Complete else Pending
  {
    assert vs[0..] == vs;
  }

  lemma ReachedConserves(vs: seq<Vec>, now: seq<Vec>, pos: nat, moved: seq<nat>, script: seq<Round>, k0: nat, k: nat, reading: bool)
    requires Reached(vs, now, pos, moved, script, k0, k, reading)
    ensures pos <= |now| && Conserved(CellsOf(vs), moved, CellsOf(now[pos..])) && |moved| == Taken(|CellsOf(vs)|, script, k0, k)
    ensures k <= |script| && (k == |script| || EndAt(vs, script, k0, k, reading) != Pending ==> Stops(vs, script, k0, k, reading))
  {
    AfterCells(vs, script, k0, k, reading);
  }

  /** A round that moves nothing. */
  lemma ReachedStill(vs: seq<Vec>, now: seq<Vec>, pos: nat, moved: seq<nat>, script: seq<Round>, k0: nat, k: nat, reading: bool)
    requires Reached(vs, now, pos, moved, script, k0, k, reading) && EndAt(vs, script, k0, k, reading) == Pending
    requires k < |script| && (script[k].io.Moved? ==> reading && NoMore(now[pos..], script[k]))
    ensures Reached(vs, now, pos, moved, script, k0, k + 1, reading)
    ensures EndAt(vs, script, k0, k + 1, reading) ==
      if script[k].io.Moved? then Complete else if Fatal(script[k]) then Failed else Pending
  {
    AfterCells(vs, script, k0, k, reading);
  }

  /** A round that moves m cells, from `now` to `now'`. */
  lemma ReachedNext(vs: seq<Vec>, now: seq<Vec>, pos: nat, moved: seq<nat>, now': seq<Vec>, pos': nat, script: seq<Round>, k0: nat, k: nat, reading: bool)
    requires Reached(vs, now, pos, moved, script, k0, k, reading) && EndAt(vs, script, k0, k, reading) == Pending
    requires k < |script| && script[k].io.Moved? && !(reading && NoMore(now[pos..], script[k]))
    requires Worn(now, now', pos, pos') && now'[pos'..] == Advanced(now[pos..], AtMost(script[k].io.n, |CellsOf(now[pos..])|))
    ensures Reached(vs, now', pos', moved + CellsOf(now[pos..])[..AtMost(script[k].io.n, |CellsOf(now[pos..])|)], script, k0, k + 1, reading)
    ensures EndAt(vs, script, k0, k + 1, reading) ==
      if pos' == |vs| then Complete else if Fatal(script[k]) then Failed else Pending
  {
    AfterCells(vs, script, k0, k, reading);
    WornTwice(vs, now, now', pos, pos');
    TakeMore(CellsOf(vs), Taken(|CellsOf(vs)|, script, k0, k), AtMost(script[k].io.n, |CellsOf(now[pos..])|));
  }

  lemma TakeMore(cells: seq<nat>, t: nat, m: nat)
    requires t + m <= |cells|
    ensures cells[..t] + cells[t..][..m] == cells[..t + m]
  {
  }

  /** One call of the kernel that moves cells. */
  method Move(iov: array<Vec>, pos0: nat, n: nat, ghost moved0: seq<nat>) returns (pos: nat, ghost moved: seq<nat>)
    requires pos0 < iov.Length
    modifies iov
    ensures Worn(old(iov[..]), iov[..], pos0, pos)
    ensures iov[pos..] == Advanced(old(iov[pos0..]), AtMost(n, |old(Rest(iov, pos0))|))
    ensures moved == moved0 + old(Rest(iov, pos0))[..AtMost(n, |old(Rest(iov, pos0))|)]
  {
    var offered := Total(iov, pos0);
    moved := moved0 + Rest(iov, pos0)[..AtMost(n, offered)];
    pos := Advance(iov, pos0, AtMost(n, offered));
  }

  /** `st_writev_resid`: it stops at the first round that completes the vectors
      or fails, and returns which; what is left in the array is what those
      rounds have left. */
  method WritevResid(iov: array<Vec>, script: seq<Round>, k0: nat)
    returns (out: Outcome, pos: nat, k: nat, ghost moved: seq<nat>)
    requires k0 <= |script|
    modifies iov
    ensures Stops(old(iov[..]), script, k0, k, false)
    ensures out == ResultOf(EndAt(old(iov[..]), script, k0, k, false), 0)
    ensures Reached(old(iov[..]), iov[..], pos, moved, script, k0, k, false)
    ensures Conserved(old(CellsOf(iov[..])), moved, Rest(iov, pos))
  {
    hide Reached, EndAt, Stops, CellsOf, Taken, Conserved;
    pos, k, moved := 0, k0, [];
    ghost var vs := iov[..];
    ReachedStart(vs, script, k0, false);
    while pos < iov.Length
      invariant Reached(vs, iov[..], pos, moved, script, k0, k, false)
      invariant k <= |script| && EndAt(vs, script, k0, k, false) == if pos == iov.Length then Complete else Pending
      decreases |script| - k
    {
      if k == |script| {
        ReachedConserves(vs, iov[..], pos, moved, script, k0, k, false);
        return GoesOn, pos, k, moved;
      }
      var failed;
      pos, moved, failed := WriteRound(iov, pos, script, k, vs, k0, moved);
      k := k + 1;
      if failed {
        ReachedConserves(vs, iov[..], pos, moved, script, k0, k, false);
        return Returned(-1), pos, k, moved;
      }
    }
    ReachedConserves(vs, iov[..], pos, moved, script, k0, k, false);
    out := Returned(0);
  }

  /** One round of the loop. */
  method WriteRound(iov: array<Vec>, pos0: nat, script: seq<Round>, k: nat, ghost vs: seq<Vec>, ghost k0: nat, ghost moved0: seq<nat>)
    returns (pos: nat, ghost moved: seq<nat>, failed: bool)
    requires pos0 < iov.Length && k < |script| && Reached(vs, iov[..], pos0, moved0, script, k0, k, false)
    requires EndAt(vs, script, k0, k, false) == Pending
    modifies iov
    ensures Reached(vs, iov[..], pos, moved, script, k0, k + 1, false)
    ensures EndAt(vs, script, k0, k + 1, false) == if pos == iov.Length then Complete else if failed then Failed else Pending
    ensures pos == iov.Length ==> !failed
  {
    pos, moved, failed := pos0, moved0, false;
    ghost var was := iov[..];
    match script[k].io {
    case Interrupted =>
      ReachedStill(vs, was, pos, moved, script, k0, k, false);
      return;
    case Broken =>
      ReachedStill(vs, was, pos, moved, script, k0, k, false);
      failed := true;
      return;
    case NotReady =>
      ReachedStill(vs, was, pos, moved, script, k0, k, false);
    case Moved(n) =>
      pos, moved := Move(iov, pos, n, moved);
      ReachedNext(vs, was, pos0, moved0, iov[..], pos, script, k0, k, false);
      if pos == iov.Length {
        return;
      }
    }
    failed := !script[k].waitOk;
  }

  /** `st_readv_resid`: it also completes at the end of the input, when the
      kernel moves nothing. */
  method ReadvResid(iov: array<Vec>, script: seq<Round>, k0: nat)
    returns (out: Outcome, pos: nat, k: nat, ghost moved: seq<nat>)
    requires k0 <= |script|
    modifies iov
    ensures Stops(old(iov[..]), script, k0, k, true)
    ensures out == ResultOf(EndAt(old(iov[..]), script, k0, k, true), 0)
    ensures Reached(old(iov[..]), iov[..], pos, moved, script, k0, k, true)
    ensures Conserved(old(CellsOf(iov[..])), moved, Rest(iov, pos))
  {
    hide Reached, EndAt, Stops, CellsOf, Taken, Conserved;
    pos, k, moved := 0, k0, [];
    ghost var vs := iov[..];
    ReachedStart(vs, script, k0, true);
    var over := false;
    while !over && pos < iov.Length
      invariant Reached(vs, iov[..], pos, moved, script, k0, k, true)
      invariant k <= |script| && EndAt(vs, script, k0, k, true) == if over || pos == iov.Length then Complete else Pending
      decreases |script| - k
    {
      if k == |script| {
        ReachedConserves(vs, iov[..], pos, moved, script, k0, k, true);
        return GoesOn, pos, k, moved;
      }
      var failed;
      pos, moved, failed, over := ReadRound(iov, pos, script, k, vs, k0, moved);
      k := k + 1;
      if failed {
        ReachedConserves(vs, iov[..], pos, moved, script, k0, k, true);
        return Returned(-1), pos, k, moved;
      }
    }
    ReachedConserves(vs, iov[..], pos, moved, script, k0, k, true);
    out := Returned(0);
  }

  /** One round of the loop. */
  method ReadRound(iov: array<Vec>, pos0: nat, script: seq<Round>, k: nat, ghost vs: seq<Vec>, ghost k0: nat, ghost moved0: seq<nat>)
    returns (pos: nat, ghost moved: seq<nat>, failed: bool, over: bool)
    requires pos0 < iov.Length && k < |script| && Reached(vs, iov[..], pos0, moved0, script, k0, k, true)
    requires EndAt(vs, script, k0, k, true) == Pending
    modifies iov
    ensures Reached(vs, iov[..], pos, moved, script, k0, k + 1, true)
    ensures EndAt(vs, script, k0, k + 1, true) == if over || pos == iov.Length then Complete else if failed then Failed else Pending
    ensures over || pos == iov.Length ==> !failed
  {
    pos, moved, failed, over := pos0, moved0, false, false;
    ghost var was := iov[..];
    match script[k].io {
    case Interrupted =>
      ReachedStill(vs, was, pos, moved, script, k0, k, true);
      return;
    case Broken =>
      ReachedStill(vs, was, pos, moved, script, k0, k, true);
      failed := true;
      return;
    case NotReady =>
      ReachedStill(vs, was, pos, moved, script, k0, k, true);
    case Moved(n) =>
      var offered := Total(iov, pos);
      if AtMost(n, offered) == 0 {
        ReachedStill(vs, was, pos, moved, script, k0, k, true);
        over := true;
        return;
      }
      pos, moved := Move(iov, pos, n, moved);
      ReachedNext(vs, was, pos0, moved0, iov[..], pos, script, k0, k, true);
      if pos == iov.Length {
        return;
      }
    }
    failed := !script[k].waitOk;
  }

  /** The number of cells that a call is offered. */
  method Total(iov: array<Vec>, pos: nat) returns (n: nat)
    requires pos <= iov.Length
    ensures n == |Rest(iov, pos)|
  {
    n := 0;
    var j := iov.Length;
    assert iov[j..] == [];
    while j > pos
      invariant pos <= j <= iov.Length && n == |Rest(iov, j)|
    {
      j := j - 1;
      RestStep(iov, j);
      n := n + iov[j].len;
    }
  }

  // ---------------------------------------------------------- one buffer

  /** What is left of a single vector is a single vector, or nothing. */
  lemma {:induction false} OneAfter(v: Vec, script: seq<Round>, k0: nat, k: nat)
    requires k <= |script| && v.len > 0
    ensures var t := Taken(v.len, script, k0, k);
      After([v], script, k0, k, false) == if t == v.len then [] else [Vec(v.base + t, v.len - t)]
    decreases k
  {
    if k <= k0 {
    } else {
      OneAfter(v, script, k0, k - 1);
      var t := Taken(v.len, script, k0, k - 1);
      CellsOne(Vec(v.base + t, v.len - t));
    }
  }

  /** `st_write`: the result is the whole length if the rounds write every byte
      before one of them fails, and -1 otherwise. */
  method Write(base: nat, nbyte: nat, script: seq<Round>, k0: nat)
    returns (out: Outcome, k: nat, ghost moved: seq<nat>)
    requires k0 <= |script|
    ensures Stops([Vec(base, nbyte)], script, k0, k, false)
    ensures out == ResultOf(EndAt([Vec(base, nbyte)], script, k0, k, false), nbyte)
    ensures moved == Cells(Vec(base, nbyte))[..Taken(nbyte, script, k0, k)]
  {
    var iov := new Vec[1](_ => Vec(base, nbyte));
    CellsOne(Vec(base, nbyte));
    assert iov[..] == [Vec(base, nbyte)];
    var pos;
    out, pos, k, moved := WritevResid(iov, script, k0);
    OneLeft(iov, Vec(base, nbyte), pos, moved);
    if out.Returned? {
      var resid := iov[0].len;
      out := if out.rv == 0 then Returned(nbyte - resid) else Returned(-1);
    }
  }

  /** One buffer: what its vector still describes is what has not been moved. */
  lemma OneLeft(iov: array<Vec>, v: Vec, pos: nat, moved: seq<nat>)
    requires iov.Length == 1 && Worn([v], iov[..], 0, pos) && Conserved(Cells(v), moved, Rest(iov, pos))
    ensures |Rest(iov, pos)| == iov[0].len && |moved| + iov[0].len == v.len
    ensures iov[pos..] == [] ==> iov[0].len == 0
  {
    CellsOne(iov[0]);
    assert iov[0..] == [iov[0]] && iov[1..] == [] && iov[..] == [iov[0]];
  }

  /** `st_read_fully`: the result is the number of bytes read, which is less
      than was asked for only at the end of the input, or -1 if a round fails
      before. */
  method ReadFully(base: nat, nbyte: nat, script: seq<Round>)
    returns (out: Outcome, k: nat, ghost moved: seq<nat>)
    ensures Stops([Vec(base, nbyte)], script, 0, k, true)
    ensures out == ResultOf(EndAt([Vec(base, nbyte)], script, 0, k, true), |moved|)
    ensures moved == Cells(Vec(base, nbyte))[..Taken(nbyte, script, 0, k)]
    ensures out.Returned? && 0 <= out.rv < nbyte ==> k > 0 && script[k - 1].io == Moved(0)
  {
    var iov := new Vec[1](_ => Vec(base, nbyte));
    CellsOne(Vec(base, nbyte));
    assert iov[..] == [Vec(base, nbyte)];
    var pos;
    out, pos, k, moved := ReadvResid(iov, script, 0);
    OneLeft(iov, Vec(base, nbyte), pos, moved);
    if out.Returned? {
      if |moved| < nbyte && out.rv == 0 {
        ShortRead(Vec(base, nbyte), script, k);
      }
      var resid := iov[0].len;
      out := if out.rv == 0 then Returned(nbyte - resid) else Returned(-1);
    }
  }

  /** A read that is complete but short has met the end of the input. */
  lemma ShortRead(v: Vec, script: seq<Round>, k: nat)
    requires k <= |script| && Taken(v.len, script, 0, k) < v.len && EndAt([v], script, 0, k, true) == Complete
    ensures k > 0 && script[k - 1].io == Moved(0)
  {
    CellsOne(v);
    AfterCells([v], script, 0, k, true);
    if k > 0 {
      AfterCells([v], script, 0, k - 1, true);
    }
  }

  // ------------------------------------------------------ vectored writing

  const LOCAL_MAXIOV := 16

  /** Where the n-th cell of the vectors is: the number of a vector, and an
      offset inside it. */
  method Find(iov: array<Vec>, n0: nat) returns (index: nat, n: nat)
    requires n0 < |CellsOf(iov[..])|
    ensures index < iov.Length && n < iov[index].len
    ensures CellsOf(iov[..index]) + Cells(iov[index])[..n] == CellsOf(iov[..])[..n0]
    ensures |CellsOf(iov[..index])| <= n0
  {
    index, n := 0, n0;
    assert iov[..0] == [] && iov[0..] == iov[..];
    while n >= iov[index].len
      invariant index < iov.Length && 0 <= n
      invariant |CellsOf(iov[..index])| + n == n0
      decreases iov.Length - index
    {
      CellsUpTo(iov, index);
      n := n - iov[index].len;
      index := index + 1;
      assert iov[..iov.Length] == iov[..];
    }
    CellsSplit(iov, index);
  }

  lemma CellsUpTo(iov: array<Vec>, index: nat)
    requires index < iov.Length
    ensures CellsOf(iov[..index + 1]) == CellsOf(iov[..index]) + Cells(iov[index])
  {
    assert iov[..index + 1] == iov[..index] + [iov[index]];
    CellsConcat(iov[..index], [iov[index]]);
    CellsOne(iov[index]);
  }

  lemma CellsSplit(iov: array<Vec>, index: nat)
    requires index < iov.Length
    ensures CellsOf(iov[..]) == CellsOf(iov[..index]) + (Cells(iov[index]) + CellsOf(iov[index + 1..]))
  {
    assert iov[..] == iov[..index] + ([iov[index]] + iov[index + 1..]);
    CellsConcat(iov[..index], [iov[index]] + iov[index + 1..]);
    CellsCons(iov[index], iov[index + 1..]);
  }

  /** Fills the temporary array with what is left: a part of vector `index`, and
      all vectors after it. */
  method Refill(iov: array<Vec>, tmp: array<Vec>, index: nat, n: nat) returns (cnt: nat)
    requires iov != tmp && index < iov.Length && n < iov[index].len
    requires iov.Length - index <= tmp.Length
    modifies tmp
    ensures cnt == iov.Length - index
    ensures tmp[..cnt] == [Vec(iov[index].base + n, iov[index].len - n)] + iov[index + 1..]
  {
    tmp[0] := Vec(iov[index].base + n, iov[index].len - n);
    cnt := 1;
    var i := index + 1;
    while i < iov.Length
      invariant index < i <= iov.Length && cnt == i - index
      invariant tmp[..cnt] == [Vec(iov[index].base + n, iov[index].len - n)] + iov[index + 1..i]
    {
      tmp[cnt] := iov[i];
      cnt := cnt + 1;
      i := i + 1;
      assert iov[index + 1..i] == iov[index + 1..i - 1] + [iov[i - 1]];
    }
  }

  /** The vectors still to be written: the caller's own, which are not touched,
      or the first `cnt` of a copy that is long enough for all that follow. */
  ghost predicate Left(iov: array<Vec>, tmp: array<Vec>, cnt: nat, nleft: nat, moved: seq<nat>)
    reads iov, tmp
  {
    && cnt <= tmp.Length && |moved| + nleft == |CellsOf(iov[..])|
    && Conserved(CellsOf(iov[..]), moved, CellsOf(tmp[..cnt]))
    && (tmp == iov ==> cnt == iov.Length)
  }

  /** Every refill from further on fits where this one has fitted. */
  ghost predicate Fits(iov: array<Vec>, tmp: array<Vec>, first: nat, moved: seq<nat>)
    reads iov
  {
    tmp != iov ==> first <= iov.Length && iov.Length - first <= tmp.Length && |CellsOf(iov[..first])| <= |moved|
  }

  lemma {:induction false} CellsMonotone(vs: seq<Vec>, i: nat, j: nat)
    requires i <= j <= |vs|
    ensures |CellsOf(vs[..i])| <= |CellsOf(vs[..j])|
  {
    assert vs[..j] == vs[..i] + vs[i..j];
    CellsConcat(vs[..i], vs[i..j]);
  }

  /** A later position in the bytes is not in an earlier vector. */
  lemma LaterVector(iov: array<Vec>, first: nat, index: nat, n: nat)
    requires first <= iov.Length && index < iov.Length && n < iov[index].len
    requires |CellsOf(iov[..first])| <= |CellsOf(iov[..index])| + n
    ensures first <= index
  {
    if first > index {
      CellsUpTo(iov, index);
      assert iov[..][..index + 1] == iov[..index + 1] && iov[..][..first] == iov[..first];
      CellsMonotone(iov[..], index + 1, first);
    }
  }

  /** The total number of bytes to be sent. */
  method Sum(iov: array<Vec>) returns (nbyte: nat)
    ensures nbyte == |CellsOf(iov[..])|
  {
    nbyte := 0;
    var index := 0;
    while index < iov.Length
      invariant index <= iov.Length && nbyte == |CellsOf(iov[..index])|
    {
      CellsUpTo(iov, index);
      nbyte := nbyte + iov[index].len;
      index := index + 1;
    }
    assert iov[..index] == iov[..];
  }

  /** After a short count: finds the first unwritten byte, and copies what is
      left into the temporary array, which is made at the first time. */
  method Continue(iov: array<Vec>, tmp0: array<Vec>, nleft: nat, ghost moved: seq<nat>, ghost first0: nat)
    returns (tmp: array<Vec>, cnt: nat, ghost first: nat)
    requires nleft > 0 && |moved| + nleft == |CellsOf(iov[..])| && moved == CellsOf(iov[..])[..|moved|]
    requires Fits(iov, tmp0, first0, moved)
    modifies if tmp0 == iov then {} else {tmp0}
    ensures tmp != iov && (tmp == tmp0 || fresh(tmp))
    ensures Left(iov, tmp, cnt, nleft, moved) && Fits(iov, tmp, first, moved) && cnt > 0
  {
    tmp, first := tmp0, first0;
    var total := Sum(iov);
    var index, n := Find(iov, total - nleft);
    if tmp == iov {
      if iov.Length - index <= LOCAL_MAXIOV {
        tmp := new Vec[LOCAL_MAXIOV](_ => Vec(0, 0));
      } else {
        tmp := new Vec[iov.Length - index](_ => Vec(0, 0));
      }
      first := index;
    } else {
      LaterVector(iov, first, index, n);
    }
    cnt := Refill(iov, tmp, index, n);
    RestOf(iov, tmp, cnt, index, n);
  }

  /** The cells of the refilled array are those from the given place on. */
  lemma RestOf(iov: array<Vec>, tmp: array<Vec>, cnt: nat, index: nat, n: nat)
    requires index < iov.Length && n < iov[index].len && cnt <= tmp.Length
    requires tmp[..cnt] == [Vec(iov[index].base + n, iov[index].len - n)] + iov[index + 1..]
    ensures CellsOf(iov[..]) == (CellsOf(iov[..index]) + Cells(iov[index])[..n]) + CellsOf(tmp[..cnt])
  {
    var here := iov[index];
    var later := iov[index + 1..];
    CellsSplit(iov, index);
    CellsCons(Vec(here.base + n, here.len - n), later);
    CellsRest(here, n);
    Middle(CellsOf(iov[..index]), Cells(here), n, CellsOf(later));
  }

  lemma Middle(a: seq<nat>, b: seq<nat>, n: nat, c: seq<nat>)
    requires n <= |b|
    ensures a + (b + c) == (a + b[..n]) + (b[n..] + c)
  {
  }

  /** Whether a call that has `total` bytes to send is over after k rounds. */
  function TotalEnd(total: nat, script: seq<Round>, k: nat): End
    requires k <= |script|
  {
    if Taken(total, script, 0, k) == total then Complete
    else if k > 0 && Fatal(script[k - 1]) then Failed
    else Pending
  }

  ghost predicate TotalStops(total: nat, script: seq<Round>, k: nat) {
    && k <= |script|
    && (forall j :: 0 <= j < k ==> TotalEnd(total, script, j) == Pending)
    && (TotalEnd(total, script, k) == Pending ==> k == |script|)
  }

  lemma {:induction false} TakenOn(total: nat, script: seq<Round>, k0: nat, k: nat)
    requires k0 <= k <= |script|
    ensures var t := Taken(total, script, 0, k0);
      Taken(total, script, 0, k) == t + Taken(total - t, script, k0, k)
    decreases k
  {
    if k <= k0 {
    } else {
      TakenOn(total, script, k0, k - 1);
    }
  }

  /** When a single vector is left, the rest is a call of `st_write`. */
  lemma OneToGo(v: Vec, total: nat, script: seq<Round>, k0: nat, k: nat)
    requires k0 <= |script| && v.len > 0 && v.len == total - Taken(total, script, 0, k0)
    requires forall j :: 0 <= j <= k0 ==> TotalEnd(total, script, j) == Pending
    requires Stops([v], script, k0, k, false)
    ensures TotalStops(total, script, k) && TotalEnd(total, script, k) == EndAt([v], script, k0, k, false)
    ensures Taken(total, script, 0, k) == Taken(total, script, 0, k0) + Taken(v.len, script, k0, k)
  {
    forall j | k0 <= j <= k
      ensures TotalEnd(total, script, j) == EndAt([v], script, k0, j, false)
    {
      TakenOn(total, script, k0, j);
      OneAfter(v, script, k0, j);
    }
    TakenOn(total, script, k0, k);
  }

  /** How far `st_writev` has come after k rounds. */
  ghost predicate Sending(iov: array<Vec>, tmp: array<Vec>, cnt: nat, nleft: nat, moved: seq<nat>, first: nat, script: seq<Round>, k: nat)
    reads iov, tmp
  {
    && Left(iov, tmp, cnt, nleft, moved) && Fits(iov, tmp, first, moved)
    && SentBy(CellsOf(iov[..]), nleft, moved, script, k)
  }

  ghost predicate SentBy(cells: seq<nat>, nleft: nat, moved: seq<nat>, script: seq<Round>, k: nat) {
    && k <= |script| && |moved| + nleft == |cells|
    && moved == cells[..Taken(|cells|, script, 0, k)]
    && (forall j :: 0 <= j < k ==> TotalEnd(|cells|, script, j) == Pending)
  }

  /** One more round, which takes m bytes, unless it was the last. */
  lemma SentMore(cells: seq<nat>, nleft: nat, moved: seq<nat>, script: seq<Round>, k: nat, rest: seq<nat>)
    requires SentBy(cells, nleft, moved, script, k) && nleft > 0 && k < |script| && TotalEnd(|cells|, script, k) == Pending
    requires Conserved(cells, moved, rest)
    ensures var m := if script[k].io.Moved? then AtMost(script[k].io.n, nleft) else 0;
      && SentBy(cells, nleft - m, moved + rest[..m], script, k + 1)
      && TotalEnd(|cells|, script, k + 1) == if m == nleft then Complete else if Fatal(script[k]) then Failed else Pending
  {
    var m := if script[k].io.Moved? then AtMost(script[k].io.n, nleft) else 0;
    assert rest == cells[|moved|..];
    TakeMore(cells, |moved|, m);
  }

  /** A single vector is left to `st_write`. */
  method SendAlone(iov: array<Vec>, v: Vec, nleft: nat, nbyte: nat, script: seq<Round>, k0: nat, ghost moved0: seq<nat>)
    returns (out: Outcome, k: nat, ghost moved: seq<nat>)
    requires nbyte == |CellsOf(iov[..])| && v.len == nleft > 0 && SentBy(CellsOf(iov[..]), nleft, moved0, script, k0)
    requires TotalEnd(nbyte, script, k0) == Pending && Conserved(CellsOf(iov[..]), moved0, Cells(v))
    ensures TotalStops(nbyte, script, k) && out == ResultOf(TotalEnd(nbyte, script, k), nbyte)
    ensures moved == CellsOf(iov[..])[..Taken(nbyte, script, 0, k)]
  {
    ghost var rest;
    out, k, rest := Write(v.base, nleft, script, k0);
    OneToGo(v, nbyte, script, k0, k);
    moved := moved0 + rest;
    assert Cells(v) == CellsOf(iov[..])[|moved0|..];
    TakeMore(CellsOf(iov[..]), |moved0|, |rest|);
    if out.Returned? {
      out := if out.rv != nleft then Returned(-1) else Returned(nbyte);
    }
  }

  /** One round of the loop. */
  method SendRound(iov: array<Vec>, tmp0: array<Vec>, cnt0: nat, nleft0: nat, script: seq<Round>, k: nat, ghost moved0: seq<nat>, ghost first0: nat)
    returns (tmp: array<Vec>, cnt: nat, nleft: nat, failed: bool, ghost moved: seq<nat>, ghost first: nat)
    requires Sending(iov, tmp0, cnt0, nleft0, moved0, first0, script, k)
    requires nleft0 > 0 && k < |script| && TotalEnd(|CellsOf(iov[..])|, script, k) == Pending
    modifies if tmp0 == iov then {} else {tmp0}
    ensures tmp == tmp0 || fresh(tmp)
    ensures SentBy(CellsOf(iov[..]), nleft, moved, script, k + 1)
    ensures nleft > 0 ==> Left(iov, tmp, cnt, nleft, moved) && Fits(iov, tmp, first, moved)
    ensures TotalEnd(|CellsOf(iov[..])|, script, k + 1) == if nleft == 0 then Complete else if failed then Failed else Pending
  {
    tmp, cnt, nleft, failed, moved, first := tmp0, cnt0, nleft0, false, moved0, first0;
    SentMore(CellsOf(iov[..]), nleft, moved, script, k, CellsOf(tmp[..cnt]));
    match script[k].io {
    case Interrupted =>
      return;
    case Broken =>
      failed := true;
      return;
    case NotReady =>
    case Moved(n) =>
      var m := AtMost(n, nleft);
      moved := moved + CellsOf(tmp[..cnt])[..m];
      nleft := nleft - m;
      if nleft == 0 {
        return;
      }
      tmp, cnt, first := Continue(iov, tmp, nleft, moved, first);
    }
    failed := !script[k].waitOk;
  }

  lemma AllToSend(iov: array<Vec>, nbyte: nat, script: seq<Round>)
    requires nbyte == |CellsOf(iov[..])|
    ensures Sending(iov, iov, iov.Length, nbyte, [], 0, script, 0)
    ensures TotalEnd(nbyte, script, 0) == if nbyte == 0 then Complete else Pending
  {
    assert iov[..iov.Length] == iov[..];
  }

  lemma SingleLeft(iov: array<Vec>, tmp: array<Vec>, nleft: nat, moved: seq<nat>)
    requires Left(iov, tmp, 1, nleft, moved)
    ensures tmp.Length > 0 && tmp[0].len == nleft && Conserved(CellsOf(iov[..]), moved, Cells(tmp[0]))
  {
    assert tmp[..1] == [tmp[0]];
    CellsOne(tmp[0]);
  }

  /** The call ends here. */
  lemma SentAll(cells: seq<nat>, nleft: nat, moved: seq<nat>, script: seq<Round>, k: nat)
    requires SentBy(cells, nleft, moved, script, k) && (k == |script| || TotalEnd(|cells|, script, k) != Pending)
    ensures TotalStops(|cells|, script, k) && moved == cells[..Taken(|cells|, script, 0, k)]
  {
  }

  /** `st_writev`: it stops at the first round that completes the call or fails,
      and returns the total or -1 accordingly; what it sends is what those
      rounds take, from the front of the bytes that the caller's vectors
      describe.  The vectors themselves are not changed, and the copies fit. */
  method Writev(iov: array<Vec>, script: seq<Round>) returns (out: Outcome, k: nat, ghost moved: seq<nat>)
    ensures TotalStops(|CellsOf(iov[..])|, script, k)
    ensures out == ResultOf(TotalEnd(|CellsOf(iov[..])|, script, k), |CellsOf(iov[..])|)
    ensures moved == CellsOf(iov[..])[..Taken(|CellsOf(iov[..])|, script, 0, k)]
  {
    hide CellsOf, Taken, TotalStops, TotalEnd, SentBy, Left, Fits, Conserved;
    ghost var vs := iov[..];
    var nbyte := Sum(iov);
    var nleft: nat, tmp, cnt: nat := nbyte, iov, iov.Length;
    k := 0;
    ghost var first := 0;
    moved := [];
    AllToSend(iov, nbyte, script);
    while nleft > 0
      invariant iov[..] == vs && (tmp == iov || fresh(tmp))
      invariant SentBy(CellsOf(vs), nleft, moved, script, k)
      invariant nleft > 0 ==> Left(iov, tmp, cnt, nleft, moved) && Fits(iov, tmp, first, moved)
      invariant k <= |script| && TotalEnd(nbyte, script, k) == if nleft == 0 then Complete else Pending
      decreases |script| - k
    {
      if k == |script| {
        SentAll(CellsOf(vs), nleft, moved, script, k);
        return GoesOn, k, moved;
      }
      if cnt == 1 {
        SingleLeft(iov, tmp, nleft, moved);
        out, k, moved := SendAlone(iov, tmp[0], nleft, nbyte, script, k, moved);
        return;
      }
      var failed;
      tmp, cnt, nleft, failed, moved, first := SendRound(iov, tmp, cnt, nleft, script, k, moved, first);
      k := k + 1;
      if nleft > 0 && failed {
        SentAll(CellsOf(vs), nleft, moved, script, k);
        return Returned(-1), k, moved;
      }
    }
    SentAll(CellsOf(vs), nleft, moved, script, k);
    out := Returned(nbyte);
  }
}
