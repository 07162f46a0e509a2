/** Requests on the I/O queue, as the select and poll event systems see them. */
module Requests {
  import opened Sequences
  import opened PollTypes

  datatype Request = Request(thread: nat, pds: seq<PollFd>)

  /** All entries of the queue, in order. */
  function Entries(q: seq<Request>): seq<PollFd> {
    if q == [] then [] else q[0].pds + Entries(q[1..])
  }

  lemma {:induction false} EntriesConcat(a: seq<Request>, b: seq<Request>)
    ensures Entries(a + b) == Entries(a) + Entries(b)
  {
    if a == [] {
      assert a + b == b;
    } else {
      assert (a + b)[1..] == a[1..] + b;
      EntriesConcat(a[1..], b);
    }
  }

  lemma EntriesOne(r: Request)
    ensures Entries([r]) == r.pds
  {
    assert [r][1..] == [];
  }

  predicate Ready(pds: seq<PollFd>) {
    exists i :: 0 <= i < |pds| && pds[i].revents != NO_BITS
  }

  lemma ReadyMore(pds: seq<PollFd>, pd: PollFd)
    ensures Ready(pds + [pd]) <==> Ready(pds) || pd.revents != NO_BITS
  {
    assert (pds + [pd])[|pds|] == pd;
    assert forall i :: 0 <= i < |pds| ==> (pds + [pd])[i] == pds[i];
  }

  /** The requests of q that are not ready, and those that are. */
  function Waiting(q: seq<Request>): seq<Request> {
    if q == [] then [] else (if Ready(q[0].pds) then [] else [q[0]]) + Waiting(q[1..])
  }

  function Woken(q: seq<Request>): seq<Request> {
    if q == [] then [] else (if Ready(q[0].pds) then [q[0]] else []) + Woken(q[1..])
  }

  lemma {:induction false} WokenOrWaiting(q: seq<Request>, r: Request)
    ensures r in Woken(q) <==> r in q && Ready(r.pds)
    ensures r in Waiting(q) <==> r in q && !Ready(r.pds)
  {
    if q == [] {
    } else {
      WokenOrWaiting(q[1..], r);
      HeadTail(q, 0);
    }
  }

  /** Adding an element, or not, to the left part or to the right. */
  lemma AddEither(a: seq<Request>, add: bool, x: Request, b: seq<Request>)
    ensures (if add then a + [x] else a) + b == a + ((if add then [x] else []) + b)
  {
  }

  /** One step of a walk over q that collects both. */
  lemma WalkStep(q: seq<Request>, i: nat, kept: seq<Request>, woken: seq<Request>)
    requires i < |q|
    ensures kept + Waiting(q[i..]) == (if Ready(q[i].pds) then kept else kept + [q[i]]) + Waiting(q[i + 1..])
    ensures woken + Woken(q[i..]) == (if Ready(q[i].pds) then woken + [q[i]] else woken) + Woken(q[i + 1..])
  {
    HeadTail(q, i);
  }
}

/** The select event system: counts, descriptor sets and the highest descriptor
    (event.c). */
module SelectSystem {
  import opened PollTypes
  import opened Requests

  datatype Counts = Counts(rd: int, wr: int, ex: int)

  /** What the kernel returned. */
  datatype Sets = Sets(r: set<int>, w: set<int>, e: set<int>)

  predicate Fits(pd: PollFd, size: nat) {
    Acceptable(pd) && pd.fd < size
  }

  predicate AllFit(pds: seq<PollFd>, size: nat) {
    forall i :: 0 <= i < |pds| ==> Fits(pds[i], size)
  }

  ghost predicate InRange(s: set<int>, size: nat) {
    forall f :: f in s ==> 0 <= f < size
  }

  predicate Below(pds: seq<PollFd>, max: int) {
    forall i :: 0 <= i < |pds| ==> pds[i].fd <= max
  }

  /** What an entry is told when these descriptors are ready. */
  function Told(pd: PollFd, s: Sets): PollFd {
    pd.(revents := Bits(pd.events.rd && pd.fd in s.r, pd.events.wr && pd.fd in s.w, pd.events.pri && pd.fd in s.e, false, false))
  }

  /** What an entry is told when these descriptors are bad: POLLNVAL, which is
      shown here as an error. */
  function Blamed(pd: PollFd, bad: set<int>): PollFd {
    pd.(revents := if pd.events != NO_BITS && pd.fd in bad then NO_BITS.(err := true) else NO_BITS)
  }

  function ToldAll(q: seq<Request>, s: Sets): seq<Request> {
    seq(|q|, i requires 0 <= i < |q| => q[i].(pds := seq(|q[i].pds|, j requires 0 <= j < |q[i].pds| => Told(q[i].pds[j], s))))
  }

  function BlamedAll(q: seq<Request>, bad: set<int>): seq<Request> {
    seq(|q|, i requires 0 <= i < |q| => q[i].(pds := seq(|q[i].pds|, j requires 0 <= j < |q[i].pds| => Blamed(q[i].pds[j], bad))))
  }

  class System {
    const cnt: array<Counts>
    var readSet: set<int>
    var writeSet: set<int>
    var excepSet: set<int>
    var maxfd: int
    var ioq: seq<Request>
    /** The requests that have left the queue: their threads are runnable. */
    var woken: seq<Request>

    constructor (fdSetSize: nat)
      ensures Valid() && ioq == [] && woken == [] && fresh(cnt) && cnt.Length == fdSetSize
    {
      cnt := new Counts[fdSetSize](_ => Counts(0, 0, 0));
      readSet, writeSet, excepSet, maxfd, ioq, woken := {}, {}, {}, -1, [], [];
    }

    /** The counts of descriptor f are those of the entries l, and f is in a set
        exactly if its count there is positive. */
    ghost predicate AgreesAt(l: seq<PollFd>, f: int)
      requires 0 <= f < cnt.Length
      reads this`readSet, this`writeSet, this`excepSet, cnt
    {
      && cnt[f] == Counts(Asks(l, f, Rd), Asks(l, f, Wr), Asks(l, f, Ex))
      && (f in readSet <==> cnt[f].rd > 0)
      && (f in writeSet <==> cnt[f].wr > 0)
      && (f in excepSet <==> cnt[f].ex > 0)
    }

    ghost predicate Agrees(l: seq<PollFd>)
      reads this`readSet, this`writeSet, this`excepSet, cnt
    {
      && AllFit(l, cnt.Length)
      && InRange(readSet, cnt.Length) && InRange(writeSet, cnt.Length) && InRange(excepSet, cnt.Length)
      && (forall f :: 0 <= f < cnt.Length ==> AgreesAt(l, f))
    }

    /** Counts and sets agree with the I/O queue, and no waiting descriptor is
        above `maxfd`. */
    ghost predicate Valid()
      reads this, cnt
    {
      Agrees(Entries(ioq)) && Below(Entries(ioq), maxfd) && maxfd >= -1
    }

    /** Every descriptor that select is asked about is in range. */
    lemma MaxfdBounds(f: int)
      requires Valid() && (f in readSet || f in writeSet || f in excepSet)
      ensures f <= maxfd
    {
      var l := Entries(ioq);
      assert AgreesAt(l, f);
      SomebodyAsks(l, f, if f in readSet then Rd else if f in writeSet then Wr else Ex);
    }

    /** What select is asked about and finds ready wakes somebody. */
    lemma ReadyWakesSomebody(s: Sets, f: int, k: Kind)
      requires Valid() && f in SetFor(Sets(readSet, writeSet, excepSet), k) && f in SetFor(s, k)
      ensures exists i :: 0 <= i < |ioq| && SomethingReady(ioq[i].pds, s)
    {
      var l := Entries(ioq);
      assert AgreesAt(l, f);
      SomebodyAsks(l, f, k);
      var e :| 0 <= e < |l| && l[e].fd == f && Has(l[e].events, k);
      var i, j := EntryOf(ioq, e);
      assert Has(ioq[i].pds[j].events, k);
    }

    method Add1(pd: PollFd, ghost l: seq<PollFd>)
      requires Agrees(l) && Fits(pd, cnt.Length)
      modifies `readSet, `writeSet, `excepSet, `maxfd, cnt
      ensures Agrees(l + [pd]) && maxfd == if old(maxfd) < pd.fd then pd.fd else old(maxfd)
    {
      hide Asks;
      var f, d := pd.fd, cnt[pd.fd];
      if pd.events.rd {
        readSet := readSet + {f};
        d := d.(rd := d.rd + 1);
      }
      if pd.events.wr {
        writeSet := writeSet + {f};
        d := d.(wr := d.wr + 1);
      }
      if pd.events.pri {
        excepSet := excepSet + {f};
        d := d.(ex := d.ex + 1);
      }
      cnt[f] := d;
      if maxfd < f {
        maxfd := f;
      }
      OneMoreAt(l, pd, []);
      assert l + [] == l && l + [pd] + [] == l + [pd];
      forall g | 0 <= g < cnt.Length
        ensures AgreesAt(l + [pd], g)
      {
        assert old(AgreesAt(l, g));
      }
    }

    method PollsetAdd(pds: seq<PollFd>, ghost l: seq<PollFd>) returns (ok: bool)
      requires Agrees(l)
      modifies `readSet, `writeSet, `excepSet, `maxfd, cnt
      ensures ok <==> AllFit(pds, cnt.Length)
      ensures Agrees(if ok then l + pds else l) && maxfd >= old(maxfd) && (ok ==> Below(pds, maxfd))
    {
      for i := 0 to |pds|
        invariant AllFit(pds[..i], cnt.Length)
      {
        if !Fits(pds[i], cnt.Length) {
          return false;
        }
      }
      assert l + pds[..0] == l;
      for i := 0 to |pds|
        invariant AllFit(pds, cnt.Length) && Agrees(l + pds[..i])
        invariant maxfd >= old(maxfd) && Below(pds[..i], maxfd)
      {
        Add1(pds[i], l + pds[..i]);
        assert l + pds[..i] + [pds[i]] == l + pds[..i + 1];
      }
      assert pds[..|pds|] == pds;
      ok := true;
    }

    method Del1(pd: PollFd, ghost l: seq<PollFd>, ghost l': seq<PollFd>)
      requires Agrees(l') && OneMore(l, pd, l')
      modifies `readSet, `writeSet, `excepSet, cnt
      ensures Agrees(l)
    {
      forall i | 0 <= i < |l|
        ensures Fits(l[i], cnt.Length)
      {
        assert l[i] in l';
      }
      assert pd in l';
      var f, d := pd.fd, cnt[pd.fd];
      if pd.events.rd {
        d := d.(rd := d.rd - 1);
        if d.rd == 0 {
          readSet := readSet - {f};
        }
      }
      if pd.events.wr {
        d := d.(wr := d.wr - 1);
        if d.wr == 0 {
          writeSet := writeSet - {f};
        }
      }
      if pd.events.pri {
        d := d.(ex := d.ex - 1);
        if d.ex == 0 {
          excepSet := excepSet - {f};
        }
      }
      cnt[f] := d;
      forall g | 0 <= g < cnt.Length
        ensures AgreesAt(l, g)
      {
        assert old(AgreesAt(l', g));
      }
    }

    method PollsetDel(pds: seq<PollFd>, ghost a: seq<PollFd>, ghost b: seq<PollFd>)
      requires Agrees(a + pds + b)
      modifies `readSet, `writeSet, `excepSet, cnt
      ensures Agrees(a + b)
    {
      assert pds[0..] == pds;
      for i := 0 to |pds|
        invariant Agrees(a + pds[i..] + b)
      {
        assert a + pds[i..] + b == a + [pds[i]] + (pds[i + 1..] + b);
        OneMoreAt(a, pds[i], pds[i + 1..] + b);
        Del1(pds[i], a + (pds[i + 1..] + b), a + pds[i..] + b);
        assert a + (pds[i + 1..] + b) == a + pds[i + 1..] + b;
      }
      assert a + pds[|pds|..] + b == a + b;
    }

    /** The part of `st_poll` that queues a request. */
    method Enqueue(t: nat, pds: seq<PollFd>) returns (ok: bool)
      requires Valid()
      modifies `readSet, `writeSet, `excepSet, `maxfd, `ioq, cnt
      ensures Valid() && (ok <==> AllFit(pds, cnt.Length))
      ensures ioq == if ok then old(ioq) + [Request(t, pds)] else old(ioq)
    {
      ok := PollsetAdd(pds, Entries(ioq));
      assert Below(Entries(ioq), maxfd);
      if ok {
        EntriesConcat(ioq, [Request(t, pds)]);
        EntriesOne(Request(t, pds));
        BelowBoth(Entries(ioq), pds, maxfd);
        ioq := ioq + [Request(t, pds)];
      }
    }

    /** The part of `st_poll` that takes back a request that timed out. */
    method Withdraw(i: nat)
      requires Valid() && i < |ioq|
      modifies `readSet, `writeSet, `excepSet, `ioq, cnt
      ensures Valid() && ioq == old(ioq)[..i] + old(ioq)[i + 1..]
    {
      var r, a, b := ioq[i], ioq[..i], ioq[i + 1..];
      assert ioq == a + [r] + b;
      EntriesConcat(a + [r], b);
      EntriesConcat(a, [r]);
      EntriesOne(r);
      EntriesConcat(a, b);
      BelowPart(Entries(a), r.pds, Entries(b), maxfd);
      PollsetDel(r.pds, Entries(a), Entries(b));
      ioq := a + b;
    }

    /** `_st_select_dispatch` with a positive result: every entry is told what is
        ready of what it asked for; ready requests leave the queue, their
        threads are woken in order, and `maxfd` is computed again from the
        requests that stay. */
    method Dispatch(s: Sets)
      requires Valid()
      modifies this, cnt
      ensures Valid() && ioq == Waiting(ToldAll(old(ioq), s)) && woken == old(woken) + Woken(ToldAll(old(ioq), s))
    {
      ghost var told := ToldAll(ioq, s);
      var kept := StartWalk(told);
      var i := 0;
      while i < |ioq|
        invariant i <= |ioq| && ioq == old(ioq)
        invariant Walking(told, i, kept, old(woken))
      {
        var r := Tell(ioq[i], s);
        kept := Visit(r, told, i, kept, old(woken));
        i := i + 1;
      }
      EndWalk(told, kept, old(woken));
      ioq := kept;
    }

    /** `_st_select_find_bad_fd`: the same walk, telling only of bad descriptors. */
    method FindBadFd(bad: set<int>)
      requires Valid()
      modifies this, cnt
      ensures Valid() && ioq == Waiting(BlamedAll(old(ioq), bad)) && woken == old(woken) + Woken(BlamedAll(old(ioq), bad))
    {
      ghost var told := BlamedAll(ioq, bad);
      var kept := StartWalk(told);
      var i := 0;
      while i < |ioq|
        invariant i <= |ioq| && ioq == old(ioq)
        invariant Walking(told, i, kept, old(woken))
      {
        var r := Blame(ioq[i], bad);
        kept := Visit(r, told, i, kept, old(woken));
        i := i + 1;
      }
      EndWalk(told, kept, old(woken));
      ioq := kept;
    }

    /** The walk has come to request i of `told`; `kept` are those that stay. */
    ghost predicate Walking(told: seq<Request>, i: nat, kept: seq<Request>, woken0: seq<Request>)
      requires i <= |told|
      reads this, cnt
    {
      && Agrees(Entries(kept) + Entries(told[i..]))
      && Below(Entries(kept), maxfd) && maxfd >= -1
      && kept + Waiting(told[i..]) == Waiting(told)
      && woken + Woken(told[i..]) == woken0 + Woken(told)
    }

    method StartWalk(ghost told: seq<Request>) returns (kept: seq<Request>)
      requires Valid() && SameQuestions(ioq, told)
      modifies `maxfd
      ensures Walking(told, 0, kept, woken)
    {
      TellingKeeps(told);
      maxfd := -1;
      kept := [];
      assert told[0..] == told && Entries(kept) + Entries(told) == Entries(told);
    }

    /** The request leaves the queue, or raises `maxfd`. */
    method Visit(r: Request, ghost told: seq<Request>, ghost i: nat, kept: seq<Request>, ghost woken0: seq<Request>)
      returns (kept': seq<Request>)
      requires i < |told| && r == told[i] && Walking(told, i, kept, woken0)
      modifies `readSet, `writeSet, `excepSet, `maxfd, `woken, cnt
      ensures Walking(told, i + 1, kept', woken0)
    {
      ghost var a, b := Entries(kept), Entries(told[i + 1..]);
      WalkStep(told, i, kept, woken);
      assert told[i..] == [r] + told[i + 1..];
      assert a + Entries(told[i..]) == a + r.pds + b;
      var notify, pqMax := Summary(r.pds);
      if notify {
        PollsetDel(r.pds, a, b);
        woken := woken + [r];
        kept' := kept;
      } else {
        if maxfd < pqMax {
          maxfd := pqMax;
        }
        kept' := kept + [r];
        EntriesConcat(kept, [r]);
        EntriesOne(r);
        BelowBoth(a, r.pds, maxfd);
      }
    }

    lemma EndWalk(told: seq<Request>, kept: seq<Request>, woken0: seq<Request>)
      requires Walking(told, |told|, kept, woken0)
      ensures kept == Waiting(told) && woken == woken0 + Woken(told)
      ensures Agrees(Entries(kept)) && Below(Entries(kept), maxfd) && maxfd >= -1
    {
      assert told[|told|..] == [] && Entries(kept) + [] == Entries(kept);
      assert kept + [] == kept && woken + [] == woken;
    }

    /** Telling changes neither descriptors nor events. */
    lemma TellingKeeps(told: seq<Request>)
      requires Agrees(Entries(ioq)) && SameQuestions(ioq, told)
      ensures Agrees(Entries(told))
    {
      EntriesAlike(ioq, told);
      forall f, k
        ensures Asks(Entries(told), f, k) == Asks(Entries(ioq), f, k)
      {
        AsksAlike(Entries(ioq), Entries(told), f, k);
      }
      forall f | 0 <= f < cnt.Length
        ensures AgreesAt(Entries(told), f)
      {
        assert AgreesAt(Entries(ioq), f);
      }
    }
  }

  lemma BelowPart(a: seq<PollFd>, p: seq<PollFd>, b: seq<PollFd>, max: int)
    requires Below(a + p + b, max)
    ensures Below(a + b, max)
  {
    assert forall i :: 0 <= i < |a| ==> a[i] == (a + p + b)[i];
    assert forall i :: 0 <= i < |b| ==> b[i] == (a + p + b)[|a| + |p| + i];
  }

  lemma BelowBoth(a: seq<PollFd>, b: seq<PollFd>, max: int)
    requires Below(a, max) && Below(b, max)
    ensures Below(a + b, max)
  {
  }

  method Tell(r: Request, s: Sets) returns (told: Request)
    ensures told == r.(pds := seq(|r.pds|, j requires 0 <= j < |r.pds| => Told(r.pds[j], s)))
  {
    var pds := [];
    for i := 0 to |r.pds|
      invariant |pds| == i && forall j :: 0 <= j < i ==> pds[j] == Told(r.pds[j], s)
    {
      var osfd, events, revents := r.pds[i].fd, r.pds[i].events, NO_BITS;
      if events.rd && osfd in s.r {
        revents := revents.(rd := true);
      }
      if events.wr && osfd in s.w {
        revents := revents.(wr := true);
      }
      if events.pri && osfd in s.e {
        revents := revents.(pri := true);
      }
      pds := pds + [r.pds[i].(revents := revents)];
    }
    told := r.(pds := pds);
  }

  method Blame(r: Request, bad: set<int>) returns (told: Request)
    ensures told == r.(pds := seq(|r.pds|, j requires 0 <= j < |r.pds| => Blamed(r.pds[j], bad)))
  {
    var pds := [];
    for i := 0 to |r.pds|
      invariant |pds| == i && forall j :: 0 <= j < i ==> pds[j] == Blamed(r.pds[j], bad)
    {
      var revents := NO_BITS;
      if r.pds[i].events != NO_BITS && r.pds[i].fd in bad {
        revents := revents.(err := true);
      }
      pds := pds + [r.pds[i].(revents := revents)];
    }
    told := r.(pds := pds);
  }

  method Summary(pds: seq<PollFd>) returns (notify: bool, pqMax: int)
    ensures notify <==> Ready(pds)
    ensures Below(pds, pqMax) && pqMax >= -1
  {
    notify, pqMax := false, -1;
    for i := 0 to |pds|
      invariant (notify <==> Ready(pds[..i])) && Below(pds[..i], pqMax) && pqMax >= -1
    {
      assert pds[..i + 1] == pds[..i] + [pds[i]];
      ReadyMore(pds[..i], pds[i]);
      if pds[i].revents != NO_BITS {
        notify := true;
      }
      if pds[i].fd > pqMax {
        pqMax := pds[i].fd;
      }
    }
    assert pds[..|pds|] == pds;
  }

  lemma {:induction false} SomebodyAsks(l: seq<PollFd>, f: int, k: Kind)
    requires Asks(l, f, k) > 0
    ensures exists i :: 0 <= i < |l| && l[i].fd == f && Has(l[i].events, k)
  {
    if l[0].fd == f && Has(l[0].events, k) {
    } else {
      SomebodyAsks(l[1..], f, k);
      var i :| 0 <= i < |l[1..]| && l[1..][i].fd == f && Has(l[1..][i].events, k);
      assert l[i + 1].fd == f && Has(l[i + 1].events, k);
    }
  }

  // ------------------------------------------------- what requests are told

  /** The descriptors that are ready for events of kind k. */
  function SetFor(s: Sets, k: Kind): set<int> {
    match k
    case Rd => s.r
    case Wr => s.w
    case Ex => s.e
  }

  /** Something that one of the entries asks for is ready. */
  ghost predicate SomethingReady(pds: seq<PollFd>, s: Sets) {
    exists j, k {:trigger Has(pds[j].events, k)} :: 0 <= j < |pds| && Has(pds[j].events, k) && pds[j].fd in SetFor(s, k)
  }

  /** An entry is told of exactly those events that it asks for and that its
      descriptor is ready for, and keeps what it asks. */
  lemma ToldExactly(q: seq<Request>, s: Sets, i: nat, j: nat, k: Kind)
    requires i < |q| && j < |q[i].pds|
    ensures var a, b := q[i].pds[j], ToldAll(q, s)[i].pds[j];
      && (Has(b.revents, k) <==> Has(a.events, k) && a.fd in SetFor(s, k)) && !b.revents.err && !b.revents.hup
      && b.fd == a.fd && b.events == a.events && ToldAll(q, s)[i].thread == q[i].thread
  {
  }

  lemma ReadyExactly(q: seq<Request>, s: Sets, i: nat)
    requires i < |q|
    ensures Ready(ToldAll(q, s)[i].pds) <==> SomethingReady(q[i].pds, s)
  {
    var told := ToldAll(q, s)[i].pds;
    if Ready(told) {
      var j :| 0 <= j < |told| && told[j].revents != NO_BITS;
      var k := if told[j].revents.rd then Rd else if told[j].revents.wr then Wr else Ex;
      ToldExactly(q, s, i, j, Rd);
      ToldExactly(q, s, i, j, Wr);
      ToldExactly(q, s, i, j, Ex);
      assert Has(q[i].pds[j].events, k);
    }
    if SomethingReady(q[i].pds, s) {
      var j, k :| 0 <= j < |q[i].pds| && Has(q[i].pds[j].events, k) && q[i].pds[j].fd in SetFor(s, k);
      ToldExactly(q, s, i, j, k);
      assert told[j].revents != NO_BITS;
    }
  }

  /** A dispatch wakes exactly the requests for which something they ask for is
      ready; the others stay on the queue. */
  lemma WokenExactly(q: seq<Request>, s: Sets, i: nat)
    requires i < |q|
    ensures ToldAll(q, s)[i] in Woken(ToldAll(q, s)) <==> SomethingReady(q[i].pds, s)
    ensures ToldAll(q, s)[i] in Waiting(ToldAll(q, s)) <==> !SomethingReady(q[i].pds, s)
  {
    ReadyExactly(q, s, i);
    WokenOrWaiting(ToldAll(q, s), ToldAll(q, s)[i]);
  }

  /** Looking for bad descriptors tells an entry of an error exactly if its own
      descriptor is bad. */
  lemma BlamedExactly(q: seq<Request>, bad: set<int>, i: nat, j: nat)
    requires i < |q| && j < |q[i].pds| && Acceptable(q[i].pds[j])
    ensures var a, b := q[i].pds[j], BlamedAll(q, bad)[i].pds[j];
      && (b.revents.err <==> a.fd in bad) && (b.revents != NO_BITS <==> a.fd in bad)
      && b.fd == a.fd && b.events == a.events
  {
  }

  lemma {:induction false} EntryOf(q: seq<Request>, e: nat) returns (i: nat, j: nat)
    requires e < |Entries(q)|
    ensures i < |q| && j < |q[i].pds| && q[i].pds[j] == Entries(q)[e]
  {
    if e < |q[0].pds| {
      i, j := 0, e;
    } else {
      i, j := EntryOf(q[1..], e - |q[0].pds|);
      i := i + 1;
    }
  }

  ghost predicate AlikeEntries(a: seq<PollFd>, b: seq<PollFd>) {
    |a| == |b| && forall i :: 0 <= i < |a| ==> a[i].fd == b[i].fd && a[i].events == b[i].events
  }

  ghost predicate SameQuestions(a: seq<Request>, b: seq<Request>) {
    |a| == |b| && forall i :: 0 <= i < |a| ==> a[i].thread == b[i].thread && AlikeEntries(a[i].pds, b[i].pds)
  }

  lemma {:induction false} AsksAlike(a: seq<PollFd>, b: seq<PollFd>, f: int, k: Kind)
    requires AlikeEntries(a, b)
    ensures Asks(a, f, k) == Asks(b, f, k)
  {
    if a == [] {
    } else {
      assert forall i :: 0 <= i < |a[1..]| ==> a[1..][i] == a[i + 1] && b[1..][i] == b[i + 1];
      AsksAlike(a[1..], b[1..], f, k);
    }
  }

  lemma {:induction false} EntriesAlike(a: seq<Request>, b: seq<Request>)
    requires SameQuestions(a, b)
    ensures AlikeEntries(Entries(a), Entries(b))
  {
    if a == [] {
    } else {
      assert forall i :: 0 <= i < |a[1..]| ==> a[1..][i] == a[i + 1] && b[1..][i] == b[i + 1];
      EntriesAlike(a[1..], b[1..]);
    }
  }
}

/** The poll event system: all entries are gathered into one array, and the
    answers are handed out again slice by slice (event.c). */
module PollSystem {
  import opened Sequences
  import opened PollTypes
  import opened Requests

  const MIN_POLLFDS_SIZE := 64

  function With(pds: seq<PollFd>, revs: seq<Bits>): (r: seq<PollFd>)
    requires |revs| == |pds|
    ensures |r| == |pds|
  {
    seq(|pds|, j requires 0 <= j < |pds| => pds[j].(revents := revs[j]))
  }

  /** Every request with its own share of the answers. */
  function Answered(q: seq<Request>, revs: seq<Bits>): (r: seq<Request>)
    requires |revs| == |Entries(q)|
    ensures |r| == |q|
  {
    if q == [] then []
    else
      var n := |q[0].pds|;
      [q[0].(pds := With(q[0].pds, revs[..n]))] + Answered(q[1..], revs[n..])
  }

  /** The requests that nothing was answered for, untouched. */
  function Unanswered(q: seq<Request>, revs: seq<Bits>): seq<Request>
    requires |revs| == |Entries(q)|
  {
    if q == [] then []
    else
      var n := |q[0].pds|;
      (if Ready(With(q[0].pds, revs[..n])) then [] else [q[0]]) + Unanswered(q[1..], revs[n..])
  }

  /** The slices stay aligned: handing out the answers request by request is
      the same as answering the gathered entries. */
  lemma {:induction false} Aligned(q: seq<Request>, revs: seq<Bits>)
    requires |revs| == |Entries(q)|
    ensures Entries(Answered(q, revs)) == With(Entries(q), revs)
  {
    if q == [] {
    } else {
      var n := |q[0].pds|;
      Aligned(q[1..], revs[n..]);
      var first := q[0].(pds := With(q[0].pds, revs[..n]));
      HeadTail([first] + Answered(q[1..], revs[n..]), 0);
      assert ([first] + Answered(q[1..], revs[n..]))[1..] == Answered(q[1..], revs[n..]);
      WithConcat(q[0].pds, Entries(q[1..]), revs);
    }
  }

  lemma WithConcat(a: seq<PollFd>, b: seq<PollFd>, revs: seq<Bits>)
    requires |revs| == |a| + |b|
    ensures With(a + b, revs) == With(a, revs[..|a|]) + With(b, revs[|a|..])
  {
  }

  /** Where the entries of request i begin among all entries. */
  function Offset(q: seq<Request>, i: nat): nat
    requires i <= |q|
  {
    |Entries(q[..i])|
  }

  lemma {:induction false} SliceOf(q: seq<Request>, revs: seq<Bits>, i: nat)
    requires i < |q| && |revs| == |Entries(q)|
    ensures var off, n := Offset(q, i), |q[i].pds|;
      off + n <= |revs| && Answered(q, revs)[i] == q[i].(pds := With(q[i].pds, revs[off..off + n]))
  {
    var n0 := |q[0].pds|;
    if i == 0 {
      assert q[..0] == [];
    } else {
      SliceOf(q[1..], revs[n0..], i - 1);
      var off, n := Offset(q[1..], i - 1), |q[i].pds|;
      assert q[..i][1..] == q[1..][..i - 1];
      assert revs[n0..][off..off + n] == revs[n0 + off..n0 + off + n];
    }
  }

  lemma {:induction false} UnansweredAre(q: seq<Request>, revs: seq<Bits>, r: Request)
    requires |revs| == |Entries(q)|
    ensures r in Unanswered(q, revs) <==> exists i :: 0 <= i < |q| && q[i] == r && !Ready(Answered(q, revs)[i].pds)
  {
    if q == [] {
    } else {
      var n := |q[0].pds|;
      UnansweredAre(q[1..], revs[n..], r);
      forall i | 1 <= i < |q|
        ensures q[i] == q[1..][i - 1] && Answered(q, revs)[i] == Answered(q[1..], revs[n..])[i - 1]
      {
      }
    }
  }

  /** No thread waits in two requests. */
  ghost predicate OncePerThread(q: seq<Request>) {
    forall a, b :: 0 <= a < b < |q| ==> q[a].thread != q[b].thread
  }

  /** Request i has been told the answers to its own entries. */
  ghost predicate ToldItsOwn(r: Request, told: Request, revs: seq<Bits>, off: nat) {
    && told.thread == r.thread && |told.pds| == |r.pds| && off + |r.pds| <= |revs|
    && forall j {:trigger told.pds[j]} :: 0 <= j < |r.pds| ==> told.pds[j] == r.pds[j].(revents := revs[off + j])
  }

  lemma TellsItsOwn(q: seq<Request>, revs: seq<Bits>, i: nat)
    requires i < |q| && |revs| == |Entries(q)|
    ensures ToldItsOwn(q[i], Answered(q, revs)[i], revs, Offset(q, i))
  {
    SliceOf(q, revs, i);
    hide Answered, Offset, Entries;
  }

  /** There is an answer among these n. */
  ghost predicate SomeAnswer(revs: seq<Bits>, off: nat, n: nat) {
    exists j :: off <= j < off + n && j < |revs| && revs[j] != NO_BITS
  }

  lemma ReadyMeans(r: Request, told: Request, revs: seq<Bits>, off: nat)
    requires ToldItsOwn(r, told, revs, off)
    ensures Ready(told.pds) <==> SomeAnswer(revs, off, |r.pds|)
  {
    if Ready(told.pds) {
      var j :| 0 <= j < |told.pds| && told.pds[j].revents != NO_BITS;
      assert revs[off + j] != NO_BITS;
    }
    if SomeAnswer(revs, off, |r.pds|) {
      var j :| off <= j < off + |r.pds| && j < |revs| && revs[j] != NO_BITS;
      assert told.pds[j - off].revents == revs[j];
    }
  }

  /** A dispatch hands out each request with the answers to its own entries
      exactly if there are any; otherwise, and only then, it stays as it was. */
  lemma HandedOutExactly(q: seq<Request>, revs: seq<Bits>, i: nat)
    requires i < |q| && |revs| == |Entries(q)| && OncePerThread(q)
    ensures var told := Answered(q, revs)[i];
      && ToldItsOwn(q[i], told, revs, Offset(q, i))
      && (told in Woken(Answered(q, revs)) <==> SomeAnswer(revs, Offset(q, i), |q[i].pds|))
      && (q[i] in Unanswered(q, revs) <==> !SomeAnswer(revs, Offset(q, i), |q[i].pds|))
  {
    TellsItsOwn(q, revs, i);
    WokenOrWaiting(Answered(q, revs), Answered(q, revs)[i]);
    UnansweredAre(q, revs, q[i]);
    ReadyMeans(q[i], Answered(q, revs)[i], revs, Offset(q, i));
    hide Answered, Offset, Entries, Woken, Unanswered, Ready, SomeAnswer, ToldItsOwn;
  }

  /** One request further. */
  lemma NextSlice(q: seq<Request>, revs: seq<Bits>, i: nat, off: nat)
    requires i < |q| && off <= |revs| && |revs[off..]| == |Entries(q[i..])|
    ensures var n := |q[i].pds|;
      && off + n <= |revs| && |revs[off + n..]| == |Entries(q[i + 1..])|
      && var r := q[i].(pds := With(q[i].pds, revs[off..off + n]));
      && Answered(q[i..], revs[off..]) == [r] + Answered(q[i + 1..], revs[off + n..])
      && Unanswered(q[i..], revs[off..]) == (if Ready(r.pds) then [] else [q[i]]) + Unanswered(q[i + 1..], revs[off + n..])
  {
    var n := |q[i].pds|;
    HeadTail(q, i);
    assert revs[off..][n..] == revs[off + n..] && revs[off..][..n] == revs[off..off + n];
  }

  class System {
    var fdcnt: int
    var pollfds: array<PollFd>
    var ioq: seq<Request>
    var woken: seq<Request>

    constructor ()
      ensures Valid() && ioq == [] && woken == [] && fresh(pollfds)
    {
      pollfds := new PollFd[MIN_POLLFDS_SIZE](_ => PollFd(0, NO_BITS, NO_BITS));
      fdcnt, ioq, woken := 0, [], [];
    }

    /** The counter is the number of entries on the I/O queue. */
    ghost predicate Valid()
      reads this
    {
      fdcnt == |Entries(ioq)|
    }

    method PollsetAdd(pds: seq<PollFd>) returns (ok: bool)
      modifies `fdcnt
      ensures ok <==> forall i :: 0 <= i < |pds| ==> pds[i].fd >= 0 && pds[i].events != NO_BITS
      ensures fdcnt == old(fdcnt) + if ok then |pds| else 0
    {
      for i := 0 to |pds|
        invariant forall j :: 0 <= j < i ==> pds[j].fd >= 0 && pds[j].events != NO_BITS
      {
        if pds[i].fd < 0 || pds[i].events == NO_BITS {
          return false;
        }
      }
      fdcnt := fdcnt + |pds|;
      ok := true;
    }

    /** The part of `st_poll` that queues a request. */
    method Enqueue(t: nat, pds: seq<PollFd>) returns (ok: bool)
      requires Valid()
      modifies `fdcnt, `ioq
      ensures Valid() && ioq == if ok then old(ioq) + [Request(t, pds)] else old(ioq)
      ensures ok <==> forall i :: 0 <= i < |pds| ==> pds[i].fd >= 0 && pds[i].events != NO_BITS
    {
      ok := PollsetAdd(pds);
      if ok {
        EntriesConcat(ioq, [Request(t, pds)]);
        EntriesOne(Request(t, pds));
        ioq := ioq + [Request(t, pds)];
      }
    }

    /** The part of `st_poll` that takes back a request that timed out. */
    method Withdraw(i: nat)
      requires Valid() && i < |ioq|
      modifies `fdcnt, `ioq
      ensures Valid() && ioq == old(ioq)[..i] + old(ioq)[i + 1..]
    {
      var r, a, b := ioq[i], ioq[..i], ioq[i + 1..];
      assert ioq == a + [r] + b;
      EntriesConcat(a + [r], b);
      EntriesConcat(a, [r]);
      EntriesOne(r);
      EntriesConcat(a, b);
      fdcnt := fdcnt - |r.pds|;
      ioq := a + b;
    }

    /** Makes room for all entries. */
    method Reserve()
      requires Valid()
      modifies `pollfds
      ensures fdcnt <= pollfds.Length && (pollfds == old(pollfds) || fresh(pollfds))
    {
      if fdcnt > pollfds.Length {
        pollfds := new PollFd[fdcnt + 10](_ => PollFd(0, NO_BITS, NO_BITS));
      }
    }

    /** Copies the entries of the whole queue into the array. */
    method Gather()
      requires Valid() && fdcnt <= pollfds.Length
      modifies pollfds
      ensures pollfds[..fdcnt] == Entries(ioq)
    {
      var i, off := 0, 0;
      while i < |ioq|
        invariant i <= |ioq| && 0 <= off <= fdcnt && off + |Entries(ioq[i..])| == fdcnt
        invariant pollfds[..off] + Entries(ioq[i..]) == Entries(ioq)
      {
        HeadTail(ioq, i);
        ghost var done := pollfds[..off];
        Copy(ioq[i].pds, off);
        Regroup(done, ioq[i].pds, Entries(ioq[i + 1..]));
        off := off + |ioq[i].pds|;
        i := i + 1;
      }
      Ends(ioq);
    }

    method Copy(pds: seq<PollFd>, off: nat)
      requires off + |pds| <= pollfds.Length
      modifies pollfds
      ensures pollfds[..off + |pds|] == old(pollfds[..off]) + pds
    {
      for j := 0 to |pds|
        invariant forall k :: 0 <= k < off ==> pollfds[k] == old(pollfds[k])
        invariant forall k :: 0 <= k < j ==> pollfds[off + k] == pds[k]
      {
        pollfds[off + j] := pds[j];
      }
    }

    /** What poll(2) does: every entry of the array gets its answer. */
    method Answer(revs: seq<Bits>)
      requires |revs| == fdcnt <= pollfds.Length
      modifies pollfds
      ensures pollfds[..fdcnt] == With(old(pollfds[..fdcnt]), revs)
    {
      for j := 0 to fdcnt
        invariant forall k :: 0 <= k < j ==> pollfds[k] == old(pollfds[k]).(revents := revs[k])
        invariant forall k :: j <= k < fdcnt ==> pollfds[k] == old(pollfds[k])
      {
        pollfds[j] := pollfds[j].(revents := revs[j]);
      }
    }

    /** Whether anything was answered for the slice. */
    method AnyReady(off: nat, n: nat) returns (notify: bool)
      requires off + n <= pollfds.Length
      ensures notify <==> Ready(pollfds[off..off + n])
    {
      var p := off;
      while p < off + n && pollfds[p].revents == NO_BITS
        invariant off <= p <= off + n && forall j :: off <= j < p ==> pollfds[j].revents == NO_BITS
      {
        p := p + 1;
      }
      notify := p < off + n;
      ghost var slice := pollfds[off..off + n];
      assert forall j :: 0 <= j < n ==> slice[j] == pollfds[off + j];
      assert notify ==> slice[p - off].revents != NO_BITS;
    }

    /** `_st_poll_dispatch`, when poll reports readiness: each request that
        something was answered for leaves the queue with exactly its own
        answers; the others are not touched. */
    method Dispatch(revs: seq<Bits>)
      requires Valid() && |revs| == fdcnt
      modifies this, pollfds
      ensures Valid()
      ensures |revs| == |Entries(old(ioq))|
      ensures ioq == Unanswered(old(ioq), revs)
      ensures woken == old(woken) + Woken(Answered(old(ioq), revs))
    {
      Reserve();
      Gather();
      Answer(revs);
      Aligned(ioq, revs);
      HandOut(revs);
    }

    /** The walk has come to request i, and to `off` in the array. */
    ghost predicate Walking(q: seq<Request>, revs: seq<Bits>, i: nat, off: nat, kept: seq<Request>, woken0: seq<Request>)
      reads this, pollfds
    {
      && i <= |q| && off <= |revs| <= pollfds.Length && |revs[off..]| == |Entries(q[i..])| && |revs| == |Entries(q)|
      && fdcnt == |Entries(kept)| + |Entries(q[i..])|
      && pollfds[off..|revs|] == Entries(Answered(q[i..], revs[off..]))
      && kept + Unanswered(q[i..], revs[off..]) == Unanswered(q, revs)
      && woken + Woken(Answered(q[i..], revs[off..])) == woken0 + Woken(Answered(q, revs))
    }

    lemma StartWalking(revs: seq<Bits>)
      requires Valid() && |revs| == fdcnt <= pollfds.Length && pollfds[..fdcnt] == Entries(Answered(ioq, revs))
      ensures Walking(ioq, revs, 0, 0, [], woken)
    {
      Ends(ioq);
      Ends(revs);
      Regroup([], [], Unanswered(ioq, revs));
    }

    lemma EndWalking(q: seq<Request>, revs: seq<Bits>, off: nat, kept: seq<Request>, woken0: seq<Request>)
      requires Walking(q, revs, |q|, off, kept, woken0)
      ensures kept == Unanswered(q, revs) && woken == woken0 + Woken(Answered(q, revs)) && fdcnt == |Entries(kept)|
    {
      Ends(q);
      Regroup(kept, [], []);
      Regroup(woken, [], []);
    }

    /** The walk over the queue with the answered array. */
    method HandOut(ghost revs: seq<Bits>)
      requires Valid() && |revs| == fdcnt <= pollfds.Length && pollfds[..fdcnt] == Entries(Answered(ioq, revs))
      modifies `fdcnt, `ioq, `woken
      ensures Valid() && ioq == Unanswered(old(ioq), revs)
      ensures woken == old(woken) + Woken(Answered(old(ioq), revs))
    {
      StartWalking(revs);
      var queue, kept, i, off := ioq, [], 0, 0;
      while i < |queue|
        invariant Walking(queue, revs, i, off, kept, old(woken))
      {
        kept, off := HandOutOne(queue, i, kept, off, revs, old(woken));
        i := i + 1;
      }
      EndWalking(queue, revs, off, kept, old(woken));
      ioq := kept;
    }

    /** One request of the walk: it leaves the queue with its slice, or stays. */
    method HandOutOne(q: seq<Request>, i: nat, kept: seq<Request>, off: nat, ghost revs: seq<Bits>, ghost woken0: seq<Request>)
      returns (kept': seq<Request>, off': nat)
      requires i < |q| && Walking(q, revs, i, off, kept, woken0)
      modifies `fdcnt, `woken
      ensures Walking(q, revs, i + 1, off', kept', woken0)
    {
      var r, n := q[i], |q[i].pds|;
      NextSlice(q, revs, i, off);
      ghost var told := r.(pds := With(r.pds, revs[off..off + n]));
      ghost var later := Answered(q[i + 1..], revs[off + n..]);
      assert pollfds[off..|revs|] == told.pds + Entries(later) by { HeadTail([told] + later, 0); }
      assert pollfds[off..off + n] == told.pds by { assert pollfds[off..off + n] == pollfds[off..|revs|][..n]; }
      assert pollfds[off + n..|revs|] == Entries(later) by { assert pollfds[off + n..|revs|] == pollfds[off..|revs|][n..]; }
      AddEither(kept, !Ready(told.pds), r, Unanswered(q[i + 1..], revs[off + n..]));
      AddEither(woken, Ready(told.pds), told, Woken(later));
      WokenCons(told, later);
      HeadTail(q, i);
      var notify := AnyReady(off, n);
      kept', off' := kept, off + n;
      if notify {
        woken := woken + [r.(pds := pollfds[off..off + n])];
        fdcnt := fdcnt - n;
      } else {
        EntriesConcat(kept, [r]);
        EntriesOne(r);
        kept' := kept + [r];
      }
    }
  }

  lemma WokenCons(r: Request, q: seq<Request>)
    ensures Woken([r] + q) == (if Ready(r.pds) then [r] else []) + Woken(q)
  {
    assert ([r] + q)[1..] == q;
  }
}
