/** The I/O queue, the descriptor table and the kernel agree at every context
    switch. */
module SchedIo {
  import opened ThreadTypes
  import opened Wrappers
  import opened Sequences
  import opened PollTypes
  import opened Sched
  import opened SchedInv
  import opened SchedKeeps
  import E = Epoll

  /** All entries of the requests on the I/O queue. */
  function Ledger(q: seq<Tid>, pq: map<Tid, Pollq>): seq<PollFd>
    decreases |q|
  {
    if q == [] then [] else (if q[0] in pq then pq[q[0]].pds else []) + Ledger(q[1..], pq)
  }

  ghost predicate Io(s: State) {
    && |s.ep.fd| > 0
    && E.Agrees(s.ep, Ledger(s.ioq, s.pq))
    && QueueAcceptable(s.ioq, s.pq)
  }

  ghost predicate QueueAcceptable(q: seq<Tid>, pq: map<Tid, Pollq>) {
    forall t, i :: t in q && t in pq && 0 <= i < |pq[t].pds| ==> Acceptable(pq[t].pds[i])
  }

  lemma {:induction false} LedgerConcat(a: seq<Tid>, b: seq<Tid>, pq: map<Tid, Pollq>)
    ensures Ledger(a + b, pq) == Ledger(a, pq) + Ledger(b, pq)
    decreases |a|
  {
    if a == [] {
      assert a + b == b;
    } else {
      assert (a + b)[1..] == a[1..] + b;
      LedgerConcat(a[1..], b, pq);
    }
  }

  lemma LedgerOne(t: Tid, pq: map<Tid, Pollq>)
    requires t in pq
    ensures Ledger([t], pq) == pq[t].pds
  {
    assert [t][1..] == [];
    assert Ledger([t][1..], pq) == [];
  }

  /** The ledger only depends on the requests of the listed threads. */
  lemma {:induction false} LedgerSame(q: seq<Tid>, pq: map<Tid, Pollq>, pq': map<Tid, Pollq>)
    requires forall t :: t in q ==> (t in pq <==> t in pq') && (t in pq ==> pq'[t].pds == pq[t].pds)
    ensures Ledger(q, pq') == Ledger(q, pq)
    decreases |q|
  {
    if q == [] {
    } else {
      assert q[0] in q && forall t :: t in q[1..] ==> t in q;
      LedgerSame(q[1..], pq, pq');
    }
  }

  /** A list without duplicates falls apart at any of its elements. */
  lemma {:induction false} SplitAt(q: seq<Tid>, t: Tid) returns (a: seq<Tid>, b: seq<Tid>)
    requires NoDup(q) && t in q
    ensures q == a + [t] + b && Without(q, t) == a + b
    ensures t !in a && t !in b
  {
    HeadTail(q, 0);
    if q[0] == t {
      a, b := [], q[1..];
      assert t !in b;
      WithoutIs(b, t);
    } else {
      var a', b' := SplitAt(q[1..], t);
      a, b := [q[0]] + a', b';
      SplitCons(q, t, a', b');
    }
  }

  /** Without t, the ledger loses exactly the entries of its request. */
  lemma LedgerWithout(q: seq<Tid>, t: Tid, pq: map<Tid, Pollq>) returns (la: seq<PollFd>, lb: seq<PollFd>)
    requires NoDup(q) && t in q && t in pq
    ensures Ledger(q, pq) == la + pq[t].pds + lb && Ledger(Without(q, t), pq) == la + lb
  {
    var a, b := SplitAt(q, t);
    la, lb := Ledger(a, pq), Ledger(b, pq);
    LedgerConcat(a + [t], b, pq);
    LedgerConcat(a, [t], pq);
    LedgerOne(t, pq);
    LedgerConcat(a, b, pq);
  }

  lemma InTablePart(la: seq<PollFd>, pds: seq<PollFd>, lb: seq<PollFd>, size: nat)
    requires E.InTable(la + pds + lb, size)
    ensures E.InTable(pds, size)
  {
    forall i | 0 <= i < |pds|
      ensures 0 <= pds[i].fd < size
    {
      assert (la + pds + lb)[|la| + i] == pds[i];
    }
  }

  lemma SameIo(s: State, r: State)
    requires Io(s) && r.ep == s.ep && r.ioq == s.ioq && r.pq == s.pq
    ensures Io(r)
  {
  }

  /** A new request at the tail of the queue. */
  lemma LedgerPush(q: seq<Tid>, t: Tid, pq: map<Tid, Pollq>, p: Pollq)
    requires t !in q
    ensures Ledger(q + [t], pq[t := p]) == Ledger(q, pq) + p.pds
  {
    LedgerSame(q, pq, pq[t := p]);
    LedgerConcat(q, [t], pq[t := p]);
    LedgerOne(t, pq[t := p]);
  }

  lemma PollIo(s: State, pds: seq<PollFd>, timeout: Option<nat>, fails: set<nat>)
    requires Ready(s) && Io(s) && Me(s) != s.idle && Th(s, Me(s)).call == NoCall
    ensures Io(Poll(s, pds, timeout, fails).s)
  {
    assert InPlace(s, Me(s));
    if !Th(s, Me(s)).interrupted {
      E.AddIsAtomic(s.ep, Ledger(s.ioq, s.pq), pds, fails);
      PollQueued(s, pds, timeout, EpAdd(s.ep, pds, fails));
    }
  }

  lemma PollQueued(s: State, pds: seq<PollFd>, timeout: Option<nat>, a: E.Added)
    requires Io(s) && Me(s) !in s.ioq && |a.ep.fd| > 0
    requires E.Agrees(a.ep, if a.ok then Ledger(s.ioq, s.pq) + pds else Ledger(s.ioq, s.pq))
    requires a.ok ==> forall i :: 0 <= i < |pds| ==> Acceptable(pds[i])
    ensures !a.ok ==> Io(s.(ep := a.ep))
    ensures a.ok ==> Io(Schedule(Block(s.(ep := a.ep, pq := s.pq[Me(s) := Pollq(pds, true)], ioq := s.ioq + [Me(s)]), IoWait, InPoll(NotYet), timeout)))
  {
    if a.ok {
      LedgerPush(s.ioq, Me(s), s.pq, Pollq(pds, true));
      var s1 := s.(ep := a.ep, pq := s.pq[Me(s) := Pollq(pds, true)], ioq := s.ioq + [Me(s)]);
      SameIo(s1, Schedule(Block(s1, IoWait, InPoll(NotYet), timeout)));
    }
  }

  lemma PollEndIo(s: State)
    requires Places(s) && Io(s) && s.cur.Some? && Th(s, Me(s)).call.InPoll?
    ensures Io(PollEnd(s).s)
  {
    var me := Me(s);
    assert InPlace(s, me);
    var r := PollEnd(s).s;
    WithoutIs(s.ioq, me);
    if s.pq[me].onIoq {
      var la, lb := LedgerWithout(s.ioq, me, s.pq);
      InTablePart(la, s.pq[me].pds, lb, |s.ep.fd|);
      E.DelKeeps(s.ep, la, s.pq[me].pds, lb, {});
    }
    LedgerSame(r.ioq, s.pq, r.pq);
  }

  // -------------------------------------------------------------- the fork

  lemma {:induction false} RebuildIo(ep: E.Ep, l: seq<PollFd>, q: seq<Tid>, pq: map<Tid, Pollq>)
    requires |ep.fd| > 0 && E.Agrees(ep, l) && QueueAcceptable(q, pq)
    ensures E.Agrees(Rebuild(ep, q, pq), l + Ledger(q, pq))
    ensures |Rebuild(ep, q, pq).fd| >= |ep.fd|
    decreases |q|
  {
    if q == [] {
      Regroup(l, [], []);
    } else {
      assert q[0] in q && forall t :: t in q[1..] ==> t in q;
      var pds, later := if q[0] in pq then pq[q[0]].pds else [], Ledger(q[1..], pq);
      Regroup(l, pds, later);
      if q[0] in pq {
        E.AddIsAtomic(ep, l, pds, {});
        RebuildIo(E.Add(ep, pds, {}).ep, l + pds, q[1..], pq);
      } else {
        Regroup(l, [], later);
        RebuildIo(ep, l, q[1..], pq);
      }
    }
  }

  lemma ResetAgrees(ep: E.Ep)
    ensures E.Agrees(Reset(ep), [])
  {
    assert forall f :: E.Synced(Reset(ep), f);
  }

  /** The rebuild after a fork gives back the counts, the registrations and
      their number as they were before. */
  lemma ForkChangesNothing(s: State)
    requires Io(s)
    ensures Io(Reopen(s))
    ensures Reopen(s).ep.kernel == s.ep.kernel && Reopen(s).ep.cnt == s.ep.cnt
    ensures |Reopen(s).ep.fd| >= |s.ep.fd| && Reopen(s).ep.fd[..|s.ep.fd|] == s.ep.fd
  {
    ResetAgrees(s.ep);
    RebuildIo(Reset(s.ep), [], s.ioq, s.pq);
    assert [] + Ledger(s.ioq, s.pq) == Ledger(s.ioq, s.pq);
    E.LedgerDetermines(s.ep, Reopen(s).ep, Ledger(s.ioq, s.pq));
  }

  // ----------------------------------------------------------- the dispatch

  /** Being told what happened does not change what an entry asks for. */
  lemma {:induction false} AsksTold(l: seq<PollFd>, l': seq<PollFd>, f: int, k: Kind)
    requires |l'| == |l| && forall i :: 0 <= i < |l| ==> l'[i].fd == l[i].fd && l'[i].events == l[i].events
    ensures Asks(l', f, k) == Asks(l, f, k)
  {
    if l == [] {
    } else {
      assert forall i :: 0 <= i < |l[1..]| ==> l'[1..][i] == l'[i + 1] && l[1..][i] == l[i + 1];
      AsksTold(l[1..], l'[1..], f, k);
    }
  }

  lemma AgreesTold(ep: E.Ep, l: seq<PollFd>, l': seq<PollFd>, firing: set<int>)
    requires E.AgreesWhile(ep, l, firing)
    requires |l'| == |l| && forall i :: 0 <= i < |l| ==> l'[i].fd == l[i].fd && l'[i].events == l[i].events
    ensures E.AgreesWhile(ep, l', firing)
  {
    forall f, k
      ensures Asks(l', f, k) == Asks(l, f, k)
    {
      AsksTold(l, l', f, k);
    }
  }

  /** Replacing the request of t, or taking it off the queue. */
  lemma LedgerReplace(q: seq<Tid>, t: Tid, pq: map<Tid, Pollq>, p: Pollq) returns (la: seq<PollFd>, lb: seq<PollFd>)
    requires NoDup(q) && t in q && t in pq
    ensures Ledger(q, pq) == la + pq[t].pds + lb
    ensures Ledger(q, pq[t := p]) == la + p.pds + lb
    ensures Ledger(Without(q, t), pq[t := p]) == la + lb
  {
    var a, b := SplitAt(q, t);
    la, lb := Ledger(a, pq), Ledger(b, pq);
    var pq' := pq[t := p];
    LedgerSame(a, pq, pq');
    LedgerSame(b, pq, pq');
    LedgerAround(a, t, b, pq);
    LedgerAround(a, t, b, pq');
    LedgerConcat(a, b, pq');
  }

  lemma LedgerAround(a: seq<Tid>, t: Tid, b: seq<Tid>, pq: map<Tid, Pollq>)
    requires t in pq
    ensures Ledger(a + [t] + b, pq) == Ledger(a, pq) + pq[t].pds + Ledger(b, pq)
  {
    LedgerConcat(a + [t], b, pq);
    LedgerConcat(a, [t], pq);
    LedgerOne(t, pq);
  }

  /** The ledger and the table agree while the descriptors of `firing` fire. */
  ghost predicate IoWhile(s: State, firing: set<int>) {
    E.AgreesWhile(s.ep, Ledger(s.ioq, s.pq), firing) && QueueAcceptable(s.ioq, s.pq)
  }

  lemma MissIo(s: State, t: Tid, pds: seq<PollFd>, firing: set<int>)
    requires Places(s) && t in s.ioq && t in s.pq && IoWhile(s, firing)
    requires |pds| == |s.pq[t].pds| && forall i :: 0 <= i < |pds| ==> pds[i].fd == s.pq[t].pds[i].fd && pds[i].events == s.pq[t].pds[i].events
    ensures IoWhile(s.(pq := s.pq[t := s.pq[t].(pds := pds)]), firing)
  {
    var was := s.pq[t].pds;
    var la, lb := LedgerReplace(s.ioq, t, s.pq, s.pq[t].(pds := pds));
    var l, l' := la + was + lb, la + pds + lb;
    forall i | 0 <= i < |l|
      ensures l'[i].fd == l[i].fd && l'[i].events == l[i].events
    {
      if |la| <= i < |la| + |pds| {
        assert l'[i] == pds[i - |la|] && l[i] == was[i - |la|];
      }
    }
    AgreesTold(s.ep, l, l', firing);
    assert forall i :: 0 <= i < |pds| ==> Acceptable(was[i]) ==> Acceptable(pds[i]);
  }

  lemma HitIo(s: State, t: Tid, pds: seq<PollFd>, firing: set<int>)
    requires Places(s) && t in s.ioq && t in s.pq && IoWhile(s, firing) && s.pq[t].pds == pds
    ensures IoWhile(Hit(s, t, pds), firing) && |Hit(s, t, pds).ep.fd| == |s.ep.fd|
  {
    var la, lb := LedgerReplace(s.ioq, t, s.pq, Pollq(pds, false));
    InTablePart(la, pds, lb, |s.ep.fd|);
    E.DelKeeps(s.ep, la, pds, lb, firing);
    WithoutIs(s.ioq, t);
  }

  lemma Notify1Io(s: State, t: Tid, firing: set<int>)
    requires Places(s) && t in s.ioq && IoWhile(s, firing)
    ensures IoWhile(Notify1(s, t), firing) && |Notify1(s, t).ep.fd| == |s.ep.fd|
  {
    assert InPlace(s, t);
    if E.InTable(s.pq[t].pds, |s.ep.fd|) {
      var pds := E.Told(s.ep, s.pq[t].pds);
      MissIo(s, t, pds, firing);
      if E.Notified(pds) {
        var s1 := s.(pq := s.pq[t := s.pq[t].(pds := pds)]);
        MissPlaces(s, t, pds);
        HitIo(s1, t, pds, firing);
        assert s1.pq[t := Pollq(pds, false)] == s.pq[t := Pollq(pds, false)];
        assert Hit(s1, t, pds) == Hit(s, t, pds);
      }
    }
  }

  lemma {:induction false} NotifyIo(s: State, q: seq<Tid>, firing: set<int>)
    requires Places(s) && NoDup(q) && (forall t :: t in q ==> t in s.ioq)
    requires forall t :: t in s.ioq ==> s.thr[t].state == IoWait
    requires IoWhile(s, firing)
    ensures IoWhile(NotifyFrom(s, q), firing) && |NotifyFrom(s, q).ep.fd| == |s.ep.fd|
    decreases |q|
  {
    if q == [] {
    } else {
      assert q == [q[0]] + q[1..];
      Notify1Io(s, q[0], firing);
      Notify1Waiting(s, q[0]);
      NotifyIo(Notify1(s, q[0]), q[1..], firing);
    }
  }

  /** The second and third loop of the dispatch. */
  lemma ToldIo(s: State, fired: seq<E.Fired>)
    requires Places(s) && IoWhile(s, E.FdsOf(fired)) && |s.ep.fd| > 0 && s.cur == Some(s.idle) && s.runq == []
    requires forall i, j :: 0 <= i < j < |fired| ==> fired[i].fd != fired[j].fd
    ensures var s2 := NotifyFrom(s, s.ioq);
      FdsKnown(s2.ep, fired) && Io(s2.(ep := E.Settle(s2.ep, fired)))
  {
    IoqAllWaiting(s);
    NotifyIo(s, s.ioq, E.FdsOf(fired));
    var s2 := NotifyFrom(s, s.ioq);
    E.SettleKeeps(s2.ep, Ledger(s2.ioq, s2.pq), fired);
  }

  /** A whole dispatch: counts and registrations disagree in the middle, but
      not at the end. */
  lemma DispatchIo(s: State, fired: seq<E.Fired>)
    requires Places(s) && Io(s) && s.cur == Some(s.idle) && s.runq == [] && E.KernelReports(s.ep, fired)
    ensures Io(Dispatch(s, fired))
    ensures fired != [] ==> FdsKnown(s.ep, fired)
  {
    E.FireKeeps(s.ep, Ledger(s.ioq, s.pq), fired, {});
    assert {} + E.FdsOf(fired) == E.FdsOf(fired);
    if fired != [] {
      var s1 := s.(ep := E.Fire(s.ep, fired));
      ElsewherePlaces(s, s1);
      ToldIo(s1, fired);
    }
  }
}
