/** Polling is balanced: whatever ends a poll, its request and its counts are
    given back once, and the result tells what ended it (sched.c, event.c). */
module SchedPoll {
  import opened Wrappers
  import opened Sequences
  import opened PollTypes
  import opened Sched
  import opened SchedInv
  import opened SchedKeeps
  import opened SchedOthers
  import opened SchedIo
  import opened SchedRuns
  import E = Epoll

  // ------------------------------------------------------------ the result

  lemma {:induction false} ReadyCountPositive(pds: seq<PollFd>)
    ensures ReadyCount(pds) > 0 <==> E.Notified(pds)
  {
    if pds == [] {
    } else {
      ReadyCountPositive(pds[1..]);
      NotifiedTail(pds);
    }
  }

  lemma NotifiedTail(pds: seq<PollFd>)
    requires pds != []
    ensures E.Notified(pds) <==> pds[0].revents != NO_BITS || E.Notified(pds[1..])
  {
    assert forall i :: 0 < i < |pds| ==> pds[i] == pds[1..][i - 1];
    assert forall i :: 0 <= i < |pds[1..]| ==> pds[1..][i] == pds[i + 1];
  }

  /** The places of the entries that have something to report. */
  ghost function ReadyAt(pds: seq<PollFd>): set<nat> {
    set i: nat | i < |pds| && pds[i].revents != NO_BITS
  }

  lemma {:induction false} ReadyCountPush(pds: seq<PollFd>, pd: PollFd)
    ensures ReadyCount(pds + [pd]) == ReadyCount(pds) + if pd.revents != NO_BITS then 1 else 0
  {
    if pds == [] {
      Regroup(pds, [pd], pds);
      assert [pd][1..] == [];
    } else {
      assert (pds + [pd])[0] == pds[0] && (pds + [pd])[1..] == pds[1..] + [pd];
      ReadyCountPush(pds[1..], pd);
    }
  }

  /** The ready count is the number of entries that have something to report. */
  lemma {:induction false} ReadyCountIs(pds: seq<PollFd>)
    ensures ReadyCount(pds) == |ReadyAt(pds)|
    decreases |pds|
  {
    if pds == [] {
    } else {
      var n := |pds| - 1;
      var front := pds[..n];
      ReadyCountIs(front);
      ReadyCountPush(front, pds[n]);
      assert front + [pds[n]] == pds;
      assert ReadyAt(pds) == ReadyAt(front) + if pds[n].revents != NO_BITS then {n} else {};
    }
  }

  /** What a poll returns, by what ended it; afterwards the thread is on no
      queue and its flags are clear. */
  lemma PollReturns(s: State)
    requires Inv(s) && Enabled(s, EResume) && Th(s, Me(s)).call.InPoll?
    ensures var n, th := Resume(s), Th(s, Me(s));
      && th.call.cause != NotYet
      && (n.out == Failed(EINTR) <==> th.interrupted)
      && (!th.interrupted ==> n.out.Ok? && n.out.val >= 0)
      && (!th.interrupted ==> (n.out == Ok(0) <==> th.call.cause == ByTimeout))
      && (!th.interrupted && n.out.val > 0 ==> th.call.cause == BySignal && Me(s) in s.pq && n.out.val == |ReadyAt(s.pq[Me(s)].pds)|)
      && Me(s) !in n.s.ioq && Me(s) !in n.s.pq && Me(s) !in n.s.sleep
      && Th(n.s, Me(s)) == th.(call := NoCall, interrupted := false)
  {
    assert InPlace(s, Me(s));
    WithoutIs(s.ioq, Me(s));
    ReadyCountPositive(s.pq[Me(s)].pds);
    ReadyCountIs(s.pq[Me(s)].pds);
    hide ReadyAt;
  }

  /** The request's share of the reference counts is given back at the end of
      the poll exactly if the dispatch has not done so before: each count of
      each descriptor of the table falls by what the request asks for. */
  lemma PollGivesBack(s: State, f: int, k: Kind)
    requires Inv(s) && Enabled(s, EResume) && Th(s, Me(s)).call.InPoll? && 0 <= f < |s.ep.fd|
    ensures Me(s) in s.pq && |Resume(s).s.ep.fd| == |s.ep.fd|
    ensures var pq, r := s.pq[Me(s)], Resume(s).s;
      E.CountOf(s.ep.fd[f], k) == E.CountOf(r.ep.fd[f], k) + if pq.onIoq then Asks(pq.pds, f, k) else 0
  {
    assert InPlace(s, Me(s));
    StepKeeps(s, EResume);
    hide Enabled, Step;
    LedgerGivesBack(s, f, k);
  }

  lemma LedgerGivesBack(s: State, f: int, k: Kind)
    requires Inv(s) && Enabled(s, EResume) && Th(s, Me(s)).call.InPoll?
    ensures Me(s) in s.pq
    ensures var pq, r := s.pq[Me(s)], Resume(s).s;
      Asks(Ledger(s.ioq, s.pq), f, k) == Asks(Ledger(r.ioq, r.pq), f, k) + if pq.onIoq then Asks(pq.pds, f, k) else 0
  {
    var me := Me(s);
    assert InPlace(s, me);
    var r := Resume(s).s;
    WithoutIs(s.ioq, me);
    LedgerSame(r.ioq, s.pq, r.pq);
    if s.pq[me].onIoq {
      var la, lb := LedgerWithout(s.ioq, me, s.pq);
      AsksConcat(la, lb, f, k);
      AsksConcat(la, s.pq[me].pds, f, k);
      AsksConcat(la + s.pq[me].pds, lb, f, k);
    }
  }

  // ---------------------------------------------------------- the dispatch

  /** Every request in q is for descriptors of the table. */
  ghost predicate AllKnown(s: State, q: seq<Tid>) {
    forall t {:trigger t in q} :: t in q ==> t in s.pq && E.InTable(s.pq[t].pds, |s.ep.fd|)
  }

  /** What fired is still noted. */
  ghost predicate SameReports(a: E.Ep, b: E.Ep) {
    |a.fd| == |b.fd| && forall f :: 0 <= f < |a.fd| ==> b.fd[f].revents == a.fd[f].revents
  }

  lemma {:induction false} DelReports(ep: E.Ep, pds: seq<PollFd>)
    requires E.InTable(pds, |ep.fd|)
    ensures SameReports(ep, E.Del(ep, pds))
    decreases |pds|
  {
    if pds == [] {
    } else {
      DelReports(E.Del1(ep, pds[0]), pds[1..]);
    }
  }

  lemma {:induction false} ToldSame(a: E.Ep, b: E.Ep, pds: seq<PollFd>)
    requires E.InTable(pds, |a.fd|) && SameReports(a, b)
    ensures E.Told(b, pds) == E.Told(a, pds)
    decreases |pds|
  {
    if pds == [] {
    } else {
      ToldSame(a, b, pds[1..]);
    }
  }

  /** The threads of q whose requests are notified, in order. */
  function Hits(ep: E.Ep, q: seq<Tid>, pq: map<Tid, Pollq>): seq<Tid>
    decreases |q|
  {
    if q == [] then []
    else (if q[0] in pq && E.InTable(pq[q[0]].pds, |ep.fd|) && E.Notified(E.Told(ep, pq[q[0]].pds)) then [q[0]] else []) + Hits(ep, q[1..], pq)
  }

  lemma {:induction false} HitsSame(a: E.Ep, b: E.Ep, q: seq<Tid>, pq: map<Tid, Pollq>, pq': map<Tid, Pollq>)
    requires SameReports(a, b) && forall t :: t in q ==> (t in pq <==> t in pq') && (t in pq ==> pq'[t] == pq[t])
    ensures Hits(b, q, pq') == Hits(a, q, pq)
    decreases |q|
  {
    if q == [] {
    } else {
      assert q[0] in q && forall t :: t in q[1..] ==> t in q;
      HitsSame(a, b, q[1..], pq, pq');
      if q[0] in pq && E.InTable(pq[q[0]].pds, |a.fd|) {
        ToldSame(a, b, pq[q[0]].pds);
      }
    }
  }

  lemma NotifyOne(s: State, t: Tid, rest: seq<Tid>)
    requires AllKnown(s, [t] + rest) && t !in rest
    ensures var r := Notify1(s, t);
      && SameReports(s.ep, r.ep) && AllKnown(r, rest)
      && (forall u :: u != t ==> (u in r.pq <==> u in s.pq) && (u in s.pq ==> r.pq[u] == s.pq[u]))
      && t in s.pq && E.InTable(s.pq[t].pds, |s.ep.fd|)
      && t in r.pq && r.pq[t].pds == E.Told(s.ep, s.pq[t].pds)
      && r.runq == s.runq + if E.Notified(r.pq[t].pds) then [t] else []
  {
    assert t in [t] + rest;
    assert forall u :: u in rest ==> u in [t] + rest;
    var pds := E.Told(s.ep, s.pq[t].pds);
    if E.Notified(pds) {
      DelReports(s.ep, pds);
    }
  }

  /** The requests of q have been told what is noted in ep; others are as before. */
  ghost predicate AllTold(ep: E.Ep, q: seq<Tid>, pq: map<Tid, Pollq>, pq': map<Tid, Pollq>) {
    && (forall t :: t in q ==> t in pq && t in pq' && E.InTable(pq[t].pds, |ep.fd|) && pq'[t].pds == E.Told(ep, pq[t].pds))
    && (forall t :: t !in q ==> (t in pq' <==> t in pq) && (t in pq ==> pq'[t] == pq[t]))
  }

  lemma ToldOneMore(a: E.Ep, b: E.Ep, t: Tid, rest: seq<Tid>, pq: map<Tid, Pollq>, pq1: map<Tid, Pollq>, pq2: map<Tid, Pollq>)
    requires SameReports(a, b) && t !in rest && AllTold(a, [t], pq, pq1) && AllTold(b, rest, pq1, pq2)
    ensures AllTold(a, [t] + rest, pq, pq2)
  {
    assert t in [t];
    forall u | u in rest
      ensures u in pq && E.InTable(pq[u].pds, |a.fd|) && E.Told(b, pq1[u].pds) == E.Told(a, pq[u].pds)
    {
      assert u !in [t];
      ToldSame(a, b, pq[u].pds);
    }
  }

  lemma {:induction false} NotifyTells(s: State, q: seq<Tid>)
    requires NoDup(q) && AllKnown(s, q)
    ensures AllTold(s.ep, q, s.pq, NotifyFrom(s, q).pq)
    decreases |q|
  {
    if q == [] {
    } else {
      var t, rest := q[0], q[1..];
      assert q == [t] + rest;
      NotifyOne(s, t, rest);
      var s1 := Notify1(s, t);
      NotifyTells(s1, rest);
      ToldOneMore(s.ep, s1.ep, t, rest, s.pq, s1.pq, NotifyFrom(s1, rest).pq);
    }
  }

  lemma {:induction false} NotifyWakes(s: State, q: seq<Tid>)
    requires NoDup(q) && AllKnown(s, q)
    ensures NotifyFrom(s, q).runq == s.runq + Hits(s.ep, q, s.pq)
    decreases |q|
  {
    if q == [] {
      Regroup(s.runq, [], []);
    } else {
      var t, rest := q[0], q[1..];
      assert q == [t] + rest;
      NotifyOne(s, t, rest);
      var s1 := Notify1(s, t);
      NotifyWakes(s1, rest);
      HitsSame(s.ep, s1.ep, rest, s.pq, s1.pq);
      Regroup(s.runq, if E.Notified(E.Told(s.ep, s.pq[t].pds)) then [t] else [], Hits(s.ep, rest, s.pq));
    }
  }

  lemma {:induction false} LedgerKnows(q: seq<Tid>, pq: map<Tid, Pollq>, t: Tid, size: nat)
    requires t in q && t in pq && E.InTable(Ledger(q, pq), size)
    ensures E.InTable(pq[t].pds, size) && forall pd :: pd in pq[t].pds ==> pd in Ledger(q, pq)
    decreases |q|
  {
    var head := if q[0] in pq then pq[q[0]].pds else [];
    assert Ledger(q, pq) == head + Ledger(q[1..], pq);
    if q[0] == t {
      assert [] + pq[t].pds + Ledger(q[1..], pq) == Ledger(q, pq);
      InTablePart([], pq[t].pds, Ledger(q[1..], pq), size);
    } else {
      assert head + Ledger(q[1..], pq) + [] == Ledger(q, pq);
      InTablePart(head, Ledger(q[1..], pq), [], size);
      LedgerKnows(q[1..], pq, t, size);
    }
  }

  /** A dispatch tells every waiting request which of the events it asked for
      have fired, reports errors besides, and wakes exactly the threads for
      which something fired, each once and in queue order. */
  lemma DispatchTells(s: State, fired: seq<E.Fired>, t: Tid, i: nat)
    requires Ready(s) && Io(s) && s.cur == Some(s.idle) && E.KernelReports(s.ep, fired)
    requires t in s.ioq && t in s.pq && i < |s.pq[t].pds| && fired != []
    ensures var r, pd := Dispatch(s, fired), s.pq[t].pds[i];
      && t in r.pq && |r.pq[t].pds| == |s.pq[t].pds|
      && r.pq[t].pds[i] == pd.(revents := E.Report(pd.events, E.EventOf(fired, pd.fd)))
  {
    var l := Ledger(s.ioq, s.pq);
    DispatchHits(s, fired);
    var s1 := s.(ep := E.Fire(s.ep, fired));
    LedgerKnows(s.ioq, s.pq, t, |s.ep.fd|);
    var pd := s.pq[t].pds[i];
    assert E.Synced(s.ep, pd.fd);
    E.ToldAsFired(s.ep, l, fired, pd);
  }

  lemma DispatchSize(s: State, fired: seq<E.Fired>, t: Tid)
    requires Ready(s) && Io(s) && s.cur == Some(s.idle) && E.KernelReports(s.ep, fired) && fired != []
    requires t in s.ioq
    ensures var r := Dispatch(s, fired); t in s.pq && t in r.pq && |r.pq[t].pds| == |s.pq[t].pds|
  {
    DispatchHits(s, fired);
  }

  /** The threads a dispatch wakes, in order. */
  lemma DispatchHits(s: State, fired: seq<E.Fired>)
    requires Ready(s) && Io(s) && s.cur == Some(s.idle) && E.KernelReports(s.ep, fired) && fired != []
    ensures FdsKnown(s.ep, fired)
    ensures var r, s1 := Dispatch(s, fired), s.(ep := E.Fire(s.ep, fired));
      && r.runq == Hits(s1.ep, s.ioq, s.pq)
      && AllTold(s1.ep, s.ioq, s.pq, r.pq)
  {
    DispatchIo(s, fired);
    var s1 := s.(ep := E.Fire(s.ep, fired));
    forall t | t in s1.ioq
      ensures t in s1.pq && E.InTable(s1.pq[t].pds, |s1.ep.fd|)
    {
      assert InPlace(s, t);
      LedgerKnows(s.ioq, s.pq, t, |s.ep.fd|);
    }
    NotifyTells(s1, s1.ioq);
    NotifyWakes(s1, s1.ioq);
  }

  /** The threads that can run in r, when nobody but the idle thread could in s. */
  lemma AbleWereWaiting(s: State, r: State)
    requires Ready(s) && Ready(r) && Tame(s, r) && s.cur == Some(s.idle)
    ensures NoDup([r.cur.value] + r.runq)
    ensures forall t :: t in [r.cur.value] + r.runq && t != s.idle ==> t in s.thr && Waiting(s.thr[t].state)
  {
    assert InPlace(r, r.cur.value);
    forall t | t in [r.cur.value] + r.runq && t != s.idle
      ensures t in s.thr && Waiting(s.thr[t].state)
    {
      assert InPlace(r, t) && InPlace(s, t);
      assert TameThread(Th(s, t), Th(r, t));
    }
  }

  /** A round of the idle thread puts no thread on the run queue twice, and
      only threads that were waiting: readiness and the clock cannot both wake
      the same thread, nor one that somebody else has woken already. */
  lemma IdleWakesOnce(s: State, forked: bool, fired: seq<E.Fired>, now: int, woken: seq<Tid>)
    requires Inv(s) && Enabled(s, EIdle(forked, fired, now, woken))
    ensures var r := Step(s, EIdle(forked, fired, now, woken)).s;
      && r.cur.Some? && NoDup([r.cur.value] + r.runq)
      && (forall t :: t in [r.cur.value] + r.runq && t != s.idle ==> t in s.thr && Waiting(s.thr[t].state))
      && (r.cur == Some(s.idle) ==> r.runq == [])
  {
    IdlePlaces(s, forked, fired, now, woken);
    IdleTame(s, forked, fired, now, woken);
    AbleWereWaiting(s, Idle(s, forked, fired, now, woken).s);
  }
}
