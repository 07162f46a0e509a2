/** Mutex safety over all interleavings with interrupts (sync.c). */
module SchedMutex {
  import opened ThreadTypes
  import opened Wrappers
  import opened PollTypes
  import opened Sched
  import opened SchedInv
  import opened SchedKeeps
  import opened SchedOthers
  import opened SchedSteps
  import opened SchedRuns

  /** A lock call that had to wait returns success exactly when the caller has
      become the owner; otherwise it reports the interrupt.  Returning changes
      no owner. */
  lemma LockReturns(s: State, m: nat)
    requires Inv(s) && Enabled(s, EResume) && Th(s, Me(s)).call == InLock(m)
    ensures var n := Resume(s);
      && n.s.owner == s.owner
      && (n.out == Ok(0) <==> Owner(n.s, m) == Some(Me(s)))
      && (n.out == Failed(EINTR) <==> Owner(n.s, m) != Some(Me(s)))
  {
    assert LockOk(s, Me(s)) && InPlace(s, Me(s));
  }

  /** A lock call that returns at once has taken a free mutex, or taken nothing. */
  lemma LockAtOnce(s: State, m: nat)
    requires Inv(s) && Enabled(s, ELock(m))
    ensures var n := Lock(s, m);
      && (n.out == Ok(0) ==> Owner(s, m) == None && Owner(n.s, m) == Some(Me(s)))
      && (n.out.Failed? ==> n.s.owner == s.owner)
      && (n.out == Switched ==>
            (n.s.owner == s.owner && Owner(s, m).Some? && Owner(s, m) != Some(Me(s))
             && Wq(n.s, MutexQ(m)) == Wq(s, MutexQ(m)) + [Me(s)]))
  {
  }

  /** A free mutex has no thread waiting for it. */
  lemma FreeMeansNoWaiters(s: State, m: nat)
    requires Inv(s) && Owner(s, m) == None
    ensures forall t: Tid :: t in Wq(s, MutexQ(m)) ==> Th(s, t).state != LockWait
  {
    forall t: Tid | t in Wq(s, MutexQ(m))
      ensures Th(s, t).state != LockWait
    {
      assert t in Wq(s, MutexQ(m)) <==> Awaits(Th(s, t).call) == Some(MutexQ(m));
      assert LockOk(s, t) && OnCondition(s, t);
    }
  }

  /** Unlocking hands the mutex to the earliest thread that still waits for it,
      and frees it only if there is none. */
  lemma UnlockGoesToTheFirst(s: State, m: nat, i: nat)
    requires Inv(s) && Enabled(s, EUnlock(m)) && Owner(s, m) == Some(Me(s))
    requires i <= |Wq(s, MutexQ(m))|
    requires forall j :: 0 <= j < i ==> Th(s, Wq(s, MutexQ(m))[j]).state != LockWait
    requires i < |Wq(s, MutexQ(m))| ==> Th(s, Wq(s, MutexQ(m))[i]).state == LockWait
    ensures var q, r := Wq(s, MutexQ(m)), Unlock(s, m).s;
      if i < |q| then Owner(r, m) == Some(q[i]) && Th(r, q[i]).state == Runnable && r.runq == s.runq + [q[i]]
      else Owner(r, m) == None && r.thr == s.thr && r.runq == s.runq
  {
    var q := Wq(s, MutexQ(m));
    HandOverIs(s, m, q);
    FirstAt(s, q, i);
  }

  lemma {:induction false} FirstAt(s: State, q: seq<Tid>, i: nat)
    requires i <= |q| && forall j :: 0 <= j < i ==> Th(s, q[j]).state != LockWait
    requires i < |q| ==> Th(s, q[i]).state == LockWait
    ensures FirstLockWait(s, q) == if i < |q| then Some(q[i]) else None
  {
    if i == 0 {
    } else {
      assert forall j :: 0 <= j < i - 1 ==> q[1..][j] == q[j + 1];
      FirstAt(s, q[1..], i - 1);
    }
  }

  // ------------------------------------------------------------- overtaking

  function Before(q: seq<Tid>, t: Tid): set<Tid> {
    if q == [] || q[0] == t then {} else {q[0]} + Before(q[1..], t)
  }

  /** The owner of m and the threads that queued for m before t. */
  function Ahead(s: State, m: nat, t: Tid): set<Tid> {
    Before(Wq(s, MutexQ(m)), t) + if Owner(s, m).Some? then {Owner(s, m).value} else {}
  }

  predicate WaitsFor(s: State, m: nat, t: Tid) {
    Th(s, t).call == InLock(m) && Th(s, t).state == LockWait
  }

  /** t waits for m in every state of the run. */
  predicate WaitsThroughout(s: State, es: seq<Event>, m: nat, t: Tid)
    decreases |es|
  {
    WaitsFor(s, m, t) && (es == [] || WaitsThroughout(Step(s, es[0]).s, es[1..], m, t))
  }

  lemma {:induction false} BeforeAppend(q: seq<Tid>, t: Tid, u: Tid)
    requires t in q
    ensures Before(q + [u], t) == Before(q, t)
  {
    assert (q + [u])[0] == q[0];
    if q[0] == t {
    } else {
      assert (q + [u])[1..] == q[1..] + [u];
      BeforeAppend(q[1..], t, u);
    }
  }

  lemma {:induction false} BeforeWithout(q: seq<Tid>, t: Tid, u: Tid)
    requires t in q && t != u
    ensures Before(Without(q, u), t) <= Before(q, t)
  {
    if q[0] == t {
    } else {
      BeforeWithout(q[1..], t, u);
    }
  }

  lemma {:induction false} FirstIsBefore(s: State, q: seq<Tid>, t: Tid)
    requires t in q && Th(s, t).state == LockWait
    ensures FirstLockWait(s, q).Some?
    ensures FirstLockWait(s, q).value == t || FirstLockWait(s, q).value in Before(q, t)
  {
    if Th(s, q[0]).state == LockWait {
    } else {
      FirstIsBefore(s, q[1..], t);
    }
  }

  ghost predicate SameMutex(s: State, r: State, m: nat) {
    Owner(r, m) == Owner(s, m) && Wq(r, MutexQ(m)) == Wq(s, MutexQ(m))
  }

  lemma {:induction false} SignalSpares(s: State, q: seq<Tid>, broadcast: bool)
    ensures SignalFrom(s, q, broadcast).waitq == s.waitq && SignalFrom(s, q, broadcast).owner == s.owner
    decreases |q|
  {
    if q == [] {
    } else {
      SignalSpares(if Th(s, q[0]).state == CondWait then WakeUp(s, q[0], BySignal) else s, q[1..], broadcast);
    }
  }

  lemma ExitSpares(s: State, retval: int)
    ensures Exit(s, retval).s.waitq == s.waitq && Exit(s, retval).s.owner == s.owner
  {
    SignalSpares(Bury(s.(active := s.active - 1), Th(s, Me(s)).(retval := retval)), Wq(s, TermQ(Me(s))), false);
  }

  lemma WaitSpares(s: State, q: Queue, timeout: Option<nat>, m: nat)
    requires !q.MutexQ?
    ensures SameMutex(s, CondStart(s, q, timeout).s, m)
  {
  }

  lemma CondEndSpares(s: State, m: nat)
    requires Th(s, Me(s)).call.InCond? && !Th(s, Me(s)).call.q.MutexQ?
    ensures SameMutex(s, CondEnd(s).s, m)
  {
  }

  lemma JoinSpares(s: State, t: Tid, m: nat)
    ensures SameMutex(s, Join(s, t).s, m)
  {
    WaitSpares(s, TermQ(t), None, m);
  }

  lemma JoinEndSpares(s: State, t: Tid, m: nat)
    requires Th(s, Me(s)).call.InCond? && !Th(s, Me(s)).call.q.MutexQ?
    ensures SameMutex(s, JoinEnd(s, t).s, m)
  {
    CondEndSpares(s, m);
    WaitSpares(CondEnd(s).s, TermQ(t), None, m);
  }

  lemma SleepSpares(s: State, timeout: Option<nat>, m: nat)
    ensures SameMutex(s, Sleep(s, timeout).s, m)
  {
  }

  lemma PollSpares(s: State, pds: seq<PollFd>, timeout: Option<nat>, fails: set<nat>, m: nat)
    ensures SameMutex(s, Poll(s, pds, timeout, fails).s, m)
  {
    if !Th(s, Me(s)).interrupted && EpAdd(s.ep, pds, fails).ok {
      var s1 := s.(ep := EpAdd(s.ep, pds, fails).ep, pq := s.pq[Me(s) := Pollq(pds, true)], ioq := s.ioq + [Me(s)]);
      BlockSpares(s1, IoWait, InPoll(NotYet), timeout, m);
    }
  }

  lemma BlockSpares(s: State, st: ThreadState, call: Call, timeout: Option<nat>, m: nat)
    ensures SameMutex(s, Schedule(Block(s, st, call, timeout)), m)
  {
  }

  lemma EndSpares(s: State, m: nat)
    ensures SameMutex(s, SleepEnd(s).s, m) && SameMutex(s, PollEnd(s).s, m) && SameMutex(s, ExitEnd(s).s, m)
  {
  }

  lemma ResumeSpares(s: State, m: nat)
    requires OnCondition(s, Me(s)) && !Th(s, Me(s)).call.InLock?
    ensures SameMutex(s, Resume(s).s, m)
  {
    EndSpares(s, m);
    match Th(s, Me(s)).call
    case InCond(q, _) =>
      if q.TermQ? {
        JoinEndSpares(s, q.t, m);
      } else {
        CondEndSpares(s, m);
      }
    case _ =>
  }

  lemma IdleSpares(s: State, e: Event, m: nat)
    requires Ready(s) && Enabled(s, e) && e.EIdle?
    ensures SameMutex(s, Step(s, e).s, m)
  {
    IdleTame(s, e.forked, e.fired, e.now, e.woken);
    assert Step(s, e) == Idle(s, e.forked, e.fired, e.now, e.woken);
    hide Step, Idle, Enabled, Ready;
  }

  lemma InterruptSpares(s: State, t: Tid, m: nat)
    requires Ready(s) && t in s.thr
    ensures SameMutex(s, Interrupt(s, t).s, m)
  {
    InterruptTame(s, t);
    hide Interrupt, Ready;
  }

  /** Waking, interrupting, timing out, polling and the like leave mutexes alone. */
  lemma OtherStepsSpareMutex(s: State, e: Event, m: nat)
    requires Ready(s) && OnCondition(s, Me(s)) && Enabled(s, e)
    requires !e.ELock? && !e.EUnlock? && !e.ETryLock? && (e.EResume? ==> !Th(s, Me(s)).call.InLock?)
    ensures SameMutex(s, Step(s, e).s, m)
  {
    hide Ready, Exit, Join, Interrupt, CondStart, Sleep, Poll, Resume, SignalFrom;
    match e
    case EIdle(_, _, _, _) => IdleSpares(s, e, m);
    case EInterrupt(t) => InterruptSpares(s, t, m);
    case ESignal(c, broadcast) => SignalSpares(s, Wq(s, CondQ(c)), broadcast);
    case EExit(retval) => ExitSpares(s, retval);
    case EJoin(t) => JoinSpares(s, t, m);
    case EWait(c, timeout) => WaitSpares(s, CondQ(c), timeout, m);
    case ESleep(timeout) => SleepSpares(s, timeout, m);
    case EPoll(pds, timeout, fails) => PollSpares(s, pds, timeout, fails, m);
    case EResume => ResumeSpares(s, m);
    case ECreate(_, _, _) =>
    case ELock(_) =>
    case EUnlock(_) =>
    case ETryLock(_) =>
  }

  lemma SameAhead(s: State, r: State, m: nat, t: Tid)
    requires SameMutex(s, r, m)
    ensures Ahead(r, m, t) == Ahead(s, m, t)
  {
  }

  lemma LockAhead(s: State, k: nat, m: nat, t: Tid)
    requires t in Wq(s, MutexQ(m)) && Owner(s, m).Some?
    ensures Ahead(Lock(s, k).s, m, t) <= Ahead(s, m, t) && Owner(Lock(s, k).s, m) == Owner(s, m)
  {
    BeforeAppend(Wq(s, MutexQ(m)), t, Me(s));
  }

  lemma UnlockAhead(s: State, k: nat, m: nat, t: Tid)
    requires t in Wq(s, MutexQ(m)) && Owner(s, m).Some? && WaitsFor(s, m, t) && WaitsFor(Unlock(s, k).s, m, t)
    requires t in s.thr
    ensures Ahead(Unlock(s, k).s, m, t) <= Ahead(s, m, t) && Owner(Unlock(s, k).s, m).Some?
  {
    HandOverIs(s, k, Wq(s, MutexQ(k)));
    if k == m {
      FirstIsBefore(s, Wq(s, MutexQ(m)), t);
    }
  }

  lemma LockEndAhead(s: State, m: nat, t: Tid)
    requires t in Wq(s, MutexQ(m)) && t != Me(s) && Th(s, Me(s)).call.InLock?
    ensures Ahead(LockEnd(s).s, m, t) <= Ahead(s, m, t) && Owner(LockEnd(s).s, m) == Owner(s, m)
  {
    BeforeWithout(Wq(s, MutexQ(m)), t, Me(s));
  }

  lemma TryLockAhead(s: State, k: nat, m: nat, t: Tid)
    requires Owner(s, m).Some?
    ensures Ahead(TryLock(s, k).s, m, t) == Ahead(s, m, t) && Owner(TryLock(s, k).s, m) == Owner(s, m)
  {
  }

  /** While t waits, nobody gets ahead of it. */
  lemma StepKeepsAhead(s: State, e: Event, m: nat, t: Tid)
    requires Inv(s) && Enabled(s, e) && WaitsFor(s, m, t) && WaitsFor(Step(s, e).s, m, t)
    ensures Ahead(Step(s, e).s, m, t) <= Ahead(s, m, t) && Owner(Step(s, e).s, m).Some?
  {
    assert t in Wq(s, MutexQ(m)) <==> Awaits(Th(s, t).call) == Some(MutexQ(m));
    assert LockOk(s, t) && OnCondition(s, Me(s)) && t in s.thr && InPlace(s, t);
    match e
    case ELock(k) => LockAhead(s, k, m, t);
    case EUnlock(k) => UnlockAhead(s, k, m, t);
    case ETryLock(k) => TryLockAhead(s, k, m, t);
    case _ =>
      if e.EResume? && Th(s, Me(s)).call.InLock? {
        LockEndAhead(s, m, t);
      } else {
        OtherStepsSpareMutex(s, e, m);
        SameAhead(s, Step(s, e).s, m, t);
      }
  }

  /** No overtaking: as long as t waits for m, whoever owns m is the thread that
      owned it, or one that had queued for it before t, at the start.  Neither
      a trylock nor a thread that came later can get in between. */
  lemma {:induction false} NoOvertaking(s: State, es: seq<Event>, m: nat, t: Tid)
    requires Inv(s) && Possible(s, es) && WaitsThroughout(s, es, m, t)
    ensures Owner(Run(s, es), m).Some? && Owner(Run(s, es), m).value in Ahead(s, m, t)
    ensures Ahead(Run(s, es), m, t) <= Ahead(s, m, t)
    decreases |es|
  {
    assert LockOk(s, t);
    if es == [] {
    } else {
      StepKeeps(s, es[0]);
      StepKeepsAhead(s, es[0], m, t);
      NoOvertaking(Step(s, es[0]).s, es[1..], m, t);
    }
  }
}
