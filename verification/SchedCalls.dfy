/** What a step does to a thread that does not take it. */
module SchedCalls {
  import opened ThreadTypes
  import opened Wrappers
  import opened PollTypes
  import opened Sched
  import opened SchedInv
  import opened SchedKeeps
  import opened SchedOthers
  import opened SchedSteps
  import opened SchedIo
  import opened SchedRuns
  import opened SchedPoll
  import E = Epoll

  predicate Awake(th: Thread) {
    th.state == Runnable || th.state == Running
  }

  /** What only the thread itself can change; nobody else buries it or puts it to
      sleep, and whoever takes it off the sleep queue makes it able to run. */
  predicate Kept(a: Thread, b: Thread) {
    && b.retval == a.retval && b.term == a.term && b.stack == a.stack
    && (b.state == Zombie ==> a.state == Zombie) && (Awake(a) ==> Awake(b))
    && (b.onSleepq ==> a.onSleepq) && (a.onSleepq && !b.onSleepq ==> Awake(b))
  }

  /** The thread is still inside the same call. */
  predicate Alike(a: Thread, b: Thread) {
    Kept(a, b) && b.interrupted == a.interrupted && b.onSleepq == a.onSleepq && b.call == a.call
  }

  predicate EndedBy(a: Thread, b: Thread, cause: Cause) {
    Kept(a, b) && b.interrupted == a.interrupted && b.call == Ended(a.call, cause)
  }

  /** Something that the poll of thread t asked for, or an error, has fired on
      one of its own descriptors. */
  ghost predicate HasFired(s: State, fired: seq<E.Fired>, t: Tid) {
    t in s.ioq && t in s.pq
    && exists i :: 0 <= i < |s.pq[t].pds| && E.Report(s.pq[t].pds[i].events, E.EventOf(fired, s.pq[t].pds[i].fd)) != NO_BITS
  }

  /** Step e from state s can have ended the wait of thread t, on queue q, for
      this cause. */
  ghost predicate EndsWait(s: State, e: Event, q: Queue, cause: Cause, t: Tid) {
    match cause
    case NotYet => false
    case BySignal => (e.ESignal? && q == CondQ(e.c)) || (e.EExit? && q == TermQ(Me(s)))
    case ByTimeout => e.EIdle? && t in e.woken
    case ByInterrupt => e == EInterrupt(t)
  }

  /** Step e from state s can have ended the poll of thread t for this cause. */
  ghost predicate EndsPoll(s: State, e: Event, cause: Cause, t: Tid) {
    match cause
    case NotYet => false
    case BySignal => e.EIdle? && HasFired(s, e.fired, t)
    case ByTimeout => e.EIdle? && t in e.woken
    case ByInterrupt => e == EInterrupt(t)
  }

  /** How step e from state s may change a thread t that does not take it, from
      a to b. */
  ghost predicate CallStep(a: Thread, b: Thread, s: State, e: Event, t: Tid) {
    && Kept(a, b) && (b.interrupted <==> a.interrupted || (e == EInterrupt(t) && a.state != Zombie))
    && (b.call == a.call
        || (a.call == InPoll(NotYet) && b.call.InPoll? && EndsPoll(s, e, b.call.cause, t))
        || (a.call.InCond? && a.call.cause == NotYet && b.call.InCond? && b.call.q == a.call.q
            && EndsWait(s, e, a.call.q, b.call.cause, t)))
    && (a.call == InSleep && a.onSleepq && !b.onSleepq ==> e == EInterrupt(t) || (e.EIdle? && t in e.woken))
  }

  lemma {:induction false} SignalCalls(s: State, q: seq<Tid>, broadcast: bool, t: Tid)
    ensures Alike(Th(s, t), Th(SignalFrom(s, q, broadcast), t))
      || (t in q && EndedBy(Th(s, t), Th(SignalFrom(s, q, broadcast), t), BySignal))
    decreases |q|
  {
    if q == [] {
    } else {
      SignalCalls(if Th(s, q[0]).state == CondWait then WakeUp(s, q[0], BySignal) else s, q[1..], broadcast, t);
    }
  }

  lemma {:induction false} ExpireCalls(s: State, woken: seq<Tid>, t: Tid)
    ensures Alike(Th(s, t), Th(ExpireAll(s, woken), t))
      || (t in woken && EndedBy(Th(s, t), Th(ExpireAll(s, woken), t), ByTimeout))
    decreases |woken|
  {
    if woken == [] {
    } else {
      ExpireCalls(Expire(s, woken[0]), woken[1..], t);
    }
  }

  lemma {:induction false} NotifyCalls(s: State, q: seq<Tid>, t: Tid)
    requires forall u :: u in q && u in s.pq ==> Th(s, u).call.InPoll?
    ensures Alike(Th(s, t), Th(NotifyFrom(s, q), t))
      || (t in q && Th(s, t).call.InPoll? && EndedBy(Th(s, t), Th(NotifyFrom(s, q), t), BySignal))
    decreases |q|
  {
    if q == [] {
    } else {
      assert q[0] in q && forall u :: u in q[1..] ==> u in q;
      NotifyCalls(Notify1(s, q[0]), q[1..], t);
    }
  }

  lemma DispatchCalls(s: State, fired: seq<E.Fired>, t: Tid)
    requires Ready(s) && Io(s) && s.cur == Some(s.idle) && E.KernelReports(s.ep, fired)
    ensures Alike(Th(s, t), Th(Dispatch(s, fired), t))
      || (HasFired(s, fired, t) && Th(s, t).call.InPoll? && EndedBy(Th(s, t), Th(Dispatch(s, fired), t), BySignal))
  {
    forall u | u in s.ioq && u in s.pq
      ensures Th(s, u).call.InPoll?
    {
      assert InPlace(s, u);
    }
    if fired != [] && FdsKnown(s.ep, fired) {
      NotifyCalls(s.(ep := E.Fire(s.ep, fired)), s.ioq, t);
      if !Alike(Th(s, t), Th(Dispatch(s, fired), t)) {
        IoqAllWaiting(s);
        assert InPlace(s, t);
        HitHasFired(s, fired, t);
      }
    }
  }

  /** A poll that the dispatch ends is one for which something has fired. */
  lemma HitHasFired(s: State, fired: seq<E.Fired>, t: Tid)
    requires Ready(s) && Io(s) && s.cur == Some(s.idle) && E.KernelReports(s.ep, fired) && fired != []
    requires t in s.ioq && Th(Dispatch(s, fired), t).call == InPoll(BySignal)
    ensures HasFired(s, fired, t)
  {
    var r := Dispatch(s, fired);
    DispatchPlaces(s, fired);
    assert InPlace(s, t);
    assert t in r.thr && InPlace(r, t);
    DispatchSize(s, fired, t);
    var i :| 0 <= i < |r.pq[t].pds| && r.pq[t].pds[i].revents != NO_BITS;
    DispatchTells(s, fired, t, i);
  }

  lemma SwitchCalls(s: State, t: Tid)
    ensures Alike(Th(s, t), Th(Schedule(Put(s.(cur := None), s.idle, Th(s, s.idle).(state := Runnable))), t))
  {
    hide Schedule;
    ScheduleCalls(Put(s.(cur := None), s.idle, Th(s, s.idle).(state := Runnable)), t);
  }

  lemma RoundCalls(s: State, e: Event, t: Tid)
    requires Inv(s) && Enabled(s, e) && e.EIdle?
    ensures var r := Dispatch(if e.forked then Reopen(s) else s, e.fired);
      Alike(Th(s, t), Th(r, t)) || (HasFired(s, e.fired, t) && Th(s, t).call.InPoll? && EndedBy(Th(s, t), Th(r, t), BySignal))
  {
    var s0 := if e.forked then Reopen(s) else s;
    ForkChangesNothing(s);
    ElsewherePlaces(s, s0);
    DispatchCalls(s0, e.fired, t);
    assert HasFired(s0, e.fired, t) ==> HasFired(s, e.fired, t);
  }

  lemma IdleCalls(s: State, e: Event, t: Tid)
    requires Inv(s) && Enabled(s, e) && e.EIdle?
    ensures CallStep(Th(s, t), Th(Step(s, e).s, t), s, e, t)
  {
    RoundCalls(s, e, t);
    hide Inv, Enabled, Dispatch, Reopen, ExpireAll, Schedule, HasFired, Alike, EndedBy;
    var s1 := Dispatch(if e.forked then Reopen(s) else s, e.fired).(clock := e.now);
    var s2 := ExpireAll(s1, e.woken);
    ExpireCalls(s1, e.woken, t);
    SwitchCalls(s2, t);
    TimedOut(Th(s, t), Th(s1, t), Th(s2, t), Th(Idle(s, e.forked, e.fired, e.now, e.woken).s, t), s, e, t);
  }

  lemma TimedOut(a: Thread, b: Thread, c: Thread, d: Thread, s: State, e: Event, t: Tid)
    requires e.EIdle?
    requires Alike(a, b) || (HasFired(s, e.fired, t) && a.call.InPoll? && EndedBy(a, b, BySignal))
    requires (Alike(b, c) || (t in e.woken && EndedBy(b, c, ByTimeout))) && Alike(c, d)
    ensures CallStep(a, d, s, e, t)
  {
  }

  lemma SignalStepCalls(s: State, c: nat, broadcast: bool, t: Tid)
    requires Others(s)
    ensures CallStep(Th(s, t), Th(Signal(s, c, broadcast).s, t), s, ESignal(c, broadcast), t)
  {
    SignalCalls(s, Wq(s, CondQ(c)), broadcast, t);
    WaitersAwait(s, CondQ(c), t);
  }

  lemma ScheduleCalls(s: State, t: Tid)
    ensures Alike(Th(s, t), Th(Schedule(s), t))
  {
  }

  lemma FinishCalls(s: State, th: Thread, t: Tid)
    requires t != Me(s)
    ensures Alike(Th(s, t), Th(Finish(s, th), t))
  {
    ScheduleCalls(Put(s.(freeStacks := FreeStack(s.freeStacks, th.stack), cur := None), Me(s), th.(call := Gone)), t);
  }

  lemma WaitersAwait(s: State, q: Queue, t: Tid)
    requires Others(s)
    ensures t in Wq(s, q) <==> Awaits(Th(s, t).call) == Some(q)
  {
  }

  lemma WokenByExit(a: Thread, b: Thread, c: Thread, s: State, retval: int, t: Tid)
    requires Alike(a, b) || (EndedBy(a, b, BySignal) && Awaits(a.call) == Some(TermQ(Me(s))))
    requires Alike(b, c)
    ensures CallStep(a, c, s, EExit(retval), t)
  {
  }

  lemma ExitIs(s: State, retval: int)
    ensures var th, s1 := Th(s, Me(s)).(retval := retval), s.(active := s.active - 1);
      Exit(s, retval) == Next(if th.term then Sched.Schedule(SignalFrom(Bury(s1, th), Wq(s, TermQ(Me(s))), false)) else Sched.Finish(s1, th), Switched)
  {
  }

  lemma ExitCalls(s: State, retval: int, t: Tid)
    requires Others(s) && t != Me(s)
    ensures CallStep(Th(s, t), Th(Exit(s, retval).s, t), s, EExit(retval), t)
  {
    ExitIs(s, retval);
    hide Others, Exit, Schedule, SignalFrom, Finish, EndsWait, EndsPoll;
    var th, s1 := Th(s, Me(s)).(retval := retval), s.(active := s.active - 1);
    if th.term {
      ToldCalls(s, Bury(s1, th), retval, t);
    } else {
      FinishCalls(s1, th, t);
    }
  }

  /** From the burial on. */
  lemma ToldCalls(s: State, b: State, retval: int, t: Tid)
    requires Others(s) && Th(b, t) == Th(s, t)
    ensures CallStep(Th(s, t), Th(Schedule(SignalFrom(b, Wq(s, TermQ(Me(s))), false)), t), s, EExit(retval), t)
  {
    var q := Wq(s, TermQ(Me(s)));
    var c := SignalFrom(b, q, false);
    SignalCalls(b, q, false, t);
    ScheduleCalls(c, t);
    WaitersAwait(s, TermQ(Me(s)), t);
    WokenByExit(Th(s, t), Th(c, t), Th(Schedule(c), t), s, retval, t);
  }

  lemma HandOverCalls(s: State, m: nat, t: Tid)
    ensures Alike(Th(s, t), Th(Unlock(s, m).s, t))
  {
    HandOverIs(s, m, Wq(s, MutexQ(m)));
  }

  lemma BlockCalls(s: State, st: ThreadState, call: Call, timeout: Option<nat>, t: Tid)
    requires t != Me(s)
    ensures Alike(Th(s, t), Th(Schedule(Block(s, st, call, timeout)), t))
  {
    ScheduleCalls(Block(s, st, call, timeout), t);
  }

  lemma WaitCalls(s: State, q: Queue, timeout: Option<nat>, t: Tid)
    requires t != Me(s)
    ensures Alike(Th(s, t), Th(CondStart(s, q, timeout).s, t))
  {
    BlockCalls(s.(waitq := s.waitq[q := Wq(s, q) + [Me(s)]]), CondWait, InCond(q, NotYet), timeout, t);
  }

  lemma LockCalls(s: State, m: nat, t: Tid)
    requires t != Me(s)
    ensures Alike(Th(s, t), Th(Lock(s, m).s, t))
  {
    hide Block, Schedule;
    BlockCalls(s.(waitq := s.waitq[MutexQ(m) := Wq(s, MutexQ(m)) + [Me(s)]]), LockWait, InLock(m), None, t);
  }

  lemma SleepCalls(s: State, timeout: Option<nat>, t: Tid)
    requires t != Me(s)
    ensures Alike(Th(s, t), Th(Sleep(s, timeout).s, t))
  {
    BlockCalls(s, if timeout.Some? then Sleeping else Suspended, InSleep, timeout, t);
  }

  lemma ReleaseCalls(s: State, u: Tid, t: Tid)
    requires u in s.thr
    ensures Alike(Th(s, t), Th(Release(s, u).s, t))
  {
  }

  lemma JoinCalls(s: State, u: Tid, t: Tid)
    requires t != Me(s) && u in s.thr
    ensures Alike(Th(s, t), Th(Join(s, u).s, t))
  {
    WaitCalls(s, TermQ(u), None, t);
    ReleaseCalls(s, u, t);
  }

  lemma JoinEndCalls(s: State, u: Tid, t: Tid)
    requires t != Me(s) && u in s.thr
    ensures Alike(Th(s, t), Th(JoinEnd(s, u).s, t))
  {
    var n := CondEnd(s);
    assert Th(n.s, t) == Th(s, t);
    WaitCalls(n.s, TermQ(u), None, t);
    ReleaseCalls(n.s, u, t);
  }

  lemma PollCalls(s: State, pds: seq<PollFd>, timeout: Option<nat>, fails: set<nat>, t: Tid)
    requires t != Me(s)
    ensures Alike(Th(s, t), Th(Poll(s, pds, timeout, fails).s, t))
  {
    hide Block, Schedule, EpAdd;
    var a := EpAdd(s.ep, pds, fails);
    BlockCalls(s.(ep := a.ep, pq := s.pq[Me(s) := Pollq(pds, true)], ioq := s.ioq + [Me(s)]), IoWait, InPoll(NotYet), timeout, t);
  }

  lemma CallEndCalls(s: State, t: Tid)
    requires t != Me(s)
    ensures Alike(Th(s, t), Th(PollEnd(s).s, t)) && Alike(Th(s, t), Th(CondEnd(s).s, t))
    ensures Alike(Th(s, t), Th(LockEnd(s).s, t)) && Alike(Th(s, t), Th(SleepEnd(s).s, t))
  {
  }

  lemma ResumeCalls(s: State, t: Tid)
    requires Others(s) && t != Me(s)
    ensures Alike(Th(s, t), Th(Resume(s).s, t))
  {
    match Th(s, Me(s)).call
    case InPoll(_) => CallEndCalls(s, t);
    case InLock(_) => CallEndCalls(s, t);
    case InSleep => CallEndCalls(s, t);
    case InCond(q, _) =>
      if Joins(s, Me(s)) {
        JoinEndCalls(s, q.t, t);
      } else {
        CallEndCalls(s, t);
      }
    case InExit => FinishCalls(s, Th(s, Me(s)).(term := false), t);
    case _ =>
  }

  /** Steps that end nobody's wait. */
  predicate Unwaking(e: Event) {
    e.EUnlock? || e.EWait? || e.ESleep? || e.ELock? || e.EJoin? || e.EPoll? || e.EResume? || e.ETryLock? || e.ECreate?
  }

  lemma UnwakingCalls(s: State, e: Event, t: Tid)
    requires Others(s) && Enabled(s, e) && (e.ECreate? ==> e.t != t) && t != Me(s) && Unwaking(e)
    ensures Alike(Th(s, t), Th(Step(s, e).s, t))
  {
    match e
    case EUnlock(m) => HandOverCalls(s, m, t);
    case EWait(c, timeout) => WaitCalls(s, CondQ(c), timeout, t);
    case ESleep(timeout) => SleepCalls(s, timeout, t);
    case ELock(m) => LockCalls(s, m, t);
    case EJoin(u) => JoinCalls(s, u, t);
    case EPoll(pds, timeout, fails) => PollCalls(s, pds, timeout, fails, t);
    case EResume => ResumeCalls(s, t);
    case ECreate(_, _, _) =>
    case ETryLock(_) =>
  }

  /** A step that t does not take leaves its call alone, or ends its wait or its
      poll with the cause that belongs to the step; what has ended stays ended
      for the same cause. */
  lemma StepCalls(s: State, e: Event, t: Tid)
    requires Inv(s) && Enabled(s, e) && (e.ECreate? ==> e.t != t) && t != Me(s)
    ensures CallStep(Th(s, t), Th(Step(s, e).s, t), s, e, t)
  {
    match e
    case EIdle(_, _, _, _) => IdleCalls(s, e, t);
    case ESignal(c, broadcast) => SignalStepCalls(s, c, broadcast, t);
    case EExit(retval) => ExitCalls(s, retval, t);
    case EInterrupt(u) => InterruptCalls(s, u, t);
    case _ => UnwakingCalls(s, e, t);
  }

  lemma InterruptCalls(s: State, u: Tid, t: Tid)
    requires u in s.thr
    ensures CallStep(Th(s, t), Th(Interrupt(s, u).s, t), s, EInterrupt(u), t)
  {
    if t == u {
      InterruptedCalls(s, t);
    }
    hide HasFired;
  }

  lemma InterruptedCalls(s: State, t: Tid)
    requires t in s.thr
    ensures CallStep(Th(s, t), Th(Interrupt(s, t).s, t), s, EInterrupt(t), t)
  {
    hide HasFired;
  }
}
