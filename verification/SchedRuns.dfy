/** The invariant of the scheduler holds in every state of every run. */
module SchedRuns {
  import opened ThreadTypes
  import opened Wrappers
  import opened Sched
  import opened SchedInv
  import opened SchedKeeps
  import opened SchedOthers
  import opened SchedSteps
  import opened SchedIo
  import E = Epoll

  ghost predicate Inv(s: State) {
    Ready(s) && Others(s) && Io(s)
  }

  // ------------------------------------------------ steps that keep off I/O

  ghost predicate IoUntouched(s: State, r: State) {
    r.ep == s.ep && r.ioq == s.ioq && r.pq == s.pq
  }

  lemma {:induction false} SignalIo(s: State, q: seq<Tid>, broadcast: bool)
    ensures IoUntouched(s, SignalFrom(s, q, broadcast))
    decreases |q|
  {
    if q == [] {
    } else {
      if Th(s, q[0]).state == CondWait {
        SignalIo(WakeUp(s, q[0], BySignal), q[1..], broadcast);
      } else {
        SignalIo(s, q[1..], broadcast);
      }
    }
  }

  lemma {:induction false} ExpireAllIo(s: State, woken: seq<Tid>)
    ensures IoUntouched(s, ExpireAll(s, woken))
    decreases |woken|
  {
    if woken == [] {
    } else {
      ExpireAllIo(Expire(s, woken[0]), woken[1..]);
    }
  }

  lemma UnlockIo(s: State, m: nat)
    ensures IoUntouched(s, Unlock(s, m).s)
  {
    HandOverIs(s, m, Wq(s, MutexQ(m)));
  }

  lemma ExitIo(s: State, retval: int)
    ensures IoUntouched(s, Exit(s, retval).s)
  {
    var th := Th(s, Me(s)).(retval := retval);
    SignalIo(Bury(s.(active := s.active - 1), th), Wq(s, TermQ(Me(s))), false);
  }

  lemma JoinEndIo(s: State, t: Tid)
    ensures IoUntouched(s, JoinEnd(s, t).s)
  {
  }

  lemma CallEndIo(s: State)
    ensures IoUntouched(s, CondEnd(s).s) && IoUntouched(s, LockEnd(s).s)
    ensures IoUntouched(s, SleepEnd(s).s) && IoUntouched(s, ExitEnd(s).s)
  {
  }

  lemma ResumeIo(s: State)
    requires Inv(s) && Enabled(s, EResume)
    ensures Io(Resume(s).s)
  {
    match Th(s, Me(s)).call
    case InPoll(_) => PollEndIo(s);
    case _ => OtherResumeIo(s);
  }

  lemma OtherResumeIo(s: State)
    requires Io(s) && !Th(s, Me(s)).call.InPoll?
    ensures Io(Resume(s).s)
  {
    CallEndIo(s);
    var call := Th(s, Me(s)).call;
    if call.InCond? && call.q.TermQ? {
      JoinEndIo(s, call.q.t);
    }
    hide CondEnd, LockEnd, SleepEnd, ExitEnd, JoinEnd, Io;
    SameIo(s, Resume(s).s);
  }

  lemma IdleIo(s: State, forked: bool, fired: seq<E.Fired>, now: int, woken: seq<Tid>)
    requires Inv(s) && Enabled(s, EIdle(forked, fired, now, woken))
    ensures Io(Idle(s, forked, fired, now, woken).s)
  {
    var s0 := if forked then Reopen(s) else s;
    ForkChangesNothing(s);
    ElsewherePlaces(s, s0);
    DispatchIo(s0, fired);
    var s1 := Dispatch(s0, fired);
    SameIo(s1, s1.(clock := now));
    ExpiryIo(s1.(clock := now), woken);
  }

  /** The rest of the round, after the dispatch. */
  lemma ExpiryIo(s: State, woken: seq<Tid>)
    requires Io(s)
    ensures var s2 := ExpireAll(s, woken);
      Io(Schedule(Put(s2.(cur := None), s2.idle, Th(s2, s2.idle).(state := Runnable))))
  {
    ExpireAllIo(s, woken);
    var s2 := ExpireAll(s, woken);
    SameIo(s, Schedule(Put(s2.(cur := None), s2.idle, Th(s2, s2.idle).(state := Runnable))));
  }

  /** Steps that have nothing to do with descriptors. */
  lemma QuietIo(s: State, e: Event)
    requires !e.EPoll? && !e.EIdle? && !e.EResume?
    ensures IoUntouched(s, Step(s, e).s)
  {
    match e
    case ESignal(c, broadcast) => SignalIo(s, Wq(s, CondQ(c)), broadcast);
    case EUnlock(m) => UnlockIo(s, m);
    case EExit(retval) => ExitIo(s, retval);
    case EJoin(t) => JoinIo(s, t);
    case EWait(c, timeout) => WaitIo(s, CondQ(c), timeout);
    case ESleep(timeout) => SleepIo(s, timeout);
    case ELock(m) => LockIo(s, m);
    case EInterrupt(t) => InterruptIo(s, t);
    case _ =>
  }

  lemma WaitIo(s: State, q: Queue, timeout: Option<nat>)
    ensures IoUntouched(s, CondStart(s, q, timeout).s)
  {
  }

  lemma JoinIo(s: State, t: Tid)
    ensures IoUntouched(s, Join(s, t).s)
  {
    WaitIo(s, TermQ(t), None);
  }

  lemma SleepIo(s: State, timeout: Option<nat>)
    ensures IoUntouched(s, Sleep(s, timeout).s)
  {
  }

  lemma LockIo(s: State, m: nat)
    ensures IoUntouched(s, Lock(s, m).s)
  {
  }

  lemma InterruptIo(s: State, t: Tid)
    ensures IoUntouched(s, Interrupt(s, t).s)
  {
  }

  lemma StepIo(s: State, e: Event)
    requires Inv(s) && Enabled(s, e)
    ensures Io(Step(s, e).s)
  {
    match e
    case EPoll(pds, timeout, fails) => PollIo(s, pds, timeout, fails);
    case EIdle(forked, fired, now, woken) => IdleIo(s, forked, fired, now, woken);
    case EResume => ResumeIo(s);
    case _ =>
      QuietIo(s, e);
      SameIo(s, Step(s, e).s);
  }

  // ------------------------------------------------------------------- runs

  lemma QueuesAreKnown(s: State)
    requires Others(s)
    ensures QueuesKnown(s)
  {
    forall q, t | t in Wq(s, q)
      ensures t in s.thr
    {
      assert t in Wq(s, q) <==> Awaits(Th(s, t).call) == Some(q);
    }
    forall t | t in s.thr && s.thr[t].call.InCond? && s.thr[t].call.q.TermQ?
      ensures s.thr[t].call.q.t in s.thr
    {
      assert Joins(s, t);
    }
  }

  /** One step keeps all of the invariant. */
  lemma StepKeeps(s: State, e: Event)
    requires Inv(s) && Enabled(s, e)
    ensures Inv(Step(s, e).s)
  {
    QueuesAreKnown(s);
    StepPlaces(s, e);
    StepOthers(s, e);
    StepIo(s, e);
  }

  lemma {:induction false} RunKeeps(s: State, es: seq<Event>)
    requires Inv(s) && Possible(s, es)
    ensures Inv(Run(s, es))
    decreases |es|
  {
    if es == [] {
    } else {
      StepKeeps(s, es[0]);
      RunKeeps(Step(s, es[0]).s, es[1..]);
    }
  }

  lemma InitInv(idle: Tid, primordial: Tid, clock: int, tableSize: nat)
    requires idle != primordial && tableSize > 0
    ensures Inv(Init(idle, primordial, clock, tableSize))
  {
    var s := Init(idle, primordial, clock, tableSize);
    assert InPlace(s, idle) && InPlace(s, primordial);
    assert forall f :: E.Synced(s.ep, f);
    assert forall t: Tid :: OnCondition(s, t) && LockOk(s, t);
    assert ActiveSet(s) == {primordial};
  }

  /** In every run, at every context switch, every thread is exactly where its
      state says; wait queues, locks, stacks and the active count are in order;
      and the descriptor table and the kernel agree with the I/O queue. */
  lemma EveryRun(idle: Tid, primordial: Tid, clock: int, tableSize: nat, es: seq<Event>)
    requires idle != primordial && tableSize > 0 && Possible(Init(idle, primordial, clock, tableSize), es)
    ensures Inv(Run(Init(idle, primordial, clock, tableSize), es))
  {
    InitInv(idle, primordial, clock, tableSize);
    RunKeeps(Init(idle, primordial, clock, tableSize), es);
  }
}
