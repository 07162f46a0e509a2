/** What a step does to the thread that takes it. */
module SchedOwn {
  import opened ThreadTypes
  import opened Wrappers
  import opened PollTypes
  import opened Sched
  import opened SchedInv
  import opened SchedOthers
  import opened SchedRuns
  import opened SchedCalls
  import opened SchedJoin

  /** Thread `me` is inside a join of thread t. */
  predicate JoinsIt(s: State, me: Tid, t: Tid) {
    Joins(s, me) && Th(s, me).call.q.t == t
  }

  /** What a step other than an exit makes of the thread a that takes it: the
      thread has not exited, and it is not inside a join. */
  predicate GoesOn(a: Thread, b: Thread) {
    b.term == a.term && !Exited(b) && !(b.call.InCond? && b.call.q.TermQ?)
  }

  lemma BlockOwn(s: State, st: ThreadState, call: Call, timeout: Option<nat>)
    ensures var th := Th(Schedule(Block(s, st, call, timeout)), Me(s));
      th.call == call && th.term == Th(s, Me(s)).term && th.onSleepq == timeout.Some?
  {
    ScheduleCalls(Block(s, st, call, timeout), Me(s));
  }

  lemma WaitOwn(s: State, q: Queue, timeout: Option<nat>)
    requires !Th(s, Me(s)).interrupted
    ensures var th := Th(CondStart(s, q, timeout).s, Me(s));
      th.call == InCond(q, NotYet) && th.term == Th(s, Me(s)).term && th.onSleepq == timeout.Some?
  {
    BlockOwn(s.(waitq := s.waitq[q := Wq(s, q) + [Me(s)]]), CondWait, InCond(q, NotYet), timeout);
  }

  lemma LockOwn(s: State, m: nat)
    requires Th(s, Me(s)).call == NoCall
    ensures GoesOn(Th(s, Me(s)), Th(Lock(s, m).s, Me(s)))
  {
    BlockOwn(s.(waitq := s.waitq[MutexQ(m) := Wq(s, MutexQ(m)) + [Me(s)]]), LockWait, InLock(m), None);
  }

  lemma SleepOwn(s: State, timeout: Option<nat>)
    requires Th(s, Me(s)).call == NoCall
    ensures GoesOn(Th(s, Me(s)), Th(Sleep(s, timeout).s, Me(s)))
  {
    BlockOwn(s, if timeout.Some? then Sleeping else Suspended, InSleep, timeout);
  }

  lemma PollOwn(s: State, pds: seq<PollFd>, timeout: Option<nat>, fails: set<nat>)
    requires Th(s, Me(s)).call == NoCall
    ensures GoesOn(Th(s, Me(s)), Th(Poll(s, pds, timeout, fails).s, Me(s)))
  {
    var a := EpAdd(s.ep, pds, fails);
    BlockOwn(s.(ep := a.ep, pq := s.pq[Me(s) := Pollq(pds, true)], ioq := s.ioq + [Me(s)]), IoWait, InPoll(NotYet), timeout);
  }

  lemma WaitGoesOn(s: State, c: nat, timeout: Option<nat>)
    requires Th(s, Me(s)).call == NoCall
    ensures GoesOn(Th(s, Me(s)), Th(CondStart(s, CondQ(c), timeout).s, Me(s)))
  {
    if !Th(s, Me(s)).interrupted {
      WaitOwn(s, CondQ(c), timeout);
    }
  }

  lemma MayStep(s: State, e: Event)
    requires Inv(s) && Enabled(s, e) && !e.EResume?
    ensures Me(s) in s.thr && Th(s, Me(s)).call == NoCall && (e.ECreate? ==> e.t != Me(s))
    ensures Th(s, Me(s)).state == Running
  {
    assert InPlace(s, Me(s));
  }

  /** Steps that wake others. */
  lemma WakingOwn(s: State, e: Event)
    requires Inv(s) && Enabled(s, e) && (e.ESignal? || e.EUnlock? || e.EInterrupt? || e.EIdle?)
    ensures GoesOn(Th(s, Me(s)), Th(Step(s, e).s, Me(s)))
  {
    MayStep(s, e);
    match e
    case ESignal(c, broadcast) => SignalStepCalls(s, c, broadcast, Me(s));
    case EUnlock(m) => HandOverCalls(s, m, Me(s));
    case EInterrupt(u) => InterruptCalls(s, u, Me(s));
    case EIdle(_, _, _, _) => IdleCalls(s, e, Me(s));
  }

  /** Steps other than the start of a join, the end of a call and an exit. */
  lemma PlainOwn(s: State, e: Event)
    requires Inv(s) && Enabled(s, e) && !e.EExit? && !e.EJoin? && !e.EResume?
    ensures GoesOn(Th(s, Me(s)), Th(Step(s, e).s, Me(s)))
  {
    MayStep(s, e);
    hide Inv, Enabled, Schedule, Block, Poll, Lock, Sleep, CondStart, Idle;
    match e
    case EWait(c, timeout) => WaitGoesOn(s, c, timeout);
    case ESleep(timeout) => SleepOwn(s, timeout);
    case ELock(m) => LockOwn(s, m);
    case EPoll(pds, timeout, fails) => PollOwn(s, pds, timeout, fails);
    case ECreate(_, _, _) =>
    case ETryLock(_) =>
    case _ => WakingOwn(s, e);
  }

  /** The step starts a wait for the end of t, on an empty queue. */
  predicate Starts(s: State, e: Event, t: Tid) {
    e == EJoin(t) && Wq(s, TermQ(t)) == [] && Th(s, t).term && t != Me(s) && Th(s, t).state != Zombie
    && !Th(s, Me(s)).interrupted
  }

  lemma JoinOwn(s: State, t: Tid)
    requires Th(s, Me(s)).call == NoCall && Me(s) in s.thr && t in s.thr && (Th(s, t).state == Zombie ==> t != Me(s))
    ensures var a, b := Th(s, Me(s)), Th(Join(s, t).s, Me(s));
      if Starts(s, EJoin(t), t) then b.call == InCond(TermQ(t), NotYet) && b.term == a.term && !b.onSleepq else GoesOn(a, b)
  {
    if Starts(s, EJoin(t), t) {
      WaitOwn(s, TermQ(t), None);
    }
  }

  /** A join that goes back to waiting after it has been woken. */
  predicate WaitsOn(s: State, t: Tid) {
    var a := Th(s, Me(s));
    JoinsIt(s, Me(s), t) && Th(s, t).state != Zombie && !a.interrupted && !a.timedOut
  }

  lemma JoinEndOwn(s: State, t: Tid)
    requires JoinsIt(s, Me(s), t) && Me(s) in s.thr && t in s.thr && t != Me(s)
    ensures var a, b := Th(s, Me(s)), Th(JoinEnd(s, t).s, Me(s));
      if WaitsOn(s, t) then b.call == InCond(TermQ(t), NotYet) && b.term == a.term else GoesOn(a, b)
  {
    var n := CondEnd(s);
    assert Th(n.s, t) == Th(s, t);
    if WaitsOn(s, t) {
      WaitOwn(n.s, TermQ(t), None);
    }
  }

  lemma EndsOwn(s: State)
    ensures var a, me := Th(s, Me(s)), Me(s);
      && GoesOn(a, Th(PollEnd(s).s, me)) && GoesOn(a, Th(CondEnd(s).s, me))
      && GoesOn(a, Th(LockEnd(s).s, me)) && GoesOn(a, Th(SleepEnd(s).s, me))
  {
    hide EpDel, Without;
  }

  /** The ends of calls other than joins and exits. */
  lemma CallEndOwn(s: State)
    requires !Exited(Th(s, Me(s))) && !Joins(s, Me(s))
    ensures GoesOn(Th(s, Me(s)), Th(Resume(s).s, Me(s)))
  {
    EndsOwn(s);
    hide PollEnd, CondEnd, LockEnd, SleepEnd;
  }

  lemma ResumeOwn(s: State)
    requires Inv(s) && Enabled(s, EResume) && !Exited(Th(s, Me(s)))
    ensures var a, b := Th(s, Me(s)), Th(Resume(s).s, Me(s));
      b.term == a.term && !Exited(b) && (Joins(Resume(s).s, Me(s)) ==> WaitsOn(s, b.call.q.t))
  {
    if Joins(s, Me(s)) {
      var t := Th(s, Me(s)).call.q.t;
      assert Resume(s) == JoinEnd(s, t);
      JoinEndOwn(s, t);
    } else {
      CallEndOwn(s);
    }
  }

  /** A step after which its own thread is inside a join starts the wait of that
      join, or goes back to it. */
  lemma OwnStep(s: State, e: Event, t: Tid)
    requires Inv(s) && Enabled(s, e) && JoinsIt(Step(s, e).s, Me(s), t)
    ensures Starts(s, e, t) || (e == EResume && WaitsOn(s, t))
  {
    match e
    case EExit(retval) => ExitRecords(s, retval);
    case EJoin(u) => JoinOwnStep(s, u, t);
    case EResume =>
      if Exited(Th(s, Me(s))) {
        OnceExited(s, e);
      } else {
        ResumeOwn(s);
      }
    case _ => PlainOwn(s, e);
  }

  lemma OnceExited(s: State, e: Event)
    requires Inv(s) && Enabled(s, e) && Exited(Th(s, Me(s)))
    ensures Exited(Th(Step(s, e).s, Me(s)))
  {
    ExitedStep(s, e, Me(s));
  }

  lemma JoinOwnStep(s: State, u: Tid, t: Tid)
    requires Inv(s) && Enabled(s, EJoin(u)) && JoinsIt(Join(s, u).s, Me(s), t)
    ensures Starts(s, EJoin(u), t)
  {
    assert InPlace(s, u) && InPlace(s, Me(s));
    JoinOwn(s, u);
  }

  /** A thread that does not exit goes on, with its termination condition. */
  lemma TargetGoesOn(s: State, e: Event)
    requires Inv(s) && Enabled(s, e) && !e.EExit? && !Exited(Th(s, Me(s)))
    ensures Th(Step(s, e).s, Me(s)).term == Th(s, Me(s)).term && !Exited(Th(Step(s, e).s, Me(s)))
  {
    match e
    case EJoin(u) => JoinGoesOn(s, u);
    case EResume => ResumeOwn(s);
    case _ => PlainOwn(s, e);
  }

  lemma JoinGoesOn(s: State, t: Tid)
    requires Inv(s) && Enabled(s, EJoin(t))
    ensures Th(Join(s, t).s, Me(s)).term == Th(s, Me(s)).term && !Exited(Th(Join(s, t).s, Me(s)))
  {
    assert InPlace(s, t) && InPlace(s, Me(s));
    JoinOwn(s, t);
  }
}
