/** Interrupts: one is noted whatever its target is doing, and it is never lost
    (sched.c, sync.c). */
module SchedInterrupt {
  import opened ThreadTypes
  import opened Wrappers
  import opened Sched
  import opened SchedInv
  import opened SchedOthers
  import opened SchedRuns
  import opened SchedCalls
  import opened SchedCond
  import opened SchedJoin
  import opened SchedOwn
  import opened SchedDeadline

  lemma AwakeOrWaiting(s: State, t: Tid)
    requires Inv(s) && Live(s, t)
    ensures var th := s.thr[t];
      && (Able(s, t) || t == s.idle <==> Awake(th)) && (th.state == Zombie || Awake(th) || Waiting(th.state))
      && (t in s.sleep ==> th.onSleepq && !Awake(th)) && (IsWait(th.call) && Waiting(th.state) ==> th.call.cause == NotYet)
  {
    assert InPlace(s, t) && InPlace(s, s.idle);
  }

  /** What an interrupt does to the scheduler. */
  predicate Noted(s: State, n: Next, t: Tid) {
    var th := Th(s, t);
    && n.out == Ok(0) && Th(n.s, t).interrupted && t !in n.s.sleep
    && n.s.thr == s.thr[t := Th(n.s, t)] && n.s.cur == s.cur
    && (Awake(th) ==> n.s == Put(s, t, th.(interrupted := true)))
    && (!Awake(th) ==> n.s.runq == s.runq + [t] && Awake(Th(n.s, t)))
    && (!Awake(th) && IsWait(th.call) ==> IsWait(Th(n.s, t).call) && Th(n.s, t).call.cause == ByInterrupt)
  }

  /** An interrupt is noted unless its target has already exited: a target that
      is running or runnable only gets the flag, and one that waits is made able
      to run besides. */
  lemma InterruptNoted(s: State, t: Tid)
    requires Inv(s) && Enabled(s, EInterrupt(t))
    ensures var n := Step(s, EInterrupt(t));
      if Th(s, t).state == Zombie then n == Next(s, Ok(0)) else Noted(s, n, t)
  {
    AwakeOrWaiting(s, t);
    hide Inv, Enabled, Step;
    InterruptIs(s, t);
  }

  lemma InterruptIs(s: State, t: Tid)
    ensures Step(s, EInterrupt(t)) == Interrupt(s, t)
  {
  }

  predicate Blocking(e: Event) {
    e.ESleep? || e.EWait? || e.EPoll? || e.ELock?
  }

  /** The next blocking call of a thread that has been interrupted does not
      block: it reports the interrupt and takes it back. */
  lemma NextCallReports(s: State, e: Event)
    requires Inv(s) && Enabled(s, e) && Blocking(e) && Th(s, Me(s)).interrupted
    ensures ReportsInterrupt(s, Step(s, e))
  {
    match e
    case EPoll(pds, timeout, fails) => PollStarts(s, pds, timeout, fails);
    case EWait(c, timeout) => WaitStarts(s, c, timeout);
    case ESleep(timeout) => SleepStarts(s, timeout);
    case ELock(m) => LockStarts(s, m);
  }

  // ------------------------------------------------------------- never lost

  lemma JoinFlag(s: State, u: Tid)
    requires Inv(s) && Enabled(s, EJoin(u)) && Th(s, Me(s)).interrupted
    ensures Th(Join(s, u).s, Me(s)).interrupted || Join(s, u).out == Failed(EINTR)
  {
    assert InPlace(s, Me(s));
  }

  lemma ResumeFlag(s: State)
    requires Inv(s) && Enabled(s, EResume) && Th(s, Me(s)).interrupted && !Exited(Th(s, Me(s)))
    ensures Th(Resume(s).s, Me(s)).interrupted || Resume(s).out == Failed(EINTR)
  {
  }

  /** The thread's own flag after step e: still set, unless EINTR was reported or
      the thread has exited. */
  predicate FlagAfter(s: State, n: Next) {
    Th(n.s, Me(s)).interrupted || n.out == Failed(EINTR) || Exited(Th(n.s, Me(s)))
  }

  lemma SignalFlag(s: State, c: nat, broadcast: bool)
    requires Th(s, Me(s)).interrupted
    ensures FlagAfter(s, Step(s, ESignal(c, broadcast)))
  {
    hide SignalFrom;
    SignalCalls(s, Wq(s, CondQ(c)), broadcast, Me(s));
  }

  lemma RoundFlag(s: State, e: Event)
    requires Inv(s) && Enabled(s, e) && e.EIdle? && Th(s, Me(s)).interrupted
    ensures FlagAfter(s, Step(s, e))
  {
    hide Inv, Enabled, Step;
    IdleCalls(s, e, Me(s));
  }

  lemma PlainFlag(s: State, e: Event)
    requires Inv(s) && Enabled(s, e) && (e.EUnlock? || e.ECreate? || e.ETryLock?)
    ensures Th(Step(s, e).s, Me(s)).interrupted == Th(s, Me(s)).interrupted
  {
    MayStep(s, e);
    hide Inv, Enabled, HandOver, PickStack;
    match e
    case EUnlock(m) => HandOverCalls(s, m, Me(s));
    case _ =>
  }

  lemma OthersInterrupt(s: State, u: Tid)
    ensures Th(s, Me(s)).interrupted ==> Th(Step(s, EInterrupt(u)).s, Me(s)).interrupted
    ensures u != Me(s) ==> Th(Step(s, EInterrupt(u)).s, Me(s)).interrupted == Th(s, Me(s)).interrupted
  {
    hide Step;
    InterruptIs(s, u);
  }

  /** A thread's own step, other than the start of a blocking call. */
  lemma OwnFlag(s: State, e: Event)
    requires Inv(s) && Enabled(s, e) && !Blocking(e) && Th(s, Me(s)).interrupted && !Exited(Th(s, Me(s)))
    ensures FlagAfter(s, Step(s, e))
  {
    match e
    case EExit(retval) => ExitRecords(s, retval);
    case EJoin(u) => JoinFlag(s, u);
    case EResume => ResumeFlag(s);
    case ESignal(c, broadcast) => SignalFlag(s, c, broadcast);
    case EInterrupt(u) => OthersInterrupt(s, u);
    case EIdle(_, _, _, _) => RoundFlag(s, e);
    case _ => PlainFlag(s, e);
  }

  /** An interrupt that has been noted stays noted until its target reports it,
      or exits. */
  lemma StepKeepsFlag(s: State, e: Event, t: Tid)
    requires Inv(s) && Enabled(s, e) && t in s.thr && Th(s, t).interrupted && !Exited(Th(s, t))
    ensures var n := Step(s, e);
      Th(n.s, t).interrupted || (t == Me(s) && n.out == Failed(EINTR)) || Exited(Th(n.s, t))
  {
    if t != Me(s) {
      StepCalls(s, e, t);
    } else if Blocking(e) {
      NextCallReports(s, e);
    } else {
      OwnFlag(s, e);
    }
  }

  /** In some step of the run t reports an interrupt. */
  predicate Reports(s: State, es: seq<Event>, t: Tid)
    decreases |es|
  {
    es != [] && ((Me(s) == t && Step(s, es[0]).out == Failed(EINTR)) || Reports(Step(s, es[0]).s, es[1..], t))
  }

  lemma {:induction false} FlagKept(s: State, es: seq<Event>, t: Tid)
    requires Inv(s) && Possible(s, es) && t in s.thr && Th(s, t).interrupted
    ensures Th(Run(s, es), t).interrupted || Reports(s, es, t) || Exited(Th(Run(s, es), t))
    decreases |es|
  {
    hide Inv, Step, Enabled;
    if es == [] {
    } else if Exited(Th(s, t)) {
      ExitedStays(s, es, t);
    } else {
      StepKeeps(s, es[0]);
      StepKeepsFlag(s, es[0], t);
      var r := Step(s, es[0]).s;
      assert (Th(r, t).interrupted || Exited(Th(r, t))) ==> t in r.thr;
      if Th(r, t).interrupted {
        FlagKept(r, es[1..], t);
      } else if Exited(Th(r, t)) {
        ExitedStays(r, es[1..], t);
      }
    }
  }

  /** No interrupt is lost: in every run that goes on from it, the target has it
      noted still, or has reported it by EINTR, or has exited. */
  lemma InterruptNeverLost(s: State, t: Tid, es: seq<Event>)
    requires Inv(s) && Enabled(s, EInterrupt(t)) && Th(s, t).state != Zombie && Possible(Step(s, EInterrupt(t)).s, es)
    ensures var s1 := Step(s, EInterrupt(t)).s; var r := Run(s1, es);
      Th(r, t).interrupted || Reports(s1, es, t) || Exited(Th(r, t))
  {
    StepKeeps(s, EInterrupt(t));
    InterruptNoted(s, t);
    FlagKept(Step(s, EInterrupt(t)).s, es, t);
  }

  // ------------------------------------------------------- never made up

  lemma BlockFlag(s: State, st: ThreadState, call: Call, timeout: Option<nat>)
    ensures Th(Schedule(Block(s, st, call, timeout)), Me(s)).interrupted == Th(s, Me(s)).interrupted
  {
    ScheduleCalls(Block(s, st, call, timeout), Me(s));
  }

  lemma WaitFlag(s: State, q: Queue, timeout: Option<nat>)
    ensures Th(CondStart(s, q, timeout).s, Me(s)).interrupted ==> Th(s, Me(s)).interrupted
  {
    hide Block, Schedule;
    BlockFlag(s.(waitq := s.waitq[q := Wq(s, q) + [Me(s)]]), CondWait, InCond(q, NotYet), timeout);
  }

  lemma BlockingFlag(s: State, e: Event)
    requires Inv(s) && Enabled(s, e) && Blocking(e)
    ensures Th(Step(s, e).s, Me(s)).interrupted ==> Th(s, Me(s)).interrupted
  {
    match e
    case EPoll(pds, timeout, fails) => PollStarts(s, pds, timeout, fails);
    case EWait(c, timeout) => WaitStarts(s, c, timeout);
    case ESleep(timeout) => SleepStarts(s, timeout);
    case ELock(m) => LockStarts(s, m);
  }

  lemma ExitFlag(s: State, retval: int)
    ensures Th(Exit(s, retval).s, Me(s)).interrupted ==> Th(s, Me(s)).interrupted
  {
    ExitIs(s, retval);
    var th, s1, q := Th(s, Me(s)).(retval := retval), s.(active := s.active - 1), Wq(s, TermQ(Me(s)));
    var b := Bury(s1, th);
    SignalCalls(b, q, false, Me(s));
    ScheduleCalls(SignalFrom(b, q, false), Me(s));
    FinishFlag(s1, th);
  }

  lemma FinishFlag(s: State, th: Thread)
    ensures Th(Finish(s, th), Me(s)).interrupted == th.interrupted
  {
    ScheduleCalls(Put(s.(freeStacks := FreeStack(s.freeStacks, th.stack), cur := None), Me(s), th.(call := Gone)), Me(s));
  }

  lemma JoinNoFlag(s: State, u: Tid)
    requires (Th(s, u).state == Zombie ==> u != Me(s)) && u in s.thr
    ensures Th(Join(s, u).s, Me(s)).interrupted ==> Th(s, Me(s)).interrupted
  {
    WaitFlag(s, TermQ(u), None);
  }

  lemma JoinEndNoFlag(s: State, u: Tid)
    requires u != Me(s) && u in s.thr
    ensures Th(JoinEnd(s, u).s, Me(s)).interrupted ==> Th(s, Me(s)).interrupted
  {
    WaitFlag(CondEnd(s).s, TermQ(u), None);
  }

  lemma EndsNoFlag(s: State)
    ensures var a, me := Th(s, Me(s)), Me(s);
      && (Th(PollEnd(s).s, me).interrupted ==> a.interrupted) && (Th(CondEnd(s).s, me).interrupted ==> a.interrupted)
      && (Th(LockEnd(s).s, me).interrupted ==> a.interrupted) && (Th(SleepEnd(s).s, me).interrupted ==> a.interrupted)
  {
    hide EpDel, Without;
  }

  lemma ResumeNoFlag(s: State)
    requires Inv(s) && Enabled(s, EResume)
    ensures Th(Resume(s).s, Me(s)).interrupted ==> Th(s, Me(s)).interrupted
  {
    if Joins(s, Me(s)) {
      var t := Th(s, Me(s)).call.q.t;
      assert Resume(s) == JoinEnd(s, t);
      JoinEndNoFlag(s, t);
    } else {
      hide Inv, Enabled, PollEnd, CondEnd, LockEnd, SleepEnd, Finish;
      EndsNoFlag(s);
      FinishFlag(s, Th(s, Me(s)).(term := false));
    }
  }

  lemma JoinsNoFlag(s: State, u: Tid)
    requires Inv(s) && Enabled(s, EJoin(u))
    ensures Th(Join(s, u).s, Me(s)).interrupted ==> Th(s, Me(s)).interrupted
  {
    MayStep(s, EJoin(u));
    JoinNoFlag(s, u);
  }

  lemma SignalNoFlag(s: State, c: nat, broadcast: bool)
    ensures Th(Step(s, ESignal(c, broadcast)).s, Me(s)).interrupted ==> Th(s, Me(s)).interrupted
  {
    hide SignalFrom;
    SignalCalls(s, Wq(s, CondQ(c)), broadcast, Me(s));
  }

  lemma RoundNoFlag(s: State, e: Event)
    requires Inv(s) && Enabled(s, e) && e.EIdle?
    ensures Th(Step(s, e).s, Me(s)).interrupted ==> Th(s, Me(s)).interrupted
  {
    hide Inv, Enabled, Step;
    IdleCalls(s, e, Me(s));
  }

  lemma OwnNoFlag(s: State, e: Event)
    requires Inv(s) && Enabled(s, e) && e != EInterrupt(Me(s))
    ensures Th(Step(s, e).s, Me(s)).interrupted ==> Th(s, Me(s)).interrupted
  {
    match e
    case EExit(retval) => ExitFlag(s, retval);
    case EJoin(u) => JoinsNoFlag(s, u);
    case ESignal(c, broadcast) => SignalNoFlag(s, c, broadcast);
    case EInterrupt(u) => OthersInterrupt(s, u);
    case EIdle(_, _, _, _) => RoundNoFlag(s, e);
    case EResume => ResumeNoFlag(s);
    case _ =>
      if Blocking(e) {
        BlockingFlag(s, e);
      } else {
        PlainFlag(s, e);
      }
  }

  /** Nothing but an interrupt of the thread sets its flag. */
  lemma OnlyInterrupts(s: State, e: Event, t: Tid)
    requires Inv(s) && Enabled(s, e) && Th(Step(s, e).s, t).interrupted && !Th(s, t).interrupted
    ensures e == EInterrupt(t)
  {
    if e.ECreate? && e.t == t {
    } else if t == Me(s) {
      if e != EInterrupt(t) {
        OwnNoFlag(s, e);
      }
    } else {
      StepCalls(s, e, t);
    }
  }

  /** A call reports EINTR only if its thread has an interrupt noted. */
  lemma EintrMeansInterrupted(s: State, e: Event)
    requires Inv(s) && Enabled(s, e) && Step(s, e).out == Failed(EINTR)
    ensures Th(s, Me(s)).interrupted
  {
  }
}
