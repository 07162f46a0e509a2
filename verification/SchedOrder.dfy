/** Joins: at most one thread waits for the end of another, and what a join can
    rely on as long as it is the first of its target, whatever other threads do
    (sched.c). */
module SchedOrder {
  import opened ThreadTypes
  import opened Wrappers
  import opened Sched
  import opened SchedInv
  import opened SchedOthers
  import opened SchedRuns
  import opened SchedCalls
  import opened SchedJoin
  import opened SchedOwn

  /** A join of t by `me` is alone on the termination condition of t, waits
      without a timeout, and if it was signalled, t is a zombie. */
  ghost predicate Alone(s: State, me: Tid, t: Tid) {
    JoinsIt(s, me, t) ==>
      && Wq(s, TermQ(t)) == [me] && !Th(s, me).onSleepq && Th(s, me).call.cause != ByTimeout
      && (Th(s, me).call.cause == BySignal ==> Th(s, t).state == Zombie)
      && (!Exited(Th(s, t)) ==> Th(s, t).term)
  }

  ghost predicate OneJoiner(s: State) {
    forall me: Tid, t: Tid {:trigger Alone(s, me, t)} :: Alone(s, me, t)
  }

  /** A join of t by `me` has come in time: t has not been joined and, while the
      joiner waits, has not exited. */
  predicate InTime(s: State, me: Tid, t: Tid) {
    JoinsIt(s, me, t) ==> !Joined(s, t) && (Th(s, me).call.cause == NotYet ==> !Exited(Th(s, t)))
  }

  /** All joins are the first of their targets. */
  ghost predicate Orderly(s: State) {
    forall me: Tid, t: Tid {:trigger InTime(s, me, t)} :: InTime(s, me, t)
  }

  // ------------------------------------------- the queue of the condition

  lemma Single(q: seq<Tid>, t: Tid)
    requires NoDup(q) && t in q && forall u :: u in q ==> u == t
    ensures q == [t]
  {
    var last := |q| - 1;
    assert q[0] in q && q[last] in q;
  }

  lemma QueueOf(s: State, t: Tid, v: Tid)
    requires Inv(s)
    ensures v in Wq(s, TermQ(t)) <==> JoinsIt(s, v, t)
    ensures NoDup(Wq(s, TermQ(t)))
  {
    assert v in Wq(s, TermQ(t)) <==> Awaits(Th(s, v).call) == Some(TermQ(t));
  }

  /** Who else is inside a join of t after a step was so before it. */
  lemma OldJoiner(s: State, e: Event, t: Tid, v: Tid)
    requires Inv(s) && Enabled(s, e) && JoinsIt(Step(s, e).s, v, t) && !(v == Me(s) && Starts(s, e, t))
    ensures v in Wq(s, TermQ(t))
  {
    QueueOf(s, t, v);
    if v == Me(s) {
      OwnStep(s, e, t);
    } else {
      OtherCall(s, e, v);
    }
  }

  /** A thread that is inside a wait, and does not take the step, was inside it
      before. */
  lemma OtherCall(s: State, e: Event, v: Tid)
    requires Inv(s) && Enabled(s, e) && v != Me(s) && Th(Step(s, e).s, v).call.InCond?
    ensures Th(s, v).call.InCond? && Th(s, v).call.q == Th(Step(s, e).s, v).call.q
  {
    assert e.ECreate? ==> e.t != v;
    StepCalls(s, e, v);
  }

  lemma StaysAlone(s: State, e: Event, me: Tid, t: Tid)
    requires Inv(s) && Enabled(s, e) && JoinsIt(Step(s, e).s, me, t)
    requires if me == Me(s) then Starts(s, e, t) else Wq(s, TermQ(t)) == [me]
    ensures Wq(Step(s, e).s, TermQ(t)) == [me]
  {
    var r := Step(s, e).s;
    StepKeeps(s, e);
    hide Inv, Step, Enabled;
    var q := Wq(r, TermQ(t));
    QueueOf(r, t, me);
    forall v | v in q
      ensures v == me
    {
      QueueOf(r, t, v);
      if v != me {
        OldJoiner(s, e, t, v);
      }
    }
    Single(q, me);
  }

  // ----------------------------------------------------------- the target

  lemma ZombieQueued(s: State, t: Tid)
    requires Inv(s)
    ensures t in s.zombieq <==> Th(s, t).state == Zombie
    ensures Th(s, t).state == Zombie ==> Th(s, t).call == InExit
  {
    if t in s.thr {
      assert InPlace(s, t);
    }
  }

  /** Nobody but its joiner lets a zombie go. */
  lemma StaysZombie(s: State, e: Event, me: Tid, t: Tid)
    requires Inv(s) && Enabled(s, e) && Wq(s, TermQ(t)) == [me] && me != Me(s) && Th(s, t).state == Zombie
    ensures Th(Step(s, e).s, t).state == Zombie
  {
    StepKeeps(s, e);
    hide Inv, Step;
    ZombieQueued(s, t);
    if t !in Step(s, e).s.zombieq {
      OnlyJoinsRelease(s, e, t);
      QueueOf(s, t, Me(s));
      RefusedRelease(s, e, t);
    }
    ZombieQueued(Step(s, e).s, t);
  }

  lemma RefusedRelease(s: State, e: Event, t: Tid)
    requires Enabled(s, e) && Wq(s, TermQ(t)) != [] && !JoinsIt(s, Me(s), t) && Target(s, e) == Some(t)
    ensures !Step(s, e).out.Ok?
  {
  }

  /** What a step of another thread does to a thread that is being joined. */
  lemma TargetStep(s: State, e: Event, me: Tid, t: Tid)
    requires Inv(s) && Enabled(s, e) && JoinsIt(s, me, t) && Wq(s, TermQ(t)) == [me] && me != Me(s) && t != Me(s)
    ensures var a, b := Th(s, t), Th(Step(s, e).s, t);
      b.term == a.term && (Exited(b) <==> Exited(a)) && (b.state == Zombie <==> a.state == Zombie)
  {
    assert Joins(s, me) && t in s.thr;
    StepCalls(s, e, t);
    hide Inv, Step, Enabled;
    if Th(s, t).state == Zombie {
      StaysZombie(s, e, me, t);
    }
  }

  /** Telling the one thread on a condition: it is woken, unless it has been
      already, and thread t is left alone. */
  lemma TellOne(s: State, me: Tid, t: Tid)
    requires me != t && t !in s.runq && (Th(s, me).state != CondWait ==> me in s.runq)
    ensures var r := SignalFrom(s, [me], false);
      && r.runq != [] && t !in r.runq && Th(r, t) == Th(s, t)
      && r == if Th(s, me).state == CondWait then WakeUp(s, me, BySignal) else s
  {
  }

  /** A thread that is inside a join of the running thread. */
  lemma JoinerOf(s: State, me: Tid, t: Tid)
    requires Inv(s) && t == Me(s) && JoinsIt(s, me, t)
    ensures me != t && t !in s.runq && t in s.thr && me in s.thr
    ensures if Th(s, me).state == CondWait then Th(s, me).call == InCond(TermQ(t), NotYet)
            else Th(s, me).call.cause != NotYet && me in s.runq
  {
    assert Joins(s, me) && InPlace(s, me) && InPlace(s, t);
  }

  /** A thread that is not on the run queue is not scheduled. */
  lemma BuriedStays(s: State, t: Tid)
    requires s.runq != [] && t !in s.runq
    ensures Th(Schedule(s), t) == Th(s, t)
  {
  }

  /** The target takes the step itself: if it exits, it becomes a zombie, and
      the joiner, if it still waits, is signalled. */
  lemma TargetExits(s: State, retval: int, me: Tid, t: Tid)
    requires Inv(s) && Enabled(s, EExit(retval)) && t == Me(s) && Th(s, t).term
    requires JoinsIt(s, me, t) && Wq(s, TermQ(t)) == [me]
    ensures var r := Exit(s, retval).s;
      && Th(r, t).state == Zombie && Th(r, t).term && Th(r, t).call == InExit
      && (JoinsIt(r, me, t) ==> Th(r, me).call.cause != NotYet)
  {
    hide Inv, Enabled, Exit, Schedule, SignalFrom;
    JoinerOf(s, me, t);
    ExitIs(s, retval);
    var b := Bury(s.(active := s.active - 1), Th(s, t).(retval := retval));
    TellOne(b, me, t);
    var c := SignalFrom(b, [me], false);
    ScheduleCalls(c, me);
    BuriedStays(c, t);
  }

  /** What a step does to the target of a join that is alone. */
  predicate TargetKept(s: State, e: Event, me: Tid, t: Tid) {
    var r := Step(s, e).s;
    var a, b := Th(s, t), Th(r, t);
    && (a.state == Zombie ==> b.state == Zombie)
    && (!Exited(b) ==> b.term)
    && (!Joined(s, t) ==> !Joined(r, t))
    && (JoinsIt(r, me, t) && Th(r, me).call.cause == NotYet && !Exited(a) ==> !Exited(b))
    && (e.EExit? && t == Me(s) ==> b.state == Zombie)
  }

  lemma OwnTarget(s: State, e: Event, me: Tid, t: Tid)
    requires Inv(s) && Enabled(s, e) && Alone(s, me, t) && JoinsIt(s, me, t) && t == Me(s)
    ensures TargetKept(s, e, me, t)
  {
    RunsOn(s, e);
    if e.EExit? {
      TargetExits(s, e.retval, me, t);
    } else if Exited(Th(s, t)) {
      OnceExited(s, e);
    } else {
      TargetGoesOn(s, e);
    }
  }

  lemma RunsOn(s: State, e: Event)
    requires Inv(s) && Enabled(s, e)
    ensures Th(s, Me(s)).state != Zombie && (e.EExit? ==> !Exited(Th(s, Me(s))))
  {
    assert InPlace(s, Me(s));
  }

  lemma OtherTarget(s: State, e: Event, me: Tid, t: Tid)
    requires Inv(s) && Enabled(s, e) && Alone(s, me, t) && JoinsIt(s, me, t) && me != Me(s) && t != Me(s)
    ensures TargetKept(s, e, me, t)
  {
    TargetStep(s, e, me, t);
    var r := Step(s, e).s;
    StepKeeps(s, e);
    hide Inv, Step, Enabled;
    ZombieQueued(r, t);
  }

  lemma TargetKeeps(s: State, e: Event, me: Tid, t: Tid)
    requires Inv(s) && Enabled(s, e) && Alone(s, me, t) && JoinsIt(s, me, t) && me != Me(s)
    ensures TargetKept(s, e, me, t)
  {
    if t == Me(s) {
      OwnTarget(s, e, me, t);
    } else {
      OtherTarget(s, e, me, t);
    }
  }

  // ----------------------------------------------------------- the joiner

  lemma NotTimedOut(s: State, e: Event, me: Tid)
    requires Inv(s) && Enabled(s, e) && e.EIdle? && Th(s, me).call.InCond? && !Th(s, me).onSleepq
    ensures Th(Step(s, e).s, me).call == InCond(Th(s, me).call.q, ByTimeout) ==> Th(s, me).call.cause == ByTimeout
  {
    IdleTame(s, e.forked, e.fired, e.now, e.woken);
    assert TameThread(Th(s, me), Th(Step(s, e).s, me));
  }

  /** What the step of another thread does to a joiner. */
  lemma JoinerStep(s: State, e: Event, me: Tid, t: Tid)
    requires Inv(s) && Enabled(s, e) && Alone(s, me, t) && JoinsIt(s, me, t) && JoinsIt(Step(s, e).s, me, t) && me != Me(s)
    ensures var a, b := Th(s, me), Th(Step(s, e).s, me);
      && !b.onSleepq && b.call.cause != ByTimeout && (b.call.cause == NotYet ==> a.call.cause == NotYet)
      && (b.call.cause == BySignal && a.call.cause != BySignal ==> e.EExit? && t == Me(s))
  {
    assert e.ECreate? ==> e.t != me;
    StepCalls(s, e, me);
    if e.EIdle? {
      NotTimedOut(s, e, me);
    }
  }

  lemma OthersStep(s: State, e: Event, me: Tid, t: Tid)
    requires Inv(s) && Enabled(s, e) && Alone(s, me, t) && me != Me(s)
    ensures Alone(Step(s, e).s, me, t) && (InTime(s, me, t) ==> InTime(Step(s, e).s, me, t))
  {
    if JoinsIt(Step(s, e).s, me, t) {
      OtherCall(s, e, me);
      hide Inv, Enabled, Step;
      StaysAlone(s, e, me, t);
      JoinerStep(s, e, me, t);
      TargetKeeps(s, e, me, t);
    }
  }

  lemma JoinStarts(s: State, t: Tid)
    requires Inv(s) && Enabled(s, EJoin(t)) && Starts(s, EJoin(t), t)
    ensures Alone(Step(s, EJoin(t)).s, Me(s), t)
    ensures InTime(Step(s, EJoin(t)).s, Me(s), t) <==> !Joined(s, t)
  {
    var e, me := EJoin(t), Me(s);
    MayStep(s, e);
    assert Step(s, e) == Join(s, t) && t in s.thr;
    hide Inv, Enabled, Step, Join;
    JoinOwn(s, t);
    StaysAlone(s, e, me, t);
    JoinCalls(s, t, t);
  }

  /** A join that does not wait leaves its caller outside of any join. */
  lemma RefusedJoin(s: State, t: Tid, u: Tid)
    requires Inv(s) && Enabled(s, EJoin(t)) && !Starts(s, EJoin(t), t)
    ensures !JoinsIt(Step(s, EJoin(t)).s, Me(s), u)
  {
    assert InPlace(s, t) && InPlace(s, Me(s));
    JoinOwn(s, t);
  }

  lemma JoinerReturns(s: State, me: Tid, t: Tid)
    requires Inv(s) && Enabled(s, EResume) && me == Me(s) && Alone(s, me, t)
    ensures !WaitsOn(s, t)
  {
    assert InPlace(s, me);
  }

  lemma MyStep(s: State, e: Event, t: Tid)
    requires Inv(s) && Enabled(s, e) && Alone(s, Me(s), t)
    ensures Alone(Step(s, e).s, Me(s), t) && ((e == EJoin(t) ==> !Joined(s, t)) ==> InTime(Step(s, e).s, Me(s), t))
  {
    if JoinsIt(Step(s, e).s, Me(s), t) {
      OwnStep(s, e, t);
      if e == EResume {
        JoinerReturns(s, Me(s), t);
      } else {
        JoinStarts(s, t);
      }
    }
  }

  /** A join stays alone on its condition, whatever happens; and one that has
      come in time is disturbed by nothing that other threads do, not even by a
      second join of theirs. */
  lemma StepJoin(s: State, e: Event, me: Tid, t: Tid)
    requires Inv(s) && Enabled(s, e) && Alone(s, me, t)
    ensures Alone(Step(s, e).s, me, t)
    ensures InTime(s, me, t) && (Me(s) == me && e == EJoin(t) ==> !Joined(s, t)) ==> InTime(Step(s, e).s, me, t)
  {
    if me == Me(s) {
      MyStep(s, e, t);
    } else {
      OthersStep(s, e, me, t);
    }
  }

  // ------------------------------------------------------------- every run

  lemma StepOneJoiner(s: State, e: Event)
    requires Inv(s) && OneJoiner(s) && Enabled(s, e)
    ensures OneJoiner(Step(s, e).s)
  {
    forall me: Tid, t: Tid
      ensures Alone(Step(s, e).s, me, t)
    {
      assert Alone(s, me, t);
      StepJoin(s, e, me, t);
    }
  }

  lemma {:induction false} RunOneJoiner(s: State, es: seq<Event>)
    requires Inv(s) && OneJoiner(s) && Possible(s, es)
    ensures Inv(Run(s, es)) && OneJoiner(Run(s, es))
    decreases |es|
  {
    if es == [] {
    } else {
      StepKeeps(s, es[0]);
      StepOneJoiner(s, es[0]);
      RunOneJoiner(Step(s, es[0]).s, es[1..]);
    }
  }

  /** In every run, however often threads are joined, at most one thread is on
      the termination condition of another. */
  lemma EveryRunOneJoiner(idle: Tid, primordial: Tid, clock: int, tableSize: nat, es: seq<Event>, t: Tid)
    requires idle != primordial && tableSize > 0 && Possible(Init(idle, primordial, clock, tableSize), es)
    ensures var r := Run(Init(idle, primordial, clock, tableSize), es);
      Inv(r) && OneJoiner(r) && |Wq(r, TermQ(t))| <= 1
  {
    var s := Init(idle, primordial, clock, tableSize);
    InitInv(idle, primordial, clock, tableSize);
    assert forall me: Tid, u: Tid :: Alone(s, me, u);
    RunOneJoiner(s, es);
    OneInQueue(Run(s, es), t);
  }

  lemma OneInQueue(s: State, t: Tid)
    requires Inv(s) && OneJoiner(s)
    ensures |Wq(s, TermQ(t))| <= 1
  {
    if Wq(s, TermQ(t)) != [] {
      var v := Wq(s, TermQ(t))[0];
      QueueOf(s, t, v);
      assert Alone(s, v, t);
    }
  }

  /** The loop of a join does not go round again: a join that has waited returns
      as soon as it is woken, with the exit value unless it was interrupted. */
  lemma JoinWaitsOnce(s: State, t: Tid)
    requires Inv(s) && OneJoiner(s) && Enabled(s, EResume) && JoinsIt(s, Me(s), t)
    ensures Resume(s).out == if Th(s, Me(s)).interrupted then Failed(EINTR) else Ok(Th(s, t).retval)
  {
    assert Alone(s, Me(s), t) && Joins(s, Me(s));
    assert InPlace(s, Me(s));
    JoinerReturns(s, Me(s), t);
    assert Th(CondEnd(s).s, t) == Th(s, t);
  }

  // --------------------------------------------- runs that join nobody twice

  lemma StepOrderly(s: State, e: Event)
    requires Inv(s) && OneJoiner(s) && Orderly(s) && Enabled(s, e) && FirstJoin(s, e)
    ensures Orderly(Step(s, e).s)
  {
    forall me: Tid, t: Tid
      ensures InTime(Step(s, e).s, me, t)
    {
      assert Alone(s, me, t) && InTime(s, me, t);
      StepJoin(s, e, me, t);
    }
  }

  lemma {:induction false} RunOrderly(s: State, es: seq<Event>)
    requires Inv(s) && OneJoiner(s) && Orderly(s) && Proper(s, es)
    ensures Inv(Run(s, es)) && OneJoiner(Run(s, es)) && Orderly(Run(s, es))
    decreases |es|
  {
    if es == [] {
    } else {
      StepKeeps(s, es[0]);
      StepOneJoiner(s, es[0]);
      StepOrderly(s, es[0]);
      RunOrderly(Step(s, es[0]).s, es[1..]);
    }
  }

  /** In every run that joins no thread twice, joins come in time. */
  lemma EveryProperRun(idle: Tid, primordial: Tid, clock: int, tableSize: nat, es: seq<Event>)
    requires idle != primordial && tableSize > 0 && Proper(Init(idle, primordial, clock, tableSize), es)
    ensures Orderly(Run(Init(idle, primordial, clock, tableSize), es))
  {
    var s := Init(idle, primordial, clock, tableSize);
    InitInv(idle, primordial, clock, tableSize);
    assert forall me: Tid, t: Tid :: Alone(s, me, t) && InTime(s, me, t);
    RunOrderly(s, es);
  }

  /** Nobody is on the termination condition of a thread that has been joined. */
  lemma NobodyQueues(s: State, t: Tid)
    requires Inv(s) && Orderly(s) && Joined(s, t)
    ensures Wq(s, TermQ(t)) == []
  {
    if Wq(s, TermQ(t)) != [] {
      var v := LateJoiner(s, t);
    }
  }

  /** A join of a thread that has been joined before has not come in time. */
  lemma LateJoiner(s: State, t: Tid) returns (v: Tid)
    requires Inv(s) && Joined(s, t) && Wq(s, TermQ(t)) != []
    ensures !InTime(s, v, t)
  {
    v := Wq(s, TermQ(t))[0];
    QueueOf(s, t, v);
  }

  /** A joined thread that ends its exit destroys a condition that nobody waits
      on. */
  lemma ExitFindsNobody(s: State)
    requires Inv(s) && Orderly(s) && Enabled(s, EResume) && Th(s, Me(s)).call == InExit
    ensures Wq(s, TermQ(Me(s))) == []
  {
    assert InPlace(s, Me(s));
    NobodyQueues(s, Me(s));
  }

  /** Joining a thread for the first time keeps joins in order; a second join,
      unless it is interrupted at once, never does: it waits for a thread that
      will not tell it anything. */
  lemma JoinKeepsExactly(s: State, t: Tid)
    requires Inv(s) && OneJoiner(s) && Orderly(s) && Enabled(s, EJoin(t))
    ensures Orderly(Step(s, EJoin(t)).s) <==> !Joined(s, t) || Th(s, Me(s)).interrupted
  {
    if !Joined(s, t) {
      StepOrderly(s, EJoin(t));
    } else {
      NobodyQueues(s, t);
      if Th(s, Me(s)).interrupted {
        SecondJoinInterrupted(s, t);
      } else {
        SecondJoinStrands(s, t);
      }
    }
  }

  lemma SecondJoinInterrupted(s: State, t: Tid)
    requires Inv(s) && OneJoiner(s) && Orderly(s) && Enabled(s, EJoin(t)) && Joined(s, t) && Th(s, Me(s)).interrupted
    ensures Orderly(Step(s, EJoin(t)).s)
  {
    forall me: Tid, u: Tid
      ensures InTime(Step(s, EJoin(t)).s, me, u)
    {
      assert Alone(s, me, u) && InTime(s, me, u);
      if me == Me(s) {
        RefusedJoin(s, t, u);
      } else {
        StepJoin(s, EJoin(t), me, u);
      }
    }
  }

  /** The second joiner waits on the termination condition of a thread that is
      past telling, and that will find its condition's queue occupied. */
  lemma SecondJoinStrands(s: State, t: Tid)
    requires Inv(s) && Enabled(s, EJoin(t)) && Joined(s, t) && !Th(s, Me(s)).interrupted && Wq(s, TermQ(t)) == []
    ensures var r := Step(s, EJoin(t)).s;
      && Wq(r, TermQ(t)) == [Me(s)] && Th(r, Me(s)).call == InCond(TermQ(t), NotYet)
      && Joined(r, t) && !Orderly(r)
  {
    var me := Me(s);
    assert InPlace(s, t) && InPlace(s, me);
    JoinOwn(s, t);
    StaysAlone(s, EJoin(t), me, t);
    ExitedStep(s, EJoin(t), t);
    assert !InTime(Step(s, EJoin(t)).s, me, t);
  }
}
