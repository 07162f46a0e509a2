/** What becomes of a second join: the joiner waits for ever; and who is told
    of an exit (sched.c). */
module SchedStrand {
  import opened ThreadTypes
  import opened Wrappers
  import opened Sched
  import opened SchedInv
  import opened SchedRuns
  import opened SchedCalls
  import opened SchedJoin
  import opened SchedOwn
  import opened SchedOrder

  /** Thread `me` waits, without a timeout, for the end of thread t, which has
      already called exit. */
  predicate Stranded(s: State, me: Tid, t: Tid) {
    Th(s, me).call == InCond(TermQ(t), NotYet) && !Th(s, me).onSleepq && t in s.thr && Exited(s.thr[t])
  }

  /** No step but an interrupt of the joiner itself reaches it. */
  lemma StepStranded(s: State, e: Event, me: Tid, t: Tid)
    requires Inv(s) && Enabled(s, e) && Stranded(s, me, t) && e != EInterrupt(me)
    ensures Stranded(Step(s, e).s, me, t)
  {
    hide Step;
    assert InPlace(s, me);
    StepCalls(s, e, me);
    ExitedStep(s, e, t);
    if e.EIdle? {
      NotTimedOut(s, e, me);
    }
  }

  /** Every step of the run can be taken, and none interrupts `me`; threads may
      be joined any number of times. */
  ghost predicate Undisturbed(s: State, es: seq<Event>, me: Tid)
    decreases |es|
  {
    es == [] || (Enabled(s, es[0]) && es[0] != EInterrupt(me) && Undisturbed(Step(s, es[0]).s, es[1..], me))
  }

  lemma {:induction false} StaysStranded(s: State, es: seq<Event>, me: Tid, t: Tid)
    requires Inv(s) && Stranded(s, me, t) && Undisturbed(s, es, me)
    ensures Inv(Run(s, es)) && Stranded(Run(s, es), me, t)
    decreases |es|
  {
    if es == [] {
    } else {
      StepKeeps(s, es[0]);
      StepStranded(s, es[0], me, t);
      StaysStranded(Step(s, es[0]).s, es[1..], me, t);
    }
  }

  lemma SecondJoinParks(s: State, t: Tid)
    requires Inv(s) && Enabled(s, EJoin(t)) && Joined(s, t) && !Th(s, Me(s)).interrupted && Wq(s, TermQ(t)) == []
    ensures Stranded(Step(s, EJoin(t)).s, Me(s), t)
  {
    assert InPlace(s, t) && InPlace(s, Me(s));
    JoinOwn(s, t);
    ExitedStep(s, EJoin(t), t);
  }

  /** A second join that is not interrupted or refused at once waits for ever:
      whatever happens, short of an interrupt of the joiner, it is still in its
      wait, and neither runs nor can run. */
  lemma SecondJoinWaitsForever(s: State, t: Tid, es: seq<Event>)
    requires Inv(s) && Enabled(s, EJoin(t)) && Joined(s, t) && !Th(s, Me(s)).interrupted && Wq(s, TermQ(t)) == []
    requires Undisturbed(Step(s, EJoin(t)).s, es, Me(s))
    ensures var r := Run(Step(s, EJoin(t)).s, es);
      Th(r, Me(s)).call == InCond(TermQ(t), NotYet) && r.cur != Some(Me(s)) && Me(s) !in r.runq
  {
    SecondJoinParks(s, t);
    StepKeeps(s, EJoin(t));
    StaysStranded(Step(s, EJoin(t)).s, es, Me(s), t);
    assert InPlace(Run(Step(s, EJoin(t)).s, es), Me(s));
  }

  // ------------------------------------------------------- who is told

  /** Every step of the run can be taken, and `me` does not join thread t once
      t has been joined; other threads may do so. */
  ghost predicate OnceBy(s: State, es: seq<Event>, me: Tid, t: Tid)
    decreases |es|
  {
    es == [] || (
      && Enabled(s, es[0]) && (Me(s) == me && es[0] == EJoin(t) ==> !Joined(s, t))
      && OnceBy(Step(s, es[0]).s, es[1..], me, t))
  }

  lemma {:induction false} OnceKeeps(s: State, es: seq<Event>, me: Tid, t: Tid)
    requires Inv(s) && Alone(s, me, t) && InTime(s, me, t) && OnceBy(s, es, me, t)
    ensures InTime(Run(s, es), me, t)
    decreases |es|
  {
    if es == [] {
    } else {
      StepKeeps(s, es[0]);
      StepJoin(s, es[0], me, t);
      OnceKeeps(Step(s, es[0]).s, es[1..], me, t);
    }
  }

  /** In no run that goes on from r is thread `me` still waiting for the end of
      thread t once t has called exit. */
  ghost predicate ToldOfExit(r: State, me: Tid, t: Tid) {
    forall es: seq<Event> :: OnceBy(r, es, me, t) && Exited(Th(Run(r, es), t)) ==>
      Th(Run(r, es), me).call != InCond(TermQ(t), NotYet)
  }

  lemma InOrderIsTold(r: State, me: Tid, t: Tid)
    requires Inv(r) && Alone(r, me, t) && InTime(r, me, t)
    ensures ToldOfExit(r, me, t)
  {
    forall es: seq<Event> | OnceBy(r, es, me, t) && Exited(Th(Run(r, es), t))
      ensures Th(Run(r, es), me).call != InCond(TermQ(t), NotYet)
    {
      OnceKeeps(r, es, me, t);
    }
  }

  /** A thread that can be joined a second time still has its condition. */
  lemma JoinedHasTerm(s: State, t: Tid)
    requires Inv(s) && Enabled(s, EJoin(t)) && Joined(s, t)
    ensures Th(s, t).term && t != Me(s) && Th(s, t).state != Zombie
  {
    assert InPlace(s, t);
  }

  /** A joiner is never left waiting after the exit of its target if and only if
      the target has not been joined before, or the join does not wait at all:
      because of an interrupt, or because somebody else is waiting already. */
  lemma JoinIsToldExactly(s: State, t: Tid)
    requires Inv(s) && Enabled(s, EJoin(t))
    ensures ToldOfExit(Step(s, EJoin(t)).s, Me(s), t) <==>
      !Joined(s, t) || Th(s, Me(s)).interrupted || Wq(s, TermQ(t)) != []
  {
    var r, me := Step(s, EJoin(t)).s, Me(s);
    if Joined(s, t) {
      JoinedHasTerm(s, t);
    }
    if Joined(s, t) && Starts(s, EJoin(t), t) {
      SecondJoinParks(s, t);
      assert OnceBy(r, [], me, t) && Run(r, []) == r;
    } else {
      StepKeeps(s, EJoin(t));
      if Starts(s, EJoin(t), t) {
        JoinStarts(s, t);
      } else {
        RefusedJoin(s, t, t);
      }
      InOrderIsTold(r, me, t);
    }
  }

  /** The main thread 1 and a thread 2 that it has created, as a run joins
      thread 2 for the first time. */
  ghost predicate Cast(s: State, cur: Tid, runq: seq<Tid>, first: Thread, second: Thread, waiters: seq<Tid>) {
    && s.cur == Some(cur) && s.idle == 0 && s.runq == runq
    && 1 in s.thr && s.thr[1] == first && 2 in s.thr && s.thr[2] == second && Wq(s, TermQ(2)) == waiters
  }

  function Main(state: ThreadState, call: Call): Thread {
    Thread(state, false, false, false, call, false, 0, None)
  }

  function Other(state: ThreadState, call: Call, retval: int): Thread {
    Thread(state, false, false, false, call, true, retval, Some(Stack(1, 0)))
  }

  lemma Created()
    ensures var s := Init(0, 1, 0, 1);
      Enabled(s, ECreate(2, true, 0)) && Cast(Step(s, ECreate(2, true, 0)).s, 1, [2], Main(Running, NoCall), Other(Runnable, NoCall, 0), [])
  {
  }

  lemma JoinWaits(s: State, t: Tid)
    requires s.cur.Some? && Th(s, t).term && Me(s) != t && Wq(s, TermQ(t)) == [] && Th(s, t).state != Zombie && !Th(s, Me(s)).interrupted
    ensures Step(s, EJoin(t)).s ==
      Schedule(Block(s.(waitq := s.waitq[TermQ(t) := Wq(s, TermQ(t)) + [Me(s)]]), CondWait, InCond(TermQ(t), NotYet), None))
  {
  }

  lemma JoinedOnce(s: State)
    requires Cast(s, 1, [2], Main(Running, NoCall), Other(Runnable, NoCall, 0), [])
    ensures Enabled(s, EJoin(2)) && !Joined(s, 2)
    ensures Cast(Step(s, EJoin(2)).s, 2, [], Main(CondWait, InCond(TermQ(2), NotYet)), Other(Running, NoCall, 0), [1])
  {
    JoinWaits(s, 2);
  }

  lemma HasExited(s: State, retval: int)
    requires Cast(s, 2, [], Main(CondWait, InCond(TermQ(2), NotYet)), Other(Running, NoCall, 0), [1])
    ensures Enabled(s, EExit(retval))
    ensures Cast(Step(s, EExit(retval)).s, 1, [], Main(Running, InCond(TermQ(2), BySignal)), Other(Zombie, InExit, retval), [1])
  {
    ExitIs(s, retval);
    var b := Bury(s.(active := s.active - 1), Other(Running, NoCall, retval));
    assert SignalFrom(b, [1], false) == WakeUp(b, 1, BySignal);
  }

  lemma JoinReturned(s: State, retval: int)
    requires Cast(s, 1, [], Main(Running, InCond(TermQ(2), BySignal)), Other(Zombie, InExit, retval), [1])
    ensures Enabled(s, EResume)
    ensures Cast(Step(s, EResume).s, 1, [2], Main(Running, NoCall), Other(Runnable, InExit, retval), [])
  {
    var n := CondEnd(s);
    assert n.out == Ok(0) && Cast(n.s, 1, [], Main(Running, NoCall), Other(Zombie, InExit, retval), []);
    assert Step(s, EResume).s == Release(n.s, 2).s;
  }

  lemma RunOne(s: State, e: Event, es: seq<Event>)
    requires Enabled(s, e) && FirstJoin(s, e)
    ensures Run(s, [e] + es) == Run(Step(s, e).s, es) && (Proper(Step(s, e).s, es) ==> Proper(s, [e] + es))
  {
    assert ([e] + es)[1..] == es;
  }

  /** A join of thread 2 is possible, and it would not be the first. */
  ghost predicate JoinableAgain(s: State) {
    Enabled(s, EJoin(2)) && Joined(s, 2) && Me(s) == 1 && !Th(s, 1).interrupted && Wq(s, TermQ(2)) == []
  }

  lemma AfterExit(s: State, retval: int)
    requires Cast(s, 1, [], Main(Running, InCond(TermQ(2), BySignal)), Other(Zombie, InExit, retval), [1])
    ensures Proper(s, [EResume]) && JoinableAgain(Run(s, [EResume]))
  {
    JoinReturned(s, retval);
    RunOne(s, EResume, []);
    assert [EResume] + [] == [EResume];
  }

  lemma AfterJoin(s: State, retval: int)
    requires Cast(s, 2, [], Main(CondWait, InCond(TermQ(2), NotYet)), Other(Running, NoCall, 0), [1])
    ensures Proper(s, [EExit(retval), EResume]) && JoinableAgain(Run(s, [EExit(retval), EResume]))
  {
    HasExited(s, retval);
    AfterExit(Step(s, EExit(retval)).s, retval);
    RunOne(s, EExit(retval), [EResume]);
    assert [EExit(retval)] + [EResume] == [EExit(retval), EResume];
  }

  lemma AfterCreate(s: State, retval: int)
    requires Cast(s, 1, [2], Main(Running, NoCall), Other(Runnable, NoCall, 0), [])
    ensures var es := [EJoin(2), EExit(retval), EResume]; Proper(s, es) && JoinableAgain(Run(s, es))
  {
    JoinedOnce(s);
    AfterJoin(Step(s, EJoin(2)).s, retval);
    RunOne(s, EJoin(2), [EExit(retval), EResume]);
    assert [EJoin(2)] + [EExit(retval), EResume] == [EJoin(2), EExit(retval), EResume];
  }

  /** It does happen: the main thread joins the same thread twice. */
  lemma SecondJoinHappens(retval: int)
    ensures var s, es := Init(0, 1, 0, 1), [ECreate(2, true, 0), EJoin(2), EExit(retval), EResume];
      Proper(s, es) && JoinableAgain(Run(s, es))
  {
    var s, es := Init(0, 1, 0, 1), [EJoin(2), EExit(retval), EResume];
    Created();
    AfterCreate(Step(s, ECreate(2, true, 0)).s, retval);
    RunOne(s, ECreate(2, true, 0), es);
    assert [ECreate(2, true, 0)] + es == [ECreate(2, true, 0), EJoin(2), EExit(retval), EResume];
  }
}
