/** The run queue is fair: whoever is on it runs after those that were on it
    before, and before those that came later (sched.c). */
module SchedFair {
  import opened ThreadTypes
  import opened Wrappers
  import opened PollTypes
  import opened Sched
  import opened SchedSteps
  import opened SchedCalls
  import E = Epoll

  /** Threads are only added, at the end. */
  predicate Grows(s: State, r: State) {
    s.runq <= r.runq
  }

  /** A step that does not switch adds to the run queue only; one that switches
      runs the head of the queue, if there was one, and adds to the rest. */
  predicate KeepsTurn(s: State, n: Next) {
    if n.out == Switched then s.runq != [] ==> n.s.cur == Some(s.runq[0]) && s.runq[1..] <= n.s.runq
    else n.s.cur == s.cur && Grows(s, n.s)
  }

  lemma GrowsTwice(a: State, b: State, c: State)
    requires Grows(a, b) && Grows(b, c)
    ensures Grows(a, c)
  {
  }

  lemma {:induction false} SignalGrows(s: State, q: seq<Tid>, broadcast: bool)
    ensures Grows(s, SignalFrom(s, q, broadcast)) && SignalFrom(s, q, broadcast).cur == s.cur
    decreases |q|
  {
    if q == [] {
    } else {
      var s1 := if Th(s, q[0]).state == CondWait then WakeUp(s, q[0], BySignal) else s;
      SignalGrows(s1, q[1..], broadcast);
    }
  }

  lemma {:induction false} NotifyGrows(s: State, q: seq<Tid>)
    ensures Grows(s, NotifyFrom(s, q))
    decreases |q|
  {
    if q == [] {
    } else {
      NotifyGrows(Notify1(s, q[0]), q[1..]);
      GrowsTwice(s, Notify1(s, q[0]), NotifyFrom(s, q));
    }
  }

  lemma {:induction false} ExpireGrows(s: State, woken: seq<Tid>)
    ensures Grows(s, ExpireAll(s, woken))
    decreases |woken|
  {
    if woken == [] {
    } else {
      ExpireGrows(Expire(s, woken[0]), woken[1..]);
      GrowsTwice(s, Expire(s, woken[0]), ExpireAll(s, woken));
    }
  }

  lemma ScheduleTurn(s: State, m: State)
    requires Grows(s, m)
    ensures KeepsTurn(s, Next(Schedule(m), Switched))
  {
  }

  lemma BlockTurn(s: State, s1: State, st: ThreadState, call: Call, timeout: Option<nat>)
    requires s1.runq == s.runq
    ensures KeepsTurn(s, Next(Schedule(Block(s1, st, call, timeout)), Switched))
  {
    ScheduleTurn(s, Block(s1, st, call, timeout));
  }

  lemma WaitTurn(s: State, q: Queue, timeout: Option<nat>)
    ensures KeepsTurn(s, CondStart(s, q, timeout))
  {
    hide Schedule, Block;
    BlockTurn(s, s.(waitq := s.waitq[q := Wq(s, q) + [Me(s)]]), CondWait, InCond(q, NotYet), timeout);
  }

  lemma LockTurn(s: State, m: nat)
    ensures KeepsTurn(s, Lock(s, m))
  {
    hide Schedule, Block;
    BlockTurn(s, s.(waitq := s.waitq[MutexQ(m) := Wq(s, MutexQ(m)) + [Me(s)]]), LockWait, InLock(m), None);
  }

  lemma SleepTurn(s: State, timeout: Option<nat>)
    ensures KeepsTurn(s, Sleep(s, timeout))
  {
    hide Schedule, Block;
    BlockTurn(s, s, if timeout.Some? then Sleeping else Suspended, InSleep, timeout);
  }

  lemma PollTurn(s: State, pds: seq<PollFd>, timeout: Option<nat>, fails: set<nat>)
    ensures KeepsTurn(s, Poll(s, pds, timeout, fails))
  {
    hide Schedule, Block, EpAdd;
    var a := EpAdd(s.ep, pds, fails);
    BlockTurn(s, s.(ep := a.ep, pq := s.pq[Me(s) := Pollq(pds, true)], ioq := s.ioq + [Me(s)]), IoWait, InPoll(NotYet), timeout);
  }

  lemma FinishTurn(s: State, th: Thread)
    ensures KeepsTurn(s, Next(Finish(s, th), Switched))
  {
    ScheduleTurn(s, Put(s.(freeStacks := FreeStack(s.freeStacks, th.stack), cur := None), Me(s), th.(call := Gone)));
  }

  lemma ExitTurn(s: State, retval: int)
    ensures KeepsTurn(s, Exit(s, retval))
  {
    ExitIs(s, retval);
    hide Exit, Schedule, Finish, SignalFrom;
    var th, s1, q := Th(s, Me(s)).(retval := retval), s.(active := s.active - 1), Wq(s, TermQ(Me(s)));
    SignalGrows(Bury(s1, th), q, false);
    ScheduleTurn(s, SignalFrom(Bury(s1, th), q, false));
    FinishTurn(s1, th);
  }

  lemma JoinTurn(s: State, t: Tid)
    ensures KeepsTurn(s, Join(s, t))
  {
    hide CondStart;
    WaitTurn(s, TermQ(t), None);
  }

  lemma JoinEndTurn(s: State, t: Tid)
    ensures KeepsTurn(s, JoinEnd(s, t))
  {
    hide CondStart;
    WaitTurn(CondEnd(s).s, TermQ(t), None);
  }

  lemma EndsTurn(s: State)
    ensures KeepsTurn(s, PollEnd(s)) && KeepsTurn(s, CondEnd(s)) && KeepsTurn(s, LockEnd(s)) && KeepsTurn(s, SleepEnd(s))
  {
    hide EpDel, Without;
  }

  lemma ResumeTurn(s: State)
    ensures KeepsTurn(s, Resume(s))
  {
    hide PollEnd, CondEnd, LockEnd, SleepEnd, Finish, JoinEnd;
    EndsTurn(s);
    FinishTurn(s, Th(s, Me(s)).(term := false));
    match Th(s, Me(s)).call
    case InCond(q, _) =>
      if q.TermQ? {
        JoinEndTurn(s, q.t);
      }
    case _ =>
  }

  lemma DispatchGrows(s: State, fired: seq<E.Fired>)
    ensures Grows(s, Dispatch(s, fired))
  {
    if fired != [] && FdsKnown(s.ep, fired) {
      NotifyGrows(s.(ep := E.Fire(s.ep, fired)), s.ioq);
    }
  }

  lemma IdleTurn(s: State, e: Event)
    requires e.EIdle?
    ensures KeepsTurn(s, Step(s, e))
  {
    hide Dispatch, ExpireAll, Schedule, KeepsTurn;
    var s0 := if e.forked then Reopen(s) else s;
    DispatchGrows(s0, e.fired);
    var s1 := Dispatch(s0, e.fired).(clock := e.now);
    ExpireGrows(s1, e.woken);
    var s2 := ExpireAll(s1, e.woken);
    ScheduleTurn(s, Put(s2.(cur := None), s2.idle, Th(s2, s2.idle).(state := Runnable)));
  }

  /** No step lets anybody in before a thread that is on the run queue. */
  lemma StepTurn(s: State, e: Event)
    ensures KeepsTurn(s, Step(s, e))
  {
    hide Exit, Sleep, CondStart, SignalFrom, Lock, Poll, Resume, Idle, Join;
    match e
    case EExit(retval) => ExitTurn(s, retval);
    case EJoin(t) => JoinTurn(s, t);
    case ESleep(timeout) => SleepTurn(s, timeout);
    case EWait(c, timeout) => WaitTurn(s, CondQ(c), timeout);
    case ESignal(c, broadcast) => SignalGrows(s, Wq(s, CondQ(c)), broadcast);
    case ELock(m) => LockTurn(s, m);
    case EUnlock(m) => HandOverIs(s, m, Wq(s, MutexQ(m)));
    case EPoll(pds, timeout, fails) => PollTurn(s, pds, timeout, fails);
    case EResume => ResumeTurn(s);
    case EIdle(_, _, _, _) => IdleTurn(s, e);
    case _ =>
  }

  /** How often a run switches from one thread to another. */
  function Switches(s: State, es: seq<Event>): nat
    decreases |es|
  {
    if es == [] then 0 else Switches(Step(s, es[0]).s, es[1..]) + if Step(s, es[0]).out == Switched then 1 else 0
  }

  /** Some state of the run has t as the current thread. */
  predicate GetsToRun(s: State, es: seq<Event>, t: Tid)
    decreases |es|
  {
    s.cur == Some(t) || (es != [] && GetsToRun(Step(s, es[0]).s, es[1..], t))
  }

  /** Nobody starves on the run queue: a thread with i threads before it runs at
      the latest at the switch number i + 1, whatever the running threads do and
      whoever else becomes able to run. */
  lemma {:induction false} RunsInTurn(s: State, es: seq<Event>, i: nat)
    requires i < |s.runq| && Switches(s, es) > i
    ensures GetsToRun(s, es, s.runq[i])
    decreases |es|
  {
    hide Step;
    var n := Step(s, es[0]);
    StepTurn(s, es[0]);
    if n.out == Switched {
      if i == 0 {
      } else {
        assert n.s.runq[i - 1] == s.runq[1..][i - 1];
        RunsInTurn(n.s, es[1..], i - 1);
      }
    } else {
      RunsInTurn(n.s, es[1..], i);
    }
  }
}
