/** The life of a thread: what a join returns, how often a thread is let go,
    and what is left of it afterwards (sched.c, stk.c). */
module SchedJoin {
  import opened ThreadTypes
  import opened Wrappers
  import opened PollTypes
  import opened Sched
  import opened SchedInv
  import opened SchedOthers
  import opened SchedSteps
  import opened SchedRuns
  import opened SchedCalls
  import E = Epoll

  /** The thread that a step of the running thread is joining. */
  function Target(s: State, e: Event): Option<Tid> {
    if e.EJoin? then Some(e.t)
    else if e == EResume && Joins(s, Me(s)) then Some(Th(s, Me(s)).call.q.t)
    else None
  }

  /** A join that succeeds finds its target a zombie, returns the value the
      target exited with, and lets it go. */
  lemma JoinReturns(s: State, e: Event)
    requires Inv(s) && Enabled(s, e) && Target(s, e).Some? && Step(s, e).out.Ok?
    ensures var t, n := Target(s, e).value, Step(s, e);
      && t in s.zombieq && Exited(Th(s, t)) && !Joined(s, t)
      && n.out == Ok(Th(s, t).retval)
      && t !in n.s.zombieq && t in n.s.runq && Joined(n.s, t) && Th(n.s, t).retval == Th(s, t).retval
  {
    var t := Target(s, e).value;
    if e == EResume {
      assert InPlace(s, Me(s));
      assert Th(CondEnd(s).s, t) == Th(s, t);
    }
    assert InPlace(s, t);
    WithoutIs(s.zombieq, t);
  }

  // ------------------------------------------------------------ after exit

  function ExitValue(th: Thread): Option<int> {
    if Exited(th) then Some(th.retval) else None
  }

  lemma FinishRecords(s: State, th: Thread)
    ensures Th(Finish(s, th), Me(s)).call == Gone && ExitValue(Th(Finish(s, th), Me(s))) == Some(th.retval)
  {
    ScheduleCalls(Put(s.(freeStacks := FreeStack(s.freeStacks, th.stack), cur := None), Me(s), th.(call := Gone)), Me(s));
  }

  lemma BuryRecords(s: State, th: Thread, q: seq<Tid>)
    ensures ExitValue(Th(Schedule(SignalFrom(Bury(s, th), q, false)), Me(s))) == Some(th.retval)
  {
    var b := Bury(s, th);
    SignalCalls(b, q, false, Me(s));
    ScheduleCalls(SignalFrom(b, q, false), Me(s));
  }

  /** An exit records the exit value. */
  lemma ExitRecords(s: State, retval: int)
    ensures ExitValue(Th(Exit(s, retval).s, Me(s))) == Some(retval)
  {
    var th, s1, q := Th(s, Me(s)).(retval := retval), s.(active := s.active - 1), Wq(s, TermQ(Me(s)));
    BuryRecords(s1, th, q);
    FinishRecords(s1, th);
    assert Exit(s, retval).s == if th.term then Schedule(SignalFrom(Bury(s1, th), q, false)) else Finish(s1, th);
  }

  /** How far a thread has come with its exit: forward only. */
  predicate Later(a: Thread, b: Thread) {
    && Exited(b) && b.retval == a.retval
    && (a.call == Gone ==> b.call == Gone)
    && (a.state != Zombie ==> b.state != Zombie)
  }

  lemma ExitedStep(s: State, e: Event, t: Tid)
    requires Inv(s) && Enabled(s, e) && t in s.thr && Exited(Th(s, t))
    ensures Later(Th(s, t), Th(Step(s, e).s, t))
  {
    assert InPlace(s, t) && InPlace(s, s.idle);
    if t == Me(s) {
      FinishRecords(s, Th(s, t).(term := false));
    } else {
      StepCalls(s, e, t);
    }
  }

  /** Once a thread has called exit, it never comes back, and its exit value
      and the fact that it was joined or is gone stay for ever. */
  lemma {:induction false} ExitedStays(s: State, es: seq<Event>, t: Tid)
    requires Inv(s) && Possible(s, es) && t in s.thr && Exited(Th(s, t))
    ensures Inv(Run(s, es)) && t in Run(s, es).thr && Later(Th(s, t), Th(Run(s, es), t))
    ensures Joined(s, t) ==> Joined(Run(s, es), t)
    decreases |es|
  {
    if es == [] {
    } else {
      StepKeeps(s, es[0]);
      ExitedStep(s, es[0], t);
      ExitedStays(Step(s, es[0]).s, es[1..], t);
    }
  }

  /** Whoever joins a thread, and however much later, gets the value that the
      thread passed to exit. */
  lemma JoinGivesExitValue(s: State, retval: int, es: seq<Event>, e: Event)
    requires Inv(s) && Enabled(s, EExit(retval))
    requires Possible(Step(s, EExit(retval)).s, es)
    requires var r := Run(Step(s, EExit(retval)).s, es);
      Enabled(r, e) && Target(r, e) == Some(Me(s)) && Step(r, e).out.Ok?
    ensures Step(Run(Step(s, EExit(retval)).s, es), e).out == Ok(retval)
  {
    var s1 := Step(s, EExit(retval)).s;
    StepKeeps(s, EExit(retval));
    ExitRecords(s, retval);
    ExitedStays(s1, es, Me(s));
    JoinReturns(Run(s1, es), e);
  }

  /** A thread that is gone stays gone, its id is on no queue of any kind, and
      it is never scheduled again. */
  ghost predicate Nowhere(s: State, t: Tid) {
    && s.cur != Some(t) && t !in s.runq && t !in s.ioq && t !in s.zombieq && t !in s.sleep && t !in s.pq
    && forall q: Queue :: t !in Wq(s, q)
  }

  lemma GoneForGood(s: State, es: seq<Event>, t: Tid)
    requires Inv(s) && Possible(s, es) && t in s.thr && s.thr[t].call == Gone
    ensures Th(Run(s, es), t).call == Gone && Nowhere(Run(s, es), t)
  {
    ExitedStays(s, es, t);
    var r := Run(s, es);
    assert InPlace(r, t);
    forall q: Queue
      ensures t !in Wq(r, q)
    {
      assert t in Wq(r, q) <==> Awaits(Th(r, t).call) == Some(q);
    }
  }

  /** A new thread gets a stack that nobody else uses, and that is no longer on
      the free list. */
  lemma NewStackIsOwn(s: State, t: Tid, joinable: bool, size: nat)
    requires Inv(s) && Enabled(s, ECreate(t, joinable, size))
    ensures var r := Create(s, t, joinable, size).s;
      && r.thr[t].stack.Some?
      && (forall k :: k in r.freeStacks ==> k.id != r.thr[t].stack.value.id)
      && (forall u :: Live(s, u) && s.thr[u].stack.Some? ==> s.thr[u].stack.value.id != r.thr[t].stack.value.id)
  {
    StepKeeps(s, ECreate(t, joinable, size));
    var r := Create(s, t, joinable, size).s;
    assert Live(r, t);
    forall u | Live(s, u) && s.thr[u].stack.Some?
      ensures s.thr[u].stack.value.id != r.thr[t].stack.value.id
    {
      assert Live(r, u);
    }
  }

  /** A free stack belongs to no thread that can still run. */
  lemma FreeStackUnused(s: State, k: Stack, t: Tid)
    requires Inv(s) && k in s.freeStacks && t in s.thr && s.thr[t].stack == Some(k)
    ensures Nowhere(s, t)
  {
    assert !Live(s, t);
    GoneForGood(s, [], t);
  }

  // -------------------------------------------------------- let go only once

  lemma {:induction false} SignalZombies(s: State, q: seq<Tid>, broadcast: bool)
    ensures SignalFrom(s, q, broadcast).zombieq == s.zombieq
    decreases |q|
  {
    if q == [] {
    } else {
      SignalZombies(if Th(s, q[0]).state == CondWait then WakeUp(s, q[0], BySignal) else s, q[1..], broadcast);
    }
  }

  lemma {:induction false} NotifyZombies(s: State, q: seq<Tid>)
    ensures NotifyFrom(s, q).zombieq == s.zombieq
    decreases |q|
  {
    if q == [] {
    } else {
      NotifyZombies(Notify1(s, q[0]), q[1..]);
    }
  }

  lemma {:induction false} ExpireZombies(s: State, woken: seq<Tid>)
    ensures ExpireAll(s, woken).zombieq == s.zombieq
    decreases |woken|
  {
    if woken == [] {
    } else {
      ExpireZombies(Expire(s, woken[0]), woken[1..]);
    }
  }

  lemma IdleZombies(s: State, forked: bool, fired: seq<E.Fired>, now: int, woken: seq<Tid>)
    ensures Idle(s, forked, fired, now, woken).s.zombieq == s.zombieq
  {
    var s0 := if forked then Reopen(s) else s;
    if fired != [] && FdsKnown(s0.ep, fired) {
      NotifyZombies(s0.(ep := E.Fire(s0.ep, fired)), s0.ioq);
    }
    ExpireZombies(Dispatch(s0, fired).(clock := now), woken);
  }

  lemma ExitZombies(s: State, retval: int)
    ensures Exit(s, retval).s.zombieq == s.zombieq || Exit(s, retval).s.zombieq == s.zombieq + [Me(s)]
  {
    SignalZombies(Bury(s.(active := s.active - 1), Th(s, Me(s)).(retval := retval)), Wq(s, TermQ(Me(s))), false);
  }

  lemma BlockZombies(s: State, st: ThreadState, call: Call, timeout: Option<nat>)
    ensures Schedule(Block(s, st, call, timeout)).zombieq == s.zombieq
  {
  }

  lemma WaitZombies(s: State, q: Queue, timeout: Option<nat>)
    ensures CondStart(s, q, timeout).s.zombieq == s.zombieq
  {
    hide Schedule, Block;
    BlockZombies(s.(waitq := s.waitq[q := Wq(s, q) + [Me(s)]]), CondWait, InCond(q, NotYet), timeout);
  }

  lemma LockZombies(s: State, m: nat)
    ensures Lock(s, m).s.zombieq == s.zombieq
  {
    hide Schedule, Block;
    BlockZombies(s.(waitq := s.waitq[MutexQ(m) := Wq(s, MutexQ(m)) + [Me(s)]]), LockWait, InLock(m), None);
  }

  lemma SleepZombies(s: State, timeout: Option<nat>)
    ensures Sleep(s, timeout).s.zombieq == s.zombieq
  {
    hide Schedule, Block;
    BlockZombies(s, if timeout.Some? then Sleeping else Suspended, InSleep, timeout);
  }

  lemma PollZombies(s: State, pds: seq<PollFd>, timeout: Option<nat>, fails: set<nat>)
    ensures Poll(s, pds, timeout, fails).s.zombieq == s.zombieq
  {
  }

  lemma UnlockZombies(s: State, m: nat)
    ensures Unlock(s, m).s.zombieq == s.zombieq
  {
    HandOverIs(s, m, Wq(s, MutexQ(m)));
  }

  lemma JoinZombies(s: State, t: Tid)
    ensures Join(s, t).s.zombieq == s.zombieq || (Join(s, t).out.Ok? && Join(s, t).s.zombieq == Without(s.zombieq, t))
    ensures JoinEnd(s, t).s.zombieq == s.zombieq || (JoinEnd(s, t).out.Ok? && JoinEnd(s, t).s.zombieq == Without(s.zombieq, t))
  {
    WaitZombies(s, TermQ(t), None);
    WaitZombies(CondEnd(s).s, TermQ(t), None);
    hide CondStart;
  }

  lemma CallEndZombies(s: State)
    ensures PollEnd(s).s.zombieq == s.zombieq && CondEnd(s).s.zombieq == s.zombieq && LockEnd(s).s.zombieq == s.zombieq
    ensures SleepEnd(s).s.zombieq == s.zombieq && ExitEnd(s).s.zombieq == s.zombieq
  {
  }

  lemma ResumeZombies(s: State)
    ensures Joins(s, Me(s)) || Resume(s).s.zombieq == s.zombieq
  {
    CallEndZombies(s);
  }

  /** Nothing but a successful join takes a thread off the zombie queue. */
  lemma OnlyJoinsRelease(s: State, e: Event, t: Tid)
    requires Inv(s) && Enabled(s, e) && t in s.zombieq && t !in Step(s, e).s.zombieq
    ensures Target(s, e) == Some(t) && Step(s, e).out.Ok?
  {
    hide Inv, Enabled;
    match e
    case ECreate(_, _, _) =>
    case EExit(retval) => ExitZombies(s, retval);
    case EJoin(u) => JoinZombies(s, u); WithoutIs(s.zombieq, u);
    case EInterrupt(_) =>
    case ESleep(timeout) => SleepZombies(s, timeout);
    case EWait(c, timeout) => WaitZombies(s, CondQ(c), timeout);
    case ESignal(c, broadcast) => SignalZombies(s, Wq(s, CondQ(c)), broadcast);
    case ELock(m) => LockZombies(s, m);
    case EUnlock(m) => UnlockZombies(s, m);
    case ETryLock(_) =>
    case EPoll(pds, timeout, fails) => PollZombies(s, pds, timeout, fails);
    case EResume =>
      ResumeZombies(s);
      if Joins(s, Me(s)) {
        JoinZombies(s, Th(s, Me(s)).call.q.t);
        WithoutIs(s.zombieq, Th(s, Me(s)).call.q.t);
      }
    case EIdle(forked, fired, now, woken) => IdleZombies(s, forked, fired, now, woken);
  }

  /** How often t is taken off the zombie queue in a run. */
  function Releases(s: State, es: seq<Event>, t: Tid): nat
    decreases |es|
  {
    if es == [] then 0
    else
      var r := Step(s, es[0]).s;
      Releases(r, es[1..], t) + if t in s.zombieq && t !in r.zombieq then 1 else 0
  }

  lemma ReleaseStep(s: State, e: Event, t: Tid) returns (r: State)
    requires Inv(s) && Enabled(s, e) && t in s.thr && Exited(Th(s, t))
    ensures r == Step(s, e).s
    ensures Inv(r) && t in r.thr && Exited(Th(r, t)) && (Joined(s, t) ==> Joined(r, t))
      && (t in s.zombieq && t !in r.zombieq <==> !Joined(s, t) && Joined(r, t))
  {
    r := Step(s, e).s;
    StepKeeps(s, e);
    ExitedStep(s, e, t);
    assert InPlace(s, t) && InPlace(r, t);
  }

  lemma {:induction false} NeverReleasedAgain(s: State, es: seq<Event>, t: Tid)
    requires Inv(s) && Possible(s, es) && t in s.thr && Exited(Th(s, t)) && Joined(s, t)
    ensures Releases(s, es, t) == 0
    decreases |es|
  {
    if es == [] {
    } else {
      var r := ReleaseStep(s, es[0], t);
      NeverReleasedAgain(r, es[1..], t);
    }
  }

  /** An exited thread is taken off the zombie queue once in all if it has been
      joined, and not at all if it has not. */
  lemma {:induction false} ReleasedOnce(s: State, es: seq<Event>, t: Tid)
    requires Inv(s) && Possible(s, es) && t in s.thr && Exited(Th(s, t)) && !Joined(s, t)
    ensures Releases(s, es, t) == if Joined(Run(s, es), t) then 1 else 0
    decreases |es|
  {
    if es == [] {
    } else {
      var r := ReleaseStep(s, es[0], t);
      if Joined(r, t) {
        NeverReleasedAgain(r, es[1..], t);
        ExitedStays(r, es[1..], t);
      } else {
        ReleasedOnce(r, es[1..], t);
      }
    }
  }
}
