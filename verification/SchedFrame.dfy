/** What each step leaves alone, and what a poll is told in the end (sched.c,
    sync.c, event.c). */
module SchedFrame {
  import opened ThreadTypes
  import opened Wrappers
  import opened PollTypes
  import opened Sched
  import opened SchedInv
  import opened SchedSteps
  import opened SchedRuns
  import opened SchedPoll
  import opened SchedCalls
  import opened SchedCond
  import opened SchedDeadline
  import E = Epoll

  /** Everything that belongs to no thread and to no queue of threads able to run
      is as before. */
  predicate Still(s: State, r: State) {
    && r.idle == s.idle && r.clock == s.clock && r.zombieq == s.zombieq && r.waitq == s.waitq && r.owner == s.owner
    && r.active == s.active && r.freeStacks == s.freeStacks && r.nextStack == s.nextStack
    && r.ioq == s.ioq && r.pq == s.pq && r.ep == s.ep
  }

  /** The thread is in its exit, or is about to be. */
  predicate Exits(s: State, e: Event) {
    e.EExit? || (e.EResume? && Th(s, Me(s)).call.InExit?)
  }

  predicate Joining(s: State, e: Event) {
    e.EJoin? || (e.EResume? && Th(s, Me(s)).call.InCond? && Th(s, Me(s)).call.q.TermQ?)
  }

  /** The thread goes to wait on a condition or a mutex, or comes from there. */
  predicate Queueing(s: State, e: Event) {
    e.EWait? || e.ELock? || Joining(s, e) || (e.EResume? && (Th(s, Me(s)).call.InCond? || Th(s, Me(s)).call.InLock?))
  }

  predicate Polling(s: State, e: Event) {
    e.EPoll? || e.EIdle? || (e.EResume? && Th(s, Me(s)).call.InPoll?)
  }

  /** Only creations and exits touch the stacks and the active count, only exits
      and joins the zombies, only lock calls the owners, only waits the wait
      queues, only polls and the idle thread the requests, and only the idle
      thread the clock. */
  predicate Frame(s: State, e: Event, r: State) {
    && r.idle == s.idle
    && (e.EIdle? || r.clock == s.clock)
    && (e.ECreate? || r.nextStack == s.nextStack)
    && (e.ECreate? || e.EExit? || r.active == s.active)
    && (e.ECreate? || Exits(s, e) || r.freeStacks == s.freeStacks)
    && (e.EExit? || Joining(s, e) || r.zombieq == s.zombieq)
    && (e.ELock? || e.EUnlock? || e.ETryLock? || r.owner == s.owner)
    && (Queueing(s, e) || r.waitq == s.waitq)
    && (Polling(s, e) || (r.ioq == s.ioq && r.pq == s.pq && r.ep == s.ep))
  }

  // ------------------------------------------------------- loops and fragments

  lemma {:induction false} SignalStill(s: State, q: seq<Tid>, broadcast: bool)
    ensures Still(s, SignalFrom(s, q, broadcast))
    decreases |q|
  {
    if q == [] {
    } else {
      SignalStill(if Th(s, q[0]).state == CondWait then WakeUp(s, q[0], BySignal) else s, q[1..], broadcast);
    }
  }

  lemma {:induction false} ExpireStill(s: State, woken: seq<Tid>)
    ensures Still(s, ExpireAll(s, woken))
    decreases |woken|
  {
    if woken == [] {
    } else {
      ExpireStill(Expire(s, woken[0]), woken[1..]);
    }
  }

  /** All but the requests. */
  predicate NearlyStill(s: State, r: State) {
    Still(s, r.(ioq := s.ioq, pq := s.pq, ep := s.ep))
  }

  lemma {:induction false} NotifyStill(s: State, q: seq<Tid>)
    ensures NearlyStill(s, NotifyFrom(s, q))
    decreases |q|
  {
    if q == [] {
    } else {
      NotifyStill(Notify1(s, q[0]), q[1..]);
    }
  }

  lemma BlockStill(s: State, st: ThreadState, call: Call, timeout: Option<nat>)
    ensures Still(s, Schedule(Block(s, st, call, timeout)))
  {
  }

  lemma ScheduleStill(s: State)
    ensures Still(s, Schedule(s))
  {
  }

  // -------------------------------------------------------------------- steps

  lemma WaitFrame(s: State, q: Queue, timeout: Option<nat>)
    ensures var r := CondStart(s, q, timeout).s; Still(s, r.(waitq := s.waitq))
  {
    hide Block, Schedule;
    BlockStill(s.(waitq := s.waitq[q := Wq(s, q) + [Me(s)]]), CondWait, InCond(q, NotYet), timeout);
  }

  lemma LockFrame(s: State, m: nat)
    ensures var r := Lock(s, m).s; Still(s, r.(waitq := s.waitq, owner := s.owner))
  {
    hide Block, Schedule;
    BlockStill(s.(waitq := s.waitq[MutexQ(m) := Wq(s, MutexQ(m)) + [Me(s)]]), LockWait, InLock(m), None);
  }

  lemma SleepFrame(s: State, timeout: Option<nat>)
    ensures Still(s, Sleep(s, timeout).s)
  {
    hide Block, Schedule;
    BlockStill(s, if timeout.Some? then Sleeping else Suspended, InSleep, timeout);
  }

  lemma PollFrame(s: State, pds: seq<PollFd>, timeout: Option<nat>, fails: set<nat>)
    ensures NearlyStill(s, Poll(s, pds, timeout, fails).s)
  {
    hide Block, Schedule, EpAdd;
    var a := EpAdd(s.ep, pds, fails);
    BlockStill(s.(ep := a.ep, pq := s.pq[Me(s) := Pollq(pds, true)], ioq := s.ioq + [Me(s)]), IoWait, InPoll(NotYet), timeout);
  }

  lemma FinishFrame(s: State, th: Thread)
    ensures var r := Finish(s, th); Still(s, r.(freeStacks := s.freeStacks))
  {
    hide Schedule, FreeStack;
    ScheduleStill(Put(s.(freeStacks := FreeStack(s.freeStacks, th.stack), cur := None), Me(s), th.(call := Gone)));
  }

  lemma ExitFrame(s: State, retval: int)
    ensures var r := Exit(s, retval).s; Still(s, r.(active := s.active, freeStacks := s.freeStacks, zombieq := s.zombieq))
  {
    ExitIs(s, retval);
    var th, s1, q := Th(s, Me(s)).(retval := retval), s.(active := s.active - 1), Wq(s, TermQ(Me(s)));
    hide Exit, Schedule, Finish, SignalFrom;
    SignalStill(Bury(s1, th), q, false);
    ScheduleStill(SignalFrom(Bury(s1, th), q, false));
    FinishFrame(s1, th);
  }

  lemma JoinFrame(s: State, t: Tid)
    ensures var r := Join(s, t).s; Still(s, r.(zombieq := s.zombieq, waitq := s.waitq))
  {
    hide CondStart;
    WaitFrame(s, TermQ(t), None);
  }

  lemma JoinEndFrame(s: State, t: Tid)
    ensures var r := JoinEnd(s, t).s; Still(s, r.(zombieq := s.zombieq, waitq := s.waitq))
  {
    hide CondStart;
    WaitFrame(CondEnd(s).s, TermQ(t), None);
  }

  lemma EndsFrame(s: State)
    ensures NearlyStill(s, PollEnd(s).s) && Still(s, SleepEnd(s).s)
    ensures Still(s, CondEnd(s).s.(waitq := s.waitq)) && Still(s, LockEnd(s).s.(waitq := s.waitq))
  {
    hide EpDel, Without;
  }

  lemma ResumeFrame(s: State)
    ensures Frame(s, EResume, Resume(s).s)
  {
    hide PollEnd, CondEnd, LockEnd, SleepEnd, Finish, JoinEnd;
    EndsFrame(s);
    FinishFrame(s, Th(s, Me(s)).(term := false));
    match Th(s, Me(s)).call
    case InCond(q, _) =>
      if q.TermQ? {
        JoinEndFrame(s, q.t);
      }
    case _ =>
  }

  lemma DispatchStill(s: State, fired: seq<E.Fired>)
    ensures NearlyStill(s, Dispatch(s, fired))
  {
    if fired != [] && FdsKnown(s.ep, fired) {
      NotifyStill(s.(ep := E.Fire(s.ep, fired)), s.ioq);
    }
  }

  lemma IdleFrame(s: State, e: Event)
    requires e.EIdle?
    ensures Frame(s, e, Step(s, e).s)
  {
    hide Dispatch, ExpireAll, Schedule;
    var s0 := if e.forked then Reopen(s) else s;
    DispatchStill(s0, e.fired);
    var s1 := Dispatch(s0, e.fired).(clock := e.now);
    ExpireStill(s1, e.woken);
    var s2 := ExpireAll(s1, e.woken);
    ScheduleStill(Put(s2.(cur := None), s2.idle, Th(s2, s2.idle).(state := Runnable)));
  }

  lemma PlainFrame(s: State, e: Event)
    requires e.ECreate? || e.EInterrupt? || e.ETryLock?
    ensures Frame(s, e, Step(s, e).s)
  {
    hide PickStack;
  }

  /** No step touches what it has nothing to do with. */
  lemma StepFrame(s: State, e: Event)
    ensures Frame(s, e, Step(s, e).s)
  {
    if e.ECreate? || e.EInterrupt? || e.ETryLock? {
      PlainFrame(s, e);
    } else {
      BusyFrame(s, e);
    }
    hide Step, Frame;
  }

  lemma BusyFrame(s: State, e: Event)
    requires !e.ECreate? && !e.EInterrupt? && !e.ETryLock?
    ensures Frame(s, e, Step(s, e).s)
  {
    hide Exit, Sleep, CondStart, SignalFrom, Lock, Poll, Resume, Idle, Join, HandOver;
    match e
    case EExit(retval) => ExitFrame(s, retval);
    case EJoin(t) => JoinFrame(s, t);
    case ESleep(timeout) => SleepFrame(s, timeout);
    case EWait(c, timeout) => WaitFrame(s, CondQ(c), timeout);
    case ESignal(c, broadcast) => SignalStill(s, Wq(s, CondQ(c)), broadcast);
    case ELock(m) => LockFrame(s, m);
    case EUnlock(m) => HandOverIs(s, m, Wq(s, MutexQ(m)));
    case EPoll(pds, timeout, fails) => PollFrame(s, pds, timeout, fails);
    case EResume => ResumeFrame(s);
    case EIdle(_, _, _, _) => IdleFrame(s, e);
  }

  // ------------------------------------------------------ what a poll is told

  /** Nothing is told to a request that is not queued, and nothing at all in a
      round in which nothing fires. */
  lemma OtherRequest(s: State, e: Event, t: Tid)
    requires Inv(s) && Enabled(s, e) && t in s.pq && t != Me(s) && (e.EIdle? ==> t !in s.ioq || e.fired == [])
    ensures t in Step(s, e).s.pq && Step(s, e).s.pq[t] == s.pq[t]
  {
    StepFrame(s, e);
    match e
    case EPoll(pds, timeout, fails) => PollsOwn(s, pds, timeout, fails, t);
    case EIdle(_, _, _, _) => RoundRequest(s, e, t);
    case EResume => ResumesOwn(s, t);
    case _ => hide Step, Inv, Enabled;
  }

  lemma PollsOwn(s: State, pds: seq<PollFd>, timeout: Option<nat>, fails: set<nat>, t: Tid)
    requires t in s.pq && t != Me(s)
    ensures var r := Poll(s, pds, timeout, fails).s; t in r.pq && r.pq[t] == s.pq[t]
  {
    hide Block, Schedule, EpAdd;
    var a := EpAdd(s.ep, pds, fails);
    BlockStill(s.(ep := a.ep, pq := s.pq[Me(s) := Pollq(pds, true)], ioq := s.ioq + [Me(s)]), IoWait, InPoll(NotYet), timeout);
  }

  lemma ResumesOwn(s: State, t: Tid)
    requires t in s.pq && t != Me(s)
    ensures var r := Resume(s).s; t in r.pq && r.pq[t] == s.pq[t]
  {
    ResumeFrame(s);
    hide CondEnd, LockEnd, SleepEnd, ExitEnd, JoinEnd, EpDel, Without;
  }

  lemma RoundRequest(s: State, e: Event, t: Tid)
    requires Inv(s) && Enabled(s, e) && e.EIdle? && t in s.pq && (t !in s.ioq || e.fired == [])
    ensures t in Step(s, e).s.pq && Step(s, e).s.pq[t] == s.pq[t]
  {
    RoundTells(s, e);
    hide Inv, Enabled, Step;
  }

  /** The requests after a round of the idle thread. */
  lemma RoundTells(s: State, e: Event)
    requires Inv(s) && Enabled(s, e) && e.EIdle?
    ensures var r, ep := Step(s, e).s, if e.forked then Reopen(s).ep else s.ep;
      if e.fired == [] then r.pq == s.pq else FdsKnown(ep, e.fired) && AllTold(E.Fire(ep, e.fired), s.ioq, s.pq, r.pq)
  {
    var s0 := if e.forked then Reopen(s) else s;
    ForkedAlike(s, e, s.idle);
    RoundPq(s, e);
    if e.fired != [] {
      hide Inv, Enabled, Step;
      DispatchHits(s0, e.fired);
    }
  }

  lemma RoundPq(s: State, e: Event)
    requires e.EIdle?
    ensures Step(s, e).s.pq == Dispatch(if e.forked then Reopen(s) else s, e.fired).pq
  {
    hide Dispatch, ExpireAll, Schedule;
    var s1 := Dispatch(if e.forked then Reopen(s) else s, e.fired).(clock := e.now);
    ExpireStill(s1, e.woken);
    var s2 := ExpireAll(s1, e.woken);
    ScheduleStill(Put(s2.(cur := None), s2.idle, Th(s2, s2.idle).(state := Runnable)));
  }

  /** The entries for which something fired. */
  ghost function FiredAt(pds: seq<PollFd>, fired: seq<E.Fired>): set<nat> {
    set i: nat | i < |pds| && E.Report(pds[i].events, E.EventOf(fired, pds[i].fd)) != NO_BITS
  }

  /** What an entry is told is what fired for it. */
  ghost predicate AnsweredAs(a: seq<PollFd>, fired: seq<E.Fired>, b: seq<PollFd>) {
    |b| == |a| && forall i :: 0 <= i < |a| ==> b[i] == a[i].(revents := E.Report(a[i].events, E.EventOf(fired, a[i].fd)))
  }

  lemma AnsweredReady(a: seq<PollFd>, fired: seq<E.Fired>, b: seq<PollFd>)
    requires AnsweredAs(a, fired, b)
    ensures ReadyAt(b) == FiredAt(a, fired)
  {
    hide E.Report, E.EventOf;
  }

  /** A poll for which something has fired is told what, and is off the I/O queue. */
  lemma HitIsAnswered(s: State, e: Event, t: Tid)
    requires Inv(s) && Enabled(s, e) && e.EIdle? && HasFired(s, e.fired, t)
    ensures var r := Step(s, e).s;
      Inv(r) && t in s.pq && t in r.pq && !r.pq[t].onIoq && AnsweredAs(s.pq[t].pds, e.fired, r.pq[t].pds)
  {
    StepKeeps(s, e);
    ForkedAlike(s, e, t);
    FiredInRound(s, e, t);
    RoundPq(s, e);
    var s0, r := if e.forked then Reopen(s) else s, Step(s, e).s;
    hide Step, Enabled, Dispatch;
    StillPolls(r, t);
    FiredWakes(s0, e.fired, t);
    DispatchSize(s0, e.fired, t);
    forall i | 0 <= i < |s.pq[t].pds|
      ensures r.pq[t].pds[i] == s.pq[t].pds[i].(revents := E.Report(s.pq[t].pds[i].events, E.EventOf(e.fired, s.pq[t].pds[i].fd)))
    {
      DispatchTells(s0, e.fired, t, i);
    }
  }

  lemma StillPolls(s: State, t: Tid)
    requires Inv(s) && Th(s, t).call == InPoll(BySignal)
    ensures t in s.pq && !s.pq[t].onIoq
  {
    assert InPlace(s, t);
  }

  /** An answer stays until its thread fetches it. */
  lemma {:induction false} AnswerStays(s: State, es: seq<Event>, t: Tid)
    requires Inv(s) && Possible(s, es) && Away(s, es, t) && t in s.pq && !s.pq[t].onIoq
    ensures Inv(Run(s, es)) && t in Run(s, es).pq && Run(s, es).pq[t] == s.pq[t]
    decreases |es|
  {
    if es == [] {
    } else {
      NotQueued(s, es[0], t);
      OtherRequest(s, es[0], t);
      StepKeeps(s, es[0]);
      hide Inv, Step, Enabled;
      AnswerStays(Step(s, es[0]).s, es[1..], t);
    }
  }

  lemma NotQueued(s: State, e: Event, t: Tid)
    requires Inv(s) && Enabled(s, e) && t in s.pq && !s.pq[t].onIoq && !(e == EResume && Me(s) == t)
    ensures t !in s.ioq && t != Me(s)
  {
    assert InPlace(s, t) && InPlace(s, s.idle);
  }

  /** From the event to the result: a poll that is ended by what fires in a round
      returns, whatever happens before it runs again, the number of its entries
      for which something fired, and leaves in them what fired; unless it is
      interrupted as well. */
  lemma PollIsAnswered(s: State, e: Event, es: seq<Event>, t: Tid)
    requires Inv(s) && Enabled(s, e) && e.EIdle? && HasFired(s, e.fired, t)
    requires Possible(Step(s, e).s, es) && Away(Step(s, e).s, es, t)
    requires var r := Run(Step(s, e).s, es); Enabled(r, EResume) && Me(r) == t && !Th(r, t).interrupted
    ensures var r := Run(Step(s, e).s, es);
      && t in r.pq && AnsweredAs(s.pq[t].pds, e.fired, r.pq[t].pds)
      && Resume(r).out == Ok(|FiredAt(s.pq[t].pds, e.fired)|)
  {
    hide Step, Enabled, Run, Possible, Away, AnsweredAs, HasFired;
    HitIsAnswered(s, e, t);
    AnswerStays(Step(s, e).s, es, t);
    var r := Run(Step(s, e).s, es);
    AnsweredReady(s.pq[t].pds, e.fired, r.pq[t].pds);
    Fetches(r, t);
  }

  lemma Fetches(s: State, t: Tid)
    requires Inv(s) && Enabled(s, EResume) && Me(s) == t && t in s.pq && !s.pq[t].onIoq && !Th(s, t).interrupted
    ensures Resume(s).out == Ok(|ReadyAt(s.pq[t].pds)|)
  {
    assert InPlace(s, t);
    PollReturns(s);
    hide ReadyAt, Resume;
  }
}
