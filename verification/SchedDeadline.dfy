/** Timed calls: the deadline a call is given, how long it stands, and what the
    clock check does about it (sched.c, sync.c). */
module SchedDeadline {
  import opened ThreadTypes
  import opened Wrappers
  import opened PollTypes
  import opened Expiry
  import opened Sched
  import opened SchedInv
  import opened SchedKeeps
  import opened SchedSteps
  import opened SchedIo
  import opened SchedRuns
  import opened SchedPoll
  import opened SchedCalls
  import opened SchedCond
  import E = Epoll

  // ------------------------------------------------------ a call that blocks

  /** Thread t, which was running in s, is inside the call in r, in this state,
      and will be woken by the clock exactly if it has asked for that, at the
      time it has asked for. */
  predicate BlockedFor(s: State, r: State, t: Tid, st: ThreadState, call: Call, timeout: Option<nat>) {
    && t in r.thr && r.thr[t] == Th(s, t).(state := st, call := call, onSleepq := timeout.Some?)
    && r.cur != Some(t) && t !in r.runq
    && match timeout
       case Some(d) => t in r.sleep && r.sleep[t] == s.clock + d
       case None => t !in r.sleep
  }

  /** Another thread runs: the head of the run queue or, if there was none, the
      idle thread. */
  predicate NextRuns(s: State, r: State) {
    if s.runq == [] then r.cur == Some(s.idle) && r.runq == [] else r.cur == Some(s.runq[0]) && r.runq == s.runq[1..]
  }

  /** A blocking call that finds an interrupt reports it, takes it back, and does
      nothing else. */
  predicate ReportsInterrupt(s: State, n: Next) {
    n == Next(Put(s, Me(s), Th(s, Me(s)).(interrupted := false)), Failed(EINTR))
  }

  lemma BlockIs(s: State, s1: State, st: ThreadState, call: Call, timeout: Option<nat>)
    requires Ready(s) && Me(s) != s.idle && Th(s, Me(s)).call == NoCall
    requires s1 == s.(waitq := s1.waitq, ep := s1.ep, pq := s1.pq, ioq := s1.ioq)
    ensures var r := Schedule(Block(s1, st, call, timeout));
      && BlockedFor(s, r, Me(s), st, call, timeout) && NextRuns(s, r)
      && r.waitq == s1.waitq && r.ep == s1.ep && r.pq == s1.pq && r.ioq == s1.ioq && r.owner == s1.owner
  {
    assert InPlace(s, Me(s));
    hide BlockedFor, NextRuns;
    BlockedIs(s, s1, st, call, timeout);
    NextIs(s, s1, st, call, timeout);
  }

  lemma BlockedIs(s: State, s1: State, st: ThreadState, call: Call, timeout: Option<nat>)
    requires s.cur.Some? && Me(s) in s.thr && Me(s) != s.idle && Me(s) !in s.runq && Me(s) !in s.sleep
    requires s1 == s.(waitq := s1.waitq, ep := s1.ep, pq := s1.pq, ioq := s1.ioq)
    ensures BlockedFor(s, Schedule(Block(s1, st, call, timeout)), Me(s), st, call, timeout)
  {
    assert s.runq != [] ==> s.runq == [s.runq[0]] + s.runq[1..];
  }

  lemma NextIs(s: State, s1: State, st: ThreadState, call: Call, timeout: Option<nat>)
    requires s1 == s.(waitq := s1.waitq, ep := s1.ep, pq := s1.pq, ioq := s1.ioq)
    ensures var r := Schedule(Block(s1, st, call, timeout));
      && NextRuns(s, r)
      && r.waitq == s1.waitq && r.ep == s1.ep && r.pq == s1.pq && r.ioq == s1.ioq && r.owner == s1.owner
  {
  }

  /** A poll that is accepted waits with the deadline it was given. */
  lemma PollStarts(s: State, pds: seq<PollFd>, timeout: Option<nat>, fails: set<nat>)
    requires Inv(s) && Enabled(s, EPoll(pds, timeout, fails))
    ensures var n := Step(s, EPoll(pds, timeout, fails));
      if Th(s, Me(s)).interrupted then ReportsInterrupt(s, n)
      else if n.out == Switched then (
        && BlockedFor(s, n.s, Me(s), IoWait, InPoll(NotYet), timeout) && NextRuns(s, n.s)
        && n.s.ioq == s.ioq + [Me(s)] && n.s.pq == s.pq[Me(s) := Pollq(pds, true)])
      else n.out == Failed(if AllAcceptable(pds) then EKERNEL else EINVAL) && n.s == s.(ep := n.s.ep)
  {
    var a := EpAdd(s.ep, pds, fails);
    hide EpAdd, Block, Schedule, BlockedFor, NextRuns, Places;
    BlockIs(s, s.(ep := a.ep, pq := s.pq[Me(s) := Pollq(pds, true)], ioq := s.ioq + [Me(s)]), IoWait, InPoll(NotYet), timeout);
  }

  /** A condition wait joins the end of its queue, with the deadline it was given. */
  lemma WaitStarts(s: State, c: nat, timeout: Option<nat>)
    requires Inv(s) && Enabled(s, EWait(c, timeout))
    ensures var n := Step(s, EWait(c, timeout));
      if Th(s, Me(s)).interrupted then ReportsInterrupt(s, n)
      else (
        && n.out == Switched && BlockedFor(s, n.s, Me(s), CondWait, InCond(CondQ(c), NotYet), timeout) && NextRuns(s, n.s)
        && n.s.waitq == s.waitq[CondQ(c) := Wq(s, CondQ(c)) + [Me(s)]])
  {
    BlockIs(s, s.(waitq := s.waitq[CondQ(c) := Wq(s, CondQ(c)) + [Me(s)]]), CondWait, InCond(CondQ(c), NotYet), timeout);
  }

  /** A sleep has the deadline it was given, or none. */
  lemma SleepStarts(s: State, timeout: Option<nat>)
    requires Inv(s) && Enabled(s, ESleep(timeout))
    ensures var n := Step(s, ESleep(timeout));
      if Th(s, Me(s)).interrupted then ReportsInterrupt(s, n)
      else (
        && n.out == Switched && NextRuns(s, n.s)
        && BlockedFor(s, n.s, Me(s), if timeout.Some? then Sleeping else Suspended, InSleep, timeout))
  {
    BlockIs(s, s, if timeout.Some? then Sleeping else Suspended, InSleep, timeout);
  }

  /** A lock call waits, without a deadline, exactly if somebody else owns the
      mutex; the owner itself is told of the deadlock. */
  lemma LockStarts(s: State, m: nat)
    requires Inv(s) && Enabled(s, ELock(m))
    ensures var n := Step(s, ELock(m));
      if Th(s, Me(s)).interrupted then ReportsInterrupt(s, n)
      else match Owner(s, m)
        case None => n == Next(s.(owner := s.owner[m := Me(s)]), Ok(0))
        case Some(o) =>
          if o == Me(s) then n == Next(s, Failed(EDEADLK))
          else (
            && n.out == Switched && BlockedFor(s, n.s, Me(s), LockWait, InLock(m), None) && NextRuns(s, n.s)
            && n.s.waitq == s.waitq[MutexQ(m) := Wq(s, MutexQ(m)) + [Me(s)]] && n.s.owner == s.owner)
  {
    BlockIs(s, s.(waitq := s.waitq[MutexQ(m) := Wq(s, MutexQ(m)) + [Me(s)]]), LockWait, InLock(m), None);
  }

  /** A sleep that has ended reports an interrupt, and takes it back, exactly if
      there was one. */
  lemma SleepReturns(s: State)
    requires Inv(s) && Enabled(s, EResume) && Th(s, Me(s)).call == InSleep
    ensures var n, th := Resume(s), Th(s, Me(s));
      && n == Next(Put(s, Me(s), th.(call := NoCall, interrupted := false)), if th.interrupted then Failed(EINTR) else Ok(0))
      && !th.onSleepq && Me(s) !in s.sleep
  {
    assert InPlace(s, Me(s));
  }

  // ------------------------------------------------- how long a deadline stands

  /** Nobody but `me` has got a deadline, and none has been changed. */
  ghost predicate OldDeadlines(s: State, r: State, me: Tid) {
    forall t :: t in r.sleep && t != me ==> t in s.sleep && r.sleep[t] == s.sleep[t]
  }

  lemma {:induction false} SignalDeadlines(s: State, q: seq<Tid>, broadcast: bool, me: Tid)
    ensures OldDeadlines(s, SignalFrom(s, q, broadcast), me)
    decreases |q|
  {
    if q == [] {
    } else {
      SignalDeadlines(if Th(s, q[0]).state == CondWait then WakeUp(s, q[0], BySignal) else s, q[1..], broadcast, me);
    }
  }

  lemma {:induction false} NotifyDeadlines(s: State, q: seq<Tid>, me: Tid)
    ensures OldDeadlines(s, NotifyFrom(s, q), me)
    decreases |q|
  {
    if q == [] {
    } else {
      NotifyDeadlines(Notify1(s, q[0]), q[1..], me);
    }
  }

  lemma {:induction false} ExpireDeadlines(s: State, woken: seq<Tid>, me: Tid)
    ensures OldDeadlines(s, ExpireAll(s, woken), me)
    decreases |woken|
  {
    if woken == [] {
    } else {
      ExpireDeadlines(Expire(s, woken[0]), woken[1..], me);
    }
  }

  lemma DispatchDeadlines(s: State, fired: seq<E.Fired>, me: Tid)
    ensures OldDeadlines(s, Dispatch(s, fired), me)
  {
    if fired != [] && FdsKnown(s.ep, fired) {
      NotifyDeadlines(s.(ep := E.Fire(s.ep, fired)), s.ioq, me);
    }
  }

  lemma BlockDeadlines(s: State, st: ThreadState, call: Call, timeout: Option<nat>)
    ensures OldDeadlines(s, Schedule(Block(s, st, call, timeout)), Me(s))
  {
  }

  lemma IdleDeadlines(s: State, e: Event)
    requires e.EIdle?
    ensures OldDeadlines(s, Step(s, e).s, Me(s))
  {
    var s0 := if e.forked then Reopen(s) else s;
    DispatchDeadlines(s0, e.fired, Me(s));
    ExpireDeadlines(Dispatch(s0, e.fired).(clock := e.now), e.woken, Me(s));
  }

  lemma ExitDeadlines(s: State, retval: int)
    ensures OldDeadlines(s, Exit(s, retval).s, Me(s))
  {
    ExitIs(s, retval);
    var b := Bury(s.(active := s.active - 1), Th(s, Me(s)).(retval := retval));
    SignalDeadlines(b, Wq(s, TermQ(Me(s))), false, Me(s));
  }

  lemma WaitDeadlines(s: State, q: Queue, timeout: Option<nat>)
    ensures OldDeadlines(s, CondStart(s, q, timeout).s, Me(s))
  {
    hide Block, Schedule;
    BlockDeadlines(s.(waitq := s.waitq[q := Wq(s, q) + [Me(s)]]), CondWait, InCond(q, NotYet), timeout);
  }

  lemma LockDeadlines(s: State, m: nat)
    ensures OldDeadlines(s, Lock(s, m).s, Me(s))
  {
    hide Block, Schedule;
    BlockDeadlines(s.(waitq := s.waitq[MutexQ(m) := Wq(s, MutexQ(m)) + [Me(s)]]), LockWait, InLock(m), None);
  }

  lemma PollDeadlines(s: State, pds: seq<PollFd>, timeout: Option<nat>, fails: set<nat>)
    ensures OldDeadlines(s, Poll(s, pds, timeout, fails).s, Me(s))
  {
    hide Block, Schedule, EpAdd;
    var a := EpAdd(s.ep, pds, fails);
    BlockDeadlines(s.(ep := a.ep, pq := s.pq[Me(s) := Pollq(pds, true)], ioq := s.ioq + [Me(s)]), IoWait, InPoll(NotYet), timeout);
  }

  lemma SleepDeadlines(s: State, timeout: Option<nat>)
    ensures OldDeadlines(s, Sleep(s, timeout).s, Me(s))
  {
    hide Block, Schedule;
    BlockDeadlines(s, if timeout.Some? then Sleeping else Suspended, InSleep, timeout);
  }

  lemma JoinDeadlines(s: State, t: Tid)
    ensures OldDeadlines(s, Join(s, t).s, Me(s)) && OldDeadlines(s, JoinEnd(s, t).s, Me(s))
  {
    hide Block, Schedule, CondStart;
    WaitDeadlines(s, TermQ(t), None);
    WaitDeadlines(CondEnd(s).s, TermQ(t), None);
  }

  lemma ResumeDeadlines(s: State)
    ensures OldDeadlines(s, Resume(s).s, Me(s))
  {
    hide PollEnd, CondEnd, LockEnd, SleepEnd, ExitEnd, JoinEnd;
    EndsDeadlines(s);
    var call := Th(s, Me(s)).call;
    if call.InCond? && call.q.TermQ? {
      JoinDeadlines(s, call.q.t);
    }
  }

  lemma EndsDeadlines(s: State)
    ensures OldDeadlines(s, PollEnd(s).s, Me(s)) && OldDeadlines(s, CondEnd(s).s, Me(s)) && OldDeadlines(s, LockEnd(s).s, Me(s))
    ensures OldDeadlines(s, SleepEnd(s).s, Me(s)) && OldDeadlines(s, ExitEnd(s).s, Me(s))
  {
    hide EpDel, Without, FreeStack;
  }

  lemma StepOldDeadlines(s: State, e: Event)
    ensures OldDeadlines(s, Step(s, e).s, Me(s))
  {
    hide Block, Schedule, Exit, Sleep, CondStart, SignalFrom, Lock, Poll, Resume, Idle, Join;
    match e
    case EExit(retval) => ExitDeadlines(s, retval);
    case EJoin(t) => JoinDeadlines(s, t);
    case ESleep(timeout) => SleepDeadlines(s, timeout);
    case EWait(c, timeout) => WaitDeadlines(s, CondQ(c), timeout);
    case ESignal(c, broadcast) => SignalDeadlines(s, Wq(s, CondQ(c)), broadcast, Me(s));
    case ELock(m) => LockDeadlines(s, m);
    case EUnlock(m) => HandOverIs(s, m, Wq(s, MutexQ(m)));
    case EPoll(pds, timeout, fails) => PollDeadlines(s, pds, timeout, fails);
    case EResume => ResumeDeadlines(s);
    case EIdle(_, _, _, _) => IdleDeadlines(s, e);
    case _ =>
  }

  // ---------------------------------------------------------- the clock check

  lemma {:induction false} ExpireTakes(s: State, woken: seq<Tid>, t: Tid)
    requires t in woken && (t in s.sleep ==> Th(s, t).onSleepq)
    ensures t !in ExpireAll(s, woken).sleep
    decreases |woken|
  {
    var s1 := Expire(s, woken[0]);
    if woken[0] == t {
      ExpireDeadlines(s1, woken[1..], t + 1);
    } else {
      ExpireTakes(s1, woken[1..], t);
    }
  }

  /** The state in which the clock check of a round starts. */
  lemma ClockCheckStarts(s: State, e: Event)
    requires Inv(s) && Enabled(s, e) && e.EIdle?
    ensures var s1 := Dispatch(if e.forked then Reopen(s) else s, e.fired);
      && ExpiryOrder(s1.sleep, e.now, e.woken) && OldDeadlines(s, s1, s.idle)
      && (forall t :: t in s1.sleep ==> Th(s1, t).onSleepq)
  {
    var s0 := if e.forked then Reopen(s) else s;
    ElsewherePlaces(s, s0);
    DispatchPlaces(s0, e.fired);
    DispatchDeadlines(s0, e.fired, s.idle);
    hide Dispatch, ExpiryOrder, Reopen;
    var s1 := Dispatch(s0, e.fired);
    forall t | t in s1.sleep
      ensures Th(s1, t).onSleepq
    {
      assert InPlace(s1, t);
    }
  }

  lemma IdleIs(s: State, e: Event)
    requires e.EIdle?
    ensures var r, s2 := Step(s, e).s, ExpireAll(Dispatch(if e.forked then Reopen(s) else s, e.fired).(clock := e.now), e.woken);
      r.sleep == s2.sleep && r.clock == s2.clock
  {
    hide Dispatch, Reopen, ExpireAll;
  }

  /** The clock check takes exactly those whose deadline has come. */
  lemma IdleTakesDue(s: State, e: Event, t: Tid)
    requires Inv(s) && Enabled(s, e) && e.EIdle? && t in s.sleep
    ensures var r := Step(s, e).s; r.clock == e.now && (t in r.sleep ==> s.sleep[t] > e.now)
    ensures t in e.woken ==> s.sleep[t] <= e.now
  {
    Asleep(s, t);
    hide Inv, Enabled, Step, Dispatch, Reopen, ExpireAll;
    ClockCheckStarts(s, e);
    IdleIs(s, e);
    var s1 := Dispatch(if e.forked then Reopen(s) else s, e.fired).(clock := e.now);
    ExpireAllFrame(s1, e.woken);
    ExpireDeadlines(s1, e.woken, t + 1);
    if t in s1.sleep && s1.sleep[t] <= e.now {
      ExpireTakes(s1, e.woken, t);
    }
  }

  /** What ends a poll in a round of the idle thread. */
  ghost function EndOfRound(s: State, e: Event, t: Tid): Cause
    requires e.EIdle?
  {
    if HasFired(s, e.fired, t) then BySignal
    else if t in s.sleep && s.sleep[t] <= e.now then ByTimeout
    else NotYet
  }

  /** Whoever is hit by a dispatch is awake and remembers why. */
  lemma FiredWakes(s: State, fired: seq<E.Fired>, t: Tid)
    requires Ready(s) && Io(s) && s.cur == Some(s.idle) && E.KernelReports(s.ep, fired) && HasFired(s, fired, t)
    ensures fired != [] && Th(Dispatch(s, fired), t).call == InPoll(BySignal) && t !in Dispatch(s, fired).sleep
  {
    hide Dispatch, Hits, E.Fire, E.Told;
    var r := Dispatch(s, fired);
    var i :| 0 <= i < |s.pq[t].pds| && E.Report(s.pq[t].pds[i].events, E.EventOf(fired, s.pq[t].pds[i].fd)) != NO_BITS;
    DispatchPlaces(s, fired);
    DispatchCalls(s, fired, t);
    DispatchTells(s, fired, t, i);
    DispatchHits(s, fired);
    HitsAre(E.Fire(s.ep, fired), s.ioq, s.pq, t);
    IoqAllWaiting(s);
    assert InPlace(s, t) && t in r.thr && InPlace(r, t);
  }

  lemma {:induction false} HitsAre(ep: E.Ep, q: seq<Tid>, pq: map<Tid, Pollq>, t: Tid)
    ensures t in Hits(ep, q, pq) <==> t in q && t in pq && E.InTable(pq[t].pds, |ep.fd|) && E.Notified(E.Told(ep, pq[t].pds))
    decreases |q|
  {
    if q == [] {
    } else {
      HitsAre(ep, q[1..], pq, t);
    }
  }

  /** A round of the idle thread ends a poll as ready exactly if something has
      fired for it, even if its time is up as well; as timed out exactly if
      nothing has and its time is up; and leaves all others waiting. */
  lemma ReadyBeatsClock(s: State, e: Event, t: Tid)
    requires Inv(s) && Enabled(s, e) && e.EIdle? && t in s.ioq
    ensures Th(Step(s, e).s, t).call == InPoll(EndOfRound(s, e, t))
  {
    if HasFired(s, e.fired, t) {
      FiredInRound(s, e, t);
    } else {
      UnfiredInRound(s, e, t);
    }
  }

  /** A fork changes nothing for those that poll. */
  lemma ForkedAlike(s: State, e: Event, t: Tid)
    requires Inv(s) && Enabled(s, e) && e.EIdle?
    ensures var s0 := if e.forked then Reopen(s) else s;
      && Ready(s0) && Io(s0) && s0.cur == Some(s0.idle) && E.KernelReports(s0.ep, e.fired)
      && (HasFired(s0, e.fired, t) <==> HasFired(s, e.fired, t))
      && (t !in Dispatch(s0, e.fired).sleep ==> t !in e.woken)
  {
    var s0 := if e.forked then Reopen(s) else s;
    ForkChangesNothing(s);
    ElsewherePlaces(s, s0);
    hide Dispatch;
  }

  lemma FiredInRound(s: State, e: Event, t: Tid)
    requires Inv(s) && Enabled(s, e) && e.EIdle? && HasFired(s, e.fired, t)
    ensures Th(Step(s, e).s, t).call == InPoll(BySignal)
  {
    hide Inv, Enabled, Dispatch, Reopen, ExpireAll, Schedule, HasFired, Ready, Io;
    ForkedAlike(s, e, t);
    var s0 := if e.forked then Reopen(s) else s;
    FiredWakes(s0, e.fired, t);
    var s1 := Dispatch(s0, e.fired).(clock := e.now);
    ExpireCalls(s1, e.woken, t);
    SwitchCalls(ExpireAll(s1, e.woken), t);
  }

  lemma UnfiredInRound(s: State, e: Event, t: Tid)
    requires Inv(s) && Enabled(s, e) && e.EIdle? && t in s.ioq && !HasFired(s, e.fired, t)
    ensures Th(Step(s, e).s, t).call == InPoll(if t in s.sleep && s.sleep[t] <= e.now then ByTimeout else NotYet)
  {
    var r := Step(s, e).s;
    IoqAllWaiting(s);
    assert InPlace(s, t);
    IdleCalls(s, e, t);
    if t in s.sleep {
      IdleTakesDue(s, e, t);
      StepDeadline(s, e, t);
      if s.sleep[t] <= e.now {
        AbleMeans(r, t);
      }
    } else {
      DispatchDeadlines(if e.forked then Reopen(s) else s, e.fired, t + 1);
    }
  }

  /** The thread has been woken by the clock and by nothing else. */
  predicate TimedOutCall(th: Thread) {
    !th.interrupted && (th.call == InSleep || (IsWait(th.call) && th.call.cause == ByTimeout))
  }

  /** A thread with a deadline keeps it until it is made able to run; no round of
      the idle thread that comes at the deadline or later passes it over, and
      none that comes before times it out. */
  lemma StepDeadline(s: State, e: Event, t: Tid)
    requires Inv(s) && Enabled(s, e) && t in s.sleep
    ensures var r := Step(s, e).s;
      && Inv(r) && t in r.thr && t != Me(s) && (Th(r, t).call == InSleep || IsWait(Th(r, t).call))
      && (if t in r.sleep then r.sleep[t] == s.sleep[t] && (e.EIdle? ==> e.now < s.sleep[t]) else Able(r, t))
      && (t !in r.sleep && TimedOutCall(Th(r, t)) ==> e.EIdle? && s.sleep[t] <= e.now)
  {
    var r := Step(s, e).s;
    hide Inv, Step, Enabled, CallStep;
    StepKeeps(s, e);
    StepOldDeadlines(s, e);
    Asleep(s, t);
    NotNew(s, e, t);
    StepCalls(s, e, t);
    if e.EIdle? {
      IdleTakesDue(s, e, t);
    }
    LeavesSleep(Th(s, t), Th(r, t), s, e, t);
    Placed(r, t);
  }

  lemma NotNew(s: State, e: Event, t: Tid)
    requires Enabled(s, e) && t in s.thr
    ensures e.ECreate? ==> e.t != t
  {
  }

  lemma LeavesSleep(a: Thread, b: Thread, s: State, e: Event, t: Tid)
    requires CallStep(a, b, s, e, t) && a.onSleepq && a.state != Zombie
    requires a.call == InSleep || (IsWait(a.call) && a.call.cause == NotYet)
    ensures (b.call == InSleep || IsWait(b.call)) && (!b.onSleepq ==> Awake(b))
    ensures !b.onSleepq && TimedOutCall(b) ==> e.EIdle? && t in e.woken
  {
  }

  lemma Asleep(s: State, t: Tid)
    requires Inv(s) && t in s.sleep
    ensures t in s.thr && t != Me(s) && t != s.idle && s.thr[t].onSleepq && s.thr[t].state != Zombie
    ensures s.thr[t].call == InSleep || (IsWait(s.thr[t].call) && s.thr[t].call.cause == NotYet)
  {
    assert InPlace(s, t);
  }

  lemma Placed(s: State, t: Tid)
    requires Inv(s) && Th(s, t).call != NoCall
    ensures t in s.thr && (t in s.sleep <==> Th(s, t).onSleepq) && (Awake(Th(s, t)) && Th(s, t).call != Gone ==> Able(s, t))
  {
    assert InPlace(s, t);
  }

  // ---------------------------------------------------------------- whole runs

  /** t is inside a call whose wait is over, and can run. */
  predicate Over(s: State, t: Tid) {
    && t in s.thr && t !in s.sleep && Able(s, t)
    && (Th(s, t).call == InSleep || (IsWait(Th(s, t).call) && Th(s, t).call.cause != NotYet))
  }

  /** A thread whose wait is over stays able to run, and what ended the wait stays
      the same, until it resumes. */
  lemma StaysOver(s: State, e: Event, t: Tid)
    requires Inv(s) && Enabled(s, e) && Over(s, t) && !(e == EResume && Me(s) == t)
    ensures Inv(Step(s, e).s) && Over(Step(s, e).s, t)
    ensures TimedOutCall(Th(Step(s, e).s, t)) ==> TimedOutCall(Th(s, t))
  {
    var r := Step(s, e).s;
    StepKeeps(s, e);
    Runs(s, e, t);
    StepCalls(s, e, t);
    hide Step, Enabled;
    Placed(r, t);
    Placed(s, t);
  }

  lemma Runs(s: State, e: Event, t: Tid)
    requires Inv(s) && Enabled(s, e) && Over(s, t) && !(e == EResume && Me(s) == t)
    ensures t != Me(s) && t != s.idle && Awake(Th(s, t)) && Th(s, t).state != Zombie && (e.ECreate? ==> e.t != t)
  {
    assert InPlace(s, t) && InPlace(s, s.idle);
  }

  /** Step i of the run is a round of the idle thread that comes at this time or
      later. */
  predicate RoundAfter(es: seq<Event>, i: nat, due: int) {
    i < |es| && es[i].EIdle? && es[i].now >= due
  }

  lemma JustOver(s: State, t: Tid)
    requires Inv(s) && t in s.thr && t !in s.sleep && Able(s, t) && (Th(s, t).call == InSleep || IsWait(Th(s, t).call))
    ensures Over(s, t)
  {
    if IsWait(Th(s, t).call) {
      AbleMeans(s, t);
    }
  }

  lemma {:induction false} OverRun(s: State, es: seq<Event>, t: Tid)
    requires Inv(s) && Possible(s, es) && Away(s, es, t) && Over(s, t)
    ensures var r := Run(s, es);
      Inv(r) && Over(r, t) && (TimedOutCall(Th(r, t)) ==> TimedOutCall(Th(s, t)))
    decreases |es|
  {
    if es == [] {
    } else {
      StaysOver(s, es[0], t);
      OverRun(Step(s, es[0]).s, es[1..], t);
    }
  }

  /** The rounds of a run are its first step, if that is one, and those after it. */
  lemma RoundsAfter(es: seq<Event>, due: int)
    requires es != []
    ensures (exists i: nat :: RoundAfter(es, i, due)) <==> RoundAfter(es, 0, due) || exists i: nat :: RoundAfter(es[1..], i, due)
  {
    forall i: nat
      ensures RoundAfter(es[1..], i, due) <==> RoundAfter(es, i + 1, due)
    {
    }
    if j: nat :| RoundAfter(es, j, due) && j > 0 {
      assert RoundAfter(es[1..], j - 1, due);
    }
    if i: nat :| RoundAfter(es[1..], i, due) {
      assert RoundAfter(es, i + 1, due);
    }
  }

  /** At the end r of a run, the thread either still waits, with this deadline,
      and no round of the idle thread has come at the deadline or later, or it
      can run; and if it was the clock that ended its call, a round at the
      deadline or later did. */
  ghost predicate DeadlineKept(r: State, es: seq<Event>, t: Tid, due: int) {
    if t in r.sleep then r.sleep[t] == due && (forall i: nat :: !RoundAfter(es, i, due))
    else Over(r, t) && (TimedOutCall(Th(r, t)) ==> exists i: nat :: RoundAfter(es, i, due))
  }

  lemma KeptFurther(s: State, es: seq<Event>, t: Tid, due: int)
    requires es != [] && t in Step(s, es[0]).s.sleep && DeadlineKept(Run(Step(s, es[0]).s, es[1..]), es[1..], t, due)
    requires es[0].EIdle? ==> es[0].now < due
    ensures DeadlineKept(Run(s, es), es, t, due)
  {
    hide Step, Over, TimedOutCall;
    RoundsAfter(es, due);
    if t in Run(s, es).sleep {
      forall i: nat
        ensures !RoundAfter(es, i, due)
      {
      }
    }
  }

  lemma KeptHere(s: State, es: seq<Event>, t: Tid, due: int)
    requires es != [] && Over(Run(s, es), t) && (TimedOutCall(Th(Run(s, es), t)) ==> RoundAfter(es, 0, due))
    ensures DeadlineKept(Run(s, es), es, t, due)
  {
    hide Run, TimedOutCall;
  }

  /** A deadline is kept over every run in which its thread does not resume. */
  lemma {:induction false} OnTime(s: State, es: seq<Event>, t: Tid)
    requires Inv(s) && Possible(s, es) && Away(s, es, t) && t in s.sleep
    ensures DeadlineKept(Run(s, es), es, t, s.sleep[t])
    decreases |es|
  {
    Asleep(s, t);
    hide Inv, Step, Enabled, Over, TimedOutCall;
    if es == [] {
    } else {
      hide DeadlineKept;
      var s1, due := Step(s, es[0]).s, s.sleep[t];
      StepDeadline(s, es[0], t);
      if t in s1.sleep {
        OnTime(s1, es[1..], t);
        KeptFurther(s, es, t, due);
      } else {
        JustOver(s1, t);
        OverRun(s1, es[1..], t);
        KeptHere(s, es, t, due);
      }
    }
  }

  /** The timeout that a call was given. */
  function Asked(e: Event): Option<nat> {
    match e
    case EPoll(_, timeout, _) => timeout
    case EWait(_, timeout) => timeout
    case ESleep(timeout) => timeout
    case _ => None
  }

  lemma TimedCallStarts(s: State, e: Event)
    requires Inv(s) && Enabled(s, e) && Asked(e).Some? && Step(s, e).out == Switched
    ensures Me(s) in Step(s, e).s.sleep && Step(s, e).s.sleep[Me(s)] == s.clock + Asked(e).value
  {
    match e {
      case EPoll(pds, timeout, fails) => PollStarts(s, pds, timeout, fails);
      case EWait(c, timeout) => WaitStarts(s, c, timeout);
      case ESleep(timeout) => SleepStarts(s, timeout);
    }
  }

  /** A poll, a wait or a sleep that was given a timeout, and that has blocked,
      has the deadline it has asked for and keeps it: it is not timed out sooner,
      and no round of the idle thread at that time or later passes it over. */
  lemma TimedCallEnds(s: State, e: Event, es: seq<Event>)
    requires Inv(s) && Enabled(s, e) && Asked(e).Some? && Step(s, e).out == Switched
    requires Possible(Step(s, e).s, es) && Away(Step(s, e).s, es, Me(s))
    ensures DeadlineKept(Run(Step(s, e).s, es), es, Me(s), s.clock + Asked(e).value)
  {
    hide Step, Inv, Enabled, Run, Possible, Away, DeadlineKept;
    StepKeeps(s, e);
    TimedCallStarts(s, e);
    OnTime(Step(s, e).s, es, Me(s));
  }
}
