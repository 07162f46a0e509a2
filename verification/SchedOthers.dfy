/** The rest of the scheduler's invariant: wait queues, mutexes, stacks and the
    count of active threads. */
module SchedOthers {
  import opened ThreadTypes
  import opened Wrappers
  import opened Sched
  import opened SchedInv
  import opened SchedKeeps
  import opened Expiry
  import E = Epoll

  /** The wait queue a thread inside this call is linked on. */
  function Awaits(call: Call): Option<Queue> {
    match call
    case InCond(q, _) => Some(q)
    case InLock(m) => Some(MutexQ(m))
    case _ => None
  }

  /** A thread is on one wait queue while it is inside a call that waits on it,
      also after it has been woken, and on no other. */
  ghost predicate Queues(s: State) {
    && (forall q: Queue, t: Tid :: t in Wq(s, q) <==> Awaits(Th(s, t).call) == Some(q))
    && (forall q :: NoDup(Wq(s, q)))
    && (forall t: Tid {:trigger OnCondition(s, t)} :: OnCondition(s, t))
  }

  /** Waits that can be signalled are not on the queue of a mutex. */
  predicate OnCondition(s: State, t: Tid) {
    Th(s, t).call.InCond? ==> !Th(s, t).call.q.MutexQ?
  }

  /** A thread that still waits for a mutex waits behind another owner; one
      that has stopped waiting owns the mutex or was interrupted. */
  predicate LockOk(s: State, t: Tid) {
    Th(s, t).call.InLock? ==>
      var o := Owner(s, Th(s, t).call.m);
      if Th(s, t).state == LockWait then o.Some? && o != Some(t) else o == Some(t) || Th(s, t).interrupted
  }

  ghost predicate Locks(s: State) {
    forall t: Tid {:trigger LockOk(s, t)} :: LockOk(s, t)
  }

  /** The thread whose exit t is waiting for. */
  predicate Joins(s: State, t: Tid) {
    Th(s, t).call.InCond? && Th(s, t).call.q.TermQ?
  }

  /** What is joined is another thread. */
  ghost predicate Targets(s: State) {
    forall t: Tid {:trigger Joins(s, t)} :: Joins(s, t) ==> Th(s, t).call.q.t in s.thr && Th(s, t).call.q.t != t
  }

  /** Stacks of threads that are not gone, and free stacks, are all different. */
  ghost predicate Stacks(s: State) {
    && (forall t: Tid :: Live(s, t) && s.thr[t].stack.Some? ==> s.thr[t].stack.value.id < s.nextStack)
    && (forall t: Tid, u: Tid :: Live(s, t) && Live(s, u) && t != u && s.thr[t].stack.Some? && s.thr[u].stack.Some? ==>
          s.thr[t].stack.value.id != s.thr[u].stack.value.id)
    && (forall k :: k in s.freeStacks ==> k.id < s.nextStack)
    && (forall i, j :: 0 <= i < j < |s.freeStacks| ==> s.freeStacks[i].id != s.freeStacks[j].id)
    && (forall t: Tid, k: Stack :: Live(s, t) && s.thr[t].stack.Some? && k in s.freeStacks ==> s.thr[t].stack.value.id != k.id)
  }

  ghost function ActiveSet(s: State): set<Tid> {
    set t | t in s.thr && t != s.idle && !Exited(s.thr[t])
  }

  ghost predicate Active(s: State) {
    s.active == |ActiveSet(s)|
  }

  ghost predicate Others(s: State) {
    Queues(s) && Locks(s) && Targets(s) && Stacks(s) && Active(s)
  }

  // ------------------------------------------------- steps that only wake

  /** What waking, interrupting, timing out and scheduling do to a thread. */
  ghost predicate TameThread(a: Thread, b: Thread) {
    && b.term == a.term && b.retval == a.retval && b.stack == a.stack
    && (b.call == a.call
        || (a.call.InCond? && a.call.cause == NotYet && b.call.InCond? && b.call.q == a.call.q && b.call.cause != NotYet
            && (b.call.cause == ByTimeout ==> a.onSleepq))
        || (a.call == InPoll(NotYet) && b.call.InPoll?))
    && (b.state == LockWait <== a.state == LockWait && !b.interrupted)
    && (b.state == LockWait ==> a.state == LockWait)
    && (a.interrupted ==> b.interrupted)
    && (b.state == Zombie <==> a.state == Zombie)
    && (b.onSleepq ==> a.onSleepq)
  }

  ghost predicate Tame(s: State, r: State) {
    && r.thr.Keys == s.thr.Keys && r.idle == s.idle
    && r.waitq == s.waitq && r.owner == s.owner && r.active == s.active
    && r.freeStacks == s.freeStacks && r.nextStack == s.nextStack
    && (forall t: Tid {:trigger Th(r, t)} {:trigger Th(s, t)} :: TameThread(Th(s, t), Th(r, t)))
  }

  lemma TameTwice(a: State, b: State, c: State)
    requires Tame(a, b) && Tame(b, c)
    ensures Tame(a, c)
  {
    forall t
      ensures TameThread(Th(a, t), Th(c, t))
    {
      assert TameThread(Th(a, t), Th(b, t)) && TameThread(Th(b, t), Th(c, t));
    }
  }

  lemma TameQueues(s: State, r: State)
    requires Queues(s) && Locks(s) && Tame(s, r)
    ensures Queues(r) && Locks(r)
  {
    forall q, t
      ensures t in Wq(r, q) <==> Awaits(Th(r, t).call) == Some(q)
    {
      assert t in Wq(s, q) <==> Awaits(Th(s, t).call) == Some(q);
      assert TameThread(Th(s, t), Th(r, t));
    }
    forall q
      ensures NoDup(Wq(r, q))
    {
      assert NoDup(Wq(s, q));
    }
    forall t: Tid
      ensures OnCondition(r, t) && LockOk(r, t)
    {
      assert OnCondition(s, t) && LockOk(s, t) && TameThread(Th(s, t), Th(r, t));
    }
  }

  lemma TameStacks(s: State, r: State)
    requires Tame(s, r)
    ensures Stacks(s) ==> Stacks(r)
    ensures Active(s) ==> Active(r)
  {
    forall t: Tid | t in s.thr
      ensures t in r.thr && s.thr[t].stack == r.thr[t].stack && (s.thr[t].call == Gone <==> r.thr[t].call == Gone)
      ensures Exited(s.thr[t]) <==> Exited(r.thr[t])
    {
      assert TameThread(Th(s, t), Th(r, t));
    }
    assert ActiveSet(s) == ActiveSet(r);
  }

  lemma TameKeeps(s: State, r: State)
    requires Others(s) && Tame(s, r)
    ensures Others(r)
  {
    TameQueues(s, r);
    TameStacks(s, r);
    forall t: Tid | Joins(r, t)
      ensures Th(r, t).call.q.t in r.thr && Th(r, t).call.q.t != t
    {
      assert TameThread(Th(s, t), Th(r, t)) && Joins(s, t);
    }
  }

  // --------------------------------------------------------- tame fragments

  lemma ScheduleTame(s: State)
    requires Places(s) && s.cur.None?
    ensures Tame(s, Schedule(s))
  {
    assert InPlace(s, if s.runq != [] then s.runq[0] else s.idle);
  }

  /** Waking by timeout or interrupt, or because something fired. */
  lemma WakeTame(s: State, t: Tid, th: Thread, cause: Cause)
    requires t in s.thr && Waiting(s.thr[t].state)
    requires th == s.thr[t].(interrupted := th.interrupted, timedOut := th.timedOut)
    requires s.thr[t].interrupted ==> th.interrupted
    requires th.state == LockWait ==> th.interrupted
    requires th.call.InCond? && th.call.cause == NotYet ==>
      cause != NotYet && (cause == ByTimeout ==> th.onSleepq)
    ensures Tame(s, WakeAs(s, t, th, cause))
  {
  }

  lemma {:induction false} SignalTame(s: State, c: Queue, q: seq<Tid>, broadcast: bool)
    requires forall t: Tid :: t in q ==> t in s.thr && Awaits(s.thr[t].call) == Some(c)
    requires !c.MutexQ?
    ensures Tame(s, SignalFrom(s, q, broadcast))
    decreases |q|
  {
    if q == [] {
    } else {
      assert q == [q[0]] + q[1..];
      assert q[0] in q && (forall t: Tid :: t in q[1..] ==> t in q);
      if Th(s, q[0]).state == CondWait {
        var s1 := WakeUp(s, q[0], BySignal);
        WakeTame(s, q[0], s.thr[q[0]], BySignal);
        if broadcast {
          SignalTame(s1, c, q[1..], broadcast);
          TameTwice(s, s1, SignalFrom(s1, q[1..], broadcast));
        }
      } else {
        SignalTame(s, c, q[1..], broadcast);
      }
    }
  }

  /** Only thread t has changed, and only in a tame way. */
  lemma OneTame(s: State, r: State, t: Tid)
    requires t in s.thr && t in r.thr && r.thr == s.thr[t := r.thr[t]] && TameThread(s.thr[t], r.thr[t])
    requires r.idle == s.idle && r.waitq == s.waitq && r.owner == s.owner && r.active == s.active
    requires r.freeStacks == s.freeStacks && r.nextStack == s.nextStack
    ensures Tame(s, r)
  {
  }

  lemma SameTame(s: State, r: State)
    requires r == s.(ep := r.ep, clock := r.clock, ioq := r.ioq, pq := r.pq)
    ensures Tame(s, r)
  {
  }

  lemma InterruptTame(s: State, t: Tid)
    requires Places(s) && t in s.thr
    ensures Tame(s, Interrupt(s, t).s)
  {
    assert InPlace(s, t);
    var th := s.thr[t].(interrupted := true);
    if s.thr[t].state == Zombie {
      SameTame(s, s);
    } else if s.thr[t].state == Running || s.thr[t].state == Runnable {
      OneTame(s, Put(s, t, th), t);
    } else {
      WakeTame(s, t, th, ByInterrupt);
    }
  }

  lemma Notify1Tame(s: State, t: Tid)
    requires Places(s) && t in s.ioq && s.thr[t].state == IoWait
    ensures Tame(s, Notify1(s, t))
  {
    assert InPlace(s, t);
    var r := Notify1(s, t);
    if r.thr == s.thr {
      SameTame(s, r);
    } else {
      OneTame(s, r, t);
    }
  }

  lemma {:induction false} NotifyTame(s: State, q: seq<Tid>)
    requires Places(s) && NoDup(q) && (forall t :: t in q ==> t in s.ioq)
    requires forall t :: t in s.ioq ==> s.thr[t].state == IoWait
    ensures Tame(s, NotifyFrom(s, q))
    decreases |q|
  {
    if q == [] {
      SameTame(s, s);
    } else {
      var t := q[0];
      assert q == [t] + q[1..];
      Notify1Tame(s, t);
      Notify1Waiting(s, t);
      NotifyTame(Notify1(s, t), q[1..]);
      TameTwice(s, Notify1(s, t), NotifyFrom(s, q));
    }
  }

  lemma {:induction false} ExpireAllTame(s: State, woken: seq<Tid>)
    requires Places(s) && NoDup(woken) && forall t: Tid :: t in woken ==> t in s.sleep
    ensures Tame(s, ExpireAll(s, woken))
    decreases |woken|
  {
    if woken == [] {
    } else {
      var t := woken[0];
      assert woken == [t] + woken[1..];
      assert InPlace(s, t);
      var th := s.thr[t];
      WakeTame(s, t, if th.state == CondWait then th.(timedOut := true) else th, ByTimeout);
      ExpirePlaces(s, t);
      ExpireAllTame(Expire(s, t), woken[1..]);
      TameTwice(s, Expire(s, t), ExpireAll(Expire(s, t), woken[1..]));
    }
  }

  lemma IdleTame(s: State, forked: bool, fired: seq<E.Fired>, now: int, woken: seq<Tid>)
    requires Ready(s) && s.cur == Some(s.idle)
    requires ExpiryOrder(Dispatch(if forked then Reopen(s) else s, fired).sleep, now, woken)
    ensures Tame(s, Idle(s, forked, fired, now, woken).s)
  {
    var s0 := if forked then Reopen(s) else s;
    var s1 := Dispatch(s0, fired);
    DispatchTame(s, s0, fired);
    var s1' := s1.(clock := now);
    var s2 := ExpireAll(s1', woken);
    ElsewherePlaces(s, s0);
    DispatchPlaces(s0, fired);
    ElsewherePlaces(s1, s1');
    ExpireAllTame(s1', woken);
    TameTwice(s, s1', s2);
    ExpireAllPlaces(s1', woken);
    DispatchFrame(s0, fired);
    ExpireAllFrame(s1', woken);
    IdleSwitchTame(s2);
    TameTwice(s, s2, Idle(s, forked, fired, now, woken).s);
  }

  lemma IdleSwitchTame(s: State)
    requires Places(s) && s.cur == Some(s.idle)
    ensures Tame(s, Schedule(Put(s.(cur := None), s.idle, Th(s, s.idle).(state := Runnable))))
  {
    var r := Put(s.(cur := None), s.idle, Th(s, s.idle).(state := Runnable));
    assert InPlace(s, s.idle);
    MovePlaces(s, r, s.idle);
    ScheduleTame(r);
    TameTwice(s, r, Schedule(r));
  }

  lemma DispatchTame(s: State, s0: State, fired: seq<E.Fired>)
    requires Places(s) && s.cur == Some(s.idle) && s.runq == [] && s0 == s.(ep := s0.ep)
    ensures Tame(s, Dispatch(s0, fired))
  {
    ElsewherePlaces(s, s0);
    IoqAllWaiting(s0);
    if fired != [] && FdsKnown(s0.ep, fired) {
      var s1 := s0.(ep := E.Fire(s0.ep, fired));
      ElsewherePlaces(s0, s1);
      SameTame(s, s1);
      NotifyTame(s1, s1.ioq);
      var s2 := NotifyFrom(s1, s1.ioq);
      TameTwice(s, s1, s2);
      SameTame(s2, Dispatch(s0, fired));
      TameTwice(s, s2, Dispatch(s0, fired));
    } else {
      SameTame(s, s0);
    }
  }
}