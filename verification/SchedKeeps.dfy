/** Every step keeps every thread where its state says it is. */
module SchedKeeps {
  import opened ThreadTypes
  import opened Wrappers
  import opened PollTypes
  import opened Sched
  import opened SchedInv
  import opened Expiry
  import E = Epoll

  /** A step of the machine that may be taken by the running thread. */
  ghost predicate Ready(s: State) {
    Places(s) && IdleLast(s)
  }

  /** Places says nothing about wait queues, owners, stacks, the clock or the
      descriptor table. */
  lemma ElsewherePlaces(s: State, r: State)
    requires Places(s)
    requires r == s.(waitq := r.waitq, owner := r.owner, freeStacks := r.freeStacks, nextStack := r.nextStack,
                     active := r.active, ep := r.ep, clock := r.clock)
    ensures Places(r)
  {
    forall u | u in r.thr
      ensures InPlace(r, u)
    {
      assert InPlace(s, u);
    }
  }

  lemma CondStartPlaces(s: State, q: Queue, timeout: Option<nat>)
    requires Ready(s) && Me(s) != s.idle && Th(s, Me(s)).call == NoCall
    ensures Ready(CondStart(s, q, timeout).s)
  {
    assert InPlace(s, Me(s));
    if Th(s, Me(s)).interrupted {
      ReturnPlaces(s, Th(s, Me(s)).(interrupted := false));
    } else {
      var s1 := s.(waitq := s.waitq[q := Wq(s, q) + [Me(s)]]);
      ElsewherePlaces(s, s1);
      BlockPlaces(s1, CondWait, InCond(q, NotYet), timeout);
      SchedulePlaces(Block(s1, CondWait, InCond(q, NotYet), timeout));
    }
  }

  lemma CondEndPlaces(s: State)
    requires Ready(s) && Me(s) != s.idle && Th(s, Me(s)).call.InCond?
    ensures Ready(CondEnd(s).s)
  {
    var q := Th(s, Me(s)).call.q;
    var s1 := s.(waitq := s.waitq[q := Without(Wq(s, q), Me(s))]);
    ElsewherePlaces(s, s1);
    ReturnPlaces(s1, CondEnd(s).s.thr[Me(s)]);
  }

  lemma {:induction false} SignalFromPlaces(s: State, q: seq<Tid>, broadcast: bool)
    requires Places(s) && forall t :: t in q ==> Th(s, t).state == CondWait ==> t in s.thr
    ensures Places(SignalFrom(s, q, broadcast))
    ensures SignalFrom(s, q, broadcast).cur == s.cur && SignalFrom(s, q, broadcast).idle == s.idle
    decreases |q|
  {
    if q == [] {
    } else {
      assert q == [q[0]] + q[1..];
      if Th(s, q[0]).state == CondWait {
        assert InPlace(s, q[0]);
        WakePlaces(s, q[0], s.thr[q[0]], BySignal);
        if broadcast {
          SignalFromPlaces(WakeUp(s, q[0], BySignal), q[1..], broadcast);
        }
      } else {
        SignalFromPlaces(s, q[1..], broadcast);
      }
    }
  }

  lemma SleepPlaces(s: State, timeout: Option<nat>)
    requires Ready(s) && Me(s) != s.idle && Th(s, Me(s)).call == NoCall
    ensures Ready(Sleep(s, timeout).s)
  {
    assert InPlace(s, Me(s));
    if Th(s, Me(s)).interrupted {
      ReturnPlaces(s, Th(s, Me(s)).(interrupted := false));
    } else {
      var st := if timeout.Some? then Sleeping else Suspended;
      BlockPlaces(s, st, InSleep, timeout);
      SchedulePlaces(Block(s, st, InSleep, timeout));
    }
  }

  lemma LockPlaces(s: State, m: nat)
    requires Ready(s) && Me(s) != s.idle && Th(s, Me(s)).call == NoCall
    ensures Ready(Lock(s, m).s)
  {
    assert InPlace(s, Me(s));
    if Th(s, Me(s)).interrupted {
      ReturnPlaces(s, Th(s, Me(s)).(interrupted := false));
    } else if Owner(s, m).None? {
      ElsewherePlaces(s, Lock(s, m).s);
    } else if Owner(s, m) != Some(Me(s)) {
      var s1 := s.(waitq := s.waitq[MutexQ(m) := Wq(s, MutexQ(m)) + [Me(s)]]);
      ElsewherePlaces(s, s1);
      BlockPlaces(s1, LockWait, InLock(m), None);
      SchedulePlaces(Block(s1, LockWait, InLock(m), None));
    }
  }

  lemma LockEndPlaces(s: State)
    requires Ready(s) && Me(s) != s.idle && Th(s, Me(s)).call.InLock?
    ensures Ready(LockEnd(s).s)
  {
    assert InPlace(s, Me(s));
    var m := Th(s, Me(s)).call.m;
    var s1 := s.(waitq := s.waitq[MutexQ(m) := Without(Wq(s, MutexQ(m)), Me(s))]);
    ElsewherePlaces(s, s1);
    ReturnPlaces(s1, LockEnd(s).s.thr[Me(s)]);
  }

  lemma {:induction false} HandOverPlaces(s: State, m: nat, q: seq<Tid>)
    requires Places(s) && forall t :: t in q && Th(s, t).state == LockWait ==> t in s.thr
    ensures Places(HandOver(s, m, q)) && HandOver(s, m, q).cur == s.cur && HandOver(s, m, q).idle == s.idle
    decreases |q|
  {
    if q == [] {
      ElsewherePlaces(s, HandOver(s, m, q));
    } else if Th(s, q[0]).state == LockWait {
      assert q[0] in q && InPlace(s, q[0]);
      var s1 := s.(owner := s.owner[m := q[0]]);
      ElsewherePlaces(s, s1);
      WakePlaces(s1, q[0], s.thr[q[0]], BySignal);
      assert HandOver(s, m, q) == WakeUp(s1, q[0], BySignal);
    } else {
      assert forall t :: t in q[1..] ==> t in q;
      HandOverPlaces(s, m, q[1..]);
    }
  }

  lemma UnlockPlaces(s: State, m: nat)
    requires Ready(s) && Me(s) != s.idle && forall t :: t in Wq(s, MutexQ(m)) ==> t in s.thr
    ensures Ready(Unlock(s, m).s)
  {
    if Owner(s, m) == Some(Me(s)) {
      HandOverPlaces(s, m, Wq(s, MutexQ(m)));
    }
  }

  lemma TryLockPlaces(s: State, m: nat)
    requires Ready(s)
    ensures Ready(TryLock(s, m).s)
  {
    ElsewherePlaces(s, TryLock(s, m).s);
  }

  lemma PollPlaces(s: State, pds: seq<PollFd>, timeout: Option<nat>, fails: set<nat>)
    requires Ready(s) && Me(s) != s.idle && Th(s, Me(s)).call == NoCall
    ensures Ready(Poll(s, pds, timeout, fails).s)
  {
    assert InPlace(s, Me(s));
    if Th(s, Me(s)).interrupted {
      ReturnPlaces(s, Th(s, Me(s)).(interrupted := false));
    } else {
      var a := EpAdd(s.ep, pds, fails);
      var s0 := s.(ep := a.ep);
      ElsewherePlaces(s, s0);
      if a.ok {
        PollBlockPlaces(s0, pds, timeout);
        SchedulePlaces(Block(s0.(pq := s.pq[Me(s) := Pollq(pds, true)], ioq := s.ioq + [Me(s)]), IoWait, InPoll(NotYet), timeout));
      }
    }
  }

  lemma ExitPlaces(s: State, retval: int)
    requires Ready(s) && Me(s) != s.idle && Th(s, Me(s)).call == NoCall
    requires forall t :: t in Wq(s, TermQ(Me(s))) ==> t in s.thr
    ensures Ready(Exit(s, retval).s)
  {
    var th := Th(s, Me(s)).(retval := retval);
    var s1 := s.(active := s.active - 1);
    ElsewherePlaces(s, s1);
    if !th.term {
      FinishPlaces(s1, th);
    } else {
      var s2 := Bury(s1, th);
      BuryPlaces(s1, th);
      SignalFromPlaces(s2, Wq(s, TermQ(Me(s))), false);
      SchedulePlaces(SignalFrom(s2, Wq(s, TermQ(Me(s))), false));
    }
  }

  lemma JoinPlaces(s: State, t: Tid)
    requires Ready(s) && Me(s) != s.idle && Th(s, Me(s)).call == NoCall && t in s.thr
    ensures Ready(Join(s, t).s)
  {
    if Th(s, t).state != Zombie {
      CondStartPlaces(s, TermQ(t), None);
    } else {
      ReleasePlaces(s, t);
    }
  }

  lemma JoinEndPlaces(s: State, t: Tid)
    requires Ready(s) && Me(s) != s.idle && Th(s, Me(s)).call.InCond? && t in s.thr
    ensures Ready(JoinEnd(s, t).s)
  {
    CondEndPlaces(s);
    var n := CondEnd(s);
    if !n.out.Failed? {
      if Th(n.s, t).state != Zombie {
        CondStartPlaces(n.s, TermQ(t), None);
      } else {
        ReleasePlaces(n.s, t);
      }
    }
  }

  /** Nobody but the idle thread is runnable when the idle thread runs, so
      every request on the I/O queue belongs to a thread that still waits. */
  lemma IoqAllWaiting(s: State)
    requires Places(s) && s.cur == Some(s.idle) && s.runq == []
    ensures forall t :: t in s.ioq ==> s.thr[t].state == IoWait
  {
    forall t | t in s.ioq
      ensures s.thr[t].state == IoWait
    {
      assert InPlace(s, t) && InPlace(s, s.idle);
    }
  }

  lemma DispatchPlaces(s: State, fired: seq<E.Fired>)
    requires Places(s) && s.cur == Some(s.idle) && s.runq == []
    ensures Places(Dispatch(s, fired)) && Dispatch(s, fired).cur == s.cur
  {
    IoqAllWaiting(s);
    if fired != [] && FdsKnown(s.ep, fired) {
      var s1 := s.(ep := E.Fire(s.ep, fired));
      ElsewherePlaces(s, s1);
      NotifyPlaces(s1, s1.ioq);
      NotifyFrame(s1, s1.ioq);
      var s2 := NotifyFrom(s1, s1.ioq);
      ElsewherePlaces(s2, Dispatch(s, fired));
    }
  }

  lemma {:induction false} NotifyFrame(s: State, q: seq<Tid>)
    ensures NotifyFrom(s, q).cur == s.cur && NotifyFrom(s, q).idle == s.idle && NotifyFrom(s, q).clock == s.clock
    decreases |q|
  {
    if q == [] {
    } else {
      NotifyFrame(Notify1(s, q[0]), q[1..]);
    }
  }

  lemma {:induction false} ExpireAllFrame(s: State, woken: seq<Tid>)
    ensures ExpireAll(s, woken).cur == s.cur && ExpireAll(s, woken).idle == s.idle && ExpireAll(s, woken).clock == s.clock
    ensures ExpireAll(s, woken).runq == s.runq + woken
    decreases |woken|
  {
    if woken != [] {
      ExpireAllFrame(Expire(s, woken[0]), woken[1..]);
      assert s.runq + woken == (s.runq + [woken[0]]) + woken[1..];
    } else {
      assert s.runq + woken == s.runq;
    }
  }

  lemma DispatchFrame(s: State, fired: seq<E.Fired>)
    ensures Dispatch(s, fired).cur == s.cur && Dispatch(s, fired).idle == s.idle && Dispatch(s, fired).clock == s.clock
  {
    if fired != [] && FdsKnown(s.ep, fired) {
      NotifyFrame(s.(ep := E.Fire(s.ep, fired)), s.ioq);
    }
  }

  lemma ClockPlaces(s: State, now: int, woken: seq<Tid>)
    requires Places(s) && ExpiryOrder(s.sleep, now, woken)
    ensures Places(ExpireAll(s.(clock := now), woken))
  {
    ElsewherePlaces(s, s.(clock := now));
    ExpireAllPlaces(s.(clock := now), woken);
  }

  lemma IdlePlaces(s: State, forked: bool, fired: seq<E.Fired>, now: int, woken: seq<Tid>)
    requires Ready(s) && s.cur == Some(s.idle)
    requires ExpiryOrder(Dispatch(if forked then Reopen(s) else s, fired).sleep, now, woken)
    ensures Ready(Idle(s, forked, fired, now, woken).s)
  {
    var s0 := if forked then Reopen(s) else s;
    ElsewherePlaces(s, s0);
    DispatchPlaces(s0, fired);
    DispatchFrame(s0, fired);
    var s1 := Dispatch(s0, fired);
    ClockPlaces(s1, now, woken);
    ExpireAllFrame(s1.(clock := now), woken);
    IdleSwitchPlaces(ExpireAll(s1.(clock := now), woken));
  }

  lemma IdleSwitchPlaces(s: State)
    requires Places(s) && s.cur == Some(s.idle)
    ensures Ready(Schedule(Put(s.(cur := None), s.idle, Th(s, s.idle).(state := Runnable))))
  {
    var r := Put(s.(cur := None), s.idle, Th(s, s.idle).(state := Runnable));
    assert InPlace(s, s.idle);
    MovePlaces(s, r, s.idle);
    SchedulePlaces(r);
  }

  /** Who is on wait queues is handled below; here it is enough that they are
      threads, and that a thread in a join waits for a thread. */
  ghost predicate QueuesKnown(s: State) {
    && (forall q, t :: t in Wq(s, q) ==> t in s.thr)
    && (forall t :: t in s.thr && s.thr[t].call.InCond? && s.thr[t].call.q.TermQ? ==> s.thr[t].call.q.t in s.thr)
  }

  lemma ResumePlaces(s: State)
    requires Ready(s) && QueuesKnown(s) && Enabled(s, EResume)
    ensures Ready(Resume(s).s)
  {
    var me := Me(s);
    assert InPlace(s, me);
    match s.thr[me].call
    case InPoll(_) => PollEndPlaces(s);
    case InCond(q, _) =>
      if q.TermQ? {
        JoinEndPlaces(s, q.t);
      } else {
        CondEndPlaces(s);
      }
    case InLock(_) => LockEndPlaces(s);
    case InSleep => ReturnPlaces(s, SleepEnd(s).s.thr[me]);
    case InExit => FinishPlaces(s, s.thr[me].(term := false));
    case _ =>
  }

  /** In every run, at every context switch, each thread is where its state
      says: one step of the induction. */
  lemma StepPlaces(s: State, e: Event)
    requires Ready(s) && QueuesKnown(s) && Enabled(s, e)
    ensures Ready(Step(s, e).s)
  {
    match e
    case ECreate(t, joinable, size) => CreatePlaces(s, t, joinable, size);
    case EExit(retval) => ExitPlaces(s, retval);
    case EJoin(t) => JoinPlaces(s, t);
    case EInterrupt(t) => InterruptPlaces(s, t);
    case ESleep(timeout) => SleepPlaces(s, timeout);
    case EWait(c, timeout) => CondStartPlaces(s, CondQ(c), timeout);
    case ESignal(c, broadcast) => SignalFromPlaces(s, Wq(s, CondQ(c)), broadcast);
    case ELock(m) => LockPlaces(s, m);
    case EUnlock(m) => UnlockPlaces(s, m);
    case ETryLock(m) => TryLockPlaces(s, m);
    case EPoll(pds, timeout, fails) => PollPlaces(s, pds, timeout, fails);
    case EIdle(forked, fired, now, woken) => IdlePlaces(s, forked, fired, now, woken);
    case EResume => ResumePlaces(s);
  }
}
