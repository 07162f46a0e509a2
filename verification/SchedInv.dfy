/** The invariant of the scheduler: every thread is exactly where its state
    says it is. */
module SchedInv {
  import opened ThreadTypes
  import opened Wrappers
  import opened PollTypes
  import opened Sched
  import E = Epoll

  ghost predicate NoDup(q: seq<Tid>) {
    forall i, j :: 0 <= i < j < |q| ==> q[i] != q[j]
  }

  /** The states a thread may be in while it is inside a call. */
  predicate StateFits(th: Thread) {
    var run := th.state == Runnable || th.state == Running;
    && (match th.call
        case NoCall => run
        case InPoll(cause) => if cause == NotYet then th.state == IoWait else run
        case InCond(_, cause) => if cause == NotYet then th.state == CondWait else run
        case InLock(_) => run || th.state == LockWait
        case InSleep => run || th.state == Sleeping || th.state == Suspended
        case InExit => (run || th.state == Zombie) && th.term
        case Gone => th.state == Running)
    && (th.timedOut <==> th.call.InCond? && th.call.cause == ByTimeout)
    && (th.call.InCond? && th.call.cause == ByInterrupt ==> th.interrupted)
    && (th.call.InPoll? && th.call.cause == ByInterrupt ==> th.interrupted)
    && (Waiting(th.state) ==> !th.interrupted)
    && (th.onSleepq ==> th.state == IoWait || th.state == CondWait || th.state == Sleeping)
    && (th.state == Sleeping ==> th.onSleepq)
  }

  /** A request leaves the I/O queue exactly when something fired for it. */
  predicate PollqFits(cause: Cause, pq: Pollq) {
    (pq.onIoq <==> cause != BySignal) && (cause == BySignal ==> E.Notified(pq.pds))
  }

  /** Thread t is where its state and flags say. */
  ghost predicate InPlace(s: State, t: Tid)
    requires t in s.thr
  {
    var th := s.thr[t];
    && StateFits(th)
    && (th.state == Running <==> s.cur == Some(t) || th.call == Gone)
    && (t in s.runq <==> th.state == Runnable && t != s.idle)
    && (t in s.zombieq <==> th.state == Zombie)
    && (t in s.sleep <==> th.onSleepq)
    && (t in s.pq <==> th.call.InPoll?)
    && (t in s.ioq <==> t in s.pq && s.pq[t].onIoq)
    && (th.call.InPoll? && t in s.pq ==> PollqFits(th.call.cause, s.pq[t]))
  }

  ghost predicate Places(s: State) {
    && (forall t {:trigger InPlace(s, t)} :: t in s.thr ==> InPlace(s, t))
    && NoDup(s.runq) && NoDup(s.zombieq) && NoDup(s.ioq)
    && (forall t :: t in s.runq || t in s.zombieq || t in s.ioq || t in s.sleep || t in s.pq ==> t in s.thr)
    && s.idle in s.thr && s.thr[s.idle].call == NoCall && !s.thr[s.idle].term
    && (s.cur.Some? ==> s.cur.value in s.thr && s.thr[s.cur.value].call != Gone)
  }

  /** The idle thread only runs when nobody else can. */
  predicate IdleLast(s: State) {
    s.cur.Some? && (s.cur == Some(s.idle) ==> s.runq == [])
  }

  // ---------------------------------------------------------- list lemmas

  lemma {:induction false} WithoutIs(q: seq<Tid>, t: Tid)
    ensures forall u :: u in Without(q, t) <==> u in q && u != t
    ensures NoDup(q) ==> NoDup(Without(q, t))
    ensures t !in q ==> Without(q, t) == q
  {
    if q == [] {
    } else {
      var rest := Without(q[1..], t);
      WithoutIs(q[1..], t);
      assert q == [q[0]] + q[1..];
      if NoDup(q) && q[0] != t {
        assert forall i :: 0 <= i < |rest| ==> rest[i] in q[1..];
        assert q[0] !in q[1..];
      }
    }
  }

  // ------------------------------------------------------------ primitives

  /** Nothing that says where u is has changed. */
  ghost predicate SameSpot(s: State, r: State, u: Tid) {
    && u in s.thr && u in r.thr && r.thr[u] == s.thr[u]
    && (u in r.runq <==> u in s.runq)
    && (u in r.zombieq <==> u in s.zombieq)
    && (u in r.ioq <==> u in s.ioq)
    && (u in r.sleep <==> u in s.sleep)
    && (u in r.pq <==> u in s.pq)
    && (u in s.pq && u in r.pq ==> r.pq[u] == s.pq[u])
    && (r.cur == Some(u) <==> s.cur == Some(u))
  }

  /** Only thread t has moved. */
  ghost predicate OnlyMoves(s: State, r: State, t: Tid) {
    && r.idle == s.idle
    && (forall u :: u in r.thr <==> u in s.thr || u == t)
    && (forall u {:trigger SameSpot(s, r, u)} :: u in s.thr && u != t ==> SameSpot(s, r, u))
    && (forall u :: u in r.runq || u in r.zombieq || u in r.ioq || u in r.sleep || u in r.pq ==> u in r.thr)
    && NoDup(r.runq) && NoDup(r.zombieq) && NoDup(r.ioq)
  }

  lemma MovePlaces(s: State, r: State, t: Tid)
    requires Places(s) && OnlyMoves(s, r, t)
    requires t in r.thr && InPlace(r, t)
    requires t == s.idle ==> r.thr[t].call == NoCall && !r.thr[t].term
    requires r.cur.Some? ==> r.cur.value in r.thr && (r.cur == Some(t) || r.cur == s.cur)
    requires r.cur == Some(t) ==> r.thr[t].call != Gone
    ensures Places(r)
  {
    assert s.idle != t ==> SameSpot(s, r, s.idle);
    assert r.cur.Some? && r.cur != Some(t) ==> SameSpot(s, r, r.cur.value);
    forall u | u in r.thr
      ensures InPlace(r, u)
    {
      if u != t {
        assert InPlace(s, u) && SameSpot(s, r, u);
      }
    }
  }

  lemma SchedulePlaces(s: State)
    requires Places(s) && s.cur.None?
    ensures Places(Schedule(s)) && IdleLast(Schedule(s))
    ensures Schedule(s).cur == Some(if s.runq != [] then s.runq[0] else s.idle)
  {
    var t := if s.runq != [] then s.runq[0] else s.idle;
    assert InPlace(s, t);
    MovePlaces(s, Schedule(s), t);
  }

  /** Making a waiting thread runnable, whatever ended its wait. */
  lemma WakePlaces(s: State, t: Tid, th: Thread, cause: Cause)
    requires Places(s) && t in s.thr && Waiting(s.thr[t].state)
    requires th == s.thr[t].(interrupted := th.interrupted, timedOut := th.timedOut)
    requires th.call.InCond? ==>
      && cause != NotYet && (th.timedOut <==> cause == ByTimeout) && (cause == ByInterrupt ==> th.interrupted)
    requires !th.call.InCond? ==> !th.timedOut
    requires th.call.InPoll? ==> cause == ByTimeout || (cause == ByInterrupt && th.interrupted)
    ensures Places(WakeAs(s, t, th, cause))
  {
    assert InPlace(s, t);
    MovePlaces(s, WakeAs(s, t, th, cause), t);
  }

  /** Changing flags and results of a thread that is not waiting. */
  lemma FlagPlaces(s: State, t: Tid, th: Thread)
    requires Places(s) && t in s.thr && !Waiting(s.thr[t].state)
    requires th == s.thr[t].(interrupted := th.interrupted, retval := th.retval)
    requires s.thr[t].call.InCond? || s.thr[t].call.InPoll? ==> th.interrupted
    ensures Places(Put(s, t, th))
  {
    assert InPlace(s, t);
    MovePlaces(s, Put(s, t, th), t);
  }

  lemma InterruptPlaces(s: State, t: Tid)
    requires Places(s) && t in s.thr && s.thr[t].call != Gone
    ensures Places(Interrupt(s, t).s)
  {
    assert InPlace(s, t);
    var th := s.thr[t].(interrupted := true);
    if s.thr[t].state == Running || s.thr[t].state == Runnable {
      FlagPlaces(s, t, th);
    } else if s.thr[t].state != Zombie {
      WakePlaces(s, t, th, ByInterrupt);
    }
  }

  lemma ExpirePlaces(s: State, t: Tid)
    requires Places(s) && t in s.sleep
    ensures Places(Expire(s, t)) && Expire(s, t).sleep == s.sleep - {t}
  {
    assert InPlace(s, t);
    var th := s.thr[t];
    WakePlaces(s, t, if th.state == CondWait then th.(timedOut := true) else th, ByTimeout);
  }

  /** The current thread blocks in a call other than poll. */
  lemma BlockPlaces(s: State, st: ThreadState, call: Call, timeout: Option<nat>)
    requires Places(s) && s.cur.Some? && Me(s) != s.idle && !call.InPoll? && st != IoWait && Waiting(st)
    requires Th(s, Me(s)).call == NoCall && !Th(s, Me(s)).interrupted
    requires StateFits(Th(s, Me(s)).(state := st, call := call, onSleepq := timeout.Some?))
    ensures Places(Block(s, st, call, timeout)) && Block(s, st, call, timeout).cur == None
  {
    assert InPlace(s, Me(s));
    MovePlaces(s, Block(s, st, call, timeout), Me(s));
  }

  /** The current thread returns from a call other than poll. */
  lemma ReturnPlaces(s: State, th: Thread)
    requires Places(s) && s.cur.Some? && !Th(s, Me(s)).call.InPoll?
    requires th == Th(s, Me(s)).(call := NoCall, interrupted := th.interrupted, timedOut := false)
    ensures Places(Put(s, Me(s), th))
  {
    assert InPlace(s, Me(s));
    MovePlaces(s, Put(s, Me(s), th), Me(s));
  }

  lemma CreatePlaces(s: State, t: Tid, joinable: bool, size: nat)
    requires Places(s) && t !in s.thr
    ensures Places(Create(s, t, joinable, size).s)
  {
    MovePlaces(s, Create(s, t, joinable, size).s, t);
  }

  /** The running thread becomes a zombie. */
  lemma BuryPlaces(s: State, th: Thread)
    requires Places(s) && s.cur.Some? && Me(s) != s.idle && Th(s, Me(s)).call == NoCall && Th(s, Me(s)).term
    requires th == Th(s, Me(s)).(retval := th.retval)
    ensures Places(Bury(s, th))
  {
    assert InPlace(s, Me(s));
    MovePlaces(s, Bury(s, th), Me(s));
  }

  /** The running thread is gone for good. */
  lemma FinishPlaces(s: State, th: Thread)
    requires Places(s) && s.cur.Some? && Me(s) != s.idle
    requires Th(s, Me(s)).call == NoCall || Th(s, Me(s)).call == InExit
    requires th == Th(s, Me(s)).(retval := th.retval, term := th.term)
    ensures Places(Finish(s, th)) && IdleLast(Finish(s, th))
  {
    var me := Me(s);
    var r := Put(s.(freeStacks := FreeStack(s.freeStacks, th.stack), cur := None), me, th.(call := Gone));
    assert InPlace(s, me);
    MovePlaces(s, r, me);
    SchedulePlaces(r);
  }

  lemma ReleasePlaces(s: State, t: Tid)
    requires Places(s) && t in s.thr && s.thr[t].state == Zombie
    ensures Places(Release(s, t).s)
  {
    assert InPlace(s, t);
    WithoutIs(s.zombieq, t);
    MovePlaces(s, Release(s, t).s, t);
  }

  lemma PollBlockPlaces(s: State, pds: seq<PollFd>, timeout: Option<nat>)
    requires Places(s) && s.cur.Some? && Me(s) != s.idle && Th(s, Me(s)).call == NoCall && !Th(s, Me(s)).interrupted
    ensures Places(Block(s.(pq := s.pq[Me(s) := Pollq(pds, true)], ioq := s.ioq + [Me(s)]), IoWait, InPoll(NotYet), timeout))
  {
    assert InPlace(s, Me(s));
    MovePlaces(s, Block(s.(pq := s.pq[Me(s) := Pollq(pds, true)], ioq := s.ioq + [Me(s)]), IoWait, InPoll(NotYet), timeout), Me(s));
  }

  lemma PollEndPlaces(s: State)
    requires Places(s) && s.cur.Some? && Th(s, Me(s)).call.InPoll?
    ensures Places(PollEnd(s).s)
  {
    var me := Me(s);
    assert InPlace(s, me);
    WithoutIs(s.ioq, me);
    var r := PollEnd(s).s;
    assert r.ioq == Without(s.ioq, me);
    MovePlaces(s, r, me);
  }

  /** One request that is being notified: its thread must be waiting. */
  lemma HitPlaces(s: State, t: Tid, pds: seq<PollFd>)
    requires Places(s) && t in s.ioq && s.thr[t].state == IoWait && E.Notified(pds)
    ensures Places(Hit(s, t, pds))
  {
    assert InPlace(s, t);
    WithoutIs(s.ioq, t);
    var r := Hit(s, t, pds);
    assert r.ioq == Without(s.ioq, t) && r.runq == s.runq + [t];
    MovePlaces(s, r, t);
  }

  lemma MissPlaces(s: State, t: Tid, pds: seq<PollFd>)
    requires Places(s) && t in s.pq && s.pq[t].onIoq
    ensures Places(s.(pq := s.pq[t := s.pq[t].(pds := pds)]))
  {
    assert InPlace(s, t);
    MovePlaces(s, s.(pq := s.pq[t := s.pq[t].(pds := pds)]), t);
  }

  lemma Notify1Waiting(s: State, t: Tid)
    requires Places(s) && t in s.ioq
    requires forall u :: u in s.ioq ==> s.thr[u].state == IoWait
    ensures Places(Notify1(s, t))
    ensures forall u :: u in s.ioq && u != t ==> u in Notify1(s, t).ioq
    ensures forall u :: u in Notify1(s, t).ioq ==> u in s.ioq && Notify1(s, t).thr[u].state == IoWait
  {
    assert InPlace(s, t);
    WithoutIs(s.ioq, t);
    if E.InTable(s.pq[t].pds, |s.ep.fd|) {
      var pds := E.Told(s.ep, s.pq[t].pds);
      if E.Notified(pds) {
        HitPlaces(s, t, pds);
      } else {
        MissPlaces(s, t, pds);
      }
    }
  }

  /** The walk of the dispatch wakes nobody twice: if every request on the I/O
      queue belongs to a waiting thread, this stays so. */
  lemma {:induction false} NotifyPlaces(s: State, q: seq<Tid>)
    requires Places(s) && NoDup(q) && (forall t :: t in q ==> t in s.ioq)
    requires forall t :: t in s.ioq ==> s.thr[t].state == IoWait
    ensures Places(NotifyFrom(s, q))
    ensures forall t :: t in NotifyFrom(s, q).ioq ==> t in s.ioq && NotifyFrom(s, q).thr[t].state == IoWait
    decreases |q|
  {
    if q == [] {
    } else {
      assert q == [q[0]] + q[1..];
      Notify1Waiting(s, q[0]);
      NotifyPlaces(Notify1(s, q[0]), q[1..]);
    }
  }

  lemma {:induction false} ExpireAllPlaces(s: State, woken: seq<Tid>)
    requires Places(s) && NoDup(woken) && forall t :: t in woken ==> t in s.sleep
    ensures Places(ExpireAll(s, woken))
    decreases |woken|
  {
    if woken == [] {
    } else {
      assert woken == [woken[0]] + woken[1..];
      ExpirePlaces(s, woken[0]);
      ExpireAllPlaces(Expire(s, woken[0]), woken[1..]);
    }
  }
}
