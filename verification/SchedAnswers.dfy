/** What the calls that do not wait answer, and what they leave behind (sched.c,
    sync.c, stk.c). */
module SchedAnswers {
  import opened ThreadTypes
  import opened Wrappers
  import opened PollTypes
  import opened Sched
  import opened SchedInv
  import opened SchedSteps
  import opened SchedIo
  import opened SchedRuns
  import opened SchedCalls
  import opened SchedOwn
  import opened SchedOrder
  import opened SchedDeadline
  import E = Epoll

  /** A trylock takes a free mutex, and leaves one with an owner alone, be it the
      caller itself. */
  lemma TryLockAnswers(s: State, m: nat)
    requires Inv(s) && Enabled(s, ETryLock(m))
    ensures var n := Step(s, ETryLock(m));
      && n.s == s.(owner := n.s.owner)
      && (n.out == Ok(0) <==> Owner(s, m).None?) && (n.out == Failed(EBUSY) <==> Owner(s, m).Some?)
      && Owner(n.s, m) == (if n.out == Ok(0) then Some(Me(s)) else Owner(s, m))
      && (forall k :: k != m ==> Owner(n.s, k) == Owner(s, k))
  {
  }

  /** Unlocking succeeds for the owner and for nobody else, and concerns no other
      mutex. */
  lemma UnlockAnswers(s: State, m: nat)
    requires Inv(s) && Enabled(s, EUnlock(m))
    ensures var n := Step(s, EUnlock(m));
      && (n.out == Ok(0) <==> Owner(s, m) == Some(Me(s))) && (n.out == Ok(0) || n == Next(s, Failed(EPERM)))
      && (forall k :: k != m ==> Owner(n.s, k) == Owner(s, k))
  {
    HandOverIs(s, m, Wq(s, MutexQ(m)));
  }

  /** A new thread goes to the end of the run queue, as it was asked for, on a
      stack that is big enough. */
  lemma CreateAnswers(s: State, t: Tid, joinable: bool, size: nat)
    requires Inv(s) && Enabled(s, ECreate(t, joinable, size))
    ensures var n := Step(s, ECreate(t, joinable, size));
      && n.out == Ok(t) && n.s.runq == s.runq + [t] && n.s.active == s.active + 1 && n.s.cur == s.cur
      && n.s.thr == s.thr[t := Th(n.s, t)]
      && (var th := Th(n.s, t);
          && th.state == Runnable && th.call == NoCall && th.term == joinable && !th.interrupted
          && th.stack.Some? && th.stack.value.size >= size)
  {
    PickStackIs(s.freeStacks, size, s.nextStack);
  }

  /** What a join does, in the order in which it looks. */
  lemma JoinAnswers(s: State, t: Tid)
    requires Inv(s) && Enabled(s, EJoin(t))
    ensures var n, me := Step(s, EJoin(t)), Me(s);
      if !Th(s, t).term then n == Next(s, Failed(EINVAL))
      else if t == me then n == Next(s, Failed(EDEADLK))
      else if exists u :: JoinsIt(s, u, t) then n == Next(s, Failed(EINVAL))
      else if t in s.zombieq then n.out == Ok(Th(s, t).retval) && n.s.cur == s.cur && n.s.runq == s.runq + [t] && Joined(n.s, t)
      else if Th(s, me).interrupted then ReportsInterrupt(s, n)
      else (
        && n.out == Switched && BlockedFor(s, n.s, me, CondWait, InCond(TermQ(t), NotYet), None) && NextRuns(s, n.s)
        && n.s.waitq == s.waitq[TermQ(t) := [me]])
  {
    ZombieQueued(s, t);
    Somebody(s, t);
    BlockIs(s, s.(waitq := s.waitq[TermQ(t) := [Me(s)]]), CondWait, InCond(TermQ(t), NotYet), None);
    hide Inv, Enabled, BlockedFor, NextRuns;
    assert Wq(s, TermQ(t)) == [] ==> Wq(s, TermQ(t)) + [Me(s)] == [Me(s)];
  }

  /** A queue is occupied exactly if there is a thread inside the wait. */
  lemma Somebody(s: State, t: Tid)
    requires Inv(s)
    ensures Wq(s, TermQ(t)) != [] <==> exists u :: JoinsIt(s, u, t)
  {
    if Wq(s, TermQ(t)) != [] {
      QueueOf(s, t, Wq(s, TermQ(t))[0]);
    }
    if u :| JoinsIt(s, u, t) {
      QueueOf(s, t, u);
    }
  }

  /** The thread is gone: its stack, if it has one, and no other, has come onto
      the free list. */
  ghost predicate LeavesStack(s: State, r: State, t: Tid) {
    && Th(r, t).call == Gone && !Th(r, t).term
    && (forall k :: k in r.freeStacks <==> k in s.freeStacks || Th(s, t).stack == Some(k))
  }

  lemma FinishLeaves(s: State, s1: State, th: Thread)
    requires Inv(s) && s.cur.Some? && Me(s) != s.idle && Live(s, Me(s)) && th.stack == Th(s, Me(s)).stack && !th.term
    requires s1 == s.(active := s1.active)
    ensures LeavesStack(s, Finish(s1, th), Me(s)) && NextRuns(s, Finish(s1, th)) && Finish(s1, th).zombieq == s.zombieq
  {
    var me := Me(s);
    assert InPlace(s, me);
    if th.stack.Some? {
      FreeStackIs(s.freeStacks, th.stack.value);
    }
    FinishTakes(s1, th);
  }

  lemma FinishTakes(s: State, th: Thread)
    requires s.cur.Some? && Me(s) !in s.runq && Me(s) != s.idle
    ensures var r := Finish(s, th);
      && Th(r, Me(s)) == th.(call := Gone) && r.freeStacks == FreeStack(s.freeStacks, th.stack) && NextRuns(s, r)
      && r.zombieq == s.zombieq
  {
    assert forall i :: 0 <= i < |s.runq| ==> s.runq[i] in s.runq;
  }

  /** A signal does not concern a thread that is not waiting. */
  lemma {:induction false} SignalPasses(s: State, q: seq<Tid>, t: Tid)
    requires Th(s, t).state != CondWait && t !in s.runq
    ensures var r := SignalFrom(s, q, false);
      && Th(r, t) == Th(s, t) && t !in r.runq && r.idle == s.idle
      && r.zombieq == s.zombieq && r.freeStacks == s.freeStacks && r.active == s.active
    decreases |q|
  {
    if q == [] {
    } else {
      SignalPasses(s, q[1..], t);
    }
  }

  lemma Buried(s: State, th: Thread, q: seq<Tid>)
    requires Me(s) !in s.runq && Me(s) != s.idle
    ensures var r := Schedule(SignalFrom(Bury(s, th), q, false));
      && Th(r, Me(s)) == th.(state := Zombie, call := InExit)
      && r.zombieq == s.zombieq + [Me(s)] && r.freeStacks == s.freeStacks && r.active == s.active
  {
    SignalPasses(Bury(s, th), q, Me(s));
    NotScheduled(SignalFrom(Bury(s, th), q, false), Me(s));
  }

  lemma NotScheduled(s: State, t: Tid)
    requires t !in s.runq && t != s.idle
    ensures Th(Schedule(s), t) == Th(s, t)
  {
  }

  /** A joinable thread that exits becomes the last of the zombies and keeps its
      stack; any other is gone at once. */
  lemma ExitAnswers(s: State, retval: int)
    requires Inv(s) && Enabled(s, EExit(retval))
    ensures var n, me := Step(s, EExit(retval)), Me(s);
      && n.out == Switched && n.s.active == s.active - 1
      && (if Th(s, me).term then
            && n.s.zombieq == s.zombieq + [me] && n.s.freeStacks == s.freeStacks
            && Th(n.s, me) == Th(s, me).(state := Zombie, call := InExit, retval := retval)
          else LeavesStack(s, n.s, me) && Th(n.s, me).retval == retval && n.s.zombieq == s.zombieq)
  {
    ExitIs(s, retval);
    MayStep(s, EExit(retval));
    var me := Me(s);
    var th, s1 := Th(s, me).(retval := retval), s.(active := s.active - 1);
    assert InPlace(s, me);
    hide Exit;
    if th.term {
      hide Inv, Enabled;
      Buried(s1, th, Wq(s, TermQ(me)));
    } else {
      FinishLeaves(s, s1, th);
      FinishTakes(s1, th);
    }
  }

  /** Once it has been joined, a thread that goes on with its exit is gone. */
  lemma ExitEndAnswers(s: State)
    requires Inv(s) && Enabled(s, EResume) && Th(s, Me(s)).call == InExit
    ensures var n, me := Step(s, EResume), Me(s);
      && n.out == Switched && LeavesStack(s, n.s, me) && NextRuns(s, n.s) && n.s.active == s.active
      && Th(n.s, me).retval == Th(s, me).retval && n.s.zombieq == s.zombieq
  {
    var th := Th(s, Me(s)).(term := false);
    assert InPlace(s, Me(s));
    FinishLeaves(s, s, th);
    FinishTakes(s, th);
  }

  /** The stack that was given back last is the next to be handed out exactly if
      it is big enough and, of all the others, at most the tail of the list is. */
  lemma ReusedNext(free: seq<Stack>, k: Stack, size: nat, nextStack: nat)
    requires k !in free && k.id < nextStack
    ensures PickStack(FreeStack(free, Some(k)), size, nextStack).stack == k
      <==> k.size >= size && forall i :: 0 <= i < |free| - 1 ==> free[i].size < size
  {
    var r, n := FreeStack(free, Some(k)), if free == [] then 0 else |free| - 1;
    PickStackIs(r, size, nextStack);
    assert r[n] == k && forall j :: 0 <= j < n ==> r[j] == free[j];
    assert forall j :: 0 <= j < |r| && r[j] == k ==> j == n by {
      assert forall j :: 0 <= j < |free| ==> free[j] in free;
    }
    var i := FirstFit(r, size);
    if i < n {
      assert free[i].size >= size;
    }
  }

  /** A poll is accepted only if all its entries are; and then, unless the
      kernel refuses one of them, it is. */
  lemma PollAccepted(s: State, pds: seq<PollFd>, timeout: Option<nat>, fails: set<nat>)
    requires Inv(s) && Enabled(s, EPoll(pds, timeout, fails)) && !Th(s, Me(s)).interrupted
    ensures Step(s, EPoll(pds, timeout, fails)).out == Switched ==> AllAcceptable(pds)
    ensures AllAcceptable(pds) && fails == {} ==> Step(s, EPoll(pds, timeout, fails)).out == Switched
  {
    E.AddIsAtomic(s.ep, Ledger(s.ioq, s.pq), pds, fails);
  }
}
