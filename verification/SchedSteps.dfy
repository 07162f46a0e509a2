/** Every step keeps the rest of the invariant, too. */
module SchedSteps {
  import opened ThreadTypes
  import opened Wrappers
  import opened Sequences
  import opened PollTypes
  import opened Sched
  import opened SchedInv
  import opened SchedKeeps
  import opened SchedOthers
  import opened Expiry
  import E = Epoll

  /** A call that is on no wait queue and does not belong to an exit. */
  predicate Plain(call: Call) {
    call == NoCall || call.InPoll? || call == InSleep
  }

  /** The wait queues and what every thread waits on are the same. */
  lemma QueuesLike(s: State, r: State)
    requires Queues(s) && r.waitq == s.waitq
    requires forall t: Tid {:trigger Th(r, t)} :: Awaits(Th(r, t).call) == Awaits(Th(s, t).call)
    requires forall t: Tid {:trigger Th(r, t)} :: Th(r, t).call.InCond? ==> Th(s, t).call.InCond?
    ensures Queues(r)
  {
    forall q: Queue, u: Tid
      ensures u in Wq(r, q) <==> Awaits(Th(r, u).call) == Some(q)
    {
      assert u in Wq(s, q) <==> Awaits(Th(s, u).call) == Some(q);
    }
    forall q: Queue
      ensures Wq(r, q) == Wq(s, q) && NoDup(Wq(r, q))
    {
      assert NoDup(Wq(s, q));
    }
    forall u: Tid
      ensures OnCondition(r, u)
    {
      assert OnCondition(s, u);
    }
  }

  /** Thread t is the only one whose record changes, and it neither exits nor
      loses its stack. */
  ghost predicate OnlyOne(s: State, r: State, t: Tid) {
    && t in s.thr && t in r.thr && r.thr == s.thr[t := r.thr[t]]
    && r.thr[t].term == s.thr[t].term && r.thr[t].stack == s.thr[t].stack
    && !Exited(s.thr[t]) && !Exited(r.thr[t])
    && (r.thr[t].state == Zombie <==> s.thr[t].state == Zombie)
    && r.idle == s.idle && r.owner == s.owner && r.active == s.active
    && r.freeStacks == s.freeStacks && r.nextStack == s.nextStack
  }

  lemma OneActive(s: State, r: State, t: Tid)
    requires Active(s) && OnlyOne(s, r, t)
    ensures Active(r)
  {
    assert ActiveSet(r) == ActiveSet(s);
  }

  lemma OneStacks(s: State, r: State, t: Tid)
    requires Stacks(s) && Active(s) && OnlyOne(s, r, t)
    ensures Stacks(r) && Active(r)
  {
    OneActive(s, r, t);
    assert forall u: Tid :: Live(r, u) <==> Live(s, u);
    assert forall u: Tid :: Live(r, u) ==> r.thr[u].stack == s.thr[u].stack;
  }

  lemma OneLocks(s: State, r: State, t: Tid)
    requires Locks(s) && OnlyOne(s, r, t) && !Th(r, t).call.InLock?
    ensures Locks(r)
  {
    forall u: Tid
      ensures LockOk(r, u)
    {
      assert LockOk(s, u);
    }
  }

  lemma OneTargets(s: State, r: State, t: Tid)
    requires Targets(s) && OnlyOne(s, r, t)
    requires Joins(r, t) ==> Th(r, t).call.q.t in r.thr && Th(r, t).call.q.t != t
    ensures Targets(r)
  {
    forall u: Tid | Joins(r, u) && u != t
      ensures Th(r, u).call.q.t in r.thr && Th(r, u).call.q.t != u
    {
      assert Joins(s, u);
    }
  }

  /** Joiners still join the same threads. */
  lemma SameTargets(s: State, r: State)
    requires Targets(s) && forall t: Tid :: t in s.thr ==> t in r.thr
    requires forall t: Tid {:trigger Th(r, t)} {:trigger Th(s, t)} :: Th(r, t).call.InCond? ==> Th(r, t).call == Th(s, t).call
    ensures Targets(r)
  {
    forall t: Tid | Joins(r, t)
      ensures Th(r, t).call.q.t in r.thr && Th(r, t).call.q.t != t
    {
      assert Joins(s, t);
    }
  }

  lemma OneQueues(s: State, r: State, t: Tid)
    requires Queues(s) && OnlyOne(s, r, t) && r.waitq == s.waitq && Plain(Th(s, t).call) && Plain(Th(r, t).call)
    ensures Queues(r)
  {
    forall q: Queue, u: Tid
      ensures u in Wq(r, q) <==> Awaits(Th(r, u).call) == Some(q)
    {
      assert u in Wq(s, q) <==> Awaits(Th(s, u).call) == Some(q);
    }
    forall q: Queue
      ensures NoDup(Wq(r, q))
    {
      assert NoDup(Wq(s, q));
    }
    forall u: Tid
      ensures OnCondition(r, u)
    {
      assert OnCondition(s, u);
    }
  }

  lemma StacksLike(s: State, r: State)
    requires Stacks(s) && r.freeStacks == s.freeStacks && r.nextStack == s.nextStack
    requires forall t: Tid :: Live(r, t) ==> Live(s, t) && r.thr[t].stack == s.thr[t].stack
    ensures Stacks(r)
  {
  }

  /** The current thread t only changes its flags, its state, or goes from one
      plain call to another. */
  lemma PlainKeeps(s: State, r: State, t: Tid)
    requires Others(s) && OnlyOne(s, r, t) && r.waitq == s.waitq
    requires Plain(Th(s, t).call) && Plain(Th(r, t).call)
    ensures Others(r)
  {
    OneQueues(s, r, t);
    OneStacks(s, r, t);
    OneLocks(s, r, t);
    OneTargets(s, r, t);
  }

  // ----------------------------------------------------------- wait queues

  lemma EnqueueQueues(s: State, r: State, t: Tid, q: Queue)
    requires Queues(s) && OnlyOne(s, r, t) && Th(s, t).call == NoCall
    requires r.waitq == s.waitq[q := Wq(s, q) + [t]] && Awaits(Th(r, t).call) == Some(q)
    requires Th(r, t).call.InCond? ==> !q.MutexQ?
    ensures Queues(r)
  {
    assert t !in Wq(s, q) by {
      assert t in Wq(s, q) <==> Awaits(Th(s, t).call) == Some(q);
    }
    forall p: Queue, u: Tid
      ensures u in Wq(r, p) <==> Awaits(Th(r, u).call) == Some(p)
    {
      assert u in Wq(s, p) <==> Awaits(Th(s, u).call) == Some(p);
    }
    forall p: Queue
      ensures NoDup(Wq(r, p))
    {
      assert NoDup(Wq(s, p));
    }
    forall u: Tid
      ensures OnCondition(r, u)
    {
      assert OnCondition(s, u);
    }
  }

  lemma DequeueQueues(s: State, r: State, t: Tid, q: Queue)
    requires Queues(s) && OnlyOne(s, r, t) && Awaits(Th(s, t).call) == Some(q)
    requires r.waitq == s.waitq[q := Without(Wq(s, q), t)] && Th(r, t).call == NoCall
    ensures Queues(r)
  {
    WithoutIs(Wq(s, q), t);
    forall p: Queue, u: Tid
      ensures u in Wq(r, p) <==> Awaits(Th(r, u).call) == Some(p)
    {
      assert u in Wq(s, p) <==> Awaits(Th(s, u).call) == Some(p);
    }
    forall p: Queue
      ensures NoDup(Wq(r, p))
    {
      assert NoDup(Wq(s, p));
    }
    forall u: Tid
      ensures OnCondition(r, u)
    {
      assert OnCondition(s, u);
    }
  }

  /** The current thread links itself on the queue of a condition. */
  lemma EnqueueCond(s: State, r: State, t: Tid, q: Queue)
    requires Others(s) && OnlyOne(s, r, t) && Th(s, t).call == NoCall && !q.MutexQ?
    requires r.waitq == s.waitq[q := Wq(s, q) + [t]] && Th(r, t).call == InCond(q, NotYet)
    requires q.TermQ? ==> q.t in s.thr && q.t != t
    ensures Others(r)
  {
    EnqueueQueues(s, r, t, q);
    OneStacks(s, r, t);
    OneLocks(s, r, t);
    OneTargets(s, r, t);
  }

  lemma EnqueueLock(s: State, r: State, t: Tid, m: nat)
    requires Others(s) && OnlyOne(s, r, t) && Th(s, t).call == NoCall
    requires r.waitq == s.waitq[MutexQ(m) := Wq(s, MutexQ(m)) + [t]]
    requires Th(r, t).call == InLock(m) && Th(r, t).state == LockWait && Owner(s, m).Some? && Owner(s, m) != Some(t)
    ensures Others(r)
  {
    EnqueueQueues(s, r, t, MutexQ(m));
    OneStacks(s, r, t);
    OneTargets(s, r, t);
    forall u: Tid
      ensures LockOk(r, u)
    {
      assert LockOk(s, u);
    }
  }

  /** The current thread unlinks itself from its wait queue. */
  lemma DequeueKeeps(s: State, r: State, t: Tid, q: Queue)
    requires Others(s) && OnlyOne(s, r, t) && Awaits(Th(s, t).call) == Some(q) && Th(r, t).call == NoCall
    requires r.waitq == s.waitq[q := Without(Wq(s, q), t)]
    ensures Others(r)
  {
    DequeueQueues(s, r, t, q);
    OneStacks(s, r, t);
    OneLocks(s, r, t);
    OneTargets(s, r, t);
  }

  // ------------------------------------------------------------- the steps

  lemma CondStartOthers(s: State, q: Queue, timeout: Option<nat>)
    requires Ready(s) && Others(s) && Me(s) != s.idle && Th(s, Me(s)).call == NoCall && !q.MutexQ?
    requires q.TermQ? ==> q.t in s.thr && q.t != Me(s)
    ensures Others(CondStart(s, q, timeout).s)
  {
    var me := Me(s);
    assert InPlace(s, me);
    if Th(s, me).interrupted {
      PlainKeeps(s, TakeInterrupt(s).s, me);
    } else {
      var s1 := s.(waitq := s.waitq[q := Wq(s, q) + [me]]);
      var s2 := Block(s1, CondWait, InCond(q, NotYet), timeout);
      ElsewherePlaces(s, s1);
      BlockPlaces(s1, CondWait, InCond(q, NotYet), timeout);
      EnqueueCond(s, s2, me, q);
      ScheduleTame(s2);
      TameKeeps(s2, Schedule(s2));
    }
  }

  lemma CondEndOthers(s: State)
    requires Ready(s) && Others(s) && Me(s) != s.idle && Th(s, Me(s)).call.InCond?
    ensures Others(CondEnd(s).s)
  {
    assert InPlace(s, Me(s));
    DequeueKeeps(s, CondEnd(s).s, Me(s), Th(s, Me(s)).call.q);
  }

  lemma SleepOthers(s: State, timeout: Option<nat>)
    requires Ready(s) && Others(s) && Me(s) != s.idle && Th(s, Me(s)).call == NoCall
    ensures Others(Sleep(s, timeout).s)
  {
    var me := Me(s);
    assert InPlace(s, me);
    if Th(s, me).interrupted {
      PlainKeeps(s, TakeInterrupt(s).s, me);
    } else {
      var st := if timeout.Some? then Sleeping else Suspended;
      var s2 := Block(s, st, InSleep, timeout);
      BlockPlaces(s, st, InSleep, timeout);
      PlainKeeps(s, s2, me);
      ScheduleTame(s2);
      TameKeeps(s2, Schedule(s2));
    }
  }

  lemma PollOthers(s: State, pds: seq<PollFd>, timeout: Option<nat>, fails: set<nat>)
    requires Ready(s) && Others(s) && Me(s) != s.idle && Th(s, Me(s)).call == NoCall
    ensures Others(Poll(s, pds, timeout, fails).s)
  {
    var me := Me(s);
    assert InPlace(s, me);
    var a := EpAdd(s.ep, pds, fails);
    if Th(s, me).interrupted || !a.ok {
      assert s.thr == s.thr[me := s.thr[me]];
      PlainKeeps(s, Poll(s, pds, timeout, fails).s, me);
    } else {
      var s0 := s.(ep := a.ep);
      ElsewherePlaces(s, s0);
      PollBlockPlaces(s0, pds, timeout);
      var s2 := Block(s0.(pq := s.pq[me := Pollq(pds, true)], ioq := s.ioq + [me]), IoWait, InPoll(NotYet), timeout);
      PlainKeeps(s, s2, me);
      ScheduleTame(s2);
      TameKeeps(s2, Schedule(s2));
    }
  }

  // ---------------------------------------------------------------- mutexes

  lemma LockOthers(s: State, m: nat)
    requires Ready(s) && Others(s) && Me(s) != s.idle && Th(s, Me(s)).call == NoCall
    ensures Others(Lock(s, m).s)
  {
    var me := Me(s);
    assert InPlace(s, me);
    if Th(s, me).interrupted {
      PlainKeeps(s, TakeInterrupt(s).s, me);
    } else if Owner(s, m).None? {
      forall t: Tid | Th(s, t).call == InLock(m)
        ensures Th(s, t).state != LockWait
      {
        assert LockOk(s, t);
      }
      assert s.owner[m := me] - {m} == s.owner - {m};
      OwnerKeeps(s, m, s.owner[m := me]);
    } else if Owner(s, m) != Some(me) {
      var s1 := s.(waitq := s.waitq[MutexQ(m) := Wq(s, MutexQ(m)) + [me]]);
      var s2 := Block(s1, LockWait, InLock(m), None);
      ElsewherePlaces(s, s1);
      BlockPlaces(s1, LockWait, InLock(m), None);
      EnqueueLock(s, s2, me, m);
      ScheduleTame(s2);
      TameKeeps(s2, Schedule(s2));
    }
  }

  /** The owner of mutex m changes, and nobody is waiting for m. */
  lemma OwnerKeeps(s: State, m: nat, owner: map<nat, Tid>)
    requires Others(s) && owner - {m} == s.owner - {m}
    requires forall t: Tid :: Th(s, t).call == InLock(m) ==> Th(s, t).state != LockWait && Owner(s, m) != Some(t)
    ensures Others(s.(owner := owner))
  {
    var r := s.(owner := owner);
    assert forall n :: n != m ==> Owner(r, n) == Owner(s, n) by {
      assert forall n :: n != m ==> (n in owner <==> n in owner - {m}) && (n in s.owner <==> n in s.owner - {m});
    }
    forall t: Tid
      ensures LockOk(r, t)
    {
      assert LockOk(s, t);
    }
    QueuesLike(s, r);
    SameTargets(s, r);
    assert ActiveSet(r) == ActiveSet(s);
    assert forall u: Tid :: Live(r, u) <==> Live(s, u);
  }

  lemma TryLockOthers(s: State, m: nat)
    requires Others(s)
    ensures Others(TryLock(s, m).s)
  {
    if Owner(s, m).None? {
      forall t: Tid | Th(s, t).call == InLock(m)
        ensures Th(s, t).state != LockWait
      {
        assert LockOk(s, t);
      }
      assert s.owner[m := Me(s)] - {m} == s.owner - {m};
      OwnerKeeps(s, m, s.owner[m := Me(s)]);
    }
  }

  /** The first thread of the queue that still waits for the mutex. */
  function FirstLockWait(s: State, q: seq<Tid>): Option<Tid> {
    if q == [] then None
    else if Th(s, q[0]).state == LockWait then Some(q[0])
    else FirstLockWait(s, q[1..])
  }

  lemma {:induction false} FirstLockWaitIs(s: State, q: seq<Tid>)
    ensures var f := FirstLockWait(s, q);
      if f.None? then forall t: Tid :: t in q ==> Th(s, t).state != LockWait
      else exists i :: 0 <= i < |q| && q[i] == f.value && Th(s, q[i]).state == LockWait
                    && forall j :: 0 <= j < i ==> Th(s, q[j]).state != LockWait
  {
    if q == [] {
    } else if Th(s, q[0]).state == LockWait {
      assert q[0] == FirstLockWait(s, q).value;
    } else {
      FirstLockWaitIs(s, q[1..]);
      var f := FirstLockWait(s, q[1..]);
      if f.Some? {
        var i :| 0 <= i < |q[1..]| && q[1..][i] == f.value && Th(s, q[1..][i]).state == LockWait
          && forall j :: 0 <= j < i ==> Th(s, q[1..][j]).state != LockWait;
        assert q[i + 1] == f.value;
        assert forall j :: 0 < j < i + 1 ==> q[j] == q[1..][j - 1];
      } else {
        assert q == [q[0]] + q[1..];
      }
    }
  }

  lemma {:induction false} HandOverIs(s: State, m: nat, q: seq<Tid>)
    ensures var f := FirstLockWait(s, q);
      HandOver(s, m, q) ==
        if f.None? then s.(owner := s.owner - {m})
        else Put(s.(owner := s.owner[m := f.value], runq := s.runq + [f.value]), f.value, Th(s, f.value).(state := Runnable))
    decreases |q|
  {
    if q == [] || Th(s, q[0]).state == LockWait {
    } else {
      HandOverIs(s, m, q[1..]);
    }
  }

  lemma UnlockOthers(s: State, m: nat)
    requires Ready(s) && Others(s) && Me(s) != s.idle && Th(s, Me(s)).call == NoCall
    ensures Others(Unlock(s, m).s)
  {
    var me := Me(s);
    if Owner(s, m) == Some(me) {
      var q := Wq(s, MutexQ(m));
      HandOverIs(s, m, q);
      FirstLockWaitIs(s, q);
      var f := FirstLockWait(s, q);
      forall t: Tid | Th(s, t).call == InLock(m)
        ensures t in q && t != me
      {
        assert t in Wq(s, MutexQ(m)) <==> Awaits(Th(s, t).call) == Some(MutexQ(m));
      }
      if f.None? {
        assert (s.owner - {m}) - {m} == s.owner - {m};
        OwnerKeeps(s, m, s.owner - {m});
      } else {
        var t := f.value;
        assert t in q;
        assert t in Wq(s, MutexQ(m)) <==> Awaits(Th(s, t).call) == Some(MutexQ(m));
        HandedKeeps(s, HandOver(s, m, q), m, t);
      }
    }
  }

  lemma HandedLocks(s: State, r: State, m: nat, t: Tid)
    requires Queues(s) && Locks(s) && Owner(s, m).Some? && Th(s, Owner(s, m).value).call == NoCall
    requires Awaits(Th(s, t).call) == Some(MutexQ(m)) && Th(s, t).state == LockWait
    requires r == Put(s.(owner := s.owner[m := t], runq := s.runq + [t]), t, Th(s, t).(state := Runnable))
    ensures Locks(r)
  {
    assert OnCondition(s, t);
    assert forall n :: n != m ==> Owner(r, n) == Owner(s, n);
    forall u: Tid
      ensures LockOk(r, u)
    {
      assert LockOk(s, u);
    }
  }

  /** The mutex passes from the current thread to the waiting thread t. */
  lemma HandedKeeps(s: State, r: State, m: nat, t: Tid)
    requires Ready(s) && Others(s) && Owner(s, m).Some? && Th(s, Owner(s, m).value).call == NoCall
    requires Awaits(Th(s, t).call) == Some(MutexQ(m)) && Th(s, t).state == LockWait
    requires r == Put(s.(owner := s.owner[m := t], runq := s.runq + [t]), t, Th(s, t).(state := Runnable))
    ensures Others(r)
  {
    HandedLocks(s, r, m, t);
    assert OnCondition(s, t);
    assert t in s.thr && InPlace(s, t);
    QueuesLike(s, r);
    var s1 := s.(owner := r.owner);
    SameTargets(s, r);
    assert ActiveSet(s1) == ActiveSet(s) && (forall u: Tid :: Live(s1, u) <==> Live(s, u));
    OneStacks(s1, r, t);
  }

  lemma LockEndOthers(s: State)
    requires Ready(s) && Others(s) && Me(s) != s.idle && Th(s, Me(s)).call.InLock?
    ensures Others(LockEnd(s).s)
  {
    assert InPlace(s, Me(s));
    DequeueKeeps(s, LockEnd(s).s, Me(s), MutexQ(Th(s, Me(s)).call.m));
  }

  // ----------------------------------------------------------- thread life

  /** The place of the first free stack that is big enough, or the end. */
  function FirstFit(free: seq<Stack>, size: nat): (i: nat)
    ensures i <= |free| && (forall j :: 0 <= j < i ==> free[j].size < size) && (i < |free| ==> free[i].size >= size)
  {
    if free == [] || free[0].size >= size then 0 else 1 + FirstFit(free[1..], size)
  }

  /** Taken from the free list, or new when nothing there is big enough. */
  lemma {:induction false} PickStackIs(free: seq<Stack>, size: nat, nextStack: nat)
    ensures var i := FirstFit(free, size);
      PickStack(free, size, nextStack) ==
        if i < |free| then Picked(free[i], free[..i] + free[i + 1..], nextStack)
        else Picked(Stack(nextStack, size), free, nextStack + 1)
  {
    if free == [] {
    } else if free[0].size >= size {
      Ends(free);
      Regroup([], free[1..], []);
    } else {
      PickStackIs(free[1..], size, nextStack);
      var i := FirstFit(free[1..], size);
      if i + 1 < |free| {
        DropLater(free, i);
      } else {
        HeadTail(free, 0);
        Ends(free);
      }
    }
  }

  ghost predicate DistinctIds(l: seq<Stack>) {
    forall i, j :: 0 <= i < j < |l| ==> l[i].id != l[j].id
  }

  lemma PickStackFresh(free: seq<Stack>, size: nat, nextStack: nat)
    requires DistinctIds(free) && forall k :: k in free ==> k.id < nextStack
    ensures var p := PickStack(free, size, nextStack);
      && DistinctIds(p.rest) && (forall k :: k in p.rest ==> k in free && k.id != p.stack.id)
      && p.nextStack >= nextStack && p.stack.id < p.nextStack
      && (p.stack in free || p.stack.id == nextStack)
  {
    PickStackIs(free, size, nextStack);
    var i := FirstFit(free, size);
    if i < |free| {
      assert free[i] in free;
      RestDistinct(free, i);
    }
  }

  lemma RestDistinct(free: seq<Stack>, i: nat)
    requires DistinctIds(free) && i < |free|
    ensures DistinctIds(free[..i] + free[i + 1..])
    ensures forall k :: k in free[..i] + free[i + 1..] ==> k in free && k.id != free[i].id
  {
    var rest := free[..i] + free[i + 1..];
    forall j | 0 <= j < |rest|
      ensures rest[j] == free[if j < i then j else j + 1]
    {
    }
  }

  lemma CreateOthers(s: State, t: Tid, joinable: bool, size: nat)
    requires Ready(s) && Others(s) && t !in s.thr
    ensures Others(Create(s, t, joinable, size).s)
  {
    var r := Create(s, t, joinable, size).s;
    PickStackFresh(s.freeStacks, size, s.nextStack);
    forall u: Tid
      ensures LockOk(r, u)
    {
      assert LockOk(s, u);
    }
    QueuesLike(s, r);
    SameTargets(s, r);
    CreateStacks(s, t, joinable, size);
    CreateActive(s, t, joinable, size);
  }

  lemma CreateActive(s: State, t: Tid, joinable: bool, size: nat)
    requires Active(s) && t !in s.thr && s.idle in s.thr
    ensures Active(Create(s, t, joinable, size).s)
  {
    assert ActiveSet(Create(s, t, joinable, size).s) == ActiveSet(s) + {t};
  }

  lemma CreateStacks(s: State, t: Tid, joinable: bool, size: nat)
    requires Stacks(s) && t !in s.thr
    ensures Stacks(Create(s, t, joinable, size).s)
  {
    var r := Create(s, t, joinable, size).s;
    PickStackFresh(s.freeStacks, size, s.nextStack);
    var k := r.thr[t].stack.value;
    forall u: Tid | Live(r, u) && u != t
      ensures Live(s, u) && r.thr[u].stack == s.thr[u].stack
      ensures s.thr[u].stack.Some? ==> s.thr[u].stack.value.id != k.id && s.thr[u].stack.value.id < r.nextStack
    {
      assert Live(s, u);
    }
  }

  /** The free list after a stack has been given back. */
  lemma FreeStackIs(free: seq<Stack>, k: Stack)
    requires DistinctIds(free) && forall x :: x in free ==> x.id != k.id
    ensures DistinctIds(FreeStack(free, Some(k)))
    ensures forall x :: x in FreeStack(free, Some(k)) <==> x in free || x == k
  {
    var r := FreeStack(free, Some(k));
    if free != [] {
      assert free == free[..|free| - 1] + [free[|free| - 1]];
      assert forall i :: 0 <= i < |free| ==> free[i] in free;
    }
  }

  /** The current thread is gone. */
  lemma GoneKeeps(s: State, r: State, t: Tid)
    requires Ready(s) && Others(s) && s.cur == Some(t) && t != s.idle && (Th(s, t).call == NoCall || Th(s, t).call == InExit)
    requires r.thr == s.thr[t := Th(r, t)] && Th(r, t).call == Gone && t in r.thr && Th(r, t).stack == Th(s, t).stack
    requires r.idle == s.idle && r.waitq == s.waitq && r.owner == s.owner && r.nextStack == s.nextStack
    requires r.freeStacks == FreeStack(s.freeStacks, Th(s, t).stack)
    requires r.active == if Th(s, t).call == NoCall then s.active - 1 else s.active
    ensures Others(r)
  {
    forall u: Tid
      ensures LockOk(r, u)
    {
      assert LockOk(s, u);
    }
    QueuesLike(s, r);
    SameTargets(s, r);
    GoneStacks(s, r, t);
    GoneActive(s, r, t);
  }

  lemma GoneStacks(s: State, r: State, t: Tid)
    requires Stacks(s) && Live(s, t) && r.thr == s.thr[t := Th(r, t)] && Th(r, t).call == Gone && t in r.thr
    requires r.nextStack == s.nextStack && r.freeStacks == FreeStack(s.freeStacks, Th(s, t).stack)
    ensures Stacks(r)
  {
    if Th(s, t).stack.Some? {
      FreeStackIs(s.freeStacks, Th(s, t).stack.value);
    }
    forall u: Tid | Live(r, u)
      ensures Live(s, u) && u != t && r.thr[u] == s.thr[u]
    {
      assert u in s.thr;
    }
  }

  lemma GoneActive(s: State, r: State, t: Tid)
    requires Active(s) && Live(s, t) && t != s.idle && (Th(s, t).call == NoCall || Th(s, t).call == InExit)
    requires r.thr == s.thr[t := Th(r, t)] && Th(r, t).call == Gone && t in r.thr && r.idle == s.idle
    requires r.active == if Th(s, t).call == NoCall then s.active - 1 else s.active
    ensures Active(r)
  {
    assert ActiveSet(r) == ActiveSet(s) - {t};
  }

  lemma FinishOthers(s: State, s1: State, th: Thread)
    requires Ready(s) && Others(s) && Me(s) != s.idle && (Th(s, Me(s)).call == NoCall || Th(s, Me(s)).call == InExit)
    requires th == Th(s, Me(s)).(retval := th.retval, term := th.term)
    requires s1 == s.(active := if Th(s, Me(s)).call == NoCall then s.active - 1 else s.active)
    ensures Others(Finish(s1, th))
  {
    var me := Me(s);
    var r := Put(s1.(freeStacks := FreeStack(s.freeStacks, th.stack), cur := None), me, th.(call := Gone));
    ElsewherePlaces(s, s1);
    assert InPlace(s1, me);
    MovePlaces(s1, r, me);
    GoneKeeps(s, r, me);
    ScheduleTame(r);
    TameKeeps(r, Schedule(r));
  }

  /** The running thread has become a zombie. */
  lemma BuriedKeeps(s: State, r: State, th: Thread)
    requires Ready(s) && Others(s) && Me(s) != s.idle && Th(s, Me(s)).call == NoCall && Th(s, Me(s)).term
    requires th == Th(s, Me(s)).(retval := th.retval)
    requires r == Bury(s.(active := s.active - 1), th)
    ensures Others(r)
  {
    forall u: Tid
      ensures LockOk(r, u)
    {
      assert LockOk(s, u);
    }
    QueuesLike(s, r);
    SameTargets(s, r);
    BuriedStacks(s, r, th);
  }

  lemma BuriedStacks(s: State, r: State, th: Thread)
    requires Stacks(s) && Active(s) && Me(s) in s.thr && Me(s) != s.idle && Th(s, Me(s)).call == NoCall
    requires th == Th(s, Me(s)).(retval := th.retval)
    requires r == Bury(s.(active := s.active - 1), th)
    ensures Stacks(r) && Active(r)
  {
    assert ActiveSet(r) == ActiveSet(s) - {Me(s)};
    StacksLike(s, r);
  }

  lemma ExitOthers(s: State, retval: int)
    requires Ready(s) && Others(s) && Me(s) != s.idle && Th(s, Me(s)).call == NoCall
    ensures Others(Exit(s, retval).s)
  {
    var th := Th(s, Me(s)).(retval := retval);
    if !th.term {
      FinishOthers(s, s.(active := s.active - 1), th);
    } else {
      BuriedOthers(s, retval);
    }
  }

  lemma BuriedOthers(s: State, retval: int)
    requires Ready(s) && Others(s) && Me(s) != s.idle && Th(s, Me(s)).call == NoCall && Th(s, Me(s)).term
    ensures var b := Bury(s.(active := s.active - 1), Th(s, Me(s)).(retval := retval));
      Others(Schedule(SignalFrom(b, Wq(s, TermQ(Me(s))), false)))
  {
    var me := Me(s);
    var th := Th(s, me).(retval := retval);
    var s1 := s.(active := s.active - 1);
    var b := Bury(s1, th);
    BuriedKeeps(s, b, th);
    ElsewherePlaces(s, s1);
    BuryPlaces(s1, th);
    assert Wq(b, TermQ(me)) == Wq(s, TermQ(me));
    TellJoiner(b, me);
  }

  lemma TellJoiner(b: State, t: Tid)
    requires Places(b) && Others(b) && b.cur.None?
    ensures Others(Schedule(SignalFrom(b, Wq(b, TermQ(t)), false)))
  {
    var q := Wq(b, TermQ(t));
    forall u | u in q
      ensures u in b.thr && Awaits(b.thr[u].call) == Some(TermQ(t))
    {
      assert u in Wq(b, TermQ(t)) <==> Awaits(Th(b, u).call) == Some(TermQ(t));
    }
    SignalTame(b, TermQ(t), q, false);
    var c := SignalFrom(b, q, false);
    TameKeeps(b, c);
    SignalFromPlaces(b, q, false);
    ScheduleTame(c);
    TameKeeps(c, Schedule(c));
  }

  /** A joined thread goes on with its exit. */
  lemma ExitEndOthers(s: State)
    requires Ready(s) && Others(s) && Me(s) != s.idle && Th(s, Me(s)).call == InExit
    ensures Others(ExitEnd(s).s)
  {
    assert InPlace(s, Me(s));
    FinishOthers(s, s, Th(s, Me(s)).(term := false));
  }

  /** A zombie is let go. */
  lemma ReleaseOthers(s: State, t: Tid)
    requires Ready(s) && Others(s) && t in s.thr && s.thr[t].state == Zombie
    ensures Others(Release(s, t).s)
  {
    var r := Release(s, t).s;
    assert InPlace(s, t);
    forall u: Tid
      ensures LockOk(r, u)
    {
      assert LockOk(s, u);
    }
    QueuesLike(s, r);
    SameTargets(s, r);
    assert ActiveSet(r) == ActiveSet(s);
    StacksLike(s, r);
  }

  lemma JoinOthers(s: State, t: Tid)
    requires Ready(s) && Others(s) && Me(s) != s.idle && Th(s, Me(s)).call == NoCall && t in s.thr
    ensures Others(Join(s, t).s)
  {
    assert InPlace(s, t);
    if s.thr[t].term && Me(s) != t && Wq(s, TermQ(t)) == [] {
      if s.thr[t].state != Zombie {
        CondStartOthers(s, TermQ(t), None);
      } else {
        ReleaseOthers(s, t);
      }
    }
  }

  lemma JoinEndOthers(s: State)
    requires Ready(s) && Others(s) && Me(s) != s.idle && Joins(s, Me(s))
    ensures Others(JoinEnd(s, Th(s, Me(s)).call.q.t).s)
  {
    var t := Th(s, Me(s)).call.q.t;
    assert InPlace(s, t) && InPlace(s, Me(s));
    CondEndOthers(s);
    CondEndPlaces(s);
    var n := CondEnd(s);
    if !n.out.Failed? {
      assert Th(n.s, t) == Th(s, t);
      if Th(n.s, t).state != Zombie {
        CondStartOthers(n.s, TermQ(t), None);
      } else {
        ReleaseOthers(n.s, t);
      }
    }
  }

  lemma SignalOthers(s: State, c: nat, broadcast: bool)
    requires Others(s)
    ensures Others(Signal(s, c, broadcast).s)
  {
    var q := Wq(s, CondQ(c));
    forall t | t in q
      ensures t in s.thr && Awaits(s.thr[t].call) == Some(CondQ(c))
    {
      assert t in Wq(s, CondQ(c)) <==> Awaits(Th(s, t).call) == Some(CondQ(c));
    }
    SignalTame(s, CondQ(c), q, broadcast);
    TameKeeps(s, SignalFrom(s, q, broadcast));
  }

  lemma ResumeOthers(s: State)
    requires Ready(s) && Others(s) && Enabled(s, EResume)
    ensures Others(Resume(s).s)
  {
    var me := Me(s);
    assert InPlace(s, me);
    match s.thr[me].call
    case InPoll(_) => PlainKeeps(s, PollEnd(s).s, me);
    case InCond(q, _) =>
      if q.TermQ? {
        JoinEndOthers(s);
      } else {
        CondEndOthers(s);
      }
    case InLock(_) => LockEndOthers(s);
    case InSleep => PlainKeeps(s, SleepEnd(s).s, me);
    case InExit => ExitEndOthers(s);
    case _ =>
  }

  lemma IdleOthers(s: State, forked: bool, fired: seq<E.Fired>, now: int, woken: seq<Tid>)
    requires Ready(s) && Others(s) && s.cur == Some(s.idle)
    requires ExpiryOrder(Dispatch(if forked then Reopen(s) else s, fired).sleep, now, woken)
    ensures Others(Idle(s, forked, fired, now, woken).s)
  {
    IdleTame(s, forked, fired, now, woken);
    TameKeeps(s, Idle(s, forked, fired, now, woken).s);
  }

  lemma InterruptOthers(s: State, t: Tid)
    requires Ready(s) && Others(s) && t in s.thr
    ensures Others(Interrupt(s, t).s)
  {
    InterruptTame(s, t);
    TameKeeps(s, Interrupt(s, t).s);
  }

  lemma StepOthers(s: State, e: Event)
    requires Ready(s) && Others(s) && Enabled(s, e)
    ensures Others(Step(s, e).s)
  {
    match e
    case ECreate(t, joinable, size) => CreateOthers(s, t, joinable, size);
    case EExit(retval) => ExitOthers(s, retval);
    case EJoin(t) => JoinOthers(s, t);
    case EInterrupt(t) => InterruptOthers(s, t);
    case ESleep(timeout) => SleepOthers(s, timeout);
    case EWait(c, timeout) => CondStartOthers(s, CondQ(c), timeout);
    case ESignal(c, broadcast) => SignalOthers(s, c, broadcast);
    case ELock(m) => LockOthers(s, m);
    case EUnlock(m) => UnlockOthers(s, m);
    case ETryLock(m) => TryLockOthers(s, m);
    case EPoll(pds, timeout, fails) => PollOthers(s, pds, timeout, fails);
    case EIdle(forked, fired, now, woken) => IdleOthers(s, forked, fired, now, woken);
    case EResume => ResumeOthers(s);
  }
}