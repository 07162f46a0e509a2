/** The scheduler as the program that it is: queues and counters in one object,
    thread objects whose state and flags change in place, the timeout heap that
    links them, and the loops of the source (sched.c, sync.c, stk.c).

    `View` is the abstract state.  A method for a call, or for the part of a call
    after a context switch, starts in order and where the step of the state
    machine can be taken, takes `View` where that step takes it, and leaves
    everything in order.  The methods in between say which part of a step they
    do. */
module Runtime {
  import opened ThreadTypes
  import opened Wrappers
  import opened Sequences
  import opened PollTypes
  import opened Sched
  import opened SchedInv
  import opened SchedKeeps
  import opened SchedOthers
  import opened SchedSteps
  import opened SchedCalls
  import opened SchedIo
  import opened SchedRuns
  import opened SchedPoll
  import opened Expiry
  import opened EpollSystem
  import opened ThreadTable
  import E = Epoll

  class VirtualProcessor {
    const table: Table
    var cur: Option<Tid>
    const idle: Tid
    var runq: seq<Tid>
    var ioq: seq<Tid>
    var zombieq: seq<Tid>
    var clock: int
    var waitq: map<Queue, seq<Tid>>
    var owner: map<nat, Tid>
    var pq: map<Tid, Pollq>
    const ep: System
    var active: int
    var freeStacks: seq<Stack>
    var nextStack: nat

    /** `st_init`: the idle thread is created like any other, and taken off the
        run queue again; the thread that is already running becomes a thread
        object without a stack of its own. */
    constructor (idleThread: Tid, primordial: Tid, now: int, fdHint: nat)
      requires idleThread != primordial && fdHint > 0
      ensures Good() && View() == Init(idleThread, primordial, now, fdHint)
      ensures fresh(table) && fresh(table.sleepQ) && fresh(table.objects) && fresh(ep)
    {
      hide Table.Valid, Inv;
      idle := idleThread;
      table := new Table();
      cur := Some(primordial);
      runq, ioq, zombieq := [], [], [];
      clock, waitq, owner, pq := now, map[], map[], map[];
      ep := new System(fdHint);
      active, freeStacks, nextStack := 1, [], 1;
      new;
      table.New(idleThread, false, Some(Stack(0, 65536)));
      table.New(primordial, false, None);
      table.SetState(primordial, Running);
      InitInv(idleThread, primordial, now, fdHint);
      assert table.records == Init(idleThread, primordial, now, fdHint).thr;
      assert View() == Init(idleThread, primordial, now, fdHint);
    }

    ghost function View(): State
      reads this, table, table.sleepQ, table.objects, ep
    {
      State(table.records, cur, idle, runq, ioq, zombieq, table.sleepers, clock, waitq, owner, pq, ep.View(), active, freeStacks, nextStack)
    }

    /** The objects fit together, and queues hold threads. */
    ghost predicate Valid()
      reads this, table, table.sleepQ, table.objects
    {
      && table.Valid()
      && idle in table.records && (cur.Some? ==> cur.value in table.records)
      && (forall t :: t in runq ==> t in table.records)
      && (forall t :: t in ioq ==> t in table.records)
      && (forall q, t :: q in waitq && t in waitq[q] ==> t in table.records)
    }

    /** The scheduler is in order. */
    ghost predicate Good()
      reads this, table, table.sleepQ, table.objects, ep
    {
      Valid() && Inv(View())
    }

    function Waiters(q: Queue): seq<Tid>
      reads this
    {
      if q in waitq then waitq[q] else []
    }

    function Self(): Tid
      reads this
    {
      if cur.Some? then cur.value else idle
    }

    // ------------------------------------------------------------ scheduling

    method Schedule()
      requires Valid()
      modifies `runq, `cur, table`records, table`sleepers, table.objects
      ensures Valid()
      ensures View() == Sched.Schedule(old(View()))
    {
      hide Table.Valid;
      var t := idle;
      if runq != [] {
        t := runq[0];
        runq := runq[1..];
      }
      cur := Some(t);
      table.SetState(t, Running);
    }

    /** Brings the state and the call of a thread up to date. */
    method Mark(t: Tid, st: ThreadState, call: Call)
      requires Valid() && t in table.records
      modifies table`records, table`sleepers, table.objects
      ensures Valid() && View() == Put(old(View()), t, Th(old(View()), t).(state := st, call := call))
    {
      hide Table.Valid;
      ghost var s := View();
      table.SetState(t, st);
      table.SetCall(t, call);
      PutTwice(s.thr, t, s.thr[t].(state := st), s.thr[t].(state := st, call := call));
    }

    /** Takes a thread off the sleep queue, if it is there, and makes it
        runnable: what signalling, timing out, interrupting and readiness have
        in common. */
    method MakeRunnable(t: Tid, cause: Cause)
      requires Valid() && t in table.records
      modifies `runq, table`records, table`sleepers, table.sleepQ, table.objects
      ensures Valid()
      ensures View() == WakeUp(old(View()), t, cause)
    {
      hide Table.Valid;
      ghost var s := View();
      SameRecord(s, t);
      if table.Get(t).onSleepq {
        table.Rouse(t);
      }
      ghost var awake := View();
      assert awake == Put(s.(sleep := if s.thr[t].onSleepq then s.sleep - {t} else s.sleep), t, s.thr[t].(onSleepq := false));
      runq := runq + [t];
      Mark(t, Runnable, Ended(table.Get(t).call, cause));
      WakeTwice(s, awake, t, cause);
    }

    /** The current thread blocks. */
    method Block(st: ThreadState, call: Call, timeout: Option<nat>)
      requires Valid() && cur.Some? && !table.Get(Self()).onSleepq
      modifies `cur, table`records, table`sleepers, table.sleepQ, table.objects
      ensures Valid()
      ensures View() == Sched.Block(old(View()), st, call, timeout)
    {
      hide Table.Valid;
      var me := Self();
      ghost var s := View();
      SameRecord(s, me);
      if timeout.Some? {
        table.Sleep(me, timeout.value, clock);
      }
      ghost var asleep := View();
      cur := None;
      Mark(me, st, call);
      BlockTwice(s, asleep, st, call, timeout);
    }

    /** Reports an interrupt that came before the call. */
    method TakeInterrupt() returns (out: Outcome)
      requires Valid() && cur.Some?
      modifies table`records, table`sleepers, table.objects
      ensures Valid() && Next(View(), out) == Sched.TakeInterrupt(old(View()))
    {
      hide Table.Valid;
      table.SetInterrupted(Self(), false);
      out := Failed(EINTR);
    }

    /** The current thread is back from a blocking call: the flags of the wait
        are cleared. */
    method Return(interrupted: bool)
      requires Valid() && cur.Some?
      modifies table`records, table`sleepers, table.objects
      ensures Valid()
      ensures View() == Put(old(View()), Self(), Th(old(View()), Self()).(call := NoCall, timedOut := false, interrupted := interrupted))
    {
      hide Table.Valid;
      ghost var s := View();
      var me := Self();
      table.SetCall(me, NoCall);
      table.SetTimedOut(me, false);
      table.SetInterrupted(me, interrupted);
      PutThrice(s.thr, me, s.thr[me].(call := NoCall), s.thr[me].(call := NoCall, timedOut := false),
                s.thr[me].(call := NoCall, timedOut := false, interrupted := interrupted));
    }

    // ----------------------------------------------------------- sleep (sync.c)

    method Usleep(timeout: Option<nat>) returns (out: Outcome)
      requires Good() && Enabled(View(), ESleep(timeout))
      modifies this, table`records, table`sleepers, table.sleepQ, table.objects
      ensures Good() && Next(View(), out) == Step(old(View()), ESleep(timeout))
    {
      hide Table.Valid, Inv;
      CallKeeps(View(), ESleep(timeout));
      if table.Get(Self()).interrupted {
        out := TakeInterrupt();
        return;
      }
      Block(if timeout.Some? then Sleeping else Suspended, InSleep, timeout);
      Schedule();
      out := Switched;
    }

    method UsleepEnd() returns (out: Outcome)
      requires Good() && Enabled(View(), EResume) && Th(View(), Self()).call == InSleep
      modifies table`records, table`sleepers, table.objects
      ensures Good() && Next(View(), out) == Step(old(View()), EResume)
    {
      hide Table.Valid, Inv;
      CallKeeps(View(), EResume);
      out := Ok(0);
      if table.Get(Self()).interrupted {
        out := Failed(EINTR);
      }
      Return(false);
    }

    // ------------------------------------------------ condition variables (sync.c)

    /** Waits on a queue, up to the switch. */
    method WaitOn(q: Queue, timeout: Option<nat>) returns (out: Outcome)
      requires Valid() && cur.Some? && !table.Get(Self()).onSleepq
      modifies this, table`records, table`sleepers, table.sleepQ, table.objects
      ensures Valid() && Next(View(), out) == CondStart(old(View()), q, timeout)
    {
      hide Table.Valid;
      if table.Get(Self()).interrupted {
        out := TakeInterrupt();
        return;
      }
      waitq := waitq[q := Waiters(q) + [Self()]];
      Block(CondWait, InCond(q, NotYet), timeout);
      Schedule();
      out := Switched;
    }

    method CondTimedwait(c: nat, timeout: Option<nat>) returns (out: Outcome)
      requires Good() && Enabled(View(), EWait(c, timeout))
      modifies this, table`records, table`sleepers, table.sleepQ, table.objects
      ensures Good() && Next(View(), out) == Step(old(View()), EWait(c, timeout))
    {
      hide Table.Valid, Inv;
      CallKeeps(View(), EWait(c, timeout));
      out := WaitOn(CondQ(c), timeout);
    }

    /** ST_REMOVE_LINK of the current thread's wait link. */
    method Unlink(q: Queue)
      requires Valid() && cur.Some?
      modifies `waitq
      ensures Valid() && View() == old(View()).(waitq := old(waitq)[q := Without(Wq(old(View()), q), Self())])
    {
      hide Table.Valid;
      WithoutIs(Waiters(q), Self());
      waitq := waitq[q := Without(Waiters(q), Self())];
    }

    /** Goes on after the switch of a wait on a queue. */
    method WaitOver(q: Queue) returns (out: Outcome)
      requires Valid() && cur.Some? && table.Get(Self()).call.InCond? && table.Get(Self()).call.q == q
      modifies `waitq, table`records, table`sleepers, table.objects
      ensures Valid() && Next(View(), out) == CondEnd(old(View()))
    {
      hide Table.Valid;
      Unlink(q);
      var thread := table.Get(Self());
      out := Ok(0);
      if thread.timedOut {
        out := Failed(ETIME);
      }
      if thread.interrupted {
        out := Failed(EINTR);
      }
      Return(false);
    }

    method CondTimedwaitEnd(c: nat) returns (out: Outcome)
      requires Good() && Enabled(View(), EResume) && Th(View(), Self()).call.InCond? && Th(View(), Self()).call.q == CondQ(c)
      modifies `waitq, table`records, table`sleepers, table.objects
      ensures Good() && Next(View(), out) == Step(old(View()), EResume)
    {
      hide Table.Valid, Inv;
      CallKeeps(View(), EResume);
      out := WaitOver(CondQ(c));
    }

    /** `_st_cond_signal` on a queue. */
    method SignalQueue(q: Queue, broadcast: bool)
      requires Valid()
      modifies `runq, table`records, table`sleepers, table.sleepQ, table.objects
      ensures Valid()
      ensures View() == SignalFrom(old(View()), Waiters(q), broadcast)
    {
      hide Table.Valid;
      var queue := Waiters(q);
      ghost var s := View();
      var i := 0;
      while i < |queue|
        invariant i <= |queue| && Valid() && waitq == old(waitq)
        invariant SignalFrom(View(), queue[i..], broadcast) == SignalFrom(s, queue, broadcast)
      {
        HeadTail(queue, i);
        if table.Get(queue[i]).state == CondWait {
          MakeRunnable(queue[i], BySignal);
          if !broadcast {
            return;
          }
        }
        i := i + 1;
      }
    }

    method CondSignal(c: nat, broadcast: bool)
      requires Good() && Enabled(View(), ESignal(c, broadcast))
      modifies `runq, table`records, table`sleepers, table.sleepQ, table.objects
      ensures Good() && Next(View(), Ok(0)) == Step(old(View()), ESignal(c, broadcast))
    {
      hide Table.Valid, Inv;
      CallKeeps(View(), ESignal(c, broadcast));
      SignalQueue(CondQ(c), broadcast);
    }

    // -------------------------------------------------------- mutexes (sync.c)

    method MutexLock(m: nat) returns (out: Outcome)
      requires Good() && Enabled(View(), ELock(m))
      modifies this, table`records, table`sleepers, table.sleepQ, table.objects
      ensures Good() && Next(View(), out) == Step(old(View()), ELock(m))
    {
      hide Table.Valid, Inv, Step, Enabled, Sched.Block, Sched.Schedule;
      CallKeeps(View(), ELock(m));
      LockIsStep(View(), m);
      var me := Self();
      if table.Get(me).interrupted {
        out := TakeInterrupt();
        return;
      }
      if m !in owner {
        owner := owner[m := me];
        return Ok(0);
      }
      if owner[m] == me {
        return Failed(EDEADLK);
      }
      waitq := waitq[MutexQ(m) := Waiters(MutexQ(m)) + [me]];
      ghost var queued := View();
      Block(LockWait, InLock(m), None);
      ghost var blocked := View();
      assert blocked == Sched.Block(queued, LockWait, InLock(m), None);
      Schedule();
      assert View() == Sched.Schedule(blocked);
      out := Switched;
    }

    method MutexLockEnd(m: nat) returns (out: Outcome)
      requires Good() && Enabled(View(), EResume) && Th(View(), Self()).call == InLock(m)
      modifies `waitq, table`records, table`sleepers, table.objects
      ensures Good() && Next(View(), out) == Step(old(View()), EResume)
    {
      hide Table.Valid, Inv;
      CallKeeps(View(), EResume);
      var me := Self();
      Unlink(MutexQ(m));
      var interrupted := table.Get(me).interrupted;
      if interrupted && !(m in owner && owner[m] == me) {
        Return(false);
        return Failed(EINTR);
      }
      Return(interrupted);
      out := Ok(0);
    }

    /** Makes a waiting thread the owner, and runnable. */
    method HandTo(m: nat, t: Tid)
      requires Valid() && t in table.records
      modifies `owner, `runq, table`records, table`sleepers, table.objects
      ensures Valid()
      ensures View() == Put(old(View()).(owner := old(owner)[m := t], runq := old(runq) + [t]), t,
                            Th(old(View()), t).(state := Runnable))
    {
      hide Table.Valid;
      owner := owner[m := t];
      runq := runq + [t];
      table.SetState(t, Runnable);
    }

    /** The loop of `st_mutex_unlock`. */
    method HandOn(m: nat)
      requires Valid()
      modifies `owner, `runq, table`records, table`sleepers, table.objects
      ensures Valid() && View() == HandOver(old(View()), m, Waiters(MutexQ(m)))
    {
      hide Table.Valid;
      var queue := Waiters(MutexQ(m));
      ghost var s := View();
      var i := 0;
      while i < |queue|
        invariant i <= |queue| && Valid() && View() == s
        invariant HandOver(s, m, queue[i..]) == HandOver(s, m, queue)
      {
        HeadTail(queue, i);
        var t := queue[i];
        if table.Get(t).state == LockWait {
          HandTo(m, t);
          return;
        }
        i := i + 1;
      }
      owner := owner - {m};
    }

    method MutexUnlock(m: nat) returns (out: Outcome)
      requires Good() && Enabled(View(), EUnlock(m))
      modifies `owner, `runq, table`records, table`sleepers, table.objects
      ensures Good() && Next(View(), out) == Step(old(View()), EUnlock(m))
    {
      hide Table.Valid, Inv;
      CallKeeps(View(), EUnlock(m));
      if !(m in owner && owner[m] == Self()) {
        return Failed(EPERM);
      }
      HandOn(m);
      out := Ok(0);
    }

    method MutexTrylock(m: nat) returns (out: Outcome)
      requires Good() && Enabled(View(), ETryLock(m))
      modifies `owner
      ensures Good() && Next(View(), out) == Step(old(View()), ETryLock(m))
    {
      hide Table.Valid, Inv;
      CallKeeps(View(), ETryLock(m));
      if m in owner {
        return Failed(EBUSY);
      }
      owner := owner[m := Self()];
      out := Ok(0);
    }

    // ------------------------------------------------------ stacks (stk.c)

    method StackNew(size: nat) returns (stack: Stack)
      modifies `freeStacks, `nextStack
      ensures Picked(stack, freeStacks, nextStack) == PickStack(old(freeStacks), size, old(nextStack))
    {
      var i := 0;
      while i < |freeStacks|
        invariant i <= |freeStacks| && freeStacks == old(freeStacks) && nextStack == old(nextStack)
        invariant forall j :: 0 <= j < i ==> freeStacks[j].size < size
      {
        if freeStacks[i].size >= size {
          stack := freeStacks[i];
          PickStackIs(freeStacks, size, nextStack);
          freeStacks := freeStacks[..i] + freeStacks[i + 1..];
          return;
        }
        i := i + 1;
      }
      PickStackIs(freeStacks, size, nextStack);
      stack := Stack(nextStack, size);
      nextStack := nextStack + 1;
    }

    method StackFree(stack: Option<Stack>)
      modifies `freeStacks
      ensures freeStacks == FreeStack(old(freeStacks), stack)
    {
      if stack.None? {
        return;
      }
      if freeStacks == [] {
        freeStacks := [stack.value];
      } else {
        var tail := |freeStacks| - 1;
        freeStacks := freeStacks[..tail] + [stack.value] + [freeStacks[tail]];
      }
    }

    // -------------------------------------------------- thread life (sched.c)

    method ThreadCreate(t: Tid, joinable: bool, size: nat)
      requires Good() && Enabled(View(), ECreate(t, joinable, size))
      modifies this, table
      ensures Good() && Next(View(), Ok(t)) == Step(old(View()), ECreate(t, joinable, size))
      ensures fresh(table.objects - old(table.objects))
    {
      hide Table.Valid, Inv, Step, Enabled, PickStack;
      CallKeeps(View(), ECreate(t, joinable, size));
      CreateIsStep(View(), t, joinable, size);
      var stack := StackNew(size);
      table.New(t, joinable, Some(stack));
      active := active + 1;
      runq := runq + [t];
    }

    /** Gives back the stack and switches away for ever. */
    method Finish()
      requires Valid() && cur.Some?
      modifies this, table`records, table`sleepers, table.objects
      ensures Valid() && View() == Sched.Finish(old(View()), Th(old(View()), old(Self())))
    {
      hide Table.Valid;
      var me := Self();
      StackFree(table.Get(me).stack);
      cur := None;
      table.SetCall(me, Gone);
      Schedule();
    }

    /** A joinable thread goes on the zombie queue, tells whoever joins it, and
        waits to be let go. */
    method LingerAsZombie()
      requires Valid() && cur.Some?
      modifies this, table`records, table`sleepers, table.sleepQ, table.objects
      ensures Valid()
      ensures View() == Sched.Schedule(SignalFrom(Bury(old(View()), Th(old(View()), old(Self()))), Wq(old(View()), TermQ(old(Self()))), false))
    {
      hide Table.Valid;
      var me := Self();
      zombieq := zombieq + [me];
      cur := None;
      Mark(me, Zombie, InExit);
      SignalQueue(TermQ(me), false);
      Schedule();
    }

    method ThreadExit(retval: int)
      requires Good() && Enabled(View(), EExit(retval))
      modifies this, table`records, table`sleepers, table.sleepQ, table.objects
      ensures Good() && Next(View(), Switched) == Step(old(View()), EExit(retval))
    {
      hide Table.Valid, Inv, Step, Enabled, Exit, Bury, SignalFrom, Sched.Schedule, Sched.Finish;
      CallKeeps(View(), EExit(retval));
      ExitIsStep(View(), retval);
      ghost var s := View();
      var me := Self();
      table.SetRetval(me, retval);
      active := active - 1;
      ghost var noted := View();
      if table.Get(me).term {
        LingerAsZombie();
      } else {
        Finish();
      }
      ExitNoted(s, noted, retval);
    }

    /** The rest of the exit, after the thread has been joined. */
    method ThreadExitEnd()
      requires Good() && Enabled(View(), EResume) && Th(View(), Self()).call == InExit
      modifies this, table`records, table`sleepers, table.objects
      ensures Good() && Next(View(), Switched) == Step(old(View()), EResume)
    {
      hide Table.Valid, Inv;
      CallKeeps(View(), EResume);
      ghost var s := View();
      var me := Self();
      table.DropTerm(me);
      ghost var dropped := View();
      Finish();
      FinishAgain(s, dropped, me);
    }

    /** Hands out the exit value of a zombie and lets it finish. */
    method ReleaseZombie(t: Tid) returns (out: Outcome)
      requires Valid() && t in table.records
      modifies `zombieq, `runq, table`records, table`sleepers, table.objects
      ensures Valid() && Next(View(), out) == Release(old(View()), t)
    {
      hide Table.Valid;
      out := Ok(table.Get(t).retval);
      zombieq := Without(zombieq, t);
      runq := runq + [t];
      table.SetState(t, Runnable);
    }

    method ThreadJoin(t: Tid) returns (out: Outcome)
      requires Good() && Enabled(View(), EJoin(t))
      modifies this, table`records, table`sleepers, table.sleepQ, table.objects
      ensures Good() && Next(View(), out) == Step(old(View()), EJoin(t))
    {
      hide Table.Valid, Inv;
      CallKeeps(View(), EJoin(t));
      if !table.Get(t).term {
        return Failed(EINVAL);
      }
      if Self() == t {
        return Failed(EDEADLK);
      }
      if Waiters(TermQ(t)) != [] {
        return Failed(EINVAL);
      }
      if table.Get(t).state != Zombie {
        out := WaitOn(TermQ(t), None);
      } else {
        out := ReleaseZombie(t);
      }
    }

    /** The rest of the loop of the join, after a wait. */
    method ThreadJoinEnd(t: Tid) returns (out: Outcome)
      requires Good() && Enabled(View(), EResume) && Th(View(), Self()).call.InCond? && Th(View(), Self()).call.q == TermQ(t)
      modifies this, table`records, table`sleepers, table.sleepQ, table.objects
      ensures Good() && Next(View(), out) == Step(old(View()), EResume)
    {
      hide Table.Valid, Inv;
      CallKeeps(View(), EResume);
      JoinKnows(View());
      out := WaitOver(TermQ(t));
      if out.Failed? {
        return;
      }
      if table.Get(t).state != Zombie {
        out := WaitOn(TermQ(t), None);
      } else {
        out := ReleaseZombie(t);
      }
    }

    method ThreadInterrupt(t: Tid)
      requires Good() && Enabled(View(), EInterrupt(t))
      modifies `runq, table`records, table`sleepers, table.sleepQ, table.objects
      ensures Good() && Next(View(), Ok(0)) == Step(old(View()), EInterrupt(t))
    {
      hide Table.Valid, Inv;
      CallKeeps(View(), EInterrupt(t));
      ghost var s := View();
      var state := table.Get(t).state;
      if state == Zombie {
        return;
      }
      table.SetInterrupted(t, true);
      if state == Running || state == Runnable {
        return;
      }
      ghost var noted := View();
      MakeRunnable(t, ByInterrupt);
      WakeAgain(s, noted, t, ByInterrupt);
    }

    // --------------------------------------------------------- poll (sched.c)

    method Poll(pds: seq<PollFd>, timeout: Option<nat>, fails: set<nat>) returns (out: Outcome)
      requires Good() && Enabled(View(), EPoll(pds, timeout, fails))
      modifies this, table`records, table`sleepers, table.sleepQ, table.objects, ep
      ensures Good() && Next(View(), out) == Step(old(View()), EPoll(pds, timeout, fails))
    {
      hide Table.Valid, Inv, Step, Enabled, E.Add, Sched.Block, Sched.Schedule;
      CallKeeps(View(), EPoll(pds, timeout, fails));
      PollIsStep(View(), pds, timeout, fails);
      var me := Self();
      if table.Get(me).interrupted {
        out := TakeInterrupt();
        return;
      }
      var ok, legal := ep.PollsetAdd(pds, fails);
      if !ok {
        return Failed(if legal then EKERNEL else EINVAL);
      }
      pq := pq[me := Pollq(pds, true)];
      ioq := ioq + [me];
      ghost var queued := View();
      Block(IoWait, InPoll(NotYet), timeout);
      ghost var blocked := View();
      assert blocked == Sched.Block(queued, IoWait, InPoll(NotYet), timeout);
      Schedule();
      assert View() == Sched.Schedule(blocked);
      out := Switched;
    }

    method PollEnd() returns (out: Outcome)
      requires Good() && Enabled(View(), EResume) && Th(View(), Self()).call.InPoll?
      modifies `ioq, `pq, ep, table`records, table`sleepers, table.objects
      ensures Good() && Next(View(), out) == Step(old(View()), EResume)
    {
      hide Table.Valid, Inv, Step, Enabled, E.Del, Without, ReadyCount;
      CallKeeps(View(), EResume);
      PollEndIsStep(View());
      RequestKnown(View());
      var me := Self();
      var request := pq[me];
      var n := 0;
      if request.onIoq {
        WithoutIs(ioq, me);
        ioq := Without(ioq, me);
        ep.PollsetDel(request.pds);
      } else {
        n := CountReady(request.pds);
      }
      pq := pq - {me};
      out := Ok(n);
      if table.Get(me).interrupted {
        out := Failed(EINTR);
      }
      Return(false);
    }

    // -------------------------------------------------- the idle thread

    /** The rebuild of the interest set after a fork. */
    method Reopen()
      requires Valid() && |ep.fdData| > 0 && forall t :: t in ioq ==> t in pq
      modifies ep
      ensures Valid() && View() == Sched.Reopen(old(View())) && |ep.fdData| > 0
    {
      hide Table.Valid;
      ep.Reset();
      ghost var e0 := ep.View();
      var i := 0;
      while i < |ioq|
        invariant i <= |ioq| && |ep.fdData| > 0
        invariant Rebuild(ep.View(), ioq[i..], pq) == Rebuild(e0, ioq, pq)
      {
        HeadTail(ioq, i);
        var _, _ := ep.PollsetAdd(pq[ioq[i]].pds, {});
        i := i + 1;
      }
    }

    /** Takes a request of which something fired off the I/O queue, and gives
        its counts back. */
    method UnlinkRequest(t: Tid, pds: seq<PollFd>)
      requires Valid() && E.InTable(pds, |ep.fdData|)
      modifies `pq, `ioq, ep
      ensures Valid()
      ensures View() == old(View()).(pq := old(pq)[t := Pollq(pds, false)], ioq := Without(old(ioq), t), ep := EpDel(old(ep.View()), pds))
    {
      hide Table.Valid;
      WithoutIs(ioq, t);
      pq := pq[t := Pollq(pds, false)];
      ioq := Without(ioq, t);
      ep.PollsetDel(pds);
    }

    /** The dispatch for one request of the I/O queue. */
    method NotifyRequest(t: Tid)
      requires Valid() && t in table.records && t in pq && E.InTable(pq[t].pds, |ep.fdData|)
      modifies `pq, `ioq, `runq, ep, table`records, table`sleepers, table.sleepQ, table.objects
      ensures Valid() && View() == Notify1(old(View()), t)
    {
      hide Table.Valid;
      var pds, notify := ep.Tell(pq[t].pds);
      if notify {
        UnlinkRequest(t, pds);
        MakeRunnable(t, BySignal);
      } else {
        pq := pq[t := pq[t].(pds := pds)];
      }
    }

    /** The loop of the dispatch over the I/O queue as it was at the start. */
    method NotifyAll()
      requires Valid() && NoDup(ioq) && AllKnown(View(), ioq)
      modifies `pq, `ioq, `runq, ep, table`records, table`sleepers, table.sleepQ, table.objects
      ensures Valid() && |ep.fdData| == |old(ep.fdData)|
      ensures View() == NotifyFrom(old(View()), old(ioq))
    {
      hide Table.Valid;
      ghost var s := View();
      var queue := ioq;
      var i := 0;
      while i < |queue|
        invariant i <= |queue| && Valid() && |ep.fdData| == |old(ep.fdData)|
        invariant NoDup(queue[i..]) && AllKnown(View(), queue[i..])
        invariant forall t :: t in queue ==> t in table.records
        invariant NotifyFrom(View(), queue[i..]) == NotifyFrom(s, queue)
      {
        HeadTail(queue, i);
        assert queue[i] in queue[i..];
        NotifyOne(View(), queue[i], queue[i + 1..]);
        NotifyRequest(queue[i]);
        i := i + 1;
      }
    }

    method Dispatch(fired: seq<E.Fired>)
      requires Valid() && NoDup(ioq) && AllKnown(View(), ioq) && FdsKnown(ep.View(), fired)
      modifies `pq, `ioq, `runq, ep, table`records, table`sleepers, table.sleepQ, table.objects
      ensures Valid()
      ensures View() == Sched.Dispatch(old(View()), fired)
    {
      hide Table.Valid;
      if fired == [] {
        return;
      }
      ep.NoteFired(fired);
      NotifyAll();
      ep.Settle(fired);
    }

    /** One expired thread. */
    method ExpireThread(t: Tid)
      requires Valid() && t in table.records
      modifies `runq, table`records, table`sleepers, table.sleepQ, table.objects
      ensures Valid() && View() == Sched.Expire(old(View()), t)
    {
      hide Table.Valid;
      ghost var s := View();
      SameRecord(s, t);
      if table.Get(t).state == CondWait {
        table.SetTimedOut(t, true);
      }
      ghost var noted := View();
      MakeRunnable(t, ByTimeout);
      WakeAgain(s, noted, t, ByTimeout);
    }

    /** One round of the loop. */
    method ExpireFirst(t: Tid, now: int, ghost s0: State, ghost woken: seq<Tid>) returns (first: Option<Tid>, due: int)
      requires Valid() && Marked(View()) && View() == ExpireAll(s0, woken) && Due(s0.sleep, now, woken, View().sleep)
      requires t in View().sleep && View().sleep[t] <= now && IsFirst(View(), Some(t), View().sleep[t])
      modifies `runq, table`records, table`sleepers, table.sleepQ, table.objects
      ensures Valid() && Marked(View()) && View() == ExpireAll(s0, woken + [t]) && Due(s0.sleep, now, woken + [t], View().sleep)
      ensures |View().sleep| < |old(View().sleep)| && IsFirst(View(), first, due)
    {
      hide Table.Valid, Due, Marked, ExpireAll, Sched.Expire;
      ExpireNext(s0, woken, View(), t, now);
      ExpireThread(t);
      first, due := table.First();
    }

    /** `_st_vp_check_clock`: looks at the root of the timeout heap until that is
        due later, and wakes exactly the expired threads, earliest first. */
    method CheckClock(now: int) returns (ghost woken: seq<Tid>)
      requires Valid() && Marked(View())
      modifies `clock, `runq, table`records, table`sleepers, table.sleepQ, table.objects
      ensures Valid()
      ensures ExpiryOrder(old(table.sleepers), now, woken)
      ensures View() == ExpireAll(old(View()).(clock := now), woken)
      ensures forall t :: t in table.sleepers ==> table.sleepers[t] > now
    {
      hide Table.Valid, Due, ExpiryOrder, Marked, ExpireAll;
      MarkedAt(View(), now);
      clock := now;
      ghost var s0 := View();
      woken := [];
      DueStart(s0, now);
      var first, due := table.First();
      while first.Some? && due <= now
        invariant Valid() && Marked(View()) && View() == ExpireAll(s0, woken)
        invariant Due(s0.sleep, now, woken, View().sleep)
        invariant IsFirst(View(), first, due)
        decreases |View().sleep|
      {
        ghost var t := first.value;
        first, due := ExpireFirst(first.value, now, s0, woken);
        woken := woken + [t];
      }
      DueDone(s0.sleep, now, woken, View().sleep);
    }

    /** The dispatch, which notices a fork first. */
    method DispatchRound(forked: bool, fired: seq<E.Fired>)
      requires Good() && cur == Some(idle)
      requires E.KernelReports((if forked then Sched.Reopen(View()) else View()).ep, fired)
      modifies `pq, `ioq, `runq, ep, table`records, table`sleepers, table.sleepQ, table.objects
      ensures Valid() && Marked(View())
      ensures View() == Sched.Dispatch(if forked then Sched.Reopen(old(View())) else old(View()), fired)
    {
      hide Table.Valid, Inv;
      ghost var s0 := if forked then Sched.Reopen(View()) else View();
      IdleReady(View(), s0, fired);
      if forked {
        Reopen();
      }
      assert View() == s0;
      Dispatch(fired);
    }

    /** One round of the idle thread: the dispatch, the clock, and away.  It is
        a step of the machine that can be taken. */
    method IdleRound(forked: bool, fired: seq<E.Fired>, now: int) returns (ghost woken: seq<Tid>)
      requires Good() && cur == Some(idle) && active > 0
      requires E.KernelReports((if forked then Sched.Reopen(View()) else View()).ep, fired)
      modifies this, ep, table`records, table`sleepers, table.sleepQ, table.objects
      ensures Good() && Enabled(old(View()), EIdle(forked, fired, now, woken))
      ensures Next(View(), Switched) == Step(old(View()), EIdle(forked, fired, now, woken))
    {
      hide Table.Valid, Inv;
      ghost var s := View();
      DispatchRound(forked, fired);
      ghost var s1 := View();
      woken := CheckClock(now);
      assert Enabled(s, EIdle(forked, fired, now, woken));
      CallKeeps(s, EIdle(forked, fired, now, woken));
      GiveWay();
    }

    /** The idle thread lets the others run. */
    method GiveWay()
      requires Valid()
      modifies `runq, `cur, table`records, table`sleepers, table.objects
      ensures Valid()
      ensures View() == Sched.Schedule(Put(old(View()).(cur := None), idle, Th(old(View()), idle).(state := Runnable)))
    {
      hide Table.Valid;
      cur := None;
      table.SetState(idle, Runnable);
      Schedule();
    }
  }

  // ------------------------------------------------------------- auxiliary

  /** How far a clock check has come. */
  ghost predicate Due(due: map<Tid, int>, now: int, woken: seq<Tid>, rest: map<Tid, int>) {
    && (forall t :: t in rest ==> t in due && rest[t] == due[t] && t !in woken)
    && (forall t :: t in due ==> t in woken || t in rest)
    && (forall t :: t in woken ==> t in due && due[t] <= now)
    && (forall i, j :: 0 <= i < j < |woken| ==> woken[i] != woken[j])
    && (forall i, j :: 0 <= i < j < |woken| && woken[i] in due && woken[j] in due ==> due[woken[i]] <= due[woken[j]])
    && (forall u :: u in rest && woken != [] && woken[|woken| - 1] in due ==> due[woken[|woken| - 1]] <= rest[u])
  }

  lemma DueStep(due: map<Tid, int>, now: int, woken: seq<Tid>, rest: map<Tid, int>, t: Tid)
    requires Due(due, now, woken, rest) && t in rest && rest[t] <= now && forall u :: u in rest ==> rest[t] <= rest[u]
    ensures Due(due, now, woken + [t], rest - {t})
  {
  }

  lemma DueStart(s: State, now: int)
    ensures Due(s.sleep, now, [], s.sleep) && ExpireAll(s, []) == s
  {
  }

  /** `first` is due at `due`, before all others on the sleep queue. */
  ghost predicate IsFirst(s: State, first: Option<Tid>, due: int) {
    if first.None? then s.sleep == map[]
    else
      && first.value in s.thr && first.value in s.sleep && s.sleep[first.value] == due
      && (forall t :: t in s.sleep ==> due <= s.sleep[t])
  }

  /** One round of the clock check. */
  lemma ExpireNext(s0: State, woken: seq<Tid>, s1: State, t: Tid, now: int)
    requires Marked(s1) && Due(s0.sleep, now, woken, s1.sleep) && s1 == ExpireAll(s0, woken)
    requires t in s1.sleep && s1.sleep[t] <= now && IsFirst(s1, Some(t), s1.sleep[t])
    ensures var s2 := Sched.Expire(s1, t);
      Marked(s2) && Due(s0.sleep, now, woken + [t], s2.sleep) && s2 == ExpireAll(s0, woken + [t]) && |s2.sleep| < |s1.sleep|
  {
    ExpireMarked(s1, t);
    ExpireLast(s0, woken, t);
    DueStep(s0.sleep, now, woken, s1.sleep, t);
  }

  lemma DueDone(due: map<Tid, int>, now: int, woken: seq<Tid>, rest: map<Tid, int>)
    requires Due(due, now, woken, rest) && forall t :: t in rest ==> rest[t] > now
    ensures ExpiryOrder(due, now, woken)
  {
  }

  /** Everybody on the sleep queue has the flag that says so. */
  ghost predicate Marked(s: State) {
    forall t :: t in s.sleep ==> t in s.thr && s.thr[t].onSleepq
  }

  lemma MarkedAt(s: State, now: int)
    requires Marked(s)
    ensures Marked(s.(clock := now))
  {
  }

  lemma ExpireMarked(s: State, t: Tid)
    requires Marked(s) && t in s.sleep
    ensures Marked(Sched.Expire(s, t)) && Sched.Expire(s, t).sleep == s.sleep - {t} && |s.sleep - {t}| < |s.sleep|
  {
    Fewer(s.sleep, t);
  }

  lemma Fewer(m: map<Tid, int>, t: Tid)
    requires t in m
    ensures |m - {t}| < |m|
  {
    assert m.Keys == (m - {t}).Keys + {t};
  }

  lemma {:induction false} ExpireLast(s: State, woken: seq<Tid>, t: Tid)
    ensures ExpireAll(s, woken + [t]) == Sched.Expire(ExpireAll(s, woken), t)
    decreases |woken|
  {
    if woken == [] {
      assert ExpireAll(Sched.Expire(s, t), []) == Sched.Expire(s, t);
      assert [] + [t] == [t] && [t][1..] == [];
    } else {
      assert (woken + [t])[1..] == woken[1..] + [t];
      ExpireLast(Sched.Expire(s, woken[0]), woken[1..], t);
    }
  }

  /** In order, the idle thread finds all it needs for its round. */
  lemma IdleReady(s: State, s0: State, fired: seq<E.Fired>)
    requires Inv(s) && s.cur == Some(s.idle) && (s0 == s || s0 == Sched.Reopen(s)) && E.KernelReports(s0.ep, fired)
    ensures |s.ep.fd| > 0 && (forall t :: t in s.ioq ==> t in s.pq) && NoDup(s0.ioq)
    ensures AllKnown(s0, s0.ioq) && FdsKnown(s0.ep, fired) && Marked(Sched.Dispatch(s0, fired))
  {
    ForkChangesNothing(s);
    ElsewherePlaces(s, s0);
    DispatchIo(s0, fired);
    DispatchPlaces(s0, fired);
    var s1 := Sched.Dispatch(s0, fired);
    forall t | t in s1.sleep
      ensures t in s1.thr && s1.thr[t].onSleepq
    {
      assert InPlace(s1, t);
    }
    forall t | t in s.ioq
      ensures t in s.pq && E.InTable(s0.pq[t].pds, |s0.ep.fd|)
    {
      assert InPlace(s, t);
      LedgerKnows(s0.ioq, s0.pq, t, |s0.ep.fd|);
    }
  }

  method CountReady(pds: seq<PollFd>) returns (n: nat)
    ensures n == ReadyCount(pds)
  {
    n := 0;
    var i := 0;
    while i < |pds|
      invariant i <= |pds| && n + ReadyCount(pds[i..]) == ReadyCount(pds)
    {
      HeadTail(pds, i);
      if pds[i].revents != NO_BITS {
        n := n + 1;
      }
      i := i + 1;
    }
  }

  /** Changing the record of a thread twice is changing it once. */
  lemma PutTwice(m: map<Tid, Thread>, t: Tid, a: Thread, b: Thread)
    ensures m[t := a][t := b] == m[t := b]
  {
  }

  lemma SameRecord(s: State, t: Tid)
    requires t in s.thr
    ensures Put(s, t, s.thr[t]) == s
  {
    assert s.thr[t := s.thr[t]] == s.thr;
  }

  /** Off the sleep queue first, and then runnable. */
  lemma WakeTwice(s: State, s1: State, t: Tid, cause: Cause)
    requires t in s.thr
    requires s1 == Put(s.(sleep := if s.thr[t].onSleepq then s.sleep - {t} else s.sleep), t, s.thr[t].(onSleepq := false))
    ensures Put(s1.(runq := s1.runq + [t]), t, Th(s1, t).(state := Runnable, call := Ended(Th(s1, t).call, cause))) == WakeUp(s, t, cause)
  {
    var th := s.thr[t].(onSleepq := false);
    PutTwice(s.thr, t, th, th.(state := Runnable, call := Ended(th.call, cause)));
  }

  /** On the sleep queue first, and then blocked. */
  lemma BlockTwice(s: State, s1: State, st: ThreadState, call: Call, timeout: Option<nat>)
    requires s.cur.Some? && Me(s) in s.thr
    requires s1 == Put(s.(sleep := if timeout.Some? then s.sleep[Me(s) := s.clock + timeout.value] else s.sleep), Me(s), s.thr[Me(s)].(onSleepq := timeout.Some?))
    ensures Put(s1.(cur := None), Me(s), Th(s1, Me(s)).(state := st, call := call)) == Sched.Block(s, st, call, timeout)
  {
    var th := s.thr[Me(s)].(onSleepq := timeout.Some?);
    PutTwice(s.thr, Me(s), th, th.(state := st, call := call));
  }

  lemma PutThrice(m: map<Tid, Thread>, t: Tid, a: Thread, b: Thread, c: Thread)
    ensures m[t := a][t := b][t := c] == m[t := c]
  {
    PutTwice(m, t, a, b);
    PutTwice(m, t, b, c);
  }

  lemma WakeAgain(s: State, s1: State, t: Tid, cause: Cause)
    requires t in s1.thr && s1 == Put(s, t, s1.thr[t])
    ensures WakeUp(s1, t, cause) == WakeAs(s, t, s1.thr[t], cause)
  {
    var th := s1.thr[t];
    PutTwice(s.thr, t, th, th.(state := Runnable, onSleepq := false, call := Ended(th.call, cause)));
  }

  lemma FinishAgain(s: State, s1: State, me: Tid)
    requires s.cur == Some(me) && me in s1.thr && s1 == Put(s, me, s1.thr[me])
    ensures Sched.Finish(s1, s1.thr[me]) == Sched.Finish(s, s1.thr[me])
  {
    PutTwice(s.thr, me, s1.thr[me], s1.thr[me].(call := Gone));
  }

  /** The exit value and the count were brought up to date first. */
  lemma ExitNoted(s: State, s1: State, retval: int)
    requires s.cur.Some? && Me(s) in s.thr && s1 == Put(s.(active := s.active - 1), Me(s), s.thr[Me(s)].(retval := retval))
    ensures Exit(s, retval).s ==
      if s1.thr[Me(s)].term then Sched.Schedule(SignalFrom(Bury(s1, Th(s1, Me(s))), Wq(s1, TermQ(Me(s))), false))
      else Sched.Finish(s1, Th(s1, Me(s)))
  {
    ExitIs(s, retval);
    var th := s.thr[Me(s)].(retval := retval);
    PutTwice(s.thr, Me(s), th, th.(call := Gone));
    PutTwice(s.thr, Me(s), th, th.(state := Zombie, call := InExit));
  }

  /** A step leaves everything in order, and the thread that takes it is known,
      and awake. */
  lemma CallKeeps(s: State, e: Event)
    requires Inv(s) && Enabled(s, e)
    ensures Inv(Step(s, e).s)
    ensures s.cur.Some? && Me(s) in s.thr && !s.thr[Me(s)].onSleepq && |s.ep.fd| > 0
    ensures e.ECreate? ==> e.t !in s.thr
    ensures s.thr[Me(s)].timedOut ==> s.thr[Me(s)].call.InCond?
    ensures e.EInterrupt? || e.EJoin? ==> e.t in s.thr
  {
    StepKeeps(s, e);
    assert InPlace(s, Me(s));
  }

  lemma JoinKnows(s: State)
    requires Inv(s) && s.cur.Some? && Joins(s, Me(s))
    ensures Th(s, Me(s)).call.q.t in s.thr && Th(s, Me(s)).call.q.t != Me(s)
  {
  }

  lemma RequestKnown(s: State)
    requires Inv(s) && s.cur.Some? && Th(s, Me(s)).call.InPoll?
    ensures Me(s) in s.pq && (s.pq[Me(s)].onIoq ==> E.InTable(s.pq[Me(s)].pds, |s.ep.fd|))
  {
    assert InPlace(s, Me(s));
    if s.pq[Me(s)].onIoq {
      LedgerKnows(s.ioq, s.pq, Me(s), |s.ep.fd|);
    }
  }

  // What the steps of the machine are for the methods with most to do.

  lemma PollIsStep(s: State, pds: seq<PollFd>, timeout: Option<nat>, fails: set<nat>)
    ensures Step(s, EPoll(pds, timeout, fails)) == Sched.Poll(s, pds, timeout, fails)
  {
  }

  lemma PollEndIsStep(s: State)
    requires Th(s, Me(s)).call.InPoll?
    ensures Step(s, EResume) == Sched.PollEnd(s)
  {
  }

  lemma ExitIsStep(s: State, retval: int)
    ensures Step(s, EExit(retval)) == Next(Exit(s, retval).s, Switched)
  {
  }

  lemma LockIsStep(s: State, m: nat)
    ensures Step(s, ELock(m)) == Lock(s, m)
  {
  }

  lemma CreateIsStep(s: State, t: Tid, joinable: bool, size: nat)
    ensures Step(s, ECreate(t, joinable, size)) == Create(s, t, joinable, size)
  {
  }
}
