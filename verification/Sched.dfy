/** The State Threads scheduler as a state machine (sched.c, sync.c, stk.c).

    A blocking call is two steps: up to the context switch, and from there to
    the return.  Each step of the running thread, or of the idle thread, is a
    function from state to state; what the kernel decides (readiness, refusals,
    the clock, a fork) is an argument of the step. */
module Sched {
  import opened ThreadTypes
  import opened Wrappers
  import opened PollTypes
  import opened Expiry
  import E = Epoll

  type Tid = nat

  /** The wait queues: of condition variables, of the termination condition
      that a joinable thread carries, and of mutexes. */
  datatype Queue = CondQ(c: nat) | TermQ(t: Tid) | MutexQ(m: nat)

  /** What ended a wait on a condition variable or a poll: a signal or, for a
      poll, readiness; the clock; or an interrupt.  A history variable: the
      program does not store it. */
  datatype Cause = NotYet | BySignal | ByTimeout | ByInterrupt

  /** The blocking call a thread is inside: the code it resumes in. */
  datatype Call =
    | NoCall
    | InPoll(cause: Cause)
    | InCond(q: Queue, cause: Cause)
    | InLock(m: nat)
    | InSleep
    | InExit
    | Gone

  datatype Stack = Stack(id: nat, size: nat)

  /** `term` says whether the thread still has its termination condition. */
  datatype Thread = Thread(
    state: ThreadState,
    interrupted: bool,
    timedOut: bool,
    onSleepq: bool,
    call: Call,
    term: bool,
    retval: int,
    stack: Option<Stack>)

  datatype Pollq = Pollq(pds: seq<PollFd>, onIoq: bool)

  /** `cur` is empty between the moment a thread has blocked and the moment
      the scheduler has picked the next one. */
  datatype State = State(
    thr: map<Tid, Thread>,
    cur: Option<Tid>,
    idle: Tid,
    runq: seq<Tid>,
    ioq: seq<Tid>,
    zombieq: seq<Tid>,
    sleep: map<Tid, int>,
    clock: int,
    waitq: map<Queue, seq<Tid>>,
    owner: map<nat, Tid>,
    pq: map<Tid, Pollq>,
    ep: E.Ep,
    active: int,
    freeStacks: seq<Stack>,
    nextStack: nat)

  /** EKERNEL stands for whatever error the kernel has reported. */
  datatype Errno = EINTR | ETIME | EINVAL | EDEADLK | EPERM | EBUSY | EKERNEL

  datatype Outcome = Switched | Ok(val: int) | Failed(err: Errno)

  datatype Next = Next(s: State, out: Outcome)

  // ------------------------------------------------------------- accessors

  const NOBODY := Thread(Runnable, false, false, false, NoCall, false, 0, None)

  function Th(s: State, t: Tid): Thread {
    if t in s.thr then s.thr[t] else NOBODY
  }

  function Put(s: State, t: Tid, th: Thread): State {
    s.(thr := s.thr[t := th])
  }

  function Wq(s: State, q: Queue): seq<Tid> {
    if q in s.waitq then s.waitq[q] else []
  }

  /** ST_REMOVE_LINK of an element of a list without duplicates. */
  function Without(q: seq<Tid>, t: Tid): seq<Tid> {
    if q == [] then [] else if q[0] == t then Without(q[1..], t) else [q[0]] + Without(q[1..], t)
  }

  function Owner(s: State, m: nat): Option<Tid> {
    if m in s.owner then Some(s.owner[m]) else None
  }

  function Me(s: State): Tid {
    if s.cur.Some? then s.cur.value else s.idle
  }

  predicate Waiting(st: ThreadState) {
    st == IoWait || st == LockWait || st == CondWait || st == Sleeping || st == Suspended
  }

  // ------------------------------------------------------ common fragments

  /** `_st_vp_schedule`: the head of the run queue or, if there is none, the
      idle thread. */
  function Schedule(s: State): State {
    var t := if s.runq != [] then s.runq[0] else s.idle;
    var s' := if s.runq != [] then s.(runq := s.runq[1..], cur := Some(t)) else s.(cur := Some(t));
    Put(s', t, Th(s', t).(state := Running))
  }

  /** The first cause that ends a wait is the one that is remembered. */
  function Ended(call: Call, cause: Cause): Call {
    match call
    case InCond(q, NotYet) => InCond(q, cause)
    case InPoll(NotYet) => InPoll(cause)
    case _ => call
  }

  /** Takes a waiting thread off the sleep queue, if it is there, and makes it
      runnable.  `th` is the thread with its flags brought up to date; for a
      condition wait, `cause` is what ended it. */
  function WakeAs(s: State, t: Tid, th: Thread, cause: Cause): State {
    Put(s.(sleep := if th.onSleepq then s.sleep - {t} else s.sleep, runq := s.runq + [t]),
        t, th.(state := Runnable, onSleepq := false, call := Ended(th.call, cause)))
  }

  function WakeUp(s: State, t: Tid, cause: Cause): State {
    WakeAs(s, t, Th(s, t), cause)
  }

  /** The current thread goes to sleep in a blocking call. */
  function Block(s: State, st: ThreadState, call: Call, timeout: Option<nat>): State {
    var me := Me(s);
    Put(s.(sleep := if timeout.Some? then s.sleep[me := s.clock + timeout.value] else s.sleep, cur := None),
        me, Th(s, me).(state := st, call := call, onSleepq := timeout.Some?))
  }

  /** Every blocking call starts by reporting an interrupt that came before. */
  function TakeInterrupt(s: State): Next {
    Next(Put(s, Me(s), Th(s, Me(s)).(interrupted := false)), Failed(EINTR))
  }

  // ---------------------------------------------------- thread life (sched.c)

  datatype Picked = Picked(stack: Stack, rest: seq<Stack>, nextStack: nat)

  /** `_st_stack_new`: the first free stack that is big enough, or a new one. */
  function PickStack(free: seq<Stack>, size: nat, nextStack: nat): Picked {
    if free == [] then Picked(Stack(nextStack, size), [], nextStack + 1)
    else if free[0].size >= size then Picked(free[0], free[1..], nextStack)
    else
      var p := PickStack(free[1..], size, nextStack);
      p.(rest := [free[0]] + p.rest)
  }

  /** `_st_stack_free`: links the stack in before the tail of the free list. */
  function FreeStack(free: seq<Stack>, stack: Option<Stack>): seq<Stack> {
    if stack.None? then free
    else if free == [] then [stack.value]
    else free[..|free| - 1] + [stack.value] + [free[|free| - 1]]
  }

  function Create(s: State, t: Tid, joinable: bool, size: nat): Next {
    var p := PickStack(s.freeStacks, size, s.nextStack);
    var th := Thread(Runnable, false, false, false, NoCall, joinable, 0, Some(p.stack));
    Next(Put(s.(freeStacks := p.rest, nextStack := p.nextStack, active := s.active + 1, runq := s.runq + [t]), t, th), Ok(t))
  }

  /** The last part of `st_thread_exit`: gives back the stack and switches
      away for ever.  The state field is left as it is. */
  function Finish(s: State, th: Thread): State {
    Schedule(Put(s.(freeStacks := FreeStack(s.freeStacks, th.stack), cur := None), Me(s), th.(call := Gone)))
  }

  /** A joinable thread that has exited is kept as a zombie. */
  function Bury(s: State, th: Thread): State {
    Put(s.(zombieq := s.zombieq + [Me(s)], cur := None), Me(s), th.(state := Zombie, call := InExit))
  }

  function Exit(s: State, retval: int): Next {
    var me := Me(s);
    var th := Th(s, me).(retval := retval);
    var s1 := s.(active := s.active - 1);
    if !th.term then Next(Finish(s1, th), Switched)
    else Next(Schedule(SignalFrom(Bury(s1, th), Wq(s, TermQ(me)), false)), Switched)
  }

  /** The exit goes on after the thread has been joined. */
  function ExitEnd(s: State): Next {
    Next(Finish(s, Th(s, Me(s)).(term := false)), Switched)
  }

  /** The part of `st_thread_join` after the wait: hands out the exit value
      and lets the joined thread finish. */
  function Release(s: State, t: Tid): Next {
    var th := Th(s, t);
    Next(Put(s.(zombieq := Without(s.zombieq, t), runq := s.runq + [t]), t, th.(state := Runnable)), Ok(th.retval))
  }

  function Join(s: State, t: Tid): Next {
    if !Th(s, t).term then Next(s, Failed(EINVAL))
    else if Me(s) == t then Next(s, Failed(EDEADLK))
    else if Wq(s, TermQ(t)) != [] then Next(s, Failed(EINVAL))
    else if Th(s, t).state != Zombie then CondStart(s, TermQ(t), None)
    else Release(s, t)
  }

  function JoinEnd(s: State, t: Tid): Next {
    var n := CondEnd(s);
    if n.out.Failed? then n
    else if Th(n.s, t).state != Zombie then CondStart(n.s, TermQ(t), None)
    else Release(n.s, t)
  }

  function Interrupt(s: State, t: Tid): Next {
    var th := Th(s, t);
    if th.state == Zombie then Next(s, Ok(0))
    else
      var th' := th.(interrupted := true);
      if th.state == Running || th.state == Runnable then Next(Put(s, t, th'), Ok(0))
      else Next(WakeAs(s, t, th', ByInterrupt), Ok(0))
  }

  // ------------------------------------------------------------ sleep (sync.c)

  function Sleep(s: State, timeout: Option<nat>): Next {
    if Th(s, Me(s)).interrupted then TakeInterrupt(s)
    else Next(Schedule(Block(s, if timeout.Some? then Sleeping else Suspended, InSleep, timeout)), Switched)
  }

  function SleepEnd(s: State): Next {
    var me := Me(s);
    Next(Put(s, me, Th(s, me).(call := NoCall, interrupted := false)), if Th(s, me).interrupted then Failed(EINTR) else Ok(0))
  }

  // ------------------------------------------------- condition variables (sync.c)

  function CondStart(s: State, q: Queue, timeout: Option<nat>): Next {
    if Th(s, Me(s)).interrupted then TakeInterrupt(s)
    else
      var s1 := s.(waitq := s.waitq[q := Wq(s, q) + [Me(s)]]);
      Next(Schedule(Block(s1, CondWait, InCond(q, NotYet), timeout)), Switched)
  }

  function CondEnd(s: State): Next {
    var me := Me(s);
    var th := Th(s, me);
    var q := if th.call.InCond? then th.call.q else CondQ(0);
    var s1 := s.(waitq := s.waitq[q := Without(Wq(s, q), me)]);
    var s2 := Put(s1, me, th.(call := NoCall, timedOut := false, interrupted := false));
    Next(s2, if th.interrupted then Failed(EINTR) else if th.timedOut then Failed(ETIME) else Ok(0))
  }

  /** The loop of `_st_cond_signal` over the rest `q` of the wait queue. */
  function SignalFrom(s: State, q: seq<Tid>, broadcast: bool): State
    decreases |q|
  {
    if q == [] then s
    else if Th(s, q[0]).state == CondWait then
      var s1 := WakeUp(s, q[0], BySignal);
      if broadcast then SignalFrom(s1, q[1..], broadcast) else s1
    else SignalFrom(s, q[1..], broadcast)
  }

  function Signal(s: State, c: nat, broadcast: bool): Next {
    Next(SignalFrom(s, Wq(s, CondQ(c)), broadcast), Ok(0))
  }

  // --------------------------------------------------------- mutexes (sync.c)

  function Lock(s: State, m: nat): Next {
    var me := Me(s);
    if Th(s, me).interrupted then TakeInterrupt(s)
    else if Owner(s, m).None? then Next(s.(owner := s.owner[m := me]), Ok(0))
    else if Owner(s, m) == Some(me) then Next(s, Failed(EDEADLK))
    else
      var s1 := s.(waitq := s.waitq[MutexQ(m) := Wq(s, MutexQ(m)) + [me]]);
      Next(Schedule(Block(s1, LockWait, InLock(m), None)), Switched)
  }

  function LockEnd(s: State): Next {
    var me := Me(s);
    var th := Th(s, me);
    var m := if th.call.InLock? then th.call.m else 0;
    var lost := th.interrupted && Owner(s, m) != Some(me);
    Next(Put(s.(waitq := s.waitq[MutexQ(m) := Without(Wq(s, MutexQ(m)), me)]), me,
             th.(call := NoCall, interrupted := th.interrupted && !lost)),
         if lost then Failed(EINTR) else Ok(0))
  }

  /** The loop of `st_mutex_unlock` over the rest `q` of the wait queue. */
  function HandOver(s: State, m: nat, q: seq<Tid>): State {
    if q == [] then s.(owner := s.owner - {m})
    else if Th(s, q[0]).state == LockWait then
      Put(s.(owner := s.owner[m := q[0]], runq := s.runq + [q[0]]), q[0], Th(s, q[0]).(state := Runnable))
    else HandOver(s, m, q[1..])
  }

  function Unlock(s: State, m: nat): Next {
    if Owner(s, m) != Some(Me(s)) then Next(s, Failed(EPERM))
    else Next(HandOver(s, m, Wq(s, MutexQ(m))), Ok(0))
  }

  function TryLock(s: State, m: nat): Next {
    if Owner(s, m).Some? then Next(s, Failed(EBUSY))
    else Next(s.(owner := s.owner[m := Me(s)]), Ok(0))
  }

  // ---------------------------------------------------------- poll (sched.c)

  function EpDel(ep: E.Ep, pds: seq<PollFd>): E.Ep {
    if E.InTable(pds, |ep.fd|) then E.Del(ep, pds) else ep
  }

  function EpAdd(ep: E.Ep, pds: seq<PollFd>, fails: set<nat>): E.Added {
    if |ep.fd| > 0 then E.Add(ep, pds, fails) else E.Added(ep, false)
  }

  /** The error when a request cannot be made. */
  function Refusal(pds: seq<PollFd>): Errno {
    if AllAcceptable(pds) then EKERNEL else EINVAL
  }

  function Poll(s: State, pds: seq<PollFd>, timeout: Option<nat>, fails: set<nat>): Next {
    var me := Me(s);
    if Th(s, me).interrupted then TakeInterrupt(s)
    else
      var a := EpAdd(s.ep, pds, fails);
      if !a.ok then Next(s.(ep := a.ep), Failed(Refusal(pds)))
      else
        var s1 := s.(ep := a.ep, pq := s.pq[me := Pollq(pds, true)], ioq := s.ioq + [me]);
        Next(Schedule(Block(s1, IoWait, InPoll(NotYet), timeout)), Switched)
  }

  function ReadyCount(pds: seq<PollFd>): nat {
    if pds == [] then 0 else ReadyCount(pds[1..]) + if pds[0].revents != NO_BITS then 1 else 0
  }

  function PollEnd(s: State): Next {
    var me := Me(s);
    var th := Th(s, me);
    var pq := if me in s.pq then s.pq[me] else Pollq([], false);
    var s1 := if pq.onIoq then s.(ioq := Without(s.ioq, me), ep := EpDel(s.ep, pq.pds)) else s;
    Next(Put(s1.(pq := s.pq - {me}), me, th.(call := NoCall, interrupted := false)),
         if th.interrupted then Failed(EINTR) else Ok(if pq.onIoq then 0 else ReadyCount(pq.pds)))
  }

  // ------------------------------------------- the idle thread (sched.c, event.c)

  /** After a fork: a new, empty interest set, into which the requests on the
      I/O queue are put again. */
  function Rebuild(ep: E.Ep, q: seq<Tid>, pq: map<Tid, Pollq>): E.Ep
    decreases |q|
  {
    if q == [] then ep
    else Rebuild(if q[0] in pq then EpAdd(ep, pq[q[0]].pds, {}).ep else ep, q[1..], pq)
  }

  function Reset(ep: E.Ep): E.Ep {
    E.Ep(seq(|ep.fd|, _ => E.UNUSED), map[], 0)
  }

  function Reopen(s: State): State {
    s.(ep := Rebuild(Reset(s.ep), s.ioq, s.pq))
  }

  /** The loop of the epoll dispatch over the I/O queue.  `q` is the part not
      yet visited; unlinking an entry does not disturb the entries after it. */
  function NotifyFrom(s: State, q: seq<Tid>): State
    decreases |q|
  {
    if q == [] then s
    else NotifyFrom(Notify1(s, q[0]), q[1..])
  }

  function Notify1(s: State, t: Tid): State {
    if t !in s.pq || !E.InTable(s.pq[t].pds, |s.ep.fd|) then s
    else
      var pds := E.Told(s.ep, s.pq[t].pds);
      if E.Notified(pds) then Hit(s, t, pds) else s.(pq := s.pq[t := s.pq[t].(pds := pds)])
  }

  /** A request of which something fired leaves the I/O queue, and its thread
      may go on. */
  function Hit(s: State, t: Tid, pds: seq<PollFd>): State {
    WakeUp(s.(pq := s.pq[t := Pollq(pds, false)], ioq := Without(s.ioq, t), ep := EpDel(s.ep, pds)), t, BySignal)
  }

  predicate FdsKnown(ep: E.Ep, fired: seq<E.Fired>) {
    forall i :: 0 <= i < |fired| ==> 0 <= fired[i].fd < |ep.fd|
  }

  function Dispatch(s: State, fired: seq<E.Fired>): State {
    if fired == [] || !FdsKnown(s.ep, fired) then s
    else
      var s1 := s.(ep := E.Fire(s.ep, fired));
      var s2 := NotifyFrom(s1, s1.ioq);
      if FdsKnown(s2.ep, fired) then s2.(ep := E.Settle(s2.ep, fired)) else s2
  }

  /** One round of the loop of `_st_vp_check_clock`. */
  function Expire(s: State, t: Tid): State {
    var th := Th(s, t);
    WakeAs(s, t, if th.state == CondWait then th.(timedOut := true) else th, ByTimeout)
  }

  function ExpireAll(s: State, woken: seq<Tid>): State
    decreases |woken|
  {
    if woken == [] then s else ExpireAll(Expire(s, woken[0]), woken[1..])
  }

  /** One round of `_st_idle_thread_start`. */
  function Idle(s: State, forked: bool, fired: seq<E.Fired>, now: int, woken: seq<Tid>): Next {
    var s1 := Dispatch(if forked then Reopen(s) else s, fired);
    var s2 := ExpireAll(s1.(clock := now), woken);
    Next(Schedule(Put(s2.(cur := None), s2.idle, Th(s2, s2.idle).(state := Runnable))), Switched)
  }

  // ----------------------------------------------------------------- steps

  /** What the running thread does next, or what happens to the idle thread. */
  datatype Event =
    | ECreate(t: Tid, joinable: bool, size: nat)
    | EExit(retval: int)
    | EJoin(t: Tid)
    | EInterrupt(t: Tid)
    | ESleep(timeout: Option<nat>)
    | EWait(c: nat, timeout: Option<nat>)
    | ESignal(c: nat, broadcast: bool)
    | ELock(m: nat)
    | EUnlock(m: nat)
    | ETryLock(m: nat)
    | EPoll(pds: seq<PollFd>, timeout: Option<nat>, fails: set<nat>)
    | EResume
    | EIdle(forked: bool, fired: seq<E.Fired>, now: int, woken: seq<Tid>)

  /** A thread that was switched to inside a call goes on with that call. */
  function Resume(s: State): Next {
    match Th(s, Me(s)).call
    case InPoll(_) => PollEnd(s)
    case InCond(q, _) => if q.TermQ? then JoinEnd(s, q.t) else CondEnd(s)
    case InLock(_) => LockEnd(s)
    case InSleep => SleepEnd(s)
    case InExit => ExitEnd(s)
    case NoCall => Next(s, Ok(0))
    case Gone => Next(s, Ok(0))
  }

  function Step(s: State, e: Event): Next {
    match e
    case ECreate(t, joinable, size) => Create(s, t, joinable, size)
    case EExit(retval) => Exit(s, retval)
    case EJoin(t) => Join(s, t)
    case EInterrupt(t) => Interrupt(s, t)
    case ESleep(timeout) => Sleep(s, timeout)
    case EWait(c, timeout) => CondStart(s, CondQ(c), timeout)
    case ESignal(c, broadcast) => Signal(s, c, broadcast)
    case ELock(m) => Lock(s, m)
    case EUnlock(m) => Unlock(s, m)
    case ETryLock(m) => TryLock(s, m)
    case EPoll(pds, timeout, fails) => Poll(s, pds, timeout, fails)
    case EResume => Resume(s)
    case EIdle(forked, fired, now, woken) => Idle(s, forked, fired, now, woken)
  }

  /** Thread handles that may still be used: the thread exists and has not
      given its stack back. */
  predicate Live(s: State, t: Tid) {
    t in s.thr && s.thr[t].call != Gone
  }

  /** Whether the step can be taken.  New calls are made by a thread that is
      not inside a call; the kernel only reports descriptors that are
      registered, and the clock check takes the expired threads in order. */
  ghost predicate Enabled(s: State, e: Event) {
    && s.cur.Some?
    && match e
       case EIdle(forked, fired, now, woken) =>
         var s0 := if forked then Reopen(s) else s;
         && Me(s) == s.idle && s.active > 0
         && E.KernelReports(s0.ep, fired)
         && ExpiryOrder(Dispatch(s0, fired).sleep, now, woken)
       case EResume => Me(s) != s.idle && Th(s, Me(s)).call != NoCall
       case _ =>
         && Me(s) != s.idle && Th(s, Me(s)).call == NoCall
         && (e.ECreate? ==> e.t !in s.thr)
         && (e.EJoin? || e.EInterrupt? ==> Live(s, e.t))
  }

  /** No thread is joined that has been joined before. */
  predicate FirstJoin(s: State, e: Event) {
    e.EJoin? ==> !Joined(s, e.t)
  }

  predicate Joined(s: State, t: Tid) {
    Th(s, t).call == Gone || (Th(s, t).call == InExit && Th(s, t).state != Zombie)
  }

  /** The thread has called exit. */
  predicate Exited(th: Thread) {
    th.call == InExit || th.call == Gone
  }

  // -------------------------------------------------------------- start-up

  /** `st_init`: the idle thread and the primordial thread, which has no stack
      of its own and cannot be joined. */
  function Init(idle: Tid, primordial: Tid, clock: int, tableSize: nat): State {
    var idleThread := Thread(Runnable, false, false, false, NoCall, false, 0, Some(Stack(0, 65536)));
    var first := Thread(Running, false, false, false, NoCall, false, 0, None);
    State(map[idle := idleThread, primordial := first], Some(primordial), idle, [], [], [], map[], clock, map[], map[],
          map[], E.Ep(seq(tableSize, _ => E.UNUSED), map[], 0), 1, [], 1)
  }

  /** The state after a run of steps. */
  function Run(s: State, es: seq<Event>): State
    decreases |es|
  {
    if es == [] then s else Run(Step(s, es[0]).s, es[1..])
  }

  /** Every step of the run can be taken. */
  ghost predicate Possible(s: State, es: seq<Event>)
    decreases |es|
  {
    es == [] || (Enabled(s, es[0]) && Possible(Step(s, es[0]).s, es[1..]))
  }

  /** The run joins no thread twice, either. */
  ghost predicate Proper(s: State, es: seq<Event>)
    decreases |es|
  {
    es == [] || (Enabled(s, es[0]) && FirstJoin(s, es[0]) && Proper(Step(s, es[0]).s, es[1..]))
  }
}
