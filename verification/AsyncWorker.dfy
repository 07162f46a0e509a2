/** The asynchronous call worker: tasks are queued by any coroutine and executed
    by the worker's own, or by whoever stops the worker
    (srs_app_async_call.cpp).

    Coroutines switch only inside a call of a task and inside the wait, so each
    step below is what one coroutine does between two such points. */
module AsyncWorker {
  import opened Sequences

  type Task = nat

  /** Where the worker's coroutine is: about to look for an error, in the wait,
      out of the wait but not yet running, executing a batch, or done. */
  datatype Place = AtPull | Waiting | Woken | Flushing | Finished

  /** `batch` holds what each flusher has taken and not yet executed; `calling`
      the flushers that are inside the call of the first task of their batch.
      `submitted`, `calls` and `executed` are histories. */
  datatype State = State(
    tasks: seq<Task>,
    batch: map<nat, seq<Task>>,
    calling: set<nat>,
    place: Place,
    terminated: bool,
    submitted: seq<Task>,
    calls: seq<Task>,
    executed: seq<Task>)

  const WORKER: nat := 0

  datatype Event =
    | Execute(t: Task)
    | Turn
    | Begin(f: nat)
    | End(f: nat)
    | StopFlush(f: nat)
    | StopSignal
    | Terminate

  // ------------------------------------------------------------- operations

  function Signal(s: State): State {
    if s.place == Waiting then s.(place := Woken) else s
  }

  /** The start of `flush_tasks`: takes all that is pending. */
  function Take(s: State, f: nat): State {
    if s.tasks == [] then s else s.(batch := s.batch[f := s.tasks], tasks := [])
  }

  function TakeByWorker(s: State): State {
    Take(s, WORKER).(place := if s.tasks == [] then AtPull else Flushing)
  }

  function Step(s: State, e: Event): State {
    match e
    case Execute(t) => Signal(s.(tasks := s.tasks + [t], submitted := s.submitted + [t]))
    case Turn =>
      if s.place == Woken then TakeByWorker(s)
      else if s.place != AtPull then s
      else if s.terminated then s.(place := Finished)
      else if s.tasks == [] then s.(place := Waiting)
      else TakeByWorker(s)
    case Begin(f) =>
      if f in s.batch && s.batch[f] != [] then s.(calling := s.calling + {f}, calls := s.calls + [s.batch[f][0]]) else s
    case End(f) =>
      if f !in s.batch || s.batch[f] == [] then s
      else
        var rest := s.batch[f][1..];
        s.(calling := s.calling - {f}, executed := s.executed + [s.batch[f][0]],
           batch := if rest == [] then s.batch - {f} else s.batch[f := rest],
           place := if rest == [] && f == WORKER then AtPull else s.place)
    case StopFlush(f) => Take(s, f)
    case StopSignal => Signal(s)
    case Terminate => Signal(s).(terminated := true)
  }

  /** A task is submitted once, a flusher executes its batch one task after the
      other, and takes a new one only when it is through. */
  predicate Enabled(s: State, e: Event) {
    match e
    case Execute(t) => t !in s.submitted
    case Turn => s.place == AtPull || s.place == Woken
    case Begin(f) => f in s.batch && f !in s.calling
    case End(f) => f in s.calling
    case StopFlush(f) => f != WORKER && f !in s.batch
    case StopSignal => true
    case Terminate => true
  }

  const INITIAL := State([], map[], {}, AtPull, false, [], [], [])

  // -------------------------------------------------------------- invariant

  predicate NoDup(q: seq<Task>) {
    forall i, j :: 0 <= i < j < |q| ==> q[i] != q[j]
  }

  predicate Apart(a: seq<Task>, b: seq<Task>) {
    forall t :: t in a ==> t !in b
  }

  predicate InBatch(s: State, t: Task) {
    exists f :: f in s.batch && t in s.batch[f]
  }

  /** Being called right now. */
  predicate InCall(s: State, t: Task) {
    exists f :: f in s.calling && f in s.batch && s.batch[f] != [] && s.batch[f][0] == t
  }

  ghost predicate Inv(s: State) {
    && NoDup(s.tasks) && NoDup(s.executed) && NoDup(s.calls)
    && Apart(s.tasks, s.executed)
    && (forall f :: f in s.batch ==> s.batch[f] != [] && NoDup(s.batch[f]) && Apart(s.batch[f], s.tasks) && Apart(s.batch[f], s.executed))
    && (forall f, g :: f in s.batch && g in s.batch && f != g ==> Apart(s.batch[f], s.batch[g]))
    && (forall t :: t in s.submitted <==> t in s.tasks || InBatch(s, t) || t in s.executed)
    && (forall f :: f in s.calling ==> f in s.batch)
    && (forall t :: t in s.calls <==> t in s.executed || InCall(s, t))
    && (s.place == Flushing <==> WORKER in s.batch)
    && (s.place == Waiting ==> s.tasks == [])
  }

  lemma NoDupAppend(q: seq<Task>, t: Task)
    requires NoDup(q) && t !in q
    ensures NoDup(q + [t])
  {
  }

  lemma SignalKeeps(s: State)
    requires Inv(s)
    ensures Inv(Signal(s))
  {
    SameBatches(s, Signal(s));
  }

  lemma SameBatches(s: State, r: State)
    requires r.batch == s.batch && r.calling == s.calling
    ensures forall t :: (InBatch(r, t) <==> InBatch(s, t)) && (InCall(r, t) <==> InCall(s, t))
  {
  }

  lemma ExecuteKeeps(s: State, t: Task)
    requires Inv(s) && t !in s.submitted
    ensures Inv(Step(s, Execute(t)))
  {
    var r := s.(tasks := s.tasks + [t], submitted := s.submitted + [t], place := if s.place == Waiting then Woken else s.place);
    assert Step(s, Execute(t)) == r;
    SameBatches(s, r);
    NoDupAppend(s.tasks, t);
    forall f | f in s.batch
      ensures Apart(r.batch[f], r.tasks)
    {
      assert t in s.batch[f] ==> InBatch(s, t);
    }
  }

  lemma TakeKeeps(s: State, f: nat, place: Place)
    requires Inv(s) && s.tasks != [] && f !in s.batch && f !in s.calling
    requires if f == WORKER then place == Flushing else place == s.place
    ensures Inv(Take(s, f).(place := place))
  {
    var r := Take(s, f).(place := place);
    forall t
      ensures InBatch(r, t) <==> InBatch(s, t) || t in s.tasks
    {
      if t in s.tasks {
        assert f in r.batch && t in r.batch[f];
      }
      if InBatch(s, t) {
        var g :| g in s.batch && t in s.batch[g];
        assert g in r.batch && t in r.batch[g];
      }
    }
    forall t
      ensures InCall(r, t) <==> InCall(s, t)
    {
      if InCall(s, t) {
        var g :| g in s.calling && g in s.batch && s.batch[g] != [] && s.batch[g][0] == t;
        assert g in r.batch && r.batch[g] == s.batch[g];
      }
      if InCall(r, t) {
        var g :| g in r.calling && g in r.batch && r.batch[g] != [] && r.batch[g][0] == t;
        assert g in s.batch && r.batch[g] == s.batch[g];
      }
    }
  }

  lemma BeginKeeps(s: State, f: nat)
    requires Inv(s) && f in s.batch && f !in s.calling
    ensures Inv(Step(s, Begin(f)))
  {
    var r, t0 := Step(s, Begin(f)), s.batch[f][0];
    assert t0 in s.batch[f];
    forall g | g in s.calling && g in s.batch && s.batch[g] != []
      ensures s.batch[g][0] != t0
    {
      assert s.batch[g][0] in s.batch[g] && Apart(s.batch[g], s.batch[f]);
    }
    NoDupAppend(s.calls, t0);
    forall t
      ensures InBatch(r, t) <==> InBatch(s, t)
      ensures InCall(r, t) <==> InCall(s, t) || t == t0
    {
      if InCall(s, t) {
        var g :| g in s.calling && g in s.batch && s.batch[g] != [] && s.batch[g][0] == t;
        assert g in r.calling && g in r.batch && r.batch[g][0] == t;
      }
      if t == t0 {
        assert f in r.calling && f in r.batch && r.batch[f][0] == t;
      }
    }
  }

  lemma EndKeeps(s: State, f: nat)
    requires Inv(s) && f in s.calling
    ensures Inv(Step(s, End(f)))
  {
    var r, t0, rest := Step(s, End(f)), s.batch[f][0], s.batch[f][1..];
    assert s.batch[f] == [t0] + rest && t0 in s.batch[f] && t0 !in rest;
    assert forall t :: t in rest ==> t in s.batch[f];
    NoDupAppend(s.executed, t0);
    EndBatches(s, f);
    EndCalls(s, f);
    forall g | g in r.batch
      ensures r.batch[g] != [] && NoDup(r.batch[g]) && Apart(r.batch[g], r.tasks) && Apart(r.batch[g], r.executed)
    {
      if g != f {
        assert Apart(s.batch[f], s.batch[g]) && Apart(s.batch[g], s.executed);
      }
    }
    forall g, h | g in r.batch && h in r.batch && g != h
      ensures Apart(r.batch[g], r.batch[h])
    {
      assert Apart(s.batch[g], s.batch[h]);
    }
  }

  /** The first task of the batch is over; nothing else is. */
  lemma EndBatches(s: State, f: nat)
    requires Inv(s) && f in s.calling
    ensures forall t :: InBatch(s, t) <==> InBatch(Step(s, End(f)), t) || t == s.batch[f][0]
  {
    var r, t0 := Step(s, End(f)), s.batch[f][0];
    HeadTail(s.batch[f], 0);
    Ends(s.batch[f]);
    assert t0 in s.batch[f] && InBatch(s, t0);
    forall t
      ensures InBatch(s, t) <==> InBatch(r, t) || t == t0
    {
      if InBatch(r, t) {
        var g :| g in r.batch && t in r.batch[g];
        assert g in s.batch && t in s.batch[g];
      }
      if InBatch(s, t) && t != t0 {
        var g :| g in s.batch && t in s.batch[g];
        assert g in r.batch && t in r.batch[g];
      }
    }
  }

  /** So is its call. */
  lemma EndCalls(s: State, f: nat)
    requires Inv(s) && f in s.calling
    ensures forall t :: InCall(s, t) <==> InCall(Step(s, End(f)), t) || t == s.batch[f][0]
  {
    var r, t0 := Step(s, End(f)), s.batch[f][0];
    assert InCall(s, t0);
    forall t
      ensures InCall(s, t) <==> InCall(r, t) || t == t0
    {
      if InCall(r, t) {
        var g :| g in r.calling && g in r.batch && r.batch[g] != [] && r.batch[g][0] == t;
        assert g != f && g in s.calling && s.batch[g][0] == t;
      }
      if InCall(s, t) && t != t0 {
        var g :| g in s.calling && g in s.batch && s.batch[g] != [] && s.batch[g][0] == t;
        assert g != f && g in r.calling && g in r.batch && r.batch[g][0] == t;
      }
    }
  }

  lemma TurnKeeps(s: State)
    requires Inv(s) && Enabled(s, Turn)
    ensures Inv(Step(s, Turn))
  {
    if s.place == AtPull && s.terminated {
      SameBatches(s, Step(s, Turn));
    } else if s.tasks == [] {
      SameBatches(s, Step(s, Turn));
    } else {
      assert WORKER !in s.batch && WORKER !in s.calling;
      TakeKeeps(s, WORKER, Flushing);
    }
  }

  lemma StepKeeps(s: State, e: Event)
    requires Inv(s) && Enabled(s, e)
    ensures Inv(Step(s, e))
  {
    match e
    case Execute(t) => ExecuteKeeps(s, t);
    case Turn => TurnKeeps(s);
    case Begin(f) => BeginKeeps(s, f);
    case End(f) => EndKeeps(s, f);
    case StopFlush(f) =>
      if s.tasks != [] {
        TakeKeeps(s, f, s.place);
      }
    case StopSignal => SignalKeeps(s);
    case Terminate =>
      SignalKeeps(s);
      SameBatches(s, Step(s, Terminate));
  }

  // ------------------------------------------------------------------- runs

  function Run(s: State, es: seq<Event>): State
    decreases |es|
  {
    if es == [] then s else Run(Step(s, es[0]), es[1..])
  }

  predicate Proper(s: State, es: seq<Event>)
    decreases |es|
  {
    es == [] || (Enabled(s, es[0]) && Proper(Step(s, es[0]), es[1..]))
  }

  lemma {:induction false} RunKeeps(s: State, es: seq<Event>)
    requires Inv(s) && Proper(s, es)
    ensures Inv(Run(s, es))
    decreases |es|
  {
    if es == [] {
    } else {
      StepKeeps(s, es[0]);
      RunKeeps(Step(s, es[0]), es[1..]);
    }
  }

  /** Under every interleaving, each submitted task is pending, in one batch, or
      executed, and in only one of these. */
  lemma ExactlyOnePlace(es: seq<Event>, t: Task)
    requires Proper(INITIAL, es)
    ensures var s := Run(INITIAL, es);
      && (t in s.submitted <==> t in s.tasks || InBatch(s, t) || t in s.executed)
      && !(t in s.tasks && InBatch(s, t)) && !(t in s.tasks && t in s.executed) && !(InBatch(s, t) && t in s.executed)
      && (forall f, g :: f in s.batch && g in s.batch && t in s.batch[f] && t in s.batch[g] ==> f == g)
  {
    assert Inv(INITIAL);
    RunKeeps(INITIAL, es);
    var s := Run(INITIAL, es);
    if InBatch(s, t) {
      var f :| f in s.batch && t in s.batch[f];
      assert Apart(s.batch[f], s.tasks) && Apart(s.batch[f], s.executed);
    }
    forall f, g | f in s.batch && g in s.batch && t in s.batch[f] && t in s.batch[g]
      ensures f == g
    {
      assert f != g ==> Apart(s.batch[f], s.batch[g]);
    }
  }

  /** No task is called twice, and only submitted tasks are called. */
  lemma CalledAtMostOnce(es: seq<Event>)
    requires Proper(INITIAL, es)
    ensures NoDup(Run(INITIAL, es).calls) && NoDup(Run(INITIAL, es).executed)
    ensures forall t :: t in Run(INITIAL, es).calls ==> t in Run(INITIAL, es).submitted
  {
    assert Inv(INITIAL);
    RunKeeps(INITIAL, es);
    var s := Run(INITIAL, es);
    forall t | t in s.calls
      ensures t in s.submitted
    {
      if t !in s.executed {
        var f :| f in s.calling && f in s.batch && s.batch[f] != [] && s.batch[f][0] == t;
        assert t in s.batch[f] && InBatch(s, t);
      }
    }
  }

  /** No wake-up is lost: while the worker is in the wait nothing is pending, and
      if nobody else is flushing, everything that was submitted has been
      executed. */
  lemma WaitingMeansDone(es: seq<Event>)
    requires Proper(INITIAL, es) && Run(INITIAL, es).place == Waiting
    ensures Run(INITIAL, es).tasks == []
    ensures Run(INITIAL, es).batch == map[] ==> forall t :: t in Run(INITIAL, es).submitted <==> t in Run(INITIAL, es).executed
  {
    assert Inv(INITIAL);
    RunKeeps(INITIAL, es);
    var s := Run(INITIAL, es);
    forall t
      ensures s.batch == map[] ==> !InBatch(s, t)
    {
    }
  }

  // ------------------------------------------------------------------ order

  /** What the worker has in hand. */
  function InHand(s: State): seq<Task> {
    if WORKER in s.batch then s.batch[WORKER] else []
  }

  /** Only the worker's own coroutine flushes. */
  predicate OnlyCycle(es: seq<Event>) {
    forall i :: 0 <= i < |es| ==> !es[i].StopFlush?
  }

  ghost predicate InOrder(s: State) {
    && (forall f :: f in s.batch ==> f == WORKER)
    && s.executed + InHand(s) + s.tasks == s.submitted
  }

  lemma OrderKeeps(s: State, e: Event)
    requires Inv(s) && InOrder(s) && Enabled(s, e) && !e.StopFlush?
    ensures InOrder(Step(s, e))
  {
    match e
    case Execute(t) => Regroup(s.executed + InHand(s), s.tasks, [t]);
    case Turn => TurnInOrder(s);
    case End(f) => EndInOrder(s);
    case _ =>
  }

  lemma TurnInOrder(s: State)
    requires Inv(s) && InOrder(s) && Enabled(s, Turn)
    ensures InOrder(Step(s, Turn))
  {
    Regroup(s.executed, s.tasks, []);
    Regroup(s.executed, [], s.tasks);
  }

  lemma EndInOrder(s: State)
    requires Inv(s) && InOrder(s) && WORKER in s.calling
    ensures InOrder(Step(s, End(WORKER)))
  {
    var q := s.batch[WORKER];
    HeadTail(q, 0);
    Ends(q);
    Regroup(s.executed, [q[0]], q[1..]);
  }

  lemma {:induction false} RunInOrder(s: State, es: seq<Event>)
    requires Inv(s) && InOrder(s) && Proper(s, es) && OnlyCycle(es)
    ensures InOrder(Run(s, es))
    decreases |es|
  {
    if es == [] {
    } else {
      StepKeeps(s, es[0]);
      OrderKeeps(s, es[0]);
      assert forall i :: 0 <= i < |es[1..]| ==> es[1..][i] == es[i + 1];
      RunInOrder(Step(s, es[0]), es[1..]);
    }
  }

  /** With only the worker flushing, tasks are executed in the order in which
      they were submitted. */
  lemma ExecutedInOrder(es: seq<Event>)
    requires Proper(INITIAL, es) && OnlyCycle(es)
    ensures var s := Run(INITIAL, es);
      s.executed + InHand(s) + s.tasks == s.submitted && s.executed <= s.submitted
  {
    assert Inv(INITIAL) && InOrder(INITIAL);
    RunInOrder(INITIAL, es);
    var s := Run(INITIAL, es);
    Regroup(s.executed, InHand(s), s.tasks);
  }

  // --------------------------------------------------------------- progress

  function Submitted1(e: Event): seq<Task> {
    if e.Execute? then [e.t] else []
  }

  /** The tasks that a run submits, in order. */
  function Submissions(es: seq<Event>): seq<Task> {
    if es == [] then [] else Submitted1(es[0]) + Submissions(es[1..])
  }

  lemma StepSubmits(s: State, e: Event)
    ensures Step(s, e).submitted == s.submitted + Submitted1(e)
  {
  }

  /** What counts as submitted is what has been submitted. */
  lemma {:induction false} SubmittedIs(s: State, es: seq<Event>)
    ensures Run(s, es).submitted == s.submitted + Submissions(es)
    decreases |es|
  {
    if es == [] {
    } else {
      StepSubmits(s, es[0]);
      hide Step, Submitted1;
      SubmittedIs(Step(s, es[0]), es[1..]);
      Regroup(s.submitted, Submitted1(es[0]), Submissions(es[1..]));
    }
  }

  /** Steps of the worker's own coroutine. */
  predicate ByWorker(es: seq<Event>) {
    forall i :: 0 <= i < |es| ==> es[i] == Turn || es[i] == Begin(WORKER) || es[i] == End(WORKER)
  }

  lemma RunFirst(s: State, e: Event, es: seq<Event>)
    requires Enabled(s, e) && Proper(Step(s, e), es)
    ensures Proper(s, [e] + es) && Run(s, [e] + es) == Run(Step(s, e), es)
  {
    assert ([e] + es)[1..] == es;
  }

  lemma {:induction false} RunBoth(s: State, a: seq<Event>, b: seq<Event>)
    requires Proper(s, a) && Proper(Run(s, a), b)
    ensures Proper(s, a + b) && Run(s, a + b) == Run(Run(s, a), b)
    decreases |a|
  {
    if a == [] {
      assert a + b == b;
    } else {
      assert a + b == [a[0]] + (a[1..] + b);
      RunBoth(Step(s, a[0]), a[1..], b);
      RunFirst(s, a[0], a[1..] + b);
    }
  }

  /** Steps by which f executes what it has taken. */
  predicate Flushes(es: seq<Event>, f: nat) {
    forall i :: 0 <= i < |es| ==> es[i] == Begin(f) || es[i] == End(f)
  }

  /** Whoever has taken tasks, left alone, executes all of them, in order. */
  lemma {:induction false} FinishesBatch(s: State, f: nat) returns (es: seq<Event>)
    requires Inv(s) && f in s.batch
    ensures Flushes(es, f) && Proper(s, es)
    ensures var r := Run(s, es);
      && Inv(r) && r.tasks == s.tasks && r.terminated == s.terminated && f !in r.batch
      && r.place == (if f == WORKER then AtPull else s.place) && r.executed == s.executed + s.batch[f]
    decreases |s.batch[f]|, if f in s.calling then 0 else 1
  {
    var q := s.batch[f];
    if f !in s.calling {
      var r := Step(s, Begin(f));
      StepKeeps(s, Begin(f));
      var rest := FinishesBatch(r, f);
      es := [Begin(f)] + rest;
      RunFirst(s, Begin(f), rest);
    } else {
      var r := Step(s, End(f));
      StepKeeps(s, End(f));
      HeadTail(q, 0);
      Ends(q);
      if q[1..] == [] {
        es := [End(f)];
        RunFirst(s, End(f), []);
        assert [End(f)] + [] == es;
      } else {
        var rest := FinishesBatch(r, f);
        es := [End(f)] + rest;
        RunFirst(s, End(f), rest);
        Regroup(s.executed, [q[0]], q[1..]);
      }
    }
  }

  /** One turn takes whatever is pending. */
  lemma TurnTakes(s: State)
    requires Inv(s) && Enabled(s, Turn) && !(s.place == AtPull && s.terminated) && s.tasks != []
    ensures var r := Step(s, Turn);
      Inv(r) && r.place == Flushing && InHand(r) == s.tasks && r.tasks == [] && r.executed == s.executed && r.terminated == s.terminated
  {
    StepKeeps(s, Turn);
  }

  /** From where it can take a turn, the worker executes all that is pending and
      goes to wait. */
  lemma Drains(s: State) returns (es: seq<Event>)
    requires Inv(s) && !s.terminated && (s.place == AtPull || s.place == Woken)
    ensures ByWorker(es) && Proper(s, es)
    ensures var r := Run(s, es); r.place == Waiting && r.tasks == [] && r.executed == s.executed + s.tasks
    decreases |s.tasks|, if s.place == Woken then 1 else 0
  {
    Regroup(s.executed, [], []);
    var r := Step(s, Turn);
    StepKeeps(s, Turn);
    if s.tasks == [] {
      var rest := if s.place == Woken then [Turn] else [];
      if s.place == Woken {
        RunFirst(r, Turn, []);
        assert [Turn] + [] == rest;
      }
      RunFirst(s, Turn, rest);
      es := [Turn] + rest;
    } else {
      TurnTakes(s);
      var batch := FinishesBatch(r, WORKER);
      var rest := Drains(Run(r, batch));
      RunBoth(r, batch, rest);
      RunFirst(s, Turn, batch + rest);
      Regroup(s.executed + s.tasks, [], []);
      es := [Turn] + (batch + rest);
    }
  }

  /** Nothing that has been submitted stays undone: unless it has been told to
      stop, the worker needs nobody's help to execute what it has in hand and all
      that is pending, in this order, and then waits. */
  lemma WorkerGetsThrough(s: State) returns (es: seq<Event>)
    requires Inv(s) && !s.terminated && s.place != Finished
    ensures ByWorker(es) && Proper(s, es)
    ensures var r := Run(s, es); r.place == Waiting && r.tasks == [] && r.executed == s.executed + InHand(s) + s.tasks
  {
    Regroup(s.executed, [], []);
    match s.place
    case Waiting => es := [];
    case Flushing =>
      var batch := FinishesBatch(s, WORKER);
      var rest := Drains(Run(s, batch));
      RunBoth(s, batch, rest);
      es := batch + rest;
    case _ => es := Drains(s);
  }

  /** Who stops the worker executes all that is pending before. */
  lemma StopExecutes(s: State, f: nat) returns (es: seq<Event>)
    requires Inv(s) && Enabled(s, StopFlush(f))
    ensures Flushes(es, f) && Proper(Step(s, StopFlush(f)), es)
    ensures var r := Run(Step(s, StopFlush(f)), es);
      r.tasks == [] && r.executed == s.executed + s.tasks && r.place == s.place && f !in r.batch
  {
    StepKeeps(s, StopFlush(f));
    if s.tasks == [] {
      es := [];
      Regroup(s.executed, [], []);
    } else {
      es := FinishesBatch(Step(s, StopFlush(f)), f);
    }
  }

  /** A submission, the signal of a stop and an interrupt take the worker out of
      its wait; nothing else does. */
  lemma LeavesWait(s: State, e: Event)
    requires Inv(s) && Enabled(s, e) && s.place == Waiting
    ensures Step(s, e).place == if e.Execute? || e.StopSignal? || e.Terminate? then Woken else Waiting
  {
  }

  /** A worker that is told to stop ends by itself, wherever it is.  It executes
      what it has in hand and, if it has been woken from its wait, what is pending
      as well; what is pending otherwise stays so. */
  lemma TerminatedEnds(s: State) returns (es: seq<Event>)
    requires Inv(s) && s.place != Finished
    ensures ByWorker(es) && Proper(Step(s, Terminate), es)
    ensures var r := Run(Step(s, Terminate), es);
      && r.place == Finished
      && r.executed == s.executed + InHand(s) + (if s.place == Woken then s.tasks else [])
      && r.tasks == if s.place == Woken then [] else s.tasks
  {
    var s1 := Step(s, Terminate);
    StepKeeps(s, Terminate);
    Regroup(s.executed, [], []);
    if s1.place == Woken {
      var s2 := Step(s1, Turn);
      StepKeeps(s1, Turn);
      var rest := EndsFrom(s2);
      RunFirst(s1, Turn, rest);
      es := [Turn] + rest;
    } else {
      es := EndsFrom(s1);
    }
  }

  lemma EndsFrom(s: State) returns (es: seq<Event>)
    requires Inv(s) && s.terminated && (s.place == AtPull || s.place == Flushing)
    ensures ByWorker(es) && Proper(s, es)
    ensures var r := Run(s, es); r.place == Finished && r.executed == s.executed + InHand(s) && r.tasks == s.tasks
  {
    var batch := [];
    Regroup(s.executed, [], []);
    if s.place == Flushing {
      batch := FinishesBatch(s, WORKER);
    }
    RunFirst(Run(s, batch), Turn, []);
    assert [Turn] + [] == [Turn];
    RunBoth(s, batch, [Turn]);
    es := batch + [Turn];
  }

  // --------------------------------------------------------------- the object

  /** The worker as an object; `copy` is the local variable of a flush that is
      under way. */
  class Worker {
    var tasks: seq<Task>
    var copy: map<nat, seq<Task>>
    var calling: set<nat>
    var place: Place
    var terminated: bool
    ghost var submitted: seq<Task>
    ghost var calls: seq<Task>
    ghost var executed: seq<Task>

    ghost function View(): State
      reads this
    {
      State(tasks, copy, calling, place, terminated, submitted, calls, executed)
    }

    constructor ()
      ensures View() == INITIAL
    {
      tasks, copy, calling, place, terminated := [], map[], {}, AtPull, false;
      submitted, calls, executed := [], [], [];
    }

    method CondSignal()
      modifies `place
      ensures View() == Signal(old(View()))
    {
      if place == Waiting {
        place := Woken;
      }
    }

    method Submit(t: Task)
      modifies this
      ensures View() == Step(old(View()), Execute(t))
    {
      tasks := tasks + [t];
      submitted := submitted + [t];
      CondSignal();
    }

    /** The start of `flush_tasks`. */
    method StartFlush(f: nat) returns (some: bool)
      modifies `tasks, `copy
      ensures View() == Take(old(View()), f) && (some <==> old(tasks) != [])
    {
      if tasks == [] {
        return false;
      }
      copy := copy[f := tasks];
      tasks := [];
      some := true;
    }

    /** The loop of `cycle`, from one point where it may be switched away to the
        next. */
    method Cycle()
      requires place == AtPull || place == Woken
      modifies this
      ensures View() == Step(old(View()), Turn)
    {
      if place == AtPull {
        if terminated {
          place := Finished;
          return;
        }
        if tasks == [] {
          place := Waiting;
          return;
        }
      }
      var some := StartFlush(WORKER);
      place := if some then Flushing else AtPull;
    }

    /** What the coroutine's own stop does to the worker: an error to find, and
        an interrupt. */
    method Interrupt()
      modifies `place, `terminated
      ensures View() == Step(old(View()), Terminate)
    {
      CondSignal();
      terminated := true;
    }

    /** The loop of `flush_tasks` enters the call of the next task. */
    method EnterCall(f: nat)
      requires f in copy && copy[f] != []
      modifies `calling, `calls
      ensures View() == Step(old(View()), Begin(f))
    {
      calling := calling + {f};
      calls := calls + [copy[f][0]];
    }

    /** The call is over, and the task is freed. */
    method LeaveCall(f: nat)
      requires f in copy && copy[f] != []
      modifies this
      ensures View() == Step(old(View()), End(f))
    {
      calling := calling - {f};
      executed := executed + [copy[f][0]];
      var rest := copy[f][1..];
      if rest == [] {
        copy := copy - {f};
        if f == WORKER {
          place := AtPull;
        }
      } else {
        copy := copy[f := rest];
      }
    }
  }
}
