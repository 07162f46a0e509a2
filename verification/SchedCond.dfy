/** Condition variables: every wait ends for one reason, signals are not lost
    on threads that are already awake, and the result tells what happened. */
module SchedCond {
  import opened ThreadTypes
  import opened Wrappers
  import opened Sequences
  import opened Sched
  import opened SchedInv
  import opened SchedOthers
  import opened SchedRuns
  import opened SchedCalls

  /** The result of a wait: success exactly when it was signalled and no
      interrupt arrived before it resumed.  Afterwards the thread is off the
      wait queue and off the sleep queue, with its flags cleared. */
  lemma CondReturns(s: State, c: nat)
    requires Inv(s) && Enabled(s, EResume) && Awaits(Th(s, Me(s)).call) == Some(CondQ(c))
    ensures var n, th := Resume(s), Th(s, Me(s));
      && th.call.cause != NotYet
      && (n.out == Ok(0) <==> th.call.cause == BySignal && !th.interrupted)
      && (n.out == Failed(ETIME) <==> th.call.cause == ByTimeout && !th.interrupted)
      && (n.out == Failed(EINTR) <==> th.interrupted)
      && (th.timedOut <==> th.call.cause == ByTimeout)
      && Me(s) !in Wq(n.s, CondQ(c)) && Me(s) !in n.s.sleep
      && Th(n.s, Me(s)) == th.(call := NoCall, interrupted := false, timedOut := false)
  {
    assert InPlace(s, Me(s));
    WithoutIs(Wq(s, CondQ(c)), Me(s));
  }

  // ----------------------------------------------------------------- signals

  /** A signal wakes the first thread of the queue that is still waiting, and
      nobody else; threads that have been woken but have not yet left the queue
      do not use it up. */
  lemma SignalWakesTheFirst(s: State, c: nat, i: nat)
    requires Inv(s) && Enabled(s, ESignal(c, false)) && i <= |Wq(s, CondQ(c))|
    requires forall j :: 0 <= j < i ==> Th(s, Wq(s, CondQ(c))[j]).state != CondWait
    requires i < |Wq(s, CondQ(c))| ==> Th(s, Wq(s, CondQ(c))[i]).state == CondWait
    ensures var q, r := Wq(s, CondQ(c)), Signal(s, c, false).s;
      if i == |q| then r == s
      else (
        && r.runq == s.runq + [q[i]]
        && r.thr == s.thr[q[i] := Th(s, q[i]).(state := Runnable, onSleepq := false, call := InCond(CondQ(c), BySignal))]
        && q[i] !in r.sleep && (forall t :: t != q[i] ==> (t in r.sleep <==> t in s.sleep)))
  {
    var q := Wq(s, CondQ(c));
    SignalAt(s, q, i);
    if i < |q| {
      assert q[i] in Wq(s, CondQ(c)) <==> Awaits(Th(s, q[i]).call) == Some(CondQ(c));
      assert InPlace(s, q[i]);
    }
  }

  lemma {:induction false} SignalAt(s: State, q: seq<Tid>, i: nat)
    requires i <= |q| && forall j :: 0 <= j < i ==> Th(s, q[j]).state != CondWait
    requires i < |q| ==> Th(s, q[i]).state == CondWait
    ensures SignalFrom(s, q, false) == if i < |q| then WakeUp(s, q[i], BySignal) else s
    decreases i
  {
    if i == 0 {
    } else {
      assert forall j :: 0 <= j < i - 1 ==> q[1..][j] == q[j + 1];
      SignalAt(s, q[1..], i - 1);
    }
  }

  /** The threads of q that still wait, in order. */
  function StillWaiting(s: State, q: seq<Tid>): seq<Tid>
    decreases |q|
  {
    if q == [] then []
    else (if Th(s, q[0]).state == CondWait then [q[0]] else []) + StillWaiting(s, q[1..])
  }

  lemma {:induction false} StillWaitingSame(s: State, r: State, q: seq<Tid>)
    requires forall t :: t in q ==> (Th(r, t).state == CondWait <==> Th(s, t).state == CondWait)
    ensures StillWaiting(r, q) == StillWaiting(s, q)
    decreases |q|
  {
    if q == [] {
    } else {
      assert q[0] in q && forall t :: t in q[1..] ==> t in q;
      StillWaitingSame(s, r, q[1..]);
    }
  }

  /** A broadcast wakes every thread that is still waiting, in queue order. */
  lemma BroadcastWakesAll(s: State, c: nat)
    requires Inv(s) && Enabled(s, ESignal(c, true))
    ensures var q, r := Wq(s, CondQ(c)), Signal(s, c, true).s;
      && r.runq == s.runq + StillWaiting(s, q)
      && (forall t :: t in q ==> Th(r, t).state != CondWait)
      && (forall t :: t in q && Th(s, t).state == CondWait ==> Th(r, t).state == Runnable && Th(r, t).call == InCond(CondQ(c), BySignal))
      && (forall t: Tid :: t !in q || Th(s, t).state != CondWait ==> Th(r, t) == Th(s, t))
  {
    var q := Wq(s, CondQ(c));
    forall t | t in q
      ensures Th(s, t).state == CondWait ==> Th(s, t).call == InCond(CondQ(c), NotYet)
    {
      assert t in Wq(s, CondQ(c)) <==> Awaits(Th(s, t).call) == Some(CondQ(c));
      assert InPlace(s, t);
    }
    assert NoDup(Wq(s, CondQ(c)));
    BroadcastFrom(s, q, CondQ(c));
  }

  lemma {:induction false} BroadcastFrom(s: State, q: seq<Tid>, c: Queue)
    requires NoDup(q)
    requires forall t :: t in q && Th(s, t).state == CondWait ==> Th(s, t).call == InCond(c, NotYet)
    ensures var r := SignalFrom(s, q, true);
      && r.runq == s.runq + StillWaiting(s, q)
      && (forall t :: t in q && Th(s, t).state == CondWait ==> Th(r, t).state == Runnable && Th(r, t).call == InCond(c, BySignal))
      && (forall t: Tid :: t !in q || Th(s, t).state != CondWait ==> Th(r, t) == Th(s, t))
    decreases |q|
  {
    if q == [] {
      assert s.runq + StillWaiting(s, q) == s.runq;
    } else {
      assert q == [q[0]] + q[1..] && q[0] !in q[1..];
      var s1 := if Th(s, q[0]).state == CondWait then WakeUp(s, q[0], BySignal) else s;
      StillWaitingSame(s, s1, q[1..]);
      BroadcastFrom(s1, q[1..], c);
      Regroup(s.runq, [q[0]], StillWaiting(s, q[1..]));
      Regroup(s.runq, [], StillWaiting(s, q[1..]));
    }
  }

  // ---------------------------------------------------- one wake-up per wait

  /** The thread is running, or on the run queue. */
  predicate Able(s: State, t: Tid) {
    s.cur == Some(t) || t in s.runq
  }

  /** How often t becomes able to run in a run of steps. */
  function WakeUps(s: State, es: seq<Event>, t: Tid): nat
    decreases |es|
  {
    if es == [] then 0
    else
      var r := Step(s, es[0]).s;
      WakeUps(r, es[1..], t) + if !Able(s, t) && Able(r, t) then 1 else 0
  }

  /** t takes no step in the run. */
  predicate Away(s: State, es: seq<Event>, t: Tid)
    decreases |es|
  {
    es == [] || (!(es[0] == EResume && Me(s) == t) && Away(Step(s, es[0]).s, es[1..], t))
  }

  /** A call that ends when somebody, or the clock, wakes the thread. */
  predicate IsWait(call: Call) {
    call.InCond? || call.InPoll?
  }

  /** The same call, perhaps ended by now. */
  predicate SameWait(a: Call, b: Call) {
    (a.InCond? && b.InCond? && b.q == a.q) || (a.InPoll? && b.InPoll?)
  }

  lemma AbleMeans(s: State, t: Tid)
    requires Inv(s) && t in s.thr && IsWait(Th(s, t).call)
    ensures Able(s, t) <==> Th(s, t).call.cause != NotYet
  {
    assert InPlace(s, t) && InPlace(s, s.idle);
  }

  lemma WaitStep(s: State, e: Event, t: Tid) returns (r: State)
    requires Inv(s) && Enabled(s, e) && !(e == EResume && Me(s) == t) && t in s.thr && IsWait(Th(s, t).call)
    ensures r == Step(s, e).s && Inv(r) && t in r.thr && SameWait(Th(s, t).call, Th(r, t).call)
    ensures Th(s, t).call.cause != NotYet ==> Th(r, t).call == Th(s, t).call
    ensures t != Me(s) && CallStep(Th(s, t), Th(r, t), s, e, t)
  {
    r := Step(s, e).s;
    StepKeeps(s, e);
    AbleMeans(s, t);
    assert InPlace(s, t) && InPlace(s, s.idle);
    StepCalls(s, e, t);
    assert Th(r, t) != NOBODY;
  }

  /** From the moment t starts to wait, on a condition or in a poll, until it
      resumes, it is made able to run at most once, whatever signals, events,
      timeouts and interrupts arrive; and it has been, once, when it is running
      again. */
  lemma {:induction false} OneWakePerWait(s: State, es: seq<Event>, t: Tid)
    requires Inv(s) && Possible(s, es) && Away(s, es, t) && t in s.thr && IsWait(Th(s, t).call)
    ensures var r := Run(s, es);
      && Inv(r) && t in r.thr && SameWait(Th(s, t).call, Th(r, t).call)
      && WakeUps(s, es, t) == (if !Able(s, t) && Able(r, t) then 1 else 0)
      && (Able(s, t) ==> Able(r, t) && Th(r, t).call == Th(s, t).call)
    decreases |es|
  {
    hide Inv, Enabled, Step, Able;
    AbleMeans(s, t);
    if es == [] {
    } else {
      var s1 := WaitStep(s, es[0], t);
      AbleMeans(s1, t);
      OneWakePerWait(s1, es[1..], t);
    }
  }

  /** Step i of the run is one that ends this call for the cause that is
      remembered. */
  ghost predicate EndedAt(s: State, es: seq<Event>, i: nat, call: Call, t: Tid)
    requires i < |es|
    decreases |es|
  {
    if i > 0 then EndedAt(Step(s, es[0]).s, es[1..], i - 1, call, t)
    else (call.InPoll? && EndsPoll(s, es[0], call.cause, t)) || (call.InCond? && EndsWait(s, es[0], call.q, call.cause, t))
  }

  /** What is remembered as the cause has happened: a wait that has ended in a
      run was ended by a step of the run that belongs to its cause. */
  lemma {:induction false} CauseHappened(s: State, es: seq<Event>, t: Tid) returns (i: nat)
    requires Inv(s) && Possible(s, es) && Away(s, es, t) && t in s.thr && IsWait(Th(s, t).call)
    requires Th(s, t).call.cause == NotYet && IsWait(Th(Run(s, es), t).call) && Th(Run(s, es), t).call.cause != NotYet
    ensures i < |es| && EndedAt(s, es, i, Th(Run(s, es), t).call, t)
    decreases |es|
  {
    var last := Th(Run(s, es), t).call;
    assert es != [];
    var s1 := WaitStep(s, es[0], t);
    RunTail(s, es, t);
    if Th(s1, t).call.cause != NotYet {
      AbleMeans(s1, t);
      OneWakePerWait(s1, es[1..], t);
      i := 0;
      EndedFirst(s, es, t, last);
    } else {
      var j := CauseHappened(s1, es[1..], t);
      i := j + 1;
      EndedLater(s, es, j, last, t);
    }
  }

  lemma RunTail(s: State, es: seq<Event>, t: Tid)
    requires es != [] && Possible(s, es) && Away(s, es, t)
    ensures var s1 := Step(s, es[0]).s;
      Run(s, es) == Run(s1, es[1..]) && Possible(s1, es[1..]) && Away(s1, es[1..], t)
  {
  }

  lemma EndedLater(s: State, es: seq<Event>, j: nat, call: Call, t: Tid)
    requires es != [] && j < |es[1..]| && EndedAt(Step(s, es[0]).s, es[1..], j, call, t)
    ensures EndedAt(s, es, j + 1, call, t)
  {
  }

  lemma EndedFirst(s: State, es: seq<Event>, t: Tid, last: Call)
    requires es != [] && IsWait(Th(s, t).call) && Th(s, t).call.cause == NotYet
    requires var r := Step(s, es[0]).s;
      CallStep(Th(s, t), Th(r, t), s, es[0], t) && Th(r, t).call != Th(s, t).call && Th(r, t).call == last
    ensures EndedAt(s, es, 0, last, t)
  {
  }
}
