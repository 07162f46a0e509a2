/** The thread objects and the sleep queue that links them (common.h, sched.c).

    The ghost fields say what the state machine knows of this: the record of
    every thread, and when the members of the timeout heap are due. */
module ThreadTable {
  import opened ThreadTypes
  import opened Wrappers
  import opened Sched
  import H = TimeoutHeap

  class Table {
    var threads: map<Tid, H.Thread>
    const sleepQ: H.SleepQueue
    ghost var objects: set<H.Thread>
    ghost var records: map<Tid, Thread>
    ghost var sleepers: map<Tid, int>

    /** Thread t is kept under its own id, carries the flag of the sleep queue
        exactly if it is on it, and is what the ghost fields say. */
    ghost predicate Fits(t: Tid)
      reads this, sleepQ, objects
    {
      && t in threads && threads[t] in objects && threads[t].id == t
      && t in records && records[t] == threads[t].Record()
      && (threads[t].onSleepq <==> threads[t] in sleepQ.nodes)
      && (t in sleepers <==> threads[t] in sleepQ.nodes)
      && (t in sleepers ==> sleepers[t] == threads[t].due)
    }

    /** Every thread fits, and the sleep queue is a well-formed heap of
        threads. */
    ghost predicate Valid()
      reads this, sleepQ, objects
    {
      && threads.Keys == records.Keys && sleepers.Keys <= threads.Keys
      && (forall t {:trigger threads[t]} {:trigger Fits(t)} :: t in threads ==> Fits(t))
      && (forall n: H.Thread :: n in sleepQ.nodes ==> n in objects && n.id in threads && threads[n.id] == n)
      && sleepQ.Valid()
    }

    constructor ()
      ensures Valid() && records == map[] && sleepers == map[] && fresh(sleepQ) && objects == {}
    {
      sleepQ := new H.SleepQueue();
      threads, objects, records, sleepers := map[], {}, map[], map[];
    }

    function Get(t: Tid): (th: Thread)
      requires Valid() && t in records
      reads this, sleepQ, objects
      ensures th == records[t]
    {
      assert Fits(t);
      threads[t].Record()
    }

    method New(t: Tid, joinable: bool, stk: Option<Stack>)
      requires Valid() && t !in records
      modifies this
      ensures Valid() && fresh(objects - old(objects)) && sleepers == old(sleepers)
      ensures records == old(records)[t := Thread(Runnable, false, false, false, NoCall, joinable, 0, stk)]
    {
      hide H.SleepQueue.Valid;
      var thread := new H.Thread(t, joinable, stk);
      threads := threads[t := thread];
      objects := objects + {thread};
      records := records[t := thread.Record()];
      forall u | u in threads && u != t
        ensures Fits(u)
      {
        assert old(Fits(u));
      }
      assert Fits(t);
    }

    /** Of the threads other than t, nothing but their links has changed. */
    twostate predicate OnlyTouched(t: Tid)
      requires t in threads
      reads `threads, `objects, sleepQ, objects
    {
      && threads == old(threads) && objects == old(objects)
      && (forall n: H.Thread :: n in objects && n != threads[t] ==>
            n.Record() == old(n.Record()) && n.due == old(n.due) && (n in sleepQ.nodes <==> n in old(sleepQ.nodes)))
    }

    /** If nothing of the other threads has changed, they still fit. */
    twostate lemma OthersFit(t: Tid)
      requires old(Valid()) && t in threads && OnlyTouched(t)
      requires t in records && records == old(records)[t := records[t]]
      requires sleepers - {t} == old(sleepers) - {t}
      ensures forall u :: u in threads && u != t ==> Fits(u)
    {
      hide H.SleepQueue.Valid;
      forall u | u in threads && u != t
        ensures Fits(u)
      {
        assert old(Fits(u)) && old(Fits(t));
        assert u in sleepers <==> u in sleepers - {t};
        assert u in old(sleepers) <==> u in old(sleepers) - {t};
      }
    }

    /** The record of thread t, and its place on the sleep queue, have been
        brought up to date. */
    twostate lemma Renewed(t: Tid)
      requires old(Valid()) && t in threads && OnlyTouched(t)
      requires t in records && records == old(records)[t := records[t]]
      requires sleepers - {t} == old(sleepers) - {t} && Fits(t)
      requires sleepQ.Valid() && forall n: H.Thread :: n in sleepQ.nodes ==> n in objects && n.id in threads && threads[n.id] == n
      ensures Valid()
    {
      hide H.SleepQueue.Valid;
      OthersFit(t);
      forall u | u in sleepers && u != t
        ensures u in threads
      {
        assert u in sleepers - {t} && u in old(sleepers) - {t};
      }
    }

    method SetState(t: Tid, st: ThreadState)
      requires Valid() && t in records
      modifies `records, objects
      ensures Valid() && records == old(records)[t := old(records)[t].(state := st)]
    {
      hide H.SleepQueue.Valid;
      assert Fits(t);
      var thread := threads[t];
      thread.state := st;
      records := records[t := records[t].(state := st)];
      OthersFit(t);
    }

    method SetCall(t: Tid, call: Call)
      requires Valid() && t in records
      modifies `records, objects
      ensures Valid() && records == old(records)[t := old(records)[t].(call := call)]
    {
      hide H.SleepQueue.Valid;
      assert Fits(t);
      var thread := threads[t];
      thread.call := call;
      records := records[t := records[t].(call := call)];
      OthersFit(t);
    }

    /** ST_FL_INTERRUPT */
    method SetInterrupted(t: Tid, on: bool)
      requires Valid() && t in records
      modifies `records, objects
      ensures Valid() && records == old(records)[t := old(records)[t].(interrupted := on)]
    {
      hide H.SleepQueue.Valid;
      assert Fits(t);
      var thread := threads[t];
      thread.interrupted := on;
      records := records[t := records[t].(interrupted := on)];
      OthersFit(t);
    }

    /** ST_FL_TIMEDOUT */
    method SetTimedOut(t: Tid, on: bool)
      requires Valid() && t in records
      modifies `records, objects
      ensures Valid() && records == old(records)[t := old(records)[t].(timedOut := on)]
    {
      hide H.SleepQueue.Valid;
      assert Fits(t);
      var thread := threads[t];
      thread.timedOut := on;
      records := records[t := records[t].(timedOut := on)];
      OthersFit(t);
    }

    method SetRetval(t: Tid, retval: int)
      requires Valid() && t in records
      modifies `records, objects
      ensures Valid() && records == old(records)[t := old(records)[t].(retval := retval)]
    {
      hide H.SleepQueue.Valid;
      assert Fits(t);
      var thread := threads[t];
      thread.retval := retval;
      records := records[t := records[t].(retval := retval)];
      OthersFit(t);
    }

    method DropTerm(t: Tid)
      requires Valid() && t in records
      modifies `records, objects
      ensures Valid() && records == old(records)[t := old(records)[t].(term := false)]
    {
      hide H.SleepQueue.Valid;
      assert Fits(t);
      var thread := threads[t];
      thread.term := false;
      records := records[t := records[t].(term := false)];
      OthersFit(t);
    }

    method LinkIn(t: Tid, timeout: nat, clock: int)
      requires Valid() && t in records && !records[t].onSleepq
      modifies sleepQ, objects
      ensures sleepQ.Valid() && OnlyTouched(t)
      ensures forall n: H.Thread :: n in sleepQ.nodes ==> n in objects && n.id in threads && threads[n.id] == n
      ensures threads[t] in sleepQ.nodes && threads[t].due == clock + timeout
      ensures threads[t].Record() == old(threads[t].Record()).(onSleepq := true)
    {
      hide H.SleepQueue.Valid;
      assert Fits(t);
      sleepQ.Add(threads[t], timeout, clock);
    }

    method LinkOut(t: Tid)
      requires Valid() && t in records && records[t].onSleepq
      modifies sleepQ, objects
      ensures sleepQ.Valid() && OnlyTouched(t)
      ensures forall n: H.Thread :: n in sleepQ.nodes ==> n in objects && n.id in threads && threads[n.id] == n
      ensures threads[t] !in sleepQ.nodes
      ensures threads[t].Record() == old(threads[t].Record()).(onSleepq := false)
    {
      hide H.SleepQueue.Valid;
      assert Fits(t);
      sleepQ.Delete(threads[t]);
    }

    /** `_st_add_sleep_q` */
    method Sleep(t: Tid, timeout: nat, clock: int)
      requires Valid() && t in records && !records[t].onSleepq
      modifies `records, `sleepers, sleepQ, objects
      ensures Valid() && sleepers == old(sleepers)[t := clock + timeout]
      ensures records == old(records)[t := old(records)[t].(onSleepq := true)]
    {
      hide H.SleepQueue.Valid, OnlyTouched;
      assert Fits(t);
      LinkIn(t, timeout, clock);
      records := records[t := records[t].(onSleepq := true)];
      sleepers := sleepers[t := clock + timeout];
      OthersFit(t);
    }

    /** `_st_del_sleep_q` */
    method Rouse(t: Tid)
      requires Valid() && t in records && records[t].onSleepq
      modifies `records, `sleepers, sleepQ, objects
      ensures Valid() && sleepers == old(sleepers) - {t}
      ensures records == old(records)[t := old(records)[t].(onSleepq := false)]
    {
      hide H.SleepQueue.Valid, OnlyTouched;
      assert Fits(t);
      LinkOut(t);
      records := records[t := records[t].(onSleepq := false)];
      sleepers := sleepers - {t};
      Renewed(t);
    }

    /** The thread at the root of the heap is the one that is due first. */
    method First() returns (t: Option<Tid>, due: int)
      requires Valid()
      ensures t.None? ==> sleepers == map[]
      ensures t.Some? ==> t.value in records && t.value in sleepers && sleepers[t.value] == due
      ensures t.Some? ==> forall u :: u in sleepers ==> due <= sleepers[u]
    {
      if sleepQ.root == null {
        assert sleepQ.nodes == [];
        return None, 0;
      }
      H.EarliestIsRoot(sleepQ.nodes);
      assert sleepQ.root in sleepQ.nodes && Fits(sleepQ.root.id);
      return Some(sleepQ.root.id), sleepQ.root.due;
    }
  }
}
