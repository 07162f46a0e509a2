/** The epoll event system as the object it is: a table of counts, updated in
    place, and the interest set inside the kernel (event.c).  Every method does
    what the function of the same name in module Epoll says. */
module EpollSystem {
  import opened Sequences
  import opened PollTypes
  import E = Epoll

  class System {
    var fdData: seq<E.FdData>
    var kernel: map<int, Bits>
    var evtlistCnt: int

    constructor (fdHint: nat)
      requires fdHint > 0
      ensures View() == E.Ep(seq(fdHint, _ => E.UNUSED), map[], 0)
    {
      fdData := seq(fdHint, _ => E.UNUSED);
      kernel, evtlistCnt := map[], 0;
    }

    function View(): E.Ep
      reads this
    {
      E.Ep(fdData, kernel, evtlistCnt)
    }

    /** The reference counts of one descriptor, up or down. */
    method Count(pd: PollFd, delta: int)
      requires 0 <= pd.fd < |fdData|
      modifies `fdData
      ensures fdData == old(fdData)[pd.fd := E.Bump(old(fdData)[pd.fd], pd.events, delta)]
    {
      var d := fdData[pd.fd];
      if pd.events.rd {
        d := d.(rd := d.rd + delta);
      }
      if pd.events.wr {
        d := d.(wr := d.wr + delta);
      }
      if pd.events.pri {
        d := d.(ex := d.ex + delta);
      }
      fdData := fdData[pd.fd := d];
    }

    /** epoll_ctl with EPOLL_CTL_MOD or EPOLL_CTL_DEL, by the new mask. */
    method ModOrDel(fd: int, events: Bits)
      modifies this
      ensures View() == E.ModOrDel(old(View()), fd, events)
    {
      if fd in kernel {
        if events != NO_BITS {
          kernel := kernel[fd := events];
        } else {
          kernel := kernel - {fd};
          evtlistCnt := evtlistCnt - 1;
        }
      }
    }

    method PollsetDel(pds: seq<PollFd>)
      requires E.InTable(pds, |fdData|)
      modifies this
      ensures View() == E.Del(old(View()), pds)
    {
      var i := 0;
      while i < |pds|
        invariant i <= |pds| && |fdData| == |old(fdData)|
        invariant E.Del(View(), pds[i..]) == E.Del(old(View()), pds)
      {
        var pd := pds[i];
        assert pds[i..] == [pd] + pds[i + 1..];
        var oldEvents := E.Mask(fdData[pd.fd]);
        Count(pd, -1);
        var events := E.Mask(fdData[pd.fd]);
        if events != oldEvents && fdData[pd.fd].revents == NO_BITS {
          ModOrDel(pd.fd, events);
        }
        i := i + 1;
      }
    }

    method FdDataExpand(maxfd: int)
      requires |fdData| > 0 && maxfd >= |fdData|
      modifies `fdData
      ensures View() == E.Expand(old(View()), maxfd)
    {
      var n := |fdData|;
      while maxfd >= n
        invariant n >= |fdData|
        invariant E.GrownSize(n, maxfd) == E.GrownSize(|fdData|, maxfd)
        decreases maxfd - n
      {
        n := 2 * n;
      }
      fdData := fdData + seq(n - |fdData|, _ => E.UNUSED);
    }

    /** The checks up front. */
    method Check(pds: seq<PollFd>) returns (ok: bool)
      requires |fdData| > 0
      modifies `fdData
      ensures E.Added(View(), ok) == E.Check(old(View()), pds)
    {
      var i := 0;
      while i < |pds|
        invariant i <= |pds| && |fdData| > 0
        invariant E.Check(View(), pds[i..]) == E.Check(old(View()), pds)
      {
        HeadTail(pds, i);
        if !Acceptable(pds[i]) {
          return false;
        }
        if pds[i].fd >= |fdData| {
          FdDataExpand(pds[i].fd);
        }
        i := i + 1;
      }
      ok := true;
    }

    /** One round of the main loop; `refused` is what the kernel would say. */
    method Register(pd: PollFd, refused: bool) returns (ok: bool)
      requires 0 <= pd.fd < |fdData|
      modifies this
      ensures E.Added(View(), ok) == E.Add1(old(View()), pd, refused)
    {
      var oldEvents := E.Mask(fdData[pd.fd]);
      Count(pd, 1);
      var events := E.Mask(fdData[pd.fd]);
      ok := true;
      if events != oldEvents {
        var add := oldEvents == NO_BITS;
        if refused || add == (pd.fd in kernel) {
          return false;
        }
        kernel := kernel[pd.fd := events];
        if add {
          evtlistCnt := evtlistCnt + 1;
        }
      }
    }

    /** `legal` says that the entries were in order: if so, it was the kernel that
        refused. */
    method PollsetAdd(pds: seq<PollFd>, fails: set<nat>) returns (ok: bool, legal: bool)
      requires |fdData| > 0
      modifies this
      ensures E.Added(View(), ok) == E.Add(old(View()), pds, fails) && legal == AllAcceptable(pds)
    {
      E.CheckAccepts(View(), pds);
      legal := Check(pds);
      if !legal {
        return false, false;
      }
      ghost var checked := View();
      var i := 0;
      while i < |pds|
        invariant i <= |pds| && |fdData| == |checked.fd|
        invariant E.AddFrom(View(), pds, i, fails) == E.AddFrom(checked, pds, 0, fails)
      {
        ok := Register(pds[i], i in fails);
        if !ok {
          // unroll the state
          PollsetDel(pds[..i + 1]);
          return;
        }
        i := i + 1;
      }
      ok := true;
    }

    /** A descriptor may be closed unless a request is waiting for it. */
    method FdClose(osfd: nat, ghost l: seq<PollFd>) returns (ok: bool)
      requires osfd < |fdData| && E.Counted(View(), l)
      ensures ok <==> forall pd :: pd in l && pd.fd == osfd ==> !pd.events.rd && !pd.events.wr && !pd.events.pri
    {
      var d := fdData[osfd];
      ok := d.rd == 0 && d.wr == 0 && d.ex == 0;
      NobodyAsks(l, osfd, Rd);
      NobodyAsks(l, osfd, Wr);
      NobodyAsks(l, osfd, Ex);
      assert ok <==> Asks(l, osfd, Rd) == 0 && Asks(l, osfd, Wr) == 0 && Asks(l, osfd, Ex) == 0;
      assert forall b: Bits :: (!b.rd && !b.wr && !b.pri) <==> (!Has(b, Rd) && !Has(b, Wr) && !Has(b, Ex));
    }

    /** After a fork: a new, empty interest set and no counts. */
    method Reset()
      modifies this
      ensures View() == E.Ep(seq(|old(fdData)|, _ => E.UNUSED), map[], 0)
    {
      kernel := map[];
      fdData := seq(|fdData|, _ => E.UNUSED);
      evtlistCnt := 0;
    }

    /** The first loop of the dispatch: notes what fired. */
    method NoteFired(fired: seq<E.Fired>)
      requires forall i :: 0 <= i < |fired| ==> 0 <= fired[i].fd < |fdData|
      modifies `fdData
      ensures View() == E.Fire(old(View()), fired)
    {
      var i := 0;
      while i < |fired|
        invariant i <= |fired| && |fdData| == |old(fdData)|
        invariant E.Fire(View(), fired[i..]) == E.Fire(old(View()), fired)
      {
        HeadTail(fired, i);
        var osfd, revents := fired[i].fd, fired[i].events;
        if revents.err || revents.hup {
          revents := E.Merge(revents, E.Mask(fdData[osfd]));
        }
        fdData := fdData[osfd := fdData[osfd].(revents := revents)];
        i := i + 1;
      }
    }

    /** What the entries of one request are told, and whether that is anything. */
    method Tell(pds: seq<PollFd>) returns (told: seq<PollFd>, notify: bool)
      requires E.InTable(pds, |fdData|)
      ensures told == E.Told(View(), pds) && (notify <==> E.Notified(told))
    {
      told, notify := [], false;
      var i := 0;
      while i < |pds|
        invariant i <= |pds| && |told| == i
        invariant forall j :: 0 <= j < i ==> told[j] == pds[j].(revents := E.Revents(View(), pds[j]))
        invariant notify <==> E.Notified(told)
      {
        var events, fired, revents := pds[i].events, fdData[pds[i].fd].revents, NO_BITS;
        if fired != NO_BITS {
          if events.rd && fired.rd {
            revents := revents.(rd := true);
          }
          if events.wr && fired.wr {
            revents := revents.(wr := true);
          }
          if events.pri && fired.pri {
            revents := revents.(pri := true);
          }
          if fired.err {
            revents := revents.(err := true);
          }
          if fired.hup {
            revents := revents.(hup := true);
          }
          if revents != NO_BITS {
            notify := true;
          }
        }
        ghost var before := told;
        told := told + [pds[i].(revents := revents)];
        NotifiedMore(before, told[i]);
        i := i + 1;
      }
    }

    /** The last loop of the dispatch: descriptors that fired are registered
        for what is still wanted of them. */
    method Settle(fired: seq<E.Fired>)
      requires forall i :: 0 <= i < |fired| ==> 0 <= fired[i].fd < |fdData|
      modifies this
      ensures View() == E.Settle(old(View()), fired)
    {
      var i := 0;
      while i < |fired|
        invariant i <= |fired| && |fdData| == |old(fdData)|
        invariant E.Settle(View(), fired[i..]) == E.Settle(old(View()), fired)
      {
        HeadTail(fired, i);
        var osfd := fired[i].fd;
        fdData := fdData[osfd := fdData[osfd].(revents := NO_BITS)];
        ModOrDel(osfd, E.Mask(fdData[osfd]));
        i := i + 1;
      }
    }
  }

  lemma NotifiedMore(pds: seq<PollFd>, pd: PollFd)
    ensures E.Notified(pds + [pd]) <==> E.Notified(pds) || pd.revents != NO_BITS
  {
    assert (pds + [pd])[|pds|] == pd;
    assert forall i :: 0 <= i < |pds| ==> (pds + [pd])[i] == pds[i];
  }

  lemma {:induction false} NobodyAsks(l: seq<PollFd>, f: int, k: Kind)
    ensures Asks(l, f, k) == 0 <==> forall pd :: pd in l && pd.fd == f ==> !Has(pd.events, k)
  {
    if l == [] {
    } else {
      NobodyAsks(l[1..], f, k);
      assert l == [l[0]] + l[1..];
    }
  }
}
