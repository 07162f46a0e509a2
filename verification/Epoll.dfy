/** Reference counts and kernel registrations of the epoll event system (event.c).

    Every descriptor carries three counts, one for each kind of event, and the
    kernel must be asked for exactly the kinds whose count is not zero.  The
    ledger `l` of a lemma is the list of poll entries that should be counted. */
module Epoll {
  import opened PollTypes

  datatype FdData = FdData(rd: int, wr: int, ex: int, revents: Bits)

  /** `fd` is the descriptor table, `kernel` the interest set inside the
      kernel, `cnt` the number of registered descriptors we believe in. */
  datatype Ep = Ep(fd: seq<FdData>, kernel: map<int, Bits>, cnt: int)

  const UNUSED := FdData(0, 0, 0, NO_BITS)

  /** `_ST_EPOLL_EVENTS` */
  function Mask(d: FdData): Bits {
    Bits(d.rd != 0, d.wr != 0, d.ex != 0, false, false)
  }

  function Bump(d: FdData, events: Bits, delta: int): FdData {
    d.(rd := if events.rd then d.rd + delta else d.rd,
       wr := if events.wr then d.wr + delta else d.wr,
       ex := if events.pri then d.ex + delta else d.ex)
  }

  /** The count for one kind of event. */
  function CountOf(d: FdData, k: Kind): int {
    match k
    case Rd => d.rd
    case Wr => d.wr
    case Ex => d.ex
  }

  predicate Known(ep: Ep, pd: PollFd) {
    0 <= pd.fd < |ep.fd|
  }

  predicate InTable(pds: seq<PollFd>, size: nat) {
    forall i :: 0 <= i < |pds| ==> 0 <= pds[i].fd < size
  }

  // ------------------------------------------------------------ operations

  /** epoll_ctl with EPOLL_CTL_MOD or, for an empty mask, EPOLL_CTL_DEL.
      Both need the descriptor to be registered, and then succeed. */
  function ModOrDel(ep: Ep, fd: int, events: Bits): Ep {
    if fd !in ep.kernel then ep
    else if events != NO_BITS then ep.(kernel := ep.kernel[fd := events])
    else ep.(kernel := ep.kernel - {fd}, cnt := ep.cnt - 1)
  }

  /** One entry of `_st_epoll_pollset_del`.  A descriptor that has just fired
      is left alone: the end of the dispatch looks after it. */
  function Del1(ep: Ep, pd: PollFd): (r: Ep)
    requires Known(ep, pd)
    ensures |r.fd| == |ep.fd|
  {
    var d := ep.fd[pd.fd];
    var d' := Bump(d, pd.events, -1);
    var ep' := ep.(fd := ep.fd[pd.fd := d']);
    if Mask(d') != Mask(d) && d.revents == NO_BITS then ModOrDel(ep', pd.fd, Mask(d')) else ep'
  }

  /** `_st_epoll_pollset_del` */
  function Del(ep: Ep, pds: seq<PollFd>): (r: Ep)
    requires InTable(pds, |ep.fd|)
    ensures |r.fd| == |ep.fd|
    decreases |pds|
  {
    if pds == [] then ep
    else
      Del(Del1(ep, pds[0]), pds[1..])
  }

  datatype Added = Added(ep: Ep, ok: bool)

  /** One entry of the main loop of `_st_epoll_pollset_add`.  `fails` says that
      the kernel refuses the epoll_ctl call, if one is made. */
  function Add1(ep: Ep, pd: PollFd, fails: bool): (r: Added)
    requires Known(ep, pd)
    ensures |r.ep.fd| == |ep.fd|
  {
    var d := ep.fd[pd.fd];
    var d' := Bump(d, pd.events, 1);
    var ep' := ep.(fd := ep.fd[pd.fd := d']);
    if Mask(d') == Mask(d) then Added(ep', true)
    else if fails then Added(ep', false)
    else if Mask(d) != NO_BITS then // EPOLL_CTL_MOD
      if pd.fd in ep.kernel then Added(ep'.(kernel := ep.kernel[pd.fd := Mask(d')]), true) else Added(ep', false)
    else // EPOLL_CTL_ADD
      if pd.fd in ep.kernel then Added(ep', false)
      else Added(ep'.(kernel := ep.kernel[pd.fd := Mask(d')], cnt := ep.cnt + 1), true)
  }

  /** The size of a table that is doubled until it has room for `maxfd`. */
  function GrownSize(n: nat, maxfd: int): (r: nat)
    requires n > 0
    ensures r > maxfd && r >= n
    decreases maxfd - n
  {
    if maxfd >= n then GrownSize(2 * n, maxfd) else n
  }

  /** `_st_epoll_fd_data_expand` */
  function Expand(ep: Ep, fd: int): (r: Ep)
    requires |ep.fd| > 0
    ensures |r.fd| >= |ep.fd| && fd < |r.fd|
  {
    if fd < |ep.fd| then ep
    else ep.(fd := ep.fd + seq(GrownSize(|ep.fd|, fd) - |ep.fd|, _ => UNUSED))
  }

  /** The checks up front, which also make room in the descriptor table. */
  function Check(ep: Ep, pds: seq<PollFd>): (r: Added)
    requires |ep.fd| > 0
    ensures |r.ep.fd| >= |ep.fd|
    ensures r.ok ==> InTable(pds, |r.ep.fd|) && forall i :: 0 <= i < |pds| ==> Acceptable(pds[i])
    decreases |pds|
  {
    if pds == [] then Added(ep, true)
    else if !Acceptable(pds[0]) then Added(ep, false)
    else Check(Expand(ep, pds[0].fd), pds[1..])
  }

  /** The main loop from entry i on; a refused call unrolls entries 0..i. */
  function AddFrom(ep: Ep, pds: seq<PollFd>, i: nat, fails: set<nat>): (r: Added)
    requires i <= |pds| && InTable(pds, |ep.fd|)
    ensures |r.ep.fd| == |ep.fd|
    decreases |pds| - i
  {
    if i == |pds| then Added(ep, true)
    else
      var a := Add1(ep, pds[i], i in fails);
      if a.ok then AddFrom(a.ep, pds, i + 1, fails)
      else Added(Del(a.ep, pds[..i + 1]), false)
  }

  /** `_st_epoll_pollset_add`; `fails` are the entries at which the kernel
      would refuse. */
  function Add(ep: Ep, pds: seq<PollFd>, fails: set<nat>): Added
    requires |ep.fd| > 0
  {
    var c := Check(ep, pds);
    if c.ok then AddFrom(c.ep, pds, 0, fails) else c
  }

  // ------------------------------------------------------------- dispatch

  /** One event returned by epoll_wait. */
  datatype Fired = Fired(fd: int, events: Bits)

  function Merge(a: Bits, b: Bits): Bits {
    Bits(a.rd || b.rd, a.wr || b.wr, a.pri || b.pri, a.err || b.err, a.hup || b.hup)
  }

  /** Notes what fired; an error also counts as every event waited for. */
  function Fire(ep: Ep, fired: seq<Fired>): (r: Ep)
    requires forall i :: 0 <= i < |fired| ==> 0 <= fired[i].fd < |ep.fd|
    ensures |r.fd| == |ep.fd|
    decreases |fired|
  {
    if fired == [] then ep
    else
      var f, ev := fired[0].fd, fired[0].events;
      var rev := if ev.err || ev.hup then Merge(ev, Mask(ep.fd[f])) else ev;
      Fire(ep.(fd := ep.fd[f := ep.fd[f].(revents := rev)]), fired[1..])
  }

  /** What a waiting entry is told. */
  function Revents(ep: Ep, pd: PollFd): Bits
    requires Known(ep, pd)
  {
    var rev := ep.fd[pd.fd].revents;
    Bits(pd.events.rd && rev.rd, pd.events.wr && rev.wr, pd.events.pri && rev.pri, rev.err, rev.hup)
  }

  function Told(ep: Ep, pds: seq<PollFd>): (r: seq<PollFd>)
    requires InTable(pds, |ep.fd|)
    ensures |r| == |pds|
    ensures forall i :: 0 <= i < |r| ==> r[i] == pds[i].(revents := Revents(ep, pds[i]))
    decreases |pds|
  {
    if pds == [] then [] else [pds[0].(revents := Revents(ep, pds[0]))] + Told(ep, pds[1..])
  }

  predicate Notified(pds: seq<PollFd>) {
    exists i :: 0 <= i < |pds| && pds[i].revents != NO_BITS
  }

  /** The end of the dispatch: every descriptor that fired is registered for
      what is still wanted of it, or not at all. */
  function Settle(ep: Ep, fired: seq<Fired>): (r: Ep)
    requires forall i :: 0 <= i < |fired| ==> 0 <= fired[i].fd < |ep.fd|
    ensures |r.fd| == |ep.fd|
    decreases |fired|
  {
    if fired == [] then ep
    else
      var f := fired[0].fd;
      var ep' := ep.(fd := ep.fd[f := ep.fd[f].(revents := NO_BITS)]);
      Settle(ModOrDel(ep', f, Mask(ep'.fd[f])), fired[1..])
  }

  /** What the kernel promises of the events it returns. */
  ghost predicate KernelReports(ep: Ep, fired: seq<Fired>) {
    && (forall i :: 0 <= i < |fired| ==> fired[i].fd in ep.kernel && fired[i].events != NO_BITS)
    && (forall i, j :: 0 <= i < j < |fired| ==> fired[i].fd != fired[j].fd)
  }

  // ------------------------------------------------------------- agreement

  /** The counts of every descriptor are those of the ledger. */
  ghost predicate Counted(ep: Ep, l: seq<PollFd>) {
    && (forall f :: 0 <= f < |ep.fd| ==>
          && ep.fd[f].rd == Asks(l, f, Rd)
          && ep.fd[f].wr == Asks(l, f, Wr)
          && ep.fd[f].ex == Asks(l, f, Ex))
    && InTable(l, |ep.fd|)
  }

  /** The kernel has been asked for exactly what descriptor f counts. */
  ghost predicate Synced(ep: Ep, f: int) {
    && (if 0 <= f < |ep.fd| && Mask(ep.fd[f]) != NO_BITS
        then f in ep.kernel && ep.kernel[f] == Mask(ep.fd[f])
        else f !in ep.kernel)
    && (0 <= f < |ep.fd| ==> ep.fd[f].revents == NO_BITS)
  }

  /** A descriptor that has fired: still registered, but its registration may
      have fallen behind its counts. */
  ghost predicate Firing(ep: Ep, f: int) {
    0 <= f < |ep.fd| && f in ep.kernel && ep.fd[f].revents != NO_BITS
  }

  /** The state in the middle of a dispatch in which the descriptors of
      `firing` have fired. */
  ghost predicate AgreesWhile(ep: Ep, l: seq<PollFd>, firing: set<int>) {
    && Counted(ep, l)
    && (forall f :: f !in firing ==> Synced(ep, f))
    && (forall f :: f in firing ==> Firing(ep, f))
    && ep.cnt == |ep.kernel|
  }

  /** Counts, kernel registrations and their number all agree with the ledger,
      and nothing is marked as fired: how things are outside a dispatch. */
  ghost predicate Agrees(ep: Ep, l: seq<PollFd>) {
    AgreesWhile(ep, l, {})
  }

  /** As `Agrees`, except for what the kernel knows about descriptor `f0`. */
  ghost predicate AgreesBut(ep: Ep, l: seq<PollFd>, f0: int) {
    && Counted(ep, l)
    && (forall f :: f != f0 ==> Synced(ep, f))
    && (0 <= f0 < |ep.fd| ==> ep.fd[f0].revents == NO_BITS)
    && ep.cnt == |ep.kernel|
  }

  lemma Add1Keeps(ep: Ep, l: seq<PollFd>, pd: PollFd, fails: bool)
    requires Agrees(ep, l) && Known(ep, pd)
    ensures var a := Add1(ep, pd, fails);
      && (a.ok ==> Agrees(a.ep, l + [pd]))
      && (!a.ok ==> AgreesBut(a.ep, l + [pd], pd.fd) && a.ep.kernel == ep.kernel && Wanted(l + [pd], pd.fd) != Wanted(l, pd.fd))
      && (!fails ==> a.ok)
  {
    hide Asks;
    OneMoreAt(l, pd, []);
    assert l + [] == l && l + [pd] + [] == l + [pd];
    assert Synced(ep, pd.fd);
    var a := Add1(ep, pd, fails);
    forall f | f != pd.fd
      ensures Synced(a.ep, f)
    {
      assert Synced(ep, f);
    }
  }

  /** Taking an entry out of the ledger, inside a dispatch or outside. */
  lemma Del1Keeps(ep: Ep, l: seq<PollFd>, pd: PollFd, l': seq<PollFd>, firing: set<int>)
    requires AgreesWhile(ep, l', firing) && OneMore(l, pd, l') && Known(ep, pd)
    ensures AgreesWhile(Del1(ep, pd), l, firing)
  {
    var r := Del1(ep, pd);
    forall f | f !in firing
      ensures Synced(r, f)
    {
      assert Synced(ep, f);
    }
    forall f | f in firing
      ensures Firing(r, f)
    {
      assert Firing(ep, f);
    }
    assert pd.fd !in firing ==> Synced(ep, pd.fd);
    InTableLess(l, pd, l', |ep.fd|);
  }

  lemma InTableLess(l: seq<PollFd>, pd: PollFd, l': seq<PollFd>, size: nat)
    requires OneMore(l, pd, l') && InTable(l', size)
    ensures InTable(l, size) && 0 <= pd.fd < size
  {
    forall i | 0 <= i < |l|
      ensures 0 <= l[i].fd < size
    {
      assert l[i] in l';
    }
  }

  lemma {:induction false} DelKeeps(ep: Ep, a: seq<PollFd>, pds: seq<PollFd>, b: seq<PollFd>, firing: set<int>)
    requires AgreesWhile(ep, a + pds + b, firing) && InTable(pds, |ep.fd|)
    ensures AgreesWhile(Del(ep, pds), a + b, firing)
    decreases |pds|
  {
    if pds == [] {
      assert a + pds + b == a + b;
    } else {
      OneMoreAt(a, pds[0], pds[1..] + b);
      assert a + pds + b == a + [pds[0]] + (pds[1..] + b);
      Del1Keeps(ep, a + (pds[1..] + b), pds[0], a + pds + b, firing);
      assert a + (pds[1..] + b) == a + pds[1..] + b;
      DelKeeps(Del1(ep, pds[0]), a, pds[1..], b, firing);
    }
  }

  // ------------------------------------------------- a refused pollset_add

  /** Undoing an entry while something else keeps descriptor f0 wanted. */
  lemma UndoEarlier(ep: Ep, l: seq<PollFd>, pd: PollFd, l': seq<PollFd>, f0: int)
    requires AgreesBut(ep, l', f0) && OneMore(l, pd, l') && Known(ep, pd)
    requires pd.fd == f0 ==> f0 in ep.kernel && Wanted(l, f0) != NO_BITS
    ensures AgreesBut(Del1(ep, pd), l, f0)
    ensures f0 in Del1(ep, pd).kernel <==> f0 in ep.kernel
  {
    var r := Del1(ep, pd);
    InTableLess(l, pd, l', |ep.fd|);
    forall f | f != f0
      ensures Synced(r, f)
    {
      assert Synced(ep, f);
    }
  }

  /** Undoing the refused entry: the mask changes, so the kernel is told. */
  lemma UndoRefused(ep: Ep, l: seq<PollFd>, pd: PollFd, l': seq<PollFd>)
    requires AgreesBut(ep, l', pd.fd) && OneMore(l, pd, l') && Known(ep, pd)
    requires Wanted(l, pd.fd) != Wanted(l', pd.fd)
    requires Wanted(l, pd.fd) != NO_BITS ==> pd.fd in ep.kernel
    ensures Agrees(Del1(ep, pd), l)
  {
    var r := Del1(ep, pd);
    InTableLess(l, pd, l', |ep.fd|);
    forall f
      ensures Synced(r, f)
    {
      assert f != pd.fd ==> Synced(ep, f);
    }
  }

  /** Undoing the entries j.. of `p`, whose last entry was refused.  Until that
      entry itself is undone its events keep the descriptor registered, if it
      was. */
  lemma {:induction false} UnrollKeeps(ep: Ep, l: seq<PollFd>, p: seq<PollFd>, j: nat)
    requires j < |p| && InTable(p, |ep.fd|)
    requires AgreesBut(ep, l + p[j..], p[|p| - 1].fd)
    requires p[|p| - 1].fd in ep.kernel <==> Wanted(l + p[..|p| - 1], p[|p| - 1].fd) != NO_BITS
    requires forall i :: 0 <= i < |p| ==> Acceptable(p[i])
    requires Wanted(l + p, p[|p| - 1].fd) != Wanted(l + p[..|p| - 1], p[|p| - 1].fd)
    ensures Agrees(Del(ep, p[j..]), l)
    decreases |p| - j
  {
    var last := |p| - 1;
    var f0 := p[last].fd;
    var pd := p[j];
    assert p[j..] == [pd] + p[j + 1..];
    assert l + p[j..] == l + [pd] + p[j + 1..];
    OneMoreAt(l, pd, p[j + 1..]);
    RefusedCounts(l, p, j, f0, Rd);
    RefusedCounts(l, p, j, f0, Wr);
    RefusedCounts(l, p, j, f0, Ex);
    if j < last {
      UndoEarlier(ep, l + p[j + 1..], pd, l + p[j..], f0);
      UnrollKeeps(Del1(ep, pd), l, p, j + 1);
    } else {
      assert p[j + 1..] == [] && l + [] == l;
      UndoRefused(ep, l, pd, l + p[j..]);
    }
  }

  lemma RefusedCounts(l: seq<PollFd>, p: seq<PollFd>, j: nat, f0: int, k: Kind)
    requires j < |p| && f0 == p[|p| - 1].fd
    ensures Asks(l + p, f0, k) == Asks(l + p[..|p| - 1], f0, k) + (if Has(p[|p| - 1].events, k) then 1 else 0)
    ensures Asks(l + p[..|p| - 1], f0, k) >= Asks(l, f0, k)
    ensures Asks(l + p[j + 1..], f0, k) == Asks(l, f0, k) + Asks(p[j + 1..], f0, k)
    ensures Asks(l + p[j..], f0, k) == Asks(l + p[j + 1..], f0, k) + if p[j].fd == f0 && Has(p[j].events, k) then 1 else 0
    ensures j < |p| - 1 && Has(p[|p| - 1].events, k) ==> Asks(p[j + 1..], f0, k) > 0
    ensures j < |p| - 1 && p[j].fd == f0 && Has(p[j].events, k) ==> Asks(l + p[..|p| - 1], f0, k) > 0
  {
    var last := |p| - 1;
    assert l + p == l + p[..last] + [p[last]];
    AsksConcat(l + p[..last], [p[last]], f0, k);
    AsksOne(p[last], f0, k);
    AsksConcat(l, p[..last], f0, k);
    AsksConcat(l, p[j + 1..], f0, k);
    AsksConcat(l, p[j..], f0, k);
    assert p[j..] == [p[j]] + p[j + 1..];
    AsksConcat([p[j]], p[j + 1..], f0, k);
    AsksOne(p[j], f0, k);
    if j < last {
      assert p[j + 1..] == p[j + 1..last] + [p[last]];
      AsksConcat(p[j + 1..last], [p[last]], f0, k);
      assert p[..last] == p[..j] + ([p[j]] + p[j + 1..last]);
      AsksConcat(p[..j], [p[j]] + p[j + 1..last], f0, k);
      AsksConcat([p[j]], p[j + 1..last], f0, k);
    }
  }

  lemma {:induction false} AddFromKeeps(ep: Ep, l: seq<PollFd>, pds: seq<PollFd>, i: nat, fails: set<nat>)
    requires i <= |pds| && InTable(pds, |ep.fd|) && Agrees(ep, l + pds[..i])
    requires forall j :: 0 <= j < |pds| ==> Acceptable(pds[j])
    ensures var r := AddFrom(ep, pds, i, fails);
      Agrees(r.ep, if r.ok then l + pds else l) && (fails == {} ==> r.ok)
    decreases |pds| - i
  {
    if i == |pds| {
      assert pds[..i] == pds;
    } else {
      var done, pd := pds[..i], pds[i];
      var p := pds[..i + 1];
      assert p == done + [pd] && l + p == l + done + [pd];
      Add1Keeps(ep, l + done, pd, i in fails);
      var a := Add1(ep, pd, i in fails);
      if a.ok {
        AddFromKeeps(a.ep, l, pds, i + 1, fails);
      } else {
        assert Synced(ep, pd.fd);
        assert p[0..] == p && p[..|p| - 1] == done;
        UnrollKeeps(a.ep, l, p, 0);
      }
    }
  }

  /** The checks let through exactly what is acceptable. */
  lemma {:induction false} CheckAccepts(ep: Ep, pds: seq<PollFd>)
    requires |ep.fd| > 0
    ensures Check(ep, pds).ok <==> AllAcceptable(pds)
    decreases |pds|
  {
    if pds == [] {
    } else {
      assert AllAcceptable(pds) <==> Acceptable(pds[0]) && AllAcceptable(pds[1..]) by {
        assert forall i :: 0 <= i < |pds[1..]| ==> pds[1..][i] == pds[i + 1];
        assert forall i :: 1 <= i < |pds| ==> pds[i] == pds[1..][i - 1];
      }
      CheckAccepts(Expand(ep, pds[0].fd), pds[1..]);
    }
  }

  lemma {:induction false} CheckKeeps(ep: Ep, l: seq<PollFd>, pds: seq<PollFd>)
    requires |ep.fd| > 0 && Agrees(ep, l)
    ensures Agrees(Check(ep, pds).ep, l)
    ensures Check(ep, pds).ok <==> forall i :: 0 <= i < |pds| ==> Acceptable(pds[i])
    ensures Check(ep, pds).ep.kernel == ep.kernel && Check(ep, pds).ep.cnt == ep.cnt
    decreases |pds|
  {
    if pds == [] || !Acceptable(pds[0]) {
    } else {
      var e := Expand(ep, pds[0].fd);
      assert forall f :: |ep.fd| <= f < |e.fd| ==> e.fd[f] == UNUSED;
      forall f | |ep.fd| <= f < |e.fd|
        ensures Asks(l, f, Rd) == Asks(l, f, Wr) == Asks(l, f, Ex) == 0
      {
        AsksAbove(l, |ep.fd|, f);
      }
      forall f
        ensures Synced(e, f)
      {
        assert Synced(ep, f);
      }
      CheckKeeps(e, l, pds[1..]);
      assert (forall i :: 0 <= i < |pds| ==> Acceptable(pds[i])) <==> (forall i :: 0 <= i < |pds[1..]| ==> Acceptable(pds[1..][i])) by {
        assert forall i :: 0 <= i < |pds[1..]| ==> pds[1..][i] == pds[i + 1];
        assert forall i :: 1 <= i < |pds| ==> pds[i] == pds[1..][i - 1];
      }
    }
  }

  lemma {:induction false} AsksAbove(l: seq<PollFd>, size: nat, f: int)
    requires InTable(l, size) && f >= size
    ensures forall k :: Asks(l, f, k) == 0
  {
    if l == [] {
    } else {
      AsksAbove(l[1..], size, f);
    }
  }

  /** A pollset_add either counts all its entries or, whether they were not
      acceptable or the kernel refused at any one of them, leaves counts,
      registrations and their number as they were. */
  lemma AddIsAtomic(ep: Ep, l: seq<PollFd>, pds: seq<PollFd>, fails: set<nat>)
    requires |ep.fd| > 0 && Agrees(ep, l)
    ensures var r := Add(ep, pds, fails);
      && Agrees(r.ep, if r.ok then l + pds else l)
      && |r.ep.fd| >= |ep.fd|
      && (r.ok ==> forall i :: 0 <= i < |pds| ==> Acceptable(pds[i]))
      && (fails == {} && (forall i :: 0 <= i < |pds| ==> Acceptable(pds[i])) ==> r.ok)
  {
    CheckKeeps(ep, l, pds);
    var c := Check(ep, pds);
    if c.ok {
      assert l + pds[..0] == l;
      AddFromKeeps(c.ep, l, pds, 0, fails);
    }
  }

  /** The ledger determines everything but the size of the table. */
  lemma LedgerDetermines(a: Ep, b: Ep, l: seq<PollFd>)
    requires Agrees(a, l) && Agrees(b, l)
    ensures a.kernel == b.kernel && a.cnt == b.cnt
    ensures forall f :: 0 <= f < |a.fd| && f < |b.fd| ==> a.fd[f] == b.fd[f]
    ensures forall f :: |a.fd| <= f < |b.fd| ==> b.fd[f] == UNUSED
  {
    forall f
      ensures 0 <= f < |a.fd| && f < |b.fd| ==> a.fd[f] == b.fd[f]
      ensures |a.fd| <= f < |b.fd| ==> b.fd[f] == UNUSED
      ensures |b.fd| <= f < |a.fd| ==> a.fd[f] == UNUSED
    {
      assert Synced(a, f) && Synced(b, f);
      if f >= |a.fd| {
        AsksAbove(l, |a.fd|, f);
      } else if f >= |b.fd| {
        AsksAbove(l, |b.fd|, f);
      }
    }
    forall f
      ensures f in a.kernel.Keys <==> f in b.kernel.Keys
      ensures f in a.kernel ==> f in b.kernel && a.kernel[f] == b.kernel[f]
    {
      assert Synced(a, f) && Synced(b, f);
    }
    assert a.kernel.Keys == b.kernel.Keys;
  }

  /** A refused pollset_add leaves no trace, apart from room in the table. */
  lemma RefusedAddLeavesNoTrace(ep: Ep, l: seq<PollFd>, pds: seq<PollFd>, fails: set<nat>)
    requires |ep.fd| > 0 && Agrees(ep, l) && !Add(ep, pds, fails).ok
    ensures var r := Add(ep, pds, fails).ep;
      && r.kernel == ep.kernel && r.cnt == ep.cnt
      && |r.fd| >= |ep.fd| && r.fd[..|ep.fd|] == ep.fd
      && (forall f :: |ep.fd| <= f < |r.fd| ==> r.fd[f] == UNUSED)
  {
    AddIsAtomic(ep, l, pds, fails);
    LedgerDetermines(ep, Add(ep, pds, fails).ep, l);
  }

  /** pollset_del undoes pollset_add, wherever the entries stand in the ledger. */
  lemma DelUndoesAdd(ep: Ep, l: seq<PollFd>, pds: seq<PollFd>, fails: set<nat>)
    requires |ep.fd| > 0 && Agrees(ep, l) && Add(ep, pds, fails).ok
    requires InTable(pds, |Add(ep, pds, fails).ep.fd|)
    ensures var r := Del(Add(ep, pds, fails).ep, pds);
      r.kernel == ep.kernel && r.cnt == ep.cnt && (forall f :: 0 <= f < |ep.fd| && f < |r.fd| ==> r.fd[f] == ep.fd[f])
  {
    AddIsAtomic(ep, l, pds, fails);
    var a := Add(ep, pds, fails).ep;
    assert l + pds + [] == l + pds && l + [] == l;
    DelKeeps(a, l, pds, [], {});
    LedgerDetermines(ep, Del(a, pds), l);
  }

  // -------------------------------------------------------- dispatch lemmas

  ghost function FdsOf(fired: seq<Fired>): set<int> {
    set i | 0 <= i < |fired| :: fired[i].fd
  }

  lemma {:induction false} FireKeeps(ep: Ep, l: seq<PollFd>, fired: seq<Fired>, firing: set<int>)
    requires AgreesWhile(ep, l, firing) && KernelReports(ep, fired) && FdsOf(fired) !! firing
    ensures forall i :: 0 <= i < |fired| ==> 0 <= fired[i].fd < |ep.fd|
    ensures AgreesWhile(Fire(ep, fired), l, firing + FdsOf(fired))
    decreases |fired|
  {
    forall i | 0 <= i < |fired|
      ensures 0 <= fired[i].fd < |ep.fd| && fired[i].fd !in firing
    {
      assert fired[i].fd in FdsOf(fired);
      assert Synced(ep, fired[i].fd);
    }
    if fired == [] {
      assert firing + FdsOf(fired) == firing;
    } else {
      var f, ev := fired[0].fd, fired[0].events;
      var rev := if ev.err || ev.hup then Merge(ev, Mask(ep.fd[f])) else ev;
      var ep' := ep.(fd := ep.fd[f := ep.fd[f].(revents := rev)]);
      forall g | g !in firing + {f}
        ensures Synced(ep', g)
      {
        assert Synced(ep, g);
      }
      forall g | g in firing + {f}
        ensures Firing(ep', g)
      {
        assert if g == f then Synced(ep, g) else Firing(ep, g);
      }
      var rest := fired[1..];
      forall i | 0 <= i < |rest|
        ensures rest[i] == fired[i + 1] && rest[i].fd !in firing + {f}
      {
      }
      FireKeeps(ep', l, rest, firing + {f});
      FdsOfTail(fired);
      assert firing + FdsOf(fired) == (firing + {f}) + FdsOf(rest);
    }
  }

  lemma FdsOfTail(fired: seq<Fired>)
    requires fired != []
    ensures FdsOf(fired) == {fired[0].fd} + FdsOf(fired[1..])
  {
    forall g
      ensures g in FdsOf(fired) <==> g in {fired[0].fd} + FdsOf(fired[1..])
    {
      if g in FdsOf(fired) {
        var i :| 0 <= i < |fired| && fired[i].fd == g;
        assert i > 0 ==> fired[1..][i - 1].fd == g;
      }
      if g in FdsOf(fired[1..]) {
        var i :| 0 <= i < |fired[1..]| && fired[1..][i].fd == g;
        assert fired[i + 1].fd == g;
      }
    }
  }

  /** The end of the dispatch restores full agreement. */
  lemma {:induction false} SettleKeeps(ep: Ep, l: seq<PollFd>, fired: seq<Fired>)
    requires AgreesWhile(ep, l, FdsOf(fired))
    requires forall i, j :: 0 <= i < j < |fired| ==> fired[i].fd != fired[j].fd
    ensures forall i :: 0 <= i < |fired| ==> 0 <= fired[i].fd < |ep.fd|
    ensures Agrees(Settle(ep, fired), l)
    decreases |fired|
  {
    forall i | 0 <= i < |fired|
      ensures 0 <= fired[i].fd < |ep.fd|
    {
      assert fired[i].fd in FdsOf(fired) && Firing(ep, fired[i].fd);
    }
    if fired != [] {
      var f, rest := fired[0].fd, fired[1..];
      var ep' := ep.(fd := ep.fd[f := ep.fd[f].(revents := NO_BITS)]);
      var ep'' := ModOrDel(ep', f, Mask(ep'.fd[f]));
      FdsOfTail(fired);
      assert f !in FdsOf(rest) && Firing(ep, f);
      forall g | g !in FdsOf(rest)
        ensures Synced(ep'', g)
      {
        assert g != f ==> Synced(ep, g);
      }
      forall g | g in FdsOf(rest)
        ensures Firing(ep'', g)
      {
        assert Firing(ep, g);
      }
      SettleKeeps(ep'', l, rest);
    } else {
      assert FdsOf(fired) == {};
    }
  }

  /** What an entry of the ledger is told about its descriptor: the events it
      asked for that fired, or all of them on an error, and the error itself.
      Entries on descriptors that did not fire are told nothing. */
  function Report(events: Bits, ev: Bits): Bits {
    var bad := ev.err || ev.hup;
    Bits(events.rd && (ev.rd || bad), events.wr && (ev.wr || bad), events.pri && (ev.pri || bad), ev.err, ev.hup)
  }

  /** What fired on descriptor f. */
  function EventOf(fired: seq<Fired>, f: int): Bits {
    if fired == [] then NO_BITS else if fired[0].fd == f then fired[0].events else EventOf(fired[1..], f)
  }

  lemma {:induction false} ToldAsFired(ep: Ep, l: seq<PollFd>, fired: seq<Fired>, pd: PollFd)
    requires Counted(ep, l) && pd in l && Known(ep, pd) && ep.fd[pd.fd].revents == NO_BITS
    requires forall i :: 0 <= i < |fired| ==> 0 <= fired[i].fd < |ep.fd|
    requires forall i, j :: 0 <= i < j < |fired| ==> fired[i].fd != fired[j].fd
    ensures Revents(Fire(ep, fired), pd) == Report(pd.events, EventOf(fired, pd.fd))
    decreases |fired|
  {
    if fired == [] {
    } else {
      var f, ev, rest := fired[0].fd, fired[0].events, fired[1..];
      var rev := if ev.err || ev.hup then Merge(ev, Mask(ep.fd[f])) else ev;
      var ep' := ep.(fd := ep.fd[f := ep.fd[f].(revents := rev)]);
      assert forall i :: 0 <= i < |rest| ==> rest[i] == fired[i + 1];
      if f == pd.fd {
        AsksWhatIsListed(l, pd);
        FireElsewhere(ep', rest, f);
      } else {
        ToldAsFired(ep', l, rest, pd);
      }
    }
  }

  lemma {:induction false} FireElsewhere(ep: Ep, fired: seq<Fired>, f: int)
    requires forall i :: 0 <= i < |fired| ==> 0 <= fired[i].fd < |ep.fd| && fired[i].fd != f
    requires 0 <= f < |ep.fd|
    ensures Fire(ep, fired).fd[f] == ep.fd[f]
    decreases |fired|
  {
    if fired == [] {
    } else {
      var g, ev, rest := fired[0].fd, fired[0].events, fired[1..];
      var rev := if ev.err || ev.hup then Merge(ev, Mask(ep.fd[g])) else ev;
      assert forall i :: 0 <= i < |rest| ==> rest[i] == fired[i + 1];
      FireElsewhere(ep.(fd := ep.fd[g := ep.fd[g].(revents := rev)]), rest, f);
    }
  }

  lemma {:induction false} AsksWhatIsListed(l: seq<PollFd>, pd: PollFd)
    requires pd in l
    ensures forall k :: Has(pd.events, k) ==> Asks(l, pd.fd, k) > 0
  {
    if l[0] == pd {
    } else {
      AsksWhatIsListed(l[1..], pd);
    }
  }
}