/** What a reload of the configuration announces about the ingesters and the
    transcoders of a vhost (srs_app_config.cpp). */
module ConfigReload {
  import opened ConfigTree
  import opened Wrappers
  import opened Sequences
  import opened ConfigTransform

  // -------------------------------------------------------------- comparing

  predicate EqualSelf(a: Directive, b: Directive) {
    a.name == b.name && a.args == b.args && |a.subs| == |b.subs|
  }

  /** `srs_directive_equals` */
  method Equals(a: Directive, b: Directive) returns (same: bool)
    ensures same <==> Erase(a) == Erase(b)
    decreases a
  {
    EraseParts(a, b);
    if !EqualSelf(a, b) {
      return false;
    }
    var i := 0;
    while i < |a.subs|
      invariant i <= |a.subs| && EraseAll(a.subs[..i]) == EraseAll(b.subs[..i])
    {
      EraseMore(a.subs, b.subs, i);
      var s := Equals(a.subs[i], b.subs[i]);
      if !s {
        return false;
      }
      i := i + 1;
    }
    assert a.subs[..i] == a.subs && b.subs[..i] == b.subs;
    same := true;
  }

  lemma EraseParts(a: Directive, b: Directive)
    ensures Erase(a) == Erase(b) <==> EqualSelf(a, b) && EraseAll(a.subs) == EraseAll(b.subs)
  {
    if Erase(a) == Erase(b) {
      assert Erase(a).subs == Erase(b).subs;
      assert Erase(a).name == Erase(b).name && Erase(a).args == Erase(b).args;
    }
  }

  lemma {:induction false} EraseAt(ds: seq<Directive>, i: nat)
    requires i < |ds|
    ensures EraseAll(ds)[i] == Erase(ds[i]) && EraseAll(ds[..i + 1]) == EraseAll(ds[..i]) + [Erase(ds[i])]
  {
    if i == 0 {
      assert ds[..1] == [ds[0]] && ds[..0] == [];
      assert EraseAll([ds[0]]) == [Erase(ds[0])] + EraseAll([]);
    } else {
      EraseAt(ds[1..], i - 1);
      assert ds[..i + 1][1..] == ds[1..][..i] && ds[..i][1..] == ds[1..][..i - 1];
    }
  }

  /** One more sub-directive: equal so far stays equal exactly if it is equal. */
  lemma EraseMore(a: seq<Directive>, b: seq<Directive>, i: nat)
    requires i < |a| == |b| && EraseAll(a[..i]) == EraseAll(b[..i])
    ensures EraseAll(a[..i + 1]) == EraseAll(b[..i + 1]) <==> Erase(a[i]) == Erase(b[i])
    ensures EraseAll(a) == EraseAll(b) ==> Erase(a[i]) == Erase(b[i])
  {
    EraseAt(a, i);
    EraseAt(b, i);
    var x, y := EraseAll(a[..i + 1]), EraseAll(b[..i + 1]);
    assert x[i] == Erase(a[i]) && y[i] == Erase(b[i]);
  }

  // ------------------------------------------------------------- a vhost

  /** The first directive with this name and first argument. */
  function Get(ds: seq<Directive>, kind: string, id: string): Option<Directive> {
    if ds == [] then None
    else if ds[0].name == kind && Arg0(ds[0]) == id then Some(ds[0])
    else Get(ds[1..], kind, id)
  }

  /** `get_ingest_enabled`, also of nothing. */
  predicate Enabled(conf: Option<Directive>) {
    conf.Some? && var k := Find(conf.value.subs, "enabled"); k < |conf.value.subs| && Arg0(conf.value.subs[k]) == "on"
  }

  predicate On(ds: seq<Directive>, id: string) {
    Enabled(Get(ds, "ingest", id))
  }

  /** Directive i is the first of this kind that has the id. */
  predicate FirstWithId(ds: seq<Directive>, kind: string, id: string, i: nat) {
    i < |ds| && ds[i].name == kind && Arg0(ds[i]) == id && forall j :: 0 <= j < i ==> ds[j].name != kind || Arg0(ds[j]) != id
  }

  /** Its first `enabled` says on. */
  predicate SaysOn(d: Directive, k: nat) {
    && k < |d.subs| && d.subs[k].name == "enabled" && (forall j :: 0 <= j < k ==> d.subs[j].name != "enabled")
    && d.subs[k].args != [] && d.subs[k].args[0] == "on"
  }

  lemma {:induction false} GetFirst(ds: seq<Directive>, kind: string, id: string) returns (i: nat)
    ensures match Get(ds, kind, id)
      case Some(d) => FirstWithId(ds, kind, id, i) && ds[i] == d
      case None => forall j :: 0 <= j < |ds| ==> ds[j].name != kind || Arg0(ds[j]) != id
  {
    i := 0;
    if ds == [] || (ds[0].name == kind && Arg0(ds[0]) == id) {
    } else {
      i := GetFirst(ds[1..], kind, id);
      assert forall j :: 0 < j < |ds| ==> ds[j] == ds[1..][j - 1];
      i := i + 1;
    }
  }

  /** An ingester is on exactly if the first `enabled` of the first one with its
      id says so. */
  lemma OnExactly(ds: seq<Directive>, id: string)
    ensures On(ds, id) <==> exists i: nat, k: nat :: FirstWithId(ds, "ingest", id, i) && SaysOn(ds[i], k)
  {
    var i := GetFirst(ds, "ingest", id);
    if On(ds, id) {
      assert SaysOn(ds[i], Find(ds[i].subs, "enabled"));
    }
    if j: nat, k: nat :| FirstWithId(ds, "ingest", id, j) && SaysOn(ds[j], k) {
      assert i < |ds| && ds[j].name == "ingest";
      assert !(i < j) && !(j < i);
      assert ds[i].subs[k].name == "enabled" && Find(ds[i].subs, "enabled") == k;
    }
  }

  /** The directives of one kind, in order. */
  function AllOf(ds: seq<Directive>, kind: string): (r: seq<Directive>)
    ensures forall i :: 0 <= i < |r| ==> r[i].name == kind
  {
    if ds == [] then [] else (if ds[0].name == kind then [ds[0]] else []) + AllOf(ds[1..], kind)
  }

  /** No two directives of the kind have the same first argument. */
  ghost predicate UniqueIds(ds: seq<Directive>, kind: string) {
    forall i, j :: 0 <= i < j < |ds| && ds[i].name == kind && ds[j].name == kind ==> Arg0(ds[i]) != Arg0(ds[j])
  }

  lemma {:induction false} GetIsIn(ds: seq<Directive>, kind: string, id: string)
    ensures var c := Get(ds, kind, id); c.Some? ==> c.value in AllOf(ds, kind) && Arg0(c.value) == id
    ensures Get(ds, kind, id) == None ==> forall d :: d in AllOf(ds, kind) ==> Arg0(d) != id
  {
    if ds == [] {
    } else {
      GetIsIn(ds[1..], kind, id);
      assert AllOf(ds, kind) == (if ds[0].name == kind then [ds[0]] else []) + AllOf(ds[1..], kind);
    }
  }

  lemma {:induction false} AllOfMembers(ds: seq<Directive>, kind: string, d: Directive)
    ensures d in AllOf(ds, kind) <==> d in ds && d.name == kind
  {
    if ds == [] {
    } else {
      AllOfMembers(ds[1..], kind, d);
      assert ds == [ds[0]] + ds[1..];
    }
  }

  /** With unique ids, each directive is the one that is found by its id. */
  lemma {:induction false} GetUnique(ds: seq<Directive>, kind: string, d: Directive)
    requires UniqueIds(ds, kind) && d in AllOf(ds, kind)
    ensures Get(ds, kind, Arg0(d)) == Some(d)
  {
    AllOfMembers(ds, kind, d);
    if ds[0] == d {
    } else {
      assert d in ds[1..];
      var i :| 0 <= i < |ds| && ds[i] == d;
      assert ds[0].name == kind ==> Arg0(ds[0]) != Arg0(d);
      assert forall a :: 0 <= a < |ds[1..]| ==> ds[1..][a] == ds[a + 1];
      AllOfMembers(ds[1..], kind, d);
      GetUnique(ds[1..], kind, d);
    }
  }

  lemma {:induction false} IdsDiffer(ds: seq<Directive>, kind: string)
    requires UniqueIds(ds, kind)
    ensures forall i, j :: 0 <= i < j < |AllOf(ds, kind)| ==> Arg0(AllOf(ds, kind)[i]) != Arg0(AllOf(ds, kind)[j])
  {
    if ds == [] {
    } else {
      assert forall a :: 0 <= a < |ds[1..]| ==> ds[1..][a] == ds[a + 1];
      IdsDiffer(ds[1..], kind);
      var rest := AllOf(ds[1..], kind);
      forall j | 0 <= j < |rest|
        ensures ds[0].name == kind ==> Arg0(ds[0]) != Arg0(rest[j])
      {
        AllOfMembers(ds[1..], kind, rest[j]);
        var a :| 0 <= a < |ds[1..]| && ds[1..][a] == rest[j];
        assert ds[a + 1] == rest[j];
      }
    }
  }

  // --------------------------------------------------------- announcements

  datatype Notice = Removed(id: string) | Added(id: string) | Updated(id: string) | Transcode(vhost: string)

  /** A notice as it reached one of the subscribers. */
  datatype Delivery = Delivery(subscriber: nat, notice: Notice)

  /** The ids of `ds` for which something holds, as notices of one sort. */
  function RemovedOf(ds: seq<Directive>, newDirs: seq<Directive>): seq<Notice> {
    if ds == [] then []
    else (if Enabled(Some(ds[0])) && !On(newDirs, Arg0(ds[0])) then [Removed(Arg0(ds[0]))] else []) + RemovedOf(ds[1..], newDirs)
  }

  function AddedOf(ds: seq<Directive>, oldDirs: seq<Directive>): seq<Notice> {
    if ds == [] then []
    else (if !On(oldDirs, Arg0(ds[0])) && Enabled(Some(ds[0])) then [Added(Arg0(ds[0]))] else []) + AddedOf(ds[1..], oldDirs)
  }

  predicate Changed(d: Directive, oldDirs: seq<Directive>) {
    On(oldDirs, Arg0(d)) && Enabled(Some(d)) && Erase(d) != Erase(Get(oldDirs, "ingest", Arg0(d)).value)
  }

  function UpdatedOf(ds: seq<Directive>, oldDirs: seq<Directive>): seq<Notice> {
    if ds == [] then []
    else (if Changed(ds[0], oldDirs) then [Updated(Arg0(ds[0]))] else []) + UpdatedOf(ds[1..], oldDirs)
  }

  /** Everything that a reload of the ingesters announces. */
  function Notices(newDirs: seq<Directive>, oldDirs: seq<Directive>): seq<Notice> {
    RemovedOf(AllOf(oldDirs, "ingest"), newDirs) + AddedOf(AllOf(newDirs, "ingest"), oldDirs) + UpdatedOf(AllOf(newDirs, "ingest"), oldDirs)
  }

  // ------------------------------------------------------------- meaning

  lemma {:induction false} RemovedMembers(ds: seq<Directive>, newDirs: seq<Directive>, n: Notice)
    ensures n in RemovedOf(ds, newDirs) <==> n.Removed? && exists d :: d in ds && Arg0(d) == n.id && Enabled(Some(d)) && !On(newDirs, n.id)
  {
    if ds == [] {
    } else {
      RemovedMembers(ds[1..], newDirs, n);
      assert ds == [ds[0]] + ds[1..];
    }
  }

  lemma {:induction false} AddedMembers(ds: seq<Directive>, oldDirs: seq<Directive>, n: Notice)
    ensures n in AddedOf(ds, oldDirs) <==> n.Added? && exists d :: d in ds && Arg0(d) == n.id && Enabled(Some(d)) && !On(oldDirs, n.id)
  {
    if ds == [] {
    } else {
      AddedMembers(ds[1..], oldDirs, n);
      assert ds == [ds[0]] + ds[1..];
    }
  }

  lemma {:induction false} UpdatedMembers(ds: seq<Directive>, oldDirs: seq<Directive>, n: Notice)
    ensures n in UpdatedOf(ds, oldDirs) <==> n.Updated? && exists d :: d in ds && Arg0(d) == n.id && Changed(d, oldDirs)
  {
    if ds == [] {
    } else {
      UpdatedMembers(ds[1..], oldDirs, n);
      assert ds == [ds[0]] + ds[1..];
    }
  }

  /** With unique ids, an ingester is on if and only if it is among those found. */
  lemma OnMeans(ds: seq<Directive>, id: string)
    requires UniqueIds(ds, "ingest")
    ensures On(ds, id) <==> exists d :: d in AllOf(ds, "ingest") && Arg0(d) == id && Enabled(Some(d))
  {
    GetIsIn(ds, "ingest", id);
    forall d | d in AllOf(ds, "ingest") && Arg0(d) == id
      ensures Get(ds, "ingest", id) == Some(d)
    {
      GetUnique(ds, "ingest", d);
    }
  }

  /** A reload announces as removed exactly what was on and is off, as added
      what was off and is on, and as updated what is on in both and differs;
      so what was on, without what is removed and with what is added, is what
      is on now. */
  lemma NoticesMean(newDirs: seq<Directive>, oldDirs: seq<Directive>, id: string)
    requires UniqueIds(newDirs, "ingest") && UniqueIds(oldDirs, "ingest")
    ensures var n := Notices(newDirs, oldDirs);
      && (Removed(id) in n <==> On(oldDirs, id) && !On(newDirs, id))
      && (Added(id) in n <==> !On(oldDirs, id) && On(newDirs, id))
      && (Updated(id) in n <==>
            (On(oldDirs, id) && On(newDirs, id) && Erase(Get(oldDirs, "ingest", id).value) != Erase(Get(newDirs, "ingest", id).value)))
      && ((On(oldDirs, id) && Removed(id) !in n) || Added(id) in n <==> On(newDirs, id))
  {
    OnMeans(oldDirs, id);
    OnMeans(newDirs, id);
    var o, w := AllOf(oldDirs, "ingest"), AllOf(newDirs, "ingest");
    forall n | n == Removed(id) || n == Added(id) || n == Updated(id)
      ensures n in Notices(newDirs, oldDirs) <==> n in RemovedOf(o, newDirs) || n in AddedOf(w, oldDirs) || n in UpdatedOf(w, oldDirs)
    {
    }
    NoticeIn(o, w, newDirs, oldDirs, Removed(id));
    NoticeIn(o, w, newDirs, oldDirs, Added(id));
    NoticeIn(o, w, newDirs, oldDirs, Updated(id));
    GetIsIn(newDirs, "ingest", id);
    forall d | d in w && Arg0(d) == id
      ensures Get(newDirs, "ingest", id) == Some(d)
    {
      GetUnique(newDirs, "ingest", d);
    }
  }

  lemma NoticeIn(o: seq<Directive>, w: seq<Directive>, newDirs: seq<Directive>, oldDirs: seq<Directive>, n: Notice)
    ensures n in RemovedOf(o, newDirs) <==> n.Removed? && exists d :: d in o && Arg0(d) == n.id && Enabled(Some(d)) && !On(newDirs, n.id)
    ensures n in AddedOf(w, oldDirs) <==> n.Added? && exists d :: d in w && Arg0(d) == n.id && Enabled(Some(d)) && !On(oldDirs, n.id)
    ensures n in UpdatedOf(w, oldDirs) <==> n.Updated? && exists d :: d in w && Arg0(d) == n.id && Changed(d, oldDirs)
  {
    RemovedMembers(o, newDirs, n);
    AddedMembers(w, oldDirs, n);
    UpdatedMembers(w, oldDirs, n);
  }

  /** How often an id is announced. */
  function Times(ns: seq<Notice>, id: string): nat {
    if ns == [] then 0 else Times(ns[1..], id) + if !ns[0].Transcode? && ns[0].id == id then 1 else 0
  }

  lemma {:induction false} TimesConcat(a: seq<Notice>, b: seq<Notice>, id: string)
    ensures Times(a + b, id) == Times(a, id) + Times(b, id)
  {
    if a == [] {
      assert a + b == b;
    } else {
      assert (a + b)[1..] == a[1..] + b;
      TimesConcat(a[1..], b, id);
    }
  }

  lemma {:induction false} TimesAbsent(ns: seq<Notice>, id: string)
    requires forall n :: n in ns ==> n.Transcode? || n.id != id
    ensures Times(ns, id) == 0
  {
    if ns == [] {
    } else {
      TimesAbsent(ns[1..], id);
    }
  }

  ghost predicate DifferentIds(ds: seq<Directive>) {
    forall i, j :: 0 <= i < j < |ds| ==> Arg0(ds[i]) != Arg0(ds[j])
  }

  lemma TailIds(ds: seq<Directive>)
    requires ds != [] && DifferentIds(ds)
    ensures DifferentIds(ds[1..]) && forall d :: d in ds[1..] ==> Arg0(d) != Arg0(ds[0])
  {
    var tail := ds[1..];
    assert forall i, j :: 0 <= i < j < |tail| ==> tail[i] == ds[i + 1] && tail[j] == ds[j + 1];
    forall d | d in tail
      ensures Arg0(d) != Arg0(ds[0])
    {
      var j :| 0 <= j < |tail| && tail[j] == d;
      assert ds[j + 1] == d;
    }
  }

  predicate HasId(ds: seq<Directive>, id: string) {
    exists d :: d in ds && Arg0(d) == id
  }

  lemma HasIdCons(ds: seq<Directive>, id: string)
    requires ds != []
    ensures HasId(ds, id) <==> Arg0(ds[0]) == id || HasId(ds[1..], id)
  {
    assert ds[0] in ds && forall d :: d in ds <==> d == ds[0] || d in ds[1..];
  }

  lemma {:induction false} RemovedOnce(ds: seq<Directive>, other: seq<Directive>, id: string)
    requires DifferentIds(ds)
    ensures Times(RemovedOf(ds, other), id) <= if HasId(ds, id) then 1 else 0
  {
    if ds == [] {
    } else {
      TailIds(ds);
      HasIdCons(ds, id);
      RemovedOnce(ds[1..], other, id);
      TimesCons(Removed(Arg0(ds[0])), RemovedOf(ds[1..], other), id);
    }
  }

  lemma {:induction false} AddedOnce(ds: seq<Directive>, other: seq<Directive>, id: string)
    requires DifferentIds(ds)
    ensures Times(AddedOf(ds, other), id) <= if HasId(ds, id) then 1 else 0
  {
    if ds == [] {
    } else {
      TailIds(ds);
      HasIdCons(ds, id);
      AddedOnce(ds[1..], other, id);
      TimesCons(Added(Arg0(ds[0])), AddedOf(ds[1..], other), id);
    }
  }

  lemma {:induction false} UpdatedOnce(ds: seq<Directive>, other: seq<Directive>, id: string)
    requires DifferentIds(ds)
    ensures Times(UpdatedOf(ds, other), id) <= if HasId(ds, id) then 1 else 0
  {
    if ds == [] {
    } else {
      TailIds(ds);
      HasIdCons(ds, id);
      UpdatedOnce(ds[1..], other, id);
      TimesCons(Updated(Arg0(ds[0])), UpdatedOf(ds[1..], other), id);
    }
  }

  lemma TimesCons(n: Notice, ns: seq<Notice>, id: string)
    ensures Times([n] + ns, id) == Times(ns, id) + (if !n.Transcode? && n.id == id then 1 else 0)
    ensures [] + ns == ns
  {
    assert ([n] + ns)[1..] == ns;
  }

  /** Each id is announced at most once. */
  lemma AnnouncedAtMostOnce(newDirs: seq<Directive>, oldDirs: seq<Directive>, id: string)
    requires UniqueIds(newDirs, "ingest") && UniqueIds(oldDirs, "ingest")
    ensures Times(Notices(newDirs, oldDirs), id) <= 1
  {
    var o, w := AllOf(oldDirs, "ingest"), AllOf(newDirs, "ingest");
    IdsDiffer(oldDirs, "ingest");
    IdsDiffer(newDirs, "ingest");
    RemovedOnce(o, newDirs, id);
    AddedOnce(w, oldDirs, id);
    UpdatedOnce(w, oldDirs, id);
    var r, a, u := RemovedOf(o, newDirs), AddedOf(w, oldDirs), UpdatedOf(w, oldDirs);
    TimesConcat(r + a, u, id);
    TimesConcat(r, a, id);
    NoticesMean(newDirs, oldDirs, id);
    OnlyIfIn(r, a, u, id);
    NoticeIn(o, w, newDirs, oldDirs, Removed(id));
    NoticeIn(o, w, newDirs, oldDirs, Added(id));
    NoticeIn(o, w, newDirs, oldDirs, Updated(id));
    SortsOf(o, w, newDirs, oldDirs);
  }

  lemma SortsOf(o: seq<Directive>, w: seq<Directive>, newDirs: seq<Directive>, oldDirs: seq<Directive>)
    ensures (forall n :: n in RemovedOf(o, newDirs) ==> n.Removed?) && (forall n :: n in AddedOf(w, oldDirs) ==> n.Added?)
    ensures forall n :: n in UpdatedOf(w, oldDirs) ==> n.Updated?
  {
    forall n
      ensures n in RemovedOf(o, newDirs) ==> n.Removed?
      ensures n in AddedOf(w, oldDirs) ==> n.Added?
      ensures n in UpdatedOf(w, oldDirs) ==> n.Updated?
    {
      NoticeIn(o, w, newDirs, oldDirs, n);
    }
  }

  lemma OnlyIfIn(r: seq<Notice>, a: seq<Notice>, u: seq<Notice>, id: string)
    ensures (forall n :: n in r ==> n.Removed?) && Removed(id) !in r ==> Times(r, id) == 0
    ensures (forall n :: n in a ==> n.Added?) && Added(id) !in a ==> Times(a, id) == 0
    ensures (forall n :: n in u ==> n.Updated?) && Updated(id) !in u ==> Times(u, id) == 0
  {
    if (forall n :: n in r ==> n.Removed?) && Removed(id) !in r {
      TimesAbsent(r, id);
    }
    if (forall n :: n in a ==> n.Added?) && Added(id) !in a {
      TimesAbsent(a, id);
    }
    if (forall n :: n in u ==> n.Updated?) && Updated(id) !in u {
      TimesAbsent(u, id);
    }
  }

  // ------------------------------------------------------------ the reloads

  /** A notice as it reaches the subscribers, in order. */
  function Deliver(n: Notice, subscribers: nat): (r: seq<Delivery>)
    ensures |r| == subscribers
  {
    seq(subscribers, i requires 0 <= i => Delivery(i, n))
  }

  function DeliverAll(ns: seq<Notice>, subscribers: nat): seq<Delivery> {
    if ns == [] then [] else Deliver(ns[0], subscribers) + DeliverAll(ns[1..], subscribers)
  }

  lemma {:induction false} DeliverConcat(a: seq<Notice>, b: seq<Notice>, subscribers: nat)
    ensures DeliverAll(a + b, subscribers) == DeliverAll(a, subscribers) + DeliverAll(b, subscribers)
  {
    if a == [] {
      assert a + b == b;
    } else {
      assert (a + b)[1..] == a[1..] + b;
      DeliverConcat(a[1..], b, subscribers);
    }
  }

  /** A subscriber may refuse a notice, which ends the reload with an error. */
  class Publisher {
    const subscribers: nat
    const refused: set<Delivery>
    var log: seq<Delivery>

    constructor (n: nat, refusals: set<Delivery>)
      ensures subscribers == n && refused == refusals && log == []
    {
      subscribers, refused, log := n, refusals, [];
    }

    /** The log so far is `before` and a start of the deliveries `due`, and
        only the last of them has been refused. */
    ghost predicate Stopped(before: seq<Delivery>, due: seq<Delivery>)
      reads this
    {
      && before < log <= before + due
      && log[|log| - 1] in refused
      && forall i :: |before| <= i < |log| - 1 ==> log[i] !in refused
    }

    ghost predicate Accepted(before: seq<Delivery>, due: seq<Delivery>)
      reads this
    {
      log == before + due && forall d :: d in due ==> d !in refused
    }

    /** After a have been accepted, the same goes for a and b together. */
    lemma Then(before: seq<Delivery>, a: seq<Delivery>, b: seq<Delivery>)
      requires forall d :: d in a ==> d !in refused
      ensures Stopped(before + a, b) ==> Stopped(before, a + b)
      ensures Accepted(before + a, b) ==> Accepted(before, a + b)
    {
      assert (before + a) + b == before + (a + b);
      if Stopped(before + a, b) {
        forall i | |before| <= i < |log| - 1
          ensures log[i] !in refused
        {
          if i < |before| + |a| {
            assert log[i] == (before + a)[i] == a[i - |before|];
          }
        }
      }
    }

    /** Whatever else was still due. */
    lemma StoppedEarly(before: seq<Delivery>, a: seq<Delivery>, b: seq<Delivery>)
      requires Stopped(before, a)
      ensures Stopped(before, a + b)
    {
      assert before + a <= before + (a + b);
    }

    method Notify(n: Notice) returns (ok: bool)
      modifies this
      ensures ok ==> Accepted(old(log), Deliver(n, subscribers))
      ensures !ok ==> Stopped(old(log), Deliver(n, subscribers))
    {
      var i := 0;
      while i < subscribers
        invariant i <= subscribers && log == old(log) + Deliver(n, subscribers)[..i]
        invariant forall j :: 0 <= j < i ==> Deliver(n, subscribers)[j] !in refused
      {
        var d := Delivery(i, n);
        log := log + [d];
        assert log == old(log) + Deliver(n, subscribers)[..i + 1];
        if d in refused {
          return false;
        }
        i := i + 1;
      }
      ok := true;
    }
  }

  /** The loop that all these functions begin with. */
  method Collect(ds: seq<Directive>, kind: string) returns (r: seq<Directive>)
    ensures r == AllOf(ds, kind)
  {
    r := [];
    var i := 0;
    while i < |ds|
      invariant i <= |ds| && r + AllOf(ds[i..], kind) == AllOf(ds, kind)
    {
      HeadTail(ds, i);
      Regroup(r, [ds[i]], AllOf(ds[i + 1..], kind));
      Regroup(r, [], AllOf(ds[i + 1..], kind));
      if ds[i].name == kind {
        r := r + [ds[i]];
      }
      i := i + 1;
    }
    Ends(ds);
    Regroup(r, [], []);
  }

  /** The check that the ids of the ingesters are unique. */
  method CheckIngestIds(ds: seq<Directive>) returns (ok: bool)
    ensures ok <==> UniqueIds(ds, "ingest")
  {
    var ids: seq<string> := [];
    ghost var at: seq<nat> := [];
    var j := 0;
    while j < |ds|
      invariant j <= |ds| && |at| == |ids|
      invariant forall a :: 0 <= a < j && ds[a].name == "ingest" ==> Arg0(ds[a]) in ids
      invariant forall k :: 0 <= k < |ids| ==> at[k] < j && ds[at[k]].name == "ingest" && Arg0(ds[at[k]]) == ids[k]
      invariant forall a, b :: 0 <= a < b < j && ds[a].name == "ingest" && ds[b].name == "ingest" ==> Arg0(ds[a]) != Arg0(ds[b])
    {
      if ds[j].name == "ingest" {
        var id := Arg0(ds[j]);
        var k := 0;
        while k < |ids|
          invariant k <= |ids| && id !in ids[..k]
        {
          if id == ids[k] {
            return false;
          }
          k := k + 1;
        }
        assert ids[..k] == ids;
        ids, at := ids + [id], at + [j];
      }
      j := j + 1;
    }
    ok := true;
  }

  /** What a transcoder of this id is. */
  function TreeOf(ds: seq<Directive>, kind: string, id: string): Option<Directive> {
    match Get(ds, kind, id)
    case Some(d) => Some(Erase(d))
    case None => None
  }

  /** Whether some directive of `xs` has no counterpart in `ds`. */
  method AnyMissing(xs: seq<Directive>, ds: seq<Directive>) returns (missing: bool)
    ensures missing <==> exists j :: 0 <= j < |xs| && Get(ds, "transcode", Arg0(xs[j])).None?
  {
    missing := false;
    var i := 0;
    while !missing && i < |xs|
      invariant i <= |xs| && (missing <==> exists j :: 0 <= j < i && Get(ds, "transcode", Arg0(xs[j])).None?)
    {
      missing := Get(ds, "transcode", Arg0(xs[i])).None?;
      i := i + 1;
    }
  }

  /** Whether some directive of `xs` is not the same as its counterpart. */
  method AnyDiffers(xs: seq<Directive>, ds: seq<Directive>) returns (differs: bool)
    requires forall j :: 0 <= j < |xs| ==> Get(ds, "transcode", Arg0(xs[j])).Some?
    ensures differs <==> exists j :: 0 <= j < |xs| && Some(Erase(xs[j])) != TreeOf(ds, "transcode", Arg0(xs[j]))
  {
    differs := false;
    var i := 0;
    while !differs && i < |xs|
      invariant i <= |xs| && (differs <==> exists j :: 0 <= j < i && Some(Erase(xs[j])) != TreeOf(ds, "transcode", Arg0(xs[j])))
    {
      var same := Equals(xs[i], Get(ds, "transcode", Arg0(xs[i])).value);
      differs := !same;
      i := i + 1;
    }
  }

  /** The two vhosts do not have the same transcoders, id by id. */
  ghost predicate TreesDiffer(newDirs: seq<Directive>, oldDirs: seq<Directive>) {
    exists id: string :: TreeOf(oldDirs, "transcode", id) != TreeOf(newDirs, "transcode", id)
  }

  /** Some transcoder has the id of an earlier one, from which it differs: it is
      never used, but it is looked at. */
  ghost predicate Shadowed(ds: seq<Directive>) {
    exists d :: d in AllOf(ds, "transcode") && Some(Erase(d)) != TreeOf(ds, "transcode", Arg0(d))
  }

  lemma UniqueNotShadowed(ds: seq<Directive>)
    requires UniqueIds(ds, "transcode")
    ensures !Shadowed(ds)
  {
    forall d | d in AllOf(ds, "transcode")
      ensures Some(Erase(d)) == TreeOf(ds, "transcode", Arg0(d))
    {
      GetUnique(ds, "transcode", d);
    }
  }

  lemma NoticedDiffers(newDirs: seq<Directive>, oldDirs: seq<Directive>, d: Directive)
    requires || (d in AllOf(oldDirs, "transcode") && Get(newDirs, "transcode", Arg0(d)).None?)
             || (d in AllOf(newDirs, "transcode") && Some(Erase(d)) != TreeOf(oldDirs, "transcode", Arg0(d)))
    ensures TreesDiffer(newDirs, oldDirs) || Shadowed(newDirs)
  {
    var id := Arg0(d);
    GetIsIn(oldDirs, "transcode", id);
    assert TreeOf(oldDirs, "transcode", id) != TreeOf(newDirs, "transcode", id) || Some(Erase(d)) != TreeOf(newDirs, "transcode", id);
  }

  lemma TreesSame(newDirs: seq<Directive>, oldDirs: seq<Directive>)
    requires forall d :: d in AllOf(oldDirs, "transcode") ==> Get(newDirs, "transcode", Arg0(d)).Some?
    requires forall d :: d in AllOf(newDirs, "transcode") ==> Some(Erase(d)) == TreeOf(oldDirs, "transcode", Arg0(d))
    ensures !TreesDiffer(newDirs, oldDirs) && !Shadowed(newDirs)
  {
    forall id: string
      ensures TreeOf(oldDirs, "transcode", id) == TreeOf(newDirs, "transcode", id)
    {
      GetIsIn(oldDirs, "transcode", id);
      GetIsIn(newDirs, "transcode", id);
    }
  }

  /** The decision of `reload_transcode`: a change is seen exactly if the two
      vhosts do not have the same transcoders, id by id, or the new one has a
      transcoder that differs from an earlier one of the same id. */
  method TranscodeChanged(newDirs: seq<Directive>, oldDirs: seq<Directive>) returns (changed: bool)
    ensures changed <==> TreesDiffer(newDirs, oldDirs) || Shadowed(newDirs)
    ensures UniqueIds(newDirs, "transcode") ==> (changed <==> TreesDiffer(newDirs, oldDirs))
  {
    ghost var unique := UniqueIds(newDirs, "transcode");
    if unique {
      UniqueNotShadowed(newDirs);
    }
    var olds := Collect(oldDirs, "transcode");
    var news := Collect(newDirs, "transcode");
    changed := AnyMissing(olds, newDirs);
    if changed {
      ghost var j :| 0 <= j < |olds| && Get(newDirs, "transcode", Arg0(olds[j])).None?;
      NoticedDiffers(newDirs, oldDirs, olds[j]);
      return;
    }
    changed := AnyMissing(news, oldDirs);
    if changed {
      ghost var j :| 0 <= j < |news| && Get(oldDirs, "transcode", Arg0(news[j])).None?;
      NoticedDiffers(newDirs, oldDirs, news[j]);
      return;
    }
    changed := AnyDiffers(news, oldDirs);
    if changed {
      ghost var j :| 0 <= j < |news| && Some(Erase(news[j])) != TreeOf(oldDirs, "transcode", Arg0(news[j]));
      NoticedDiffers(newDirs, oldDirs, news[j]);
    } else {
      TreesSame(newDirs, oldDirs);
    }
  }

  /** With a repeated id, a reload of the very same vhost can be taken for a
      change. */
  lemma ShadowedLooksChanged(id: string, a: Directive)
    ensures var vhost := [Directive("transcode", [id], [], 0), Directive("transcode", [id], [a], 0)];
      Shadowed(vhost) && !TreesDiffer(vhost, vhost)
  {
    var d, e := Directive("transcode", [id], [], 0), Directive("transcode", [id], [a], 0);
    var vhost := [d, e];
    assert vhost[1..] == [e] && e in AllOf(vhost, "transcode");
    assert Get(vhost, "transcode", id) == Some(d) && |Erase(d).subs| == 0 && |Erase(e).subs| == 1;
    assert Some(Erase(e)) != TreeOf(vhost, "transcode", Arg0(e));
  }

  /** `reload_transcode` */
  method ReloadTranscode(p: Publisher, vhost: string, newDirs: seq<Directive>, oldDirs: seq<Directive>) returns (ok: bool)
    modifies p
    ensures var due := if TreesDiffer(newDirs, oldDirs) || Shadowed(newDirs) then Deliver(Transcode(vhost), p.subscribers) else [];
      if ok then p.Accepted(old(p.log), due) else p.Stopped(old(p.log), due)
  {
    ok := true;
    var changed := TranscodeChanged(newDirs, oldDirs);
    if changed {
      ok := p.Notify(Transcode(vhost));
    }
  }

  /** `reload_ingest`: all notices reach all subscribers, or the reload stops at
      the first that refuses. */
  method ReloadIngest(p: Publisher, newDirs: seq<Directive>, oldDirs: seq<Directive>) returns (ok: bool)
    modifies p
    ensures var due := DeliverAll(Notices(newDirs, oldDirs), p.subscribers);
      if ok then p.Accepted(old(p.log), due) else p.Stopped(old(p.log), due)
  {
    var olds := Collect(oldDirs, "ingest");
    var news := Collect(newDirs, "ingest");
    ghost var start := p.log;
    ghost var r, a, u := RemovedOf(olds, newDirs), AddedOf(news, oldDirs), UpdatedOf(news, oldDirs);
    DeliverConcat(r + a, u, p.subscribers);
    DeliverConcat(r, a, p.subscribers);
    ghost var dr, da, du := DeliverAll(r, p.subscribers), DeliverAll(a, p.subscribers), DeliverAll(u, p.subscribers);
    ok := StopRemoved(p, olds, newDirs);
    if !ok {
      p.StoppedEarly(start, dr, da);
      p.StoppedEarly(start, dr + da, du);
      return;
    }
    ok := StartAdded(p, news, oldDirs);
    p.Then(start, dr, da);
    if !ok {
      p.StoppedEarly(start, dr + da, du);
      return;
    }
    ok := RestartUpdated(p, news, oldDirs);
    p.Then(start, dr + da, du);
  }

  /** The first loop: ingesters that are on no longer. */
  method StopRemoved(p: Publisher, olds: seq<Directive>, newDirs: seq<Directive>) returns (ok: bool)
    modifies p
    ensures var due := DeliverAll(RemovedOf(olds, newDirs), p.subscribers);
      if ok then p.Accepted(old(p.log), due) else p.Stopped(old(p.log), due)
  {
    ghost var done: seq<Notice> := [];
    Ends(olds);
    Regroup(done, done, RemovedOf(olds, newDirs));
    var i := 0;
    while i < |olds|
      invariant i <= |olds| && done + RemovedOf(olds[i..], newDirs) == RemovedOf(olds, newDirs)
      invariant p.Accepted(old(p.log), DeliverAll(done, p.subscribers))
    {
      HeadTail(olds, i);
      var id := Arg0(olds[i]);
      ghost var rest := RemovedOf(olds[i + 1..], newDirs);
      Regroup(done, [Removed(id)], rest);
      if Enabled(Some(olds[i])) && !On(newDirs, id) {
        ok := NotifyNext(p, Removed(id), old(p.log), done, rest);
        if !ok {
          return;
        }
        done := done + [Removed(id)];
      }
      i := i + 1;
    }
    Ends(olds);
    Regroup(done, [], []);
    ok := true;
  }

  /** The second loop: ingesters that were not on before. */
  method StartAdded(p: Publisher, news: seq<Directive>, oldDirs: seq<Directive>) returns (ok: bool)
    modifies p
    ensures var due := DeliverAll(AddedOf(news, oldDirs), p.subscribers);
      if ok then p.Accepted(old(p.log), due) else p.Stopped(old(p.log), due)
  {
    ghost var done: seq<Notice> := [];
    Ends(news);
    Regroup(done, done, AddedOf(news, oldDirs));
    var i := 0;
    while i < |news|
      invariant i <= |news| && done + AddedOf(news[i..], oldDirs) == AddedOf(news, oldDirs)
      invariant p.Accepted(old(p.log), DeliverAll(done, p.subscribers))
    {
      HeadTail(news, i);
      var id := Arg0(news[i]);
      ghost var rest := AddedOf(news[i + 1..], oldDirs);
      Regroup(done, [Added(id)], rest);
      if !On(oldDirs, id) && Enabled(Some(news[i])) {
        ok := NotifyNext(p, Added(id), old(p.log), done, rest);
        if !ok {
          return;
        }
        done := done + [Added(id)];
      }
      i := i + 1;
    }
    Ends(news);
    Regroup(done, [], []);
    ok := true;
  }

  /** The third loop: ingesters that are on in both, but are not the same. */
  method RestartUpdated(p: Publisher, news: seq<Directive>, oldDirs: seq<Directive>) returns (ok: bool)
    modifies p
    ensures var due := DeliverAll(UpdatedOf(news, oldDirs), p.subscribers);
      if ok then p.Accepted(old(p.log), due) else p.Stopped(old(p.log), due)
  {
    ghost var done: seq<Notice> := [];
    Ends(news);
    Regroup(done, done, UpdatedOf(news, oldDirs));
    var i := 0;
    while i < |news|
      invariant i <= |news| && done + UpdatedOf(news[i..], oldDirs) == UpdatedOf(news, oldDirs)
      invariant p.Accepted(old(p.log), DeliverAll(done, p.subscribers))
    {
      HeadTail(news, i);
      var id := Arg0(news[i]);
      ghost var rest := UpdatedOf(news[i + 1..], oldDirs);
      Regroup(done, [Updated(id)], rest);
      var same := true;
      if On(oldDirs, id) && Enabled(Some(news[i])) {
        same := Equals(news[i], Get(oldDirs, "ingest", id).value);
      }
      if !same {
        ok := NotifyNext(p, Updated(id), old(p.log), done, rest);
        if !ok {
          return;
        }
        done := done + [Updated(id)];
      }
      i := i + 1;
    }
    Ends(news);
    Regroup(done, [], []);
    ok := true;
  }

  /** The next notice after those that are done. */
  method NotifyNext(p: Publisher, n: Notice, ghost start: seq<Delivery>, ghost done: seq<Notice>, ghost rest: seq<Notice>)
    returns (ok: bool)
    requires p.Accepted(start, DeliverAll(done, p.subscribers))
    modifies p
    ensures ok ==> p.Accepted(start, DeliverAll(done + [n], p.subscribers))
    ensures !ok ==> p.Stopped(start, DeliverAll(done + ([n] + rest), p.subscribers))
  {
    ok := p.Notify(n);
    ghost var d0, d1 := DeliverAll(done, p.subscribers), Deliver(n, p.subscribers);
    DeliverConcat(done, [n], p.subscribers);
    DeliverOne(n, p.subscribers);
    p.Then(start, d0, d1);
    if !ok {
      DeliverConcat(done + [n], rest, p.subscribers);
      Regroup(done, [n], rest);
      p.StoppedEarly(start, d0 + d1, DeliverAll(rest, p.subscribers));
    }
  }

  lemma DeliverOne(n: Notice, subscribers: nat)
    ensures DeliverAll([n], subscribers) == Deliver(n, subscribers)
  {
    var one: seq<Notice> := [n];
    assert one[1..] == [] && Deliver(n, subscribers) + [] == Deliver(n, subscribers);
  }
}
