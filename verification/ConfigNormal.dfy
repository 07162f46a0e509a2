/** What the rewriting of a vhost leaves, keeps and moves. */
module ConfigNormal {
  import opened ConfigTree
  import opened Wrappers
  import opened Sequences
  import opened ConfigTransform

  // ------------------------------------------------- nothing legacy is left

  /** Nothing to rewrite, except perhaps in an `http_remux`. */
  predicate Settled(d: Directive) {
    !Erased(d) && KindOf(d.name) != Http && !OldForward(d)
  }

  lemma RenamedKind()
    ensures KindOf("http_static") == Other
  {
    assert |"http_static"| == 11;
    assert "http_static"[0] == 'h';
  }

  lemma InPlaceSettles(d: Directive)
    requires !Erased(d)
    ensures Settled(InPlace(d)) && (IsGroup(InPlace(d).name) <==> IsGroup(d.name))
  {
    RenamedKind();
    GroupsStay(d);
    GroupsStay(InPlace(d));
  }

  lemma FoldSettles(ds: seq<Directive>, i: nat)
    requires i < |ds| && Erased(ds[i]) && forall j :: 0 <= j < i ==> Settled(ds[j])
    ensures var r := Fold(ds[..i] + ds[i + 1..], ds[i]);
      i <= |r| && forall j :: 0 <= j < i ==> Settled(r[j])
  {
    var ds' := ds[..i] + ds[i + 1..];
    FoldChanges(ds', ds[i]);
    ChangedIsFine(ds', ds[i]);
  }

  lemma {:induction false} WalkSettles(ds: seq<Directive>, i: nat)
    requires i <= |ds| && forall j :: 0 <= j < i ==> Settled(ds[j])
    ensures forall j :: 0 <= j < |Walk(ds, i)| ==> Settled(Walk(ds, i)[j])
    decreases ToErase(ds[i..]), |ds| - i
  {
    hide Fold, InPlace, Erased, Settled, ToErase;
    if i == |ds| {
    } else {
      if Erased(ds[i]) {
        FoldErases(ds, i);
        FoldSettles(ds, i);
        WalkSettles(Fold(ds[..i] + ds[i + 1..], ds[i]), i);
      } else {
        StayErases(ds, i);
        InPlaceSettles(ds[i]);
        WalkSettles(ds[i := InPlace(ds[i])], i + 1);
      }
    }
  }

  // ------------------------------------- everything outside the groups is kept

  function Outside(ds: seq<Directive>): seq<Directive> {
    if ds == [] then [] else (if IsGroup(ds[0].name) then [] else [ds[0]]) + Outside(ds[1..])
  }

  /** The directives outside the groups that stay, each rewritten in place. */
  function Rewritten(ds: seq<Directive>): seq<Directive> {
    if ds == [] then []
    else (if IsGroup(ds[0].name) || Erased(ds[0]) then [] else [InPlace(ds[0])]) + Rewritten(ds[1..])
  }

  lemma {:induction false} OutsideConcat(a: seq<Directive>, b: seq<Directive>)
    ensures Outside(a + b) == Outside(a) + Outside(b)
  {
    if a == [] {
      assert a + b == b;
    } else {
      assert (a + b)[1..] == a[1..] + b;
      OutsideConcat(a[1..], b);
    }
  }

  /** b is a, but for groups. */
  ghost predicate SameOutside(a: seq<Directive>, b: seq<Directive>) {
    && |b| >= |a|
    && (forall j :: 0 <= j < |a| ==> b[j] == a[j] || (IsGroup(a[j].name) && IsGroup(b[j].name)))
    && (forall j :: |a| <= j < |b| ==> IsGroup(b[j].name))
  }

  lemma {:induction false} OutsideSame(a: seq<Directive>, b: seq<Directive>)
    requires SameOutside(a, b)
    ensures Outside(b) == Outside(a) && Rewritten(b) == Rewritten(a)
    decreases |b|
  {
    if b == [] {
    } else {
      var a' := if a == [] then [] else a[1..];
      assert forall j :: 0 <= j < |b[1..]| ==> b[1..][j] == b[j + 1];
      assert forall j :: 0 <= j < |a'| ==> a'[j] == a[j + 1];
      OutsideSame(a', b[1..]);
    }
  }

  lemma OneChangedOutside(ds: seq<Directive>, g: string, d: Directive, r: seq<Directive>, i: nat)
    requires OneChanged(ds, g, d, r) && IsGroup(g) && i <= |ds|
    ensures i <= |r| && SameOutside(ds[..i], r[..i]) && SameOutside(ds[i..], r[i..])
  {
    var k := Find(ds, g);
    assert k < |ds| ==> ds[k].name == g;
  }

  lemma FoldOutside(ds: seq<Directive>, i: nat)
    requires i < |ds| && Erased(ds[i])
    ensures var r := Fold(ds[..i] + ds[i + 1..], ds[i]);
      i <= |r| && SameOutside(ds[..i], r[..i]) && SameOutside(ds[i + 1..], r[i..])
  {
    var ds' := ds[..i] + ds[i + 1..];
    var r := Fold(ds', ds[i]);
    FoldChanges(ds', ds[i]);
    ChangedIsFine(ds', ds[i]);
    OneChangedOutside(ds', GroupFor(ds[i]), Changed(ds', ds[i]), r, i);
    assert ds'[..i] == ds[..i] && ds'[i..] == ds[i + 1..];
  }

  lemma FoldKeeps(ds: seq<Directive>, i: nat)
    requires i < |ds| && Erased(ds[i])
    ensures var r := Fold(ds[..i] + ds[i + 1..], ds[i]);
      i <= |r| && Outside(r[..i]) + Rewritten(r[i..]) == Outside(ds[..i]) + Rewritten(ds[i..])
  {
    FoldOutside(ds, i);
    KeepsSame(ds, i, Fold(ds[..i] + ds[i + 1..], ds[i]));
  }

  lemma KeepsSame(ds: seq<Directive>, i: nat, r: seq<Directive>)
    requires i < |ds| && Erased(ds[i]) && i <= |r| && SameOutside(ds[..i], r[..i]) && SameOutside(ds[i + 1..], r[i..])
    ensures Outside(r[..i]) + Rewritten(r[i..]) == Outside(ds[..i]) + Rewritten(ds[i..])
  {
    OutsideSame(ds[..i], r[..i]);
    OutsideSame(ds[i + 1..], r[i..]);
    var here := ds[i..];
    assert here[0] == ds[i] && here[1..] == ds[i + 1..];
    RewrittenErased(here);
  }

  lemma RewrittenErased(ds: seq<Directive>)
    requires ds != [] && Erased(ds[0])
    ensures Rewritten(ds) == Rewritten(ds[1..])
  {
  }

  lemma StayKeeps(ds: seq<Directive>, i: nat)
    requires i < |ds| && !Erased(ds[i])
    ensures var r := ds[i := InPlace(ds[i])];
      Outside(r[..i + 1]) + Rewritten(r[i + 1..]) == Outside(ds[..i]) + Rewritten(ds[i..])
  {
    var r := ds[i := InPlace(ds[i])];
    GroupInPlace(ds[i]);
    assert r[..i + 1] == ds[..i] + [r[i]] && r[i + 1..] == ds[i..][1..];
    OutsideConcat(ds[..i], [r[i]]);
    OutsideOne(r[i]);
    Regroup(Outside(ds[..i]), Outside([r[i]]), Rewritten(ds[i..][1..]));
  }

  /** Outside the groups, the directives that are not erased are kept in order,
      and only rewritten in place. */
  lemma {:induction false} WalkKeeps(ds: seq<Directive>, i: nat)
    requires i <= |ds|
    ensures Outside(Walk(ds, i)) == Outside(ds[..i]) + Rewritten(ds[i..])
    decreases ToErase(ds[i..]), |ds| - i
  {
    if i == |ds| {
      assert ds[..i] == ds && Outside(ds) + [] == Outside(ds);
    } else if Erased(ds[i]) {
      FoldErases(ds, i);
      FoldKeeps(ds, i);
      WalkKeeps(Fold(ds[..i] + ds[i + 1..], ds[i]), i);
    } else {
      StayErases(ds, i);
      StayKeeps(ds, i);
      WalkKeeps(ds[i := InPlace(ds[i])], i + 1);
    }
  }

  lemma OutsideOne(d: Directive)
    ensures Outside([d]) == if IsGroup(d.name) then [] else [d]
  {
    var one: seq<Directive> := [d];
    assert one[1..] == [];
  }

  lemma GroupInPlace(d: Directive)
    requires !Erased(d)
    ensures IsGroup(InPlace(d).name) <==> IsGroup(d.name)
  {
    InPlaceSettles(d);
  }

  // ------------------------------------------------- where the settings end up

  function Args(ds: seq<Directive>, n: string): Option<seq<string>> {
    var k := Find(ds, n);
    if k < |ds| then Some(ds[k].args) else None
  }

  /** The arguments of the first n in the first group g. */
  function Lookup(ds: seq<Directive>, g: string, n: string): Option<seq<string>> {
    var k := Find(ds, g);
    if k < |ds| then Args(ds[k].subs, n) else None
  }

  function Or<T>(a: Option<T>, b: Option<T>): Option<T> {
    if a.Some? then a else b
  }

  function LastOf(sets: seq<Setting>, n: string): Option<seq<string>> {
    if sets == [] then None
    else Or(LastOf(sets[1..], n), if sets[0].name == n then Some(sets[0].args) else None)
  }

  /** The last arguments that an old directive gives to n in group g. */
  function LastMoved(ds: seq<Directive>, g: string, n: string): Option<seq<string>> {
    if ds == [] then None
    else Or(LastMoved(ds[1..], g, n), match MoveOf(ds[0]) case Some(m) => if m.group == g then LastOf(m.sets, n) else None case None => None)
  }

  /** Find only looks at names. */
  lemma {:induction false} FindSame(a: seq<Directive>, b: seq<Directive>, n: string)
    requires |a| <= |b| && forall j :: 0 <= j < |a| ==> (b[j].name == n <==> a[j].name == n)
    requires forall j :: |a| <= j < |b| ==> b[j].name != n
    ensures Find(b, n) == if Find(a, n) < |a| then Find(a, n) else |b|
  {
    var k := Find(a, n);
    if k < |a| {
      assert b[k].name == n && forall j :: 0 <= j < k ==> b[j].name != n;
    }
  }

  lemma PutArgs(ds: seq<Directive>, n: string, args: seq<string>, m: string)
    ensures Args(Put(ds, n, args), m) == if m == n then Some(args) else Args(ds, m)
  {
    var e, k, r := Ensured(ds, n), Find(ds, n), Put(ds, n, args);
    FindSame(e, r, m);
    if m != n {
      FindSame(ds, e, m);
    }
  }

  lemma {:induction false} PutEachArgs(ds: seq<Directive>, sets: seq<Setting>, n: string)
    ensures Args(PutEach(ds, sets), n) == Or(LastOf(sets, n), Args(ds, n))
    decreases |sets|
  {
    if sets == [] {
    } else {
      PutArgs(ds, sets[0].name, sets[0].args, n);
      PutEachArgs(Put(ds, sets[0].name, sets[0].args), sets[1..], n);
    }
  }

  /** Changing one group leaves what other groups say. */
  lemma OneChangedLookup(ds: seq<Directive>, g: string, d: Directive, r: seq<Directive>, h: string, n: string)
    requires OneChanged(ds, g, d, r)
    ensures Lookup(r, h, n) == if h == g then Args(d.subs, n) else Lookup(ds, h, n)
  {
    var k := Find(ds, g);
    if h == g {
      assert forall j :: 0 <= j < k ==> r[j].name != g;
      FindIs(r, g, k);
    } else {
      FindSame(ds, r, h);
    }
  }

  lemma FindIs(ds: seq<Directive>, n: string, k: nat)
    requires k < |ds| && ds[k].name == n && forall j :: 0 <= j < k ==> ds[j].name != n
    ensures Find(ds, n) == k
  {
  }

  lemma FoldLookup(ds: seq<Directive>, d: Directive, g: string, n: string)
    requires Erased(d) && IsGroup(g) && g != "refer"
    ensures Lookup(Fold(ds, d), g, n) == Or(LastMoved([d], g, n), Lookup(ds, g, n))
  {
    FoldChanges(ds, d);
    OneChangedLookup(ds, GroupFor(d), Changed(ds, d), Fold(ds, d), g, n);
    var one: seq<Directive> := [d];
    assert one[1..] == [];
    match MoveOf(d)
    case Some(m) => PutEachArgs(FirstCalled(ds, m.group).subs, m.sets, n);
    case None =>
  }

  /** Erasing a directive that is no group, or rewriting one in place. */
  lemma ErasedLookup(ds: seq<Directive>, i: nat, g: string, n: string)
    requires i < |ds| && ds[i].name != g
    ensures Lookup(ds[..i] + ds[i + 1..], g, n) == Lookup(ds, g, n)
  {
    var r, k := ds[..i] + ds[i + 1..], Find(ds, g);
    if k < |ds| {
      FindIs(r, g, if k < i then k else k - 1);
    } else {
      assert forall j :: 0 <= j < |r| ==> r[j] == ds[if j < i then j else j + 1];
    }
  }

  lemma InPlaceLookup(ds: seq<Directive>, i: nat, g: string, n: string)
    requires i < |ds| && !Erased(ds[i]) && IsGroup(g) && g != "refer"
    ensures Lookup(ds[i := InPlace(ds[i])], g, n) == Lookup(ds, g, n)
  {
    InPlaceSettles(ds[i]);
    GroupsStay(ds[i]);
    GroupKinds();
    FindSame(ds, ds[i := InPlace(ds[i])], g);
  }

  lemma {:induction false} LastMovedSame(a: seq<Directive>, b: seq<Directive>, g: string, n: string)
    requires SameOutside(a, b)
    ensures LastMoved(b, g, n) == LastMoved(a, g, n)
    decreases |b|
  {
    if b == [] {
    } else {
      var a' := if a == [] then [] else a[1..];
      assert forall j :: 0 <= j < |b[1..]| ==> b[1..][j] == b[j + 1];
      assert forall j :: 0 <= j < |a'| ==> a'[j] == a[j + 1];
      LastMovedSame(a', b[1..], g, n);
      GroupsMoveNothing(b[0]);
      if a == [] {
      } else {
        GroupsMoveNothing(a[0]);
      }
    }
  }

  lemma GroupsMoveNothing(d: Directive)
    ensures IsGroup(d.name) ==> MoveOf(d) == None
  {
    GroupsStay(d);
  }

  /** Folding one directive does not change what the rest of the walk yields. */
  lemma FoldMoves(ds: seq<Directive>, i: nat, g: string, n: string)
    requires i < |ds| && Erased(ds[i]) && IsGroup(g) && g != "refer"
    ensures var r := Fold(ds[..i] + ds[i + 1..], ds[i]);
      i <= |r| && Or(LastMoved(r[i..], g, n), Lookup(r, g, n)) == Or(LastMoved(ds[i..], g, n), Lookup(ds, g, n))
  {
    var ds' := ds[..i] + ds[i + 1..];
    var r := Fold(ds', ds[i]);
    FoldOutside(ds, i);
    LastMovedSame(ds[i + 1..], r[i..], g, n);
    FoldLookup(ds', ds[i], g, n);
    ErasedIsNoGroup(ds[i], g);
    ErasedLookup(ds, i, g, n);
    LastMovedOne(ds[i], g, n);
    HeadTail(ds, i);
  }

  /** The first new-style place holds the arguments of the last old directive
      that belongs there or, if there was none, what it held before. */
  lemma {:induction false} WalkMoves(ds: seq<Directive>, i: nat, g: string, n: string)
    requires i <= |ds| && IsGroup(g) && g != "refer"
    ensures Lookup(Walk(ds, i), g, n) == Or(LastMoved(ds[i..], g, n), Lookup(ds, g, n))
    decreases ToErase(ds[i..]), |ds| - i
  {
    if i == |ds| {
      assert ds[i..] == [];
    } else if Erased(ds[i]) {
      FoldErases(ds, i);
      WalkMoves(Fold(ds[..i] + ds[i + 1..], ds[i]), i, g, n);
      FoldMoves(ds, i, g, n);
    } else {
      StayErases(ds, i);
      InPlaceLookup(ds, i, g, n);
      WalkMoves(ds[i := InPlace(ds[i])], i + 1, g, n);
      assert ds[i := InPlace(ds[i])][i + 1..] == ds[i..][1..];
    }
  }

  lemma LastMovedOne(d: Directive, g: string, n: string)
    ensures LastMoved([d], g, n) == match MoveOf(d) case Some(m) => if m.group == g then LastOf(m.sets, n) else None case None => None
  {
    var one: seq<Directive> := [d];
    assert one[1..] == [];
  }

  lemma ErasedIsNoGroup(d: Directive, g: string)
    requires Erased(d) && IsGroup(g) && g != "refer"
    ensures d.name != g
  {
    GroupsStay(d);
    GroupKinds();
  }

  // ------------------------------------------------------------ normal form

  predicate Normal(ds: seq<Directive>) {
    forall j :: 0 <= j < |ds| ==> !Legacy(ds[j])
  }

  lemma NormalInPlace(d: Directive)
    requires Settled(d)
    ensures !Legacy(d) <==> InPlace(d) == d
  {
    if KindOf(d.name) == Remux && Find(d.subs, "hstrs") < |d.subs| {
      assert |InPlace(d).subs| < |d.subs|;
    }
  }

  /** A vhost in normal form is not changed. */
  lemma {:induction false} NormalStays(ds: seq<Directive>, i: nat)
    requires i <= |ds| && Normal(ds)
    ensures Walk(ds, i) == ds
    decreases |ds| - i
  {
    if i == |ds| {
    } else {
      assert !Legacy(ds[i]);
      NormalInPlace(ds[i]);
      StayErases(ds, i);
      assert ds[i := InPlace(ds[i])] == ds;
      NormalStays(ds, i + 1);
    }
  }

  lemma {:induction false} UnchangedInside(ds: seq<Directive>, j: nat)
    requires j < |ds| && (forall k :: 0 <= k < |ds| ==> Settled(ds[k])) && Outside(ds) == Rewritten(ds) && !IsGroup(ds[j].name)
    ensures InPlace(ds[j]) == ds[j]
  {
    assert Settled(ds[0]);
    var tail := ds[1..];
    if IsGroup(ds[0].name) {
      assert Outside(ds) == Outside(tail) && Rewritten(ds) == Rewritten(tail);
    } else {
      SameCons(ds[0], Outside(tail), InPlace(ds[0]), Rewritten(tail));
    }
    if j == 0 {
    } else {
      assert tail[j - 1] == ds[j] && forall k :: 0 <= k < |tail| ==> tail[k] == ds[k + 1];
      UnchangedInside(tail, j - 1);
    }
  }

  lemma SameCons(a: Directive, rest: seq<Directive>, b: Directive, others: seq<Directive>)
    requires [a] + rest == [b] + others
    ensures a == b && rest == others
  {
    assert ([a] + rest)[0] == a && ([b] + others)[0] == b;
    assert ([a] + rest)[1..] == rest && ([b] + others)[1..] == others;
  }

  /** A vhost is left as it is exactly if nothing in it is legacy. */
  lemma StaysExactlyIfNormal(ds: seq<Directive>)
    ensures Walk(ds, 0) == ds <==> Normal(ds)
  {
    if Normal(ds) {
      NormalStays(ds, 0);
    }
    if Walk(ds, 0) == ds {
      WalkSettles(ds, 0);
      WalkKeeps(ds, 0);
      assert ds[..0] == [] && ds[0..] == ds && Outside([]) + Rewritten(ds) == Rewritten(ds);
      forall j | 0 <= j < |ds|
        ensures !Legacy(ds[j])
      {
        GroupsStay(ds[j]);
        if !IsGroup(ds[j].name) {
          UnchangedInside(ds, j);
          NormalInPlace(ds[j]);
        }
      }
    }
  }

  /** How many directives have this name. */
  function Count(ds: seq<Directive>, n: string): nat {
    if ds == [] then 0 else Count(ds[1..], n) + if ds[0].name == n then 1 else 0
  }

  lemma {:induction false} CountFind(ds: seq<Directive>, n: string)
    ensures Count(ds, n) == 0 <==> Find(ds, n) == |ds|
    ensures Find(ds, n) < |ds| ==> Count(WithoutFirst(ds, n), n) == Count(ds, n) - 1
  {
    if ds == [] {
    } else if ds[0].name == n {
      assert WithoutFirst(ds, n) == ds[1..];
    } else {
      CountFind(ds[1..], n);
      if Find(ds, n) < |ds| {
        var r := WithoutFirst(ds, n);
        assert r == [ds[0]] + WithoutFirst(ds[1..], n);
        assert r[1..] == WithoutFirst(ds[1..], n);
      }
    }
  }

  /** No `http_remux` has more than one `hstrs`. */
  predicate FewHstrs(ds: seq<Directive>) {
    forall j :: 0 <= j < |ds| && KindOf(ds[j].name) == Remux ==> Count(ds[j].subs, "hstrs") <= 1
  }

  lemma RemuxAfter(d: Directive)
    requires !Erased(d)
    ensures KindOf(InPlace(d).name) == Remux <==> KindOf(d.name) == Remux
    ensures KindOf(d.name) == Remux ==> (!Legacy(InPlace(d)) <==> Count(d.subs, "hstrs") <= 1)
  {
    RenamedKind();
    CountFind(d.subs, "hstrs");
    CountFind(InPlace(d).subs, "hstrs");
  }

  lemma {:induction false} OutsideNormal(ds: seq<Directive>)
    requires forall j :: 0 <= j < |ds| ==> Settled(ds[j])
    ensures Normal(ds) <==> Normal(Outside(ds))
  {
    if ds == [] {
    } else {
      var head, tail := ds[0], ds[1..];
      assert Settled(head) && forall j :: 0 <= j < |tail| ==> tail[j] == ds[j + 1];
      OutsideNormal(tail);
      GroupsStay(head);
      NormalCons(head, tail);
      NormalCons(head, Outside(tail));
      assert ds == [head] + tail;
      assert IsGroup(head.name) ==> Outside(ds) == Outside(tail);
    }
  }

  lemma NormalCons(d: Directive, ds: seq<Directive>)
    ensures Normal([d] + ds) <==> !Legacy(d) && Normal(ds)
  {
    var r := [d] + ds;
    assert r[0] == d && forall j :: 0 <= j < |ds| ==> r[j + 1] == ds[j];
  }

  lemma FewCons(d: Directive, ds: seq<Directive>)
    ensures FewHstrs([d] + ds) <==> (KindOf(d.name) == Remux ==> Count(d.subs, "hstrs") <= 1) && FewHstrs(ds)
  {
    var r := [d] + ds;
    assert r[0] == d && forall j :: 0 <= j < |ds| ==> r[j + 1] == ds[j];
  }

  lemma {:induction false} RewrittenNormal(ds: seq<Directive>)
    ensures Normal(Rewritten(ds)) <==> FewHstrs(ds)
  {
    if ds == [] {
    } else {
      var head, tail := ds[0], ds[1..];
      RewrittenNormal(tail);
      assert ds == [head] + tail;
      FewCons(head, tail);
      GroupsStay(head);
      if IsGroup(head.name) || Erased(head) {
        assert Rewritten(ds) == Rewritten(tail);
        ErasedIsNoRemux(head);
      } else {
        NormalCons(InPlace(head), Rewritten(tail));
        InPlaceSettles(head);
        RemuxAfter(head);
      }
    }
  }

  lemma ErasedIsNoRemux(d: Directive)
    ensures IsGroup(d.name) || Erased(d) ==> KindOf(d.name) != Remux
  {
    GroupsStay(d);
  }

  /** The rewriting reaches normal form exactly if no `http_remux` has more than
      one `hstrs`: it takes away only the first of them. */
  lemma WalkReachesNormalForm(ds: seq<Directive>)
    ensures Normal(Walk(ds, 0)) <==> FewHstrs(ds)
  {
    WalkSettles(ds, 0);
    WalkKeeps(ds, 0);
    assert ds[..0] == [] && ds[0..] == ds && Outside([]) + Rewritten(ds) == Rewritten(ds);
    OutsideNormal(Walk(ds, 0));
    RewrittenNormal(ds);
  }

  /** A second run changes nothing, under the same condition. */
  lemma SecondWalkChangesNothing(ds: seq<Directive>)
    ensures Walk(Walk(ds, 0), 0) == Walk(ds, 0) <==> FewHstrs(ds)
  {
    WalkReachesNormalForm(ds);
    StaysExactlyIfNormal(Walk(ds, 0));
  }

  /** Two `hstrs` in one `http_remux`: the first run removes one of them, and
      the second run the other. */
  lemma TwoHstrsNeedTwoRuns(h: Directive)
    requires h.name == "hstrs"
    ensures var d := Directive("http_remux", [], [h, h], 0);
      && Walk([d], 0) == [d.(subs := [h])]
      && Walk(Walk([d], 0), 0) == [d.(subs := [])]
      && !Normal(Walk([d], 0))
  {
    OneRemux([h, h]);
    OneRemux([h]);
    assert [h, h][..0] + [h, h][1..] == [h] && [h][..0] + [h][1..] == [];
    assert Legacy(Directive("http_remux", [], [h], 0));
  }

  lemma OneRemux(subs: seq<Directive>)
    ensures var d := Directive("http_remux", [], subs, 0); Walk([d], 0) == [d.(subs := WithoutFirst(subs, "hstrs"))]
  {
    var d := Directive("http_remux", [], subs, 0);
    assert !Erased(d) && InPlace(d) == d.(subs := WithoutFirst(subs, "hstrs"));
    assert [d][0 := InPlace(d)] == [InPlace(d)];
  }
}
