/** What becomes of the old refer settings: `refer`, `refer_play` and
    `refer_publish` are gathered in one `refer` block, in the order in which they
    stand (srs_app_config.cpp). */
module ConfigRefer {
  import opened ConfigTree
  import opened Wrappers
  import opened Sequences
  import opened ConfigTransform
  import opened ConfigNormal
  import opened ConfigKeeps

  predicate Refers(d: Directive) {
    d.name == "refer" || d.name == "refer_play" || d.name == "refer_publish"
  }

  /** The directives that have to do with refers. */
  function Referring(ds: seq<Directive>): seq<Directive> {
    if ds == [] then [] else (if Refers(ds[0]) then [ds[0]] else []) + Referring(ds[1..])
  }

  /** An old setting: a `refer` without a block, or one of the other two. */
  predicate OldSetting(d: Directive) {
    Refers(d) && (d.name == "refer" ==> d.subs == [])
  }

  /** Its name in the block. */
  function NewName(d: Directive): string {
    if d.name == "refer" then "all" else if d.name == "refer_play" then "play" else "publish"
  }

  lemma OldSettingIs(d: Directive)
    ensures OldSetting(d) <==> OldRefer(d)
    ensures OldRefer(d) ==> ReferTarget(d.name) == NewName(d)
    ensures Refers(d) && !OldRefer(d) ==> d.name == "refer" && d.subs != [] && !Erased(d) && InPlace(d) == d
  {
    KindNames(d.name);
  }

  /** The last old setting of this new name. */
  function LastReferred(ds: seq<Directive>, n: string): Option<seq<string>> {
    if ds == [] then None
    else Or(LastReferred(ds[1..], n), if OldSetting(ds[0]) && NewName(ds[0]) == n then Some(ds[0].args) else None)
  }

  // ----------------------------------------- the other directives do not matter

  lemma {:induction false} ReferringConcat(a: seq<Directive>, b: seq<Directive>)
    ensures Referring(a + b) == Referring(a) + Referring(b)
  {
    if a == [] {
      assert a + b == b;
    } else {
      assert (a + b)[0] == a[0] && (a + b)[1..] == a[1..] + b;
      ReferringConcat(a[1..], b);
      hide Refers;
      Regroup(if Refers(a[0]) then [a[0]] else [], Referring(a[1..]), Referring(b));
    }
  }

  lemma ReferringOne(d: Directive)
    ensures Referring([d]) == if Refers(d) then [d] else []
  {
    var one: seq<Directive> := [d];
    assert one[1..] == [];
  }

  lemma {:induction false} ReferringSame(a: seq<Directive>, b: seq<Directive>)
    requires |b| >= |a| && (forall j :: 0 <= j < |a| ==> b[j] == a[j] || (!Refers(a[j]) && !Refers(b[j])))
    requires forall j :: |a| <= j < |b| ==> !Refers(b[j])
    ensures Referring(b) == Referring(a)
    decreases |b|
  {
    if b == [] {
    } else {
      var a' := if a == [] then [] else a[1..];
      assert forall j :: 0 <= j < |b[1..]| ==> b[1..][j] == b[j + 1];
      assert forall j :: 0 <= j < |a'| ==> a'[j] == a[j + 1];
      ReferringSame(a', b[1..]);
    }
  }

  lemma OtherChanged(ds: seq<Directive>, g: string, d: Directive, r: seq<Directive>, i: nat)
    requires OneChanged(ds, g, d, r) && !Refers(d) && i <= |ds|
    ensures i <= |r| && Referring(r[..i]) == Referring(ds[..i]) && Referring(r[i..]) == Referring(ds[i..])
  {
    var k := Find(ds, g);
    assert k < |ds| ==> ds[k].name == d.name;
    assert forall j :: 0 <= j < |ds| ==> r[j] == ds[j] || (!Refers(ds[j]) && !Refers(r[j]));
    assert forall j :: |ds| <= j < |r| ==> r[j] == d;
    ReferringSame(ds[..i], r[..i]);
    ReferringSame(ds[i..], r[i..]);
  }

  lemma NoRefer(g: string)
    requires g == "publish" || g == "play" || g == "cluster"
    ensures g != "refer" && g != "refer_play" && g != "refer_publish"
  {
    assert |"refer"| == 5 && |"refer_play"| == 10 && |"refer_publish"| == 13 && |"publish"| == 7 && |"play"| == 4 && |"cluster"| == 7;
  }

  /** Folding anything but a refer setting. */
  lemma OtherFold(ds: seq<Directive>, d: Directive, i: nat)
    requires Erased(d) && !OldRefer(d) && i <= |ds|
    ensures var r := Fold(ds, d);
      i <= |r| && Referring(r[..i]) == Referring(ds[..i]) && Referring(r[i..]) == Referring(ds[i..])
  {
    FoldChanges(ds, d);
    GroupsStay(d);
    hide Fold, Changed, OneChanged;
    NoRefer(GroupFor(d));
    ChangedIsFine(ds, d);
    OtherChanged(ds, GroupFor(d), Changed(ds, d), Fold(ds, d), i);
  }

  /** Where a list of refers is when the whole list is at position i. */
  function At(ds: seq<Directive>, i: nat): nat
    requires i <= |ds|
  {
    |Referring(ds[..i])|
  }

  lemma AtSplits(ds: seq<Directive>, i: nat)
    requires i <= |ds|
    ensures At(ds, i) <= |Referring(ds)| && Referring(ds)[..At(ds, i)] == Referring(ds[..i]) && Referring(ds)[At(ds, i)..] == Referring(ds[i..])
  {
    assert ds == ds[..i] + ds[i..];
    ReferringConcat(ds[..i], ds[i..]);
  }

  lemma AtNext(ds: seq<Directive>, i: nat)
    requires i < |ds|
    ensures Referring(ds[..i + 1]) == Referring(ds[..i]) + (if Refers(ds[i]) then [ds[i]] else [])
    ensures Referring(ds[i..]) == (if Refers(ds[i]) then [ds[i]] else []) + Referring(ds[i + 1..])
  {
    assert ds[..i + 1] == ds[..i] + [ds[i]];
    ReferringConcat(ds[..i], [ds[i]]);
    ReferringOne(ds[i]);
    HeadTail(ds, i);
  }

  lemma ReferringUpdate(ds: seq<Directive>, k: nat, d: Directive)
    requires k < |ds| && Refers(ds[k]) && Refers(d)
    ensures At(ds, k) < |Referring(ds)| && Referring(ds)[At(ds, k)] == ds[k]
    ensures Referring(ds[k := d]) == Referring(ds)[At(ds, k) := d]
  {
    var a, b := ds[..k], ds[k + 1..];
    assert ds == a + [ds[k]] + b && ds[k := d] == a + [d] + b;
    ReferringConcat(a + [ds[k]], b);
    ReferringConcat(a, [ds[k]]);
    ReferringConcat(a + [d], b);
    ReferringConcat(a, [d]);
    ReferringOne(ds[k]);
    ReferringOne(d);
    hide Referring;
    Middle(Referring(a), ds[k], d, Referring(b));
  }

  lemma Middle(a: seq<Directive>, c: Directive, d: Directive, b: seq<Directive>)
    ensures (a + [c] + b)[|a|] == c && (a + [c] + b)[|a| := d] == a + [d] + b
  {
  }

  lemma SameAt(ds: seq<Directive>, k: nat, d: Directive, i: nat)
    requires k < |ds| && Refers(ds[k]) && Refers(d) && i <= |ds|
    ensures At(ds[k := d], i) == At(ds, i)
  {
    SameCount(ds[..i], ds[k := d][..i]);
  }

  lemma {:induction false} SameCount(a: seq<Directive>, b: seq<Directive>)
    requires |a| == |b| && forall j :: 0 <= j < |a| ==> (Refers(b[j]) <==> Refers(a[j]))
    ensures |Referring(a)| == |Referring(b)|
  {
    if a == [] {
    } else {
      assert forall j :: 0 <= j < |a[1..]| ==> a[1..][j] == a[j + 1] && b[1..][j] == b[j + 1];
      SameCount(a[1..], b[1..]);
    }
  }

  /** The first refer is the first of those that refer. */
  lemma {:induction false} FindReferring(ds: seq<Directive>)
    ensures var k := Find(ds, "refer");
      Find(Referring(ds), "refer") == if k < |ds| then At(ds, k) else |Referring(ds)|
  {
    if ds == [] {
    } else if ds[0].name == "refer" {
      assert ds[..0] == [];
    } else {
      FindReferring(ds[1..]);
      var k := Find(ds, "refer");
      if k < |ds| {
        assert ds[..k] == [ds[0]] + ds[1..][..k - 1];
        ReferringConcat([ds[0]], ds[1..][..k - 1]);
        ReferringOne(ds[0]);
      }
      AfterFirst(ds);
    }
  }

  lemma AfterFirst(ds: seq<Directive>)
    requires ds != [] && ds[0].name != "refer"
    ensures Find(Referring(ds), "refer") == Find(Referring(ds[1..]), "refer") + if Refers(ds[0]) then 1 else 0
  {
    if Refers(ds[0]) {
      assert Referring(ds)[0] == ds[0] && Referring(ds)[1..] == Referring(ds[1..]);
    } else {
      assert Referring(ds) == Referring(ds[1..]);
    }
  }

  /** The block that an old setting goes to, with the setting. */
  function Gathered(c: Directive, d: Directive): Directive {
    c.(subs := Put(SwitchedOn(c.subs), ReferTarget(d.name), d.args))
  }

  lemma FoldIs(ds: seq<Directive>, d: Directive)
    requires OldRefer(d)
    ensures var k := Find(ds, "refer");
      Fold(ds, d) == if k < |ds| then ds[k := Gathered(ds[k], d)] else ds + [Gathered(Blank("refer"), d)]
  {
    hide Put, SwitchedOn, MoveOf, KindOf, ReferTarget;
    var e, k := Ensured(ds, "refer"), Find(ds, "refer");
    if k == |ds| {
      assert e[k := Gathered(e[k], d)] == ds + [Gathered(Blank("refer"), d)];
    }
  }

  /** Folding a refer setting is the same with the other directives and without. */
  lemma ReferFold(ds: seq<Directive>, d: Directive, i: nat)
    requires OldRefer(d) && i <= |ds|
    ensures var r := Fold(ds, d);
      i <= |r| && Referring(r) == Fold(Referring(ds), d) && At(r, i) == At(ds, i)
  {
    var k, l := Find(ds, "refer"), Referring(ds);
    FoldIs(ds, d);
    FoldIs(l, d);
    FindReferring(ds);
    if k < |ds| {
      assert Refers(ds[k]) && Refers(Gathered(ds[k], d));
      hide Fold, Put, SwitchedOn, Find, Refers, Gathered, Referring, OldRefer;
      ReferringUpdate(ds, k, Gathered(ds[k], d));
      SameAt(ds, k, Gathered(ds[k], d), i);
    } else {
      var c := Gathered(Blank("refer"), d);
      assert Refers(c);
      hide Fold, Put, SwitchedOn, Find, Refers, Gathered, Referring, OldRefer;
      ReferringConcat(ds, [c]);
      ReferringOne(c);
      assert (ds + [c])[..i] == ds[..i];
    }
  }

  lemma OneOut(p: seq<Directive>, x: Directive, q: seq<Directive>)
    ensures var l := p + ([x] + q);
      |l| > |p| && l[|p|] == x && l[..|p|] + l[|p| + 1..] == p + q
    ensures [] + q == q
  {
  }

  lemma WithoutIt(ds: seq<Directive>, i: nat)
    requires i < |ds|
    ensures var ds', l, a := ds[..i] + ds[i + 1..], Referring(ds), At(ds, i);
      && ds'[..i] == ds[..i] && ds'[i..] == ds[i + 1..] && At(ds', i) == a
      && (Refers(ds[i]) ==> a < |l| && l[a] == ds[i] && Referring(ds') == l[..a] + l[a + 1..])
      && (!Refers(ds[i]) ==> Referring(ds') == l)
  {
    var ds' := ds[..i] + ds[i + 1..];
    assert ds'[..i] == ds[..i] && ds'[i..] == ds[i + 1..];
    assert ds == ds[..i] + ds[i..];
    hide Referring, Refers;
    AtNext(ds, i);
    ReferringConcat(ds[..i], ds[i..]);
    ReferringConcat(ds[..i], ds[i + 1..]);
    OneOut(Referring(ds[..i]), ds[i], Referring(ds[i + 1..]));
  }

  lemma ReferStep(ds: seq<Directive>, i: nat)
    requires i < |ds| && Erased(ds[i]) && OldRefer(ds[i])
    ensures var r := Fold(ds[..i] + ds[i + 1..], ds[i]);
      && i <= |r| && At(r, i) <= |Referring(r)| && At(ds, i) <= |Referring(ds)|
      && Walk(Referring(r), At(r, i)) == Walk(Referring(ds), At(ds, i))
  {
    OldSettingIs(ds[i]);
    hide Fold, Referring, Erased, OldRefer, OldSetting;
    AtSplits(ds, i);
    WithoutIt(ds, i);
    ReferFold(ds[..i] + ds[i + 1..], ds[i], i);
    WalkErased(Referring(ds), At(ds, i));
  }

  lemma OtherStep(ds: seq<Directive>, i: nat)
    requires i < |ds| && Erased(ds[i]) && !OldRefer(ds[i])
    ensures var r := Fold(ds[..i] + ds[i + 1..], ds[i]);
      && i <= |r| && At(r, i) == At(ds, i) <= |Referring(ds)| && Referring(r) == Referring(ds)
  {
    OldSettingIs(ds[i]);
    hide Fold, Referring, Erased, OldRefer, OldSetting;
    var ds', a := ds[..i] + ds[i + 1..], At(ds, i);
    var r := Fold(ds', ds[i]);
    AtSplits(ds, i);
    WithoutIt(ds, i);
    OtherFold(ds', ds[i], i);
    AtSplits(r, i);
    AtSplits(ds', i);
    Halves(Referring(r), Referring(ds'), a);
  }

  lemma Halves(a: seq<Directive>, b: seq<Directive>, i: nat)
    requires i <= |a| && i <= |b| && a[..i] == b[..i] && a[i..] == b[i..]
    ensures a == b
  {
    assert a == a[..i] + a[i..] && b == b[..i] + b[i..];
  }

  lemma ErasedStep(ds: seq<Directive>, i: nat)
    requires i < |ds| && Erased(ds[i])
    ensures var r := Fold(ds[..i] + ds[i + 1..], ds[i]);
      && i <= |r| && At(r, i) <= |Referring(r)| && At(ds, i) <= |Referring(ds)|
      && Walk(Referring(r), At(r, i)) == Walk(Referring(ds), At(ds, i))
  {
    hide Fold, Referring, Erased, OldRefer, OldSetting;
    if OldRefer(ds[i]) {
      ReferStep(ds, i);
    } else {
      OtherStep(ds, i);
    }
  }

  lemma WalkErased(l: seq<Directive>, a: nat)
    requires a < |l| && Erased(l[a])
    ensures a <= |Fold(l[..a] + l[a + 1..], l[a])| && Walk(l, a) == Walk(Fold(l[..a] + l[a + 1..], l[a]), a)
  {
    FoldErases(l, a);
  }

  lemma WalkStays(l: seq<Directive>, a: nat)
    requires a < |l| && !Erased(l[a])
    ensures Walk(l, a) == Walk(l[a := InPlace(l[a])], a + 1)
  {
  }

  lemma NoReferInPlace(d: Directive)
    requires !Refers(d)
    ensures !Refers(InPlace(d))
  {
    KindNames(d.name);
    assert |"http_static"| == 11 && |"refer"| == 5 && |"refer_play"| == 10 && |"refer_publish"| == 13;
  }

  lemma StayStep(ds: seq<Directive>, i: nat)
    requires i < |ds| && !Erased(ds[i])
    ensures var r := ds[i := InPlace(ds[i])];
      && At(r, i + 1) <= |Referring(r)| && At(ds, i) <= |Referring(ds)|
      && Walk(Referring(r), At(r, i + 1)) == Walk(Referring(ds), At(ds, i))
  {
    var d, l, a := ds[i], Referring(ds), At(ds, i);
    var r := ds[i := InPlace(d)];
    AtSplits(ds, i);
    AtSplits(r, i + 1);
    OldSettingIs(d);
    WithoutIt(ds, i);
    AtNext(ds, i);
    if Refers(d) {
      assert r == ds;
      hide Referring, InPlace, Erased;
      WalkStays(l, a);
      assert l[a := d] == l;
    } else {
      NoReferInPlace(d);
      AtNext(r, i);
      assert r[..i] == ds[..i];
      ReferringSame(ds, r);
    }
  }

  /** The rewriting of the refers does not depend on the other directives. */
  lemma {:induction false} WalkReferring(ds: seq<Directive>, i: nat)
    requires i <= |ds|
    ensures At(ds, i) <= |Referring(ds)|
    ensures Referring(Walk(ds, i)) == Walk(Referring(ds), At(ds, i))
    decreases ToErase(ds[i..]), |ds| - i
  {
    AtSplits(ds, i);
    if i == |ds| {
      assert ds[..i] == ds;
    } else {
      OldSettingIs(ds[i]);
      AtNext(ds, i);
      hide Fold, InPlace, OldRefer, Referring, Erased;
      if Erased(ds[i]) {
        FoldErases(ds, i);
        WalkReferring(Fold(ds[..i] + ds[i + 1..], ds[i]), i);
        ErasedStep(ds, i);
      } else {
        StayErases(ds, i);
        WalkReferring(ds[i := InPlace(ds[i])], i + 1);
        StayStep(ds, i);
      }
    }
  }

  // ---------------------------------------------------- what the refers say

  predicate AllRefer(l: seq<Directive>) {
    forall j :: 0 <= j < |l| ==> Refers(l[j])
  }

  predicate Setting3(n: string) {
    n == "all" || n == "play" || n == "publish"
  }

  /** There is a block to gather the settings in. */
  predicate HasBlock(l: seq<Directive>) {
    var k := Find(l, "refer");
    k < |l| && l[k].subs != []
  }

  lemma {:induction false} ReferringRefers(ds: seq<Directive>)
    ensures AllRefer(Referring(ds))
  {
    if ds == [] {
    } else {
      ReferringRefers(ds[1..]);
    }
  }

  lemma {:induction false} LookupReferring(ds: seq<Directive>, n: string)
    ensures Lookup(Referring(ds), "refer", n) == Lookup(ds, "refer", n)
  {
    FindReferring(ds);
    var k := Find(ds, "refer");
    if k < |ds| {
      ReferringUpdate(ds, k, ds[k]);
    }
  }

  lemma GatheredSays(c: Directive, d: Directive, n: string)
    requires OldRefer(d) && Setting3(n)
    ensures Gathered(c, d).subs != []
    ensures Args(Gathered(c, d).subs, n) == if NewName(d) == n then Some(d.args) else Args(c.subs, n)
  {
    OldSettingIs(d);
    PutArgs(SwitchedOn(c.subs), NewName(d), d.args, n);
    PutNonEmpty(SwitchedOn(c.subs), NewName(d), d.args);
    assert |"enabled"| == 7 && |"all"| == 3 && |"play"| == 4 && |"publish"| == 7 && "enabled"[0] != "publish"[0];
    if SwitchedOn(c.subs) != c.subs {
      FindSame(c.subs, SwitchedOn(c.subs), n);
    }
  }

  lemma {:induction false} LastReferredConcat(a: seq<Directive>, b: seq<Directive>, n: string)
    ensures LastReferred(a + b, n) == Or(LastReferred(b, n), LastReferred(a, n))
  {
    if a == [] {
      assert a + b == b;
    } else {
      assert (a + b)[1..] == a[1..] + b;
      LastReferredConcat(a[1..], b, n);
    }
  }

  lemma LastReferredOne(d: Directive, n: string)
    ensures LastReferred([d], n) == if OldSetting(d) && NewName(d) == n then Some(d.args) else None
  {
    var one: seq<Directive> := [d];
    assert one[1..] == [];
  }

  /** A block is no old setting, whatever it says. */
  lemma LastReferredUpdate(l: seq<Directive>, k: nat, d: Directive, n: string)
    requires k < |l| && !OldSetting(d)
    ensures LastReferred(l[k := d], n) == LastReferred(l[..k] + l[k + 1..], n)
    ensures !OldSetting(l[k]) ==> LastReferred(l, n) == LastReferred(l[..k] + l[k + 1..], n)
  {
    var a, b := l[..k], l[k + 1..];
    assert l == a + [l[k]] + b && l[k := d] == a + [d] + b;
    LastReferredConcat(a + [l[k]], b, n);
    LastReferredConcat(a, [l[k]], n);
    LastReferredConcat(a + [d], b, n);
    LastReferredConcat(a, [d], n);
    LastReferredConcat(a, b, n);
    LastReferredOne(l[k], n);
    LastReferredOne(d, n);
  }

  lemma LookupUpdate(l: seq<Directive>, d: Directive, n: string)
    requires Find(l, "refer") < |l| && d.name == "refer"
    ensures var r := l[Find(l, "refer") := d]; Find(r, "refer") == Find(l, "refer") && Lookup(r, "refer", n) == Args(d.subs, n)
  {
    FindIs(l[Find(l, "refer") := d], "refer", Find(l, "refer"));
  }

  /** Once there is a block, every old setting goes into it, and a later one
      replaces an earlier one. */
  lemma {:induction false} GatherOn(l: seq<Directive>, i: nat, n: string)
    requires i <= |l| && AllRefer(l) && HasBlock(l) && Setting3(n)
    ensures Lookup(Walk(l, i), "refer", n) == Or(LastReferred(l[i..], n), Lookup(l, "refer", n))
    decreases ToErase(l[i..]), |l| - i
  {
    if i == |l| {
    } else {
      OldSettingIs(l[i]);
      HeadTail(l, i);
      hide Fold, InPlace, OldRefer, Erased, Refers;
      if OldRefer(l[i]) {
        Gather(l, i, n);
        assert Erased(l[i]) by { OldIsErased(l[i]); }
        FoldErases(l, i);
        WalkErased(l, i);
        GatherOn(Fold(l[..i] + l[i + 1..], l[i]), i, n);
      } else {
        AllReferHas(l, i);
        StayErases(l, i);
        WalkStays(l, i);
        assert l[i := l[i]] == l;
        GatherOn(l, i + 1, n);
      }
    }
  }

  lemma OldIsErased(d: Directive)
    requires OldRefer(d)
    ensures Erased(d)
  {
  }

  lemma AllReferHas(l: seq<Directive>, i: nat)
    requires AllRefer(l) && i < |l| && !OldRefer(l[i])
    ensures !Erased(l[i]) && InPlace(l[i]) == l[i]
  {
    OldSettingIs(l[i]);
  }

  lemma FindWithout(l: seq<Directive>, i: nat)
    requires i < |l| && HasBlock(l) && OldRefer(l[i])
    ensures var l', k := l[..i] + l[i + 1..], Find(l, "refer");
      var k' := if i < k then k - 1 else k;
      Find(l', "refer") == k' < |l'| && l'[k'] == l[k] && l'[i..] == l[i + 1..] && l[k].name == "refer" && !OldSetting(l[k])
  {
    var l', k := l[..i] + l[i + 1..], Find(l, "refer");
    var k' := if i < k then k - 1 else k;
    OldSettingIs(l[i]);
    assert i != k && l'[k'] == l[k] && forall j :: 0 <= j < k' ==> l'[j] == l[if j < i then j else j + 1];
    FindIs(l', "refer", k');
  }

  lemma LastBehind(l: seq<Directive>, i: nat, k: nat, c: Directive, n: string)
    requires i <= |l| && k < |l| && !OldSetting(c) && !OldSetting(l[k])
    ensures LastReferred(l[k := c][i..], n) == LastReferred(l[i..], n)
  {
    if k >= i {
      assert l[k := c][i..] == l[i..][k - i := c];
      LastReferredUpdate(l[i..], k - i, c, n);
    } else {
      assert l[k := c][i..] == l[i..];
    }
  }

  /** The first place called refer, without the directive at i. */
  function Block(l: seq<Directive>, i: nat): nat {
    var k := Find(l, "refer");
    if i < k then k - 1 else k
  }

  lemma GatherFold(l: seq<Directive>, i: nat)
    requires i < |l| && HasBlock(l) && OldRefer(l[i])
    ensures var l', k, c := l[..i] + l[i + 1..], Block(l, i), Gathered(l[Find(l, "refer")], l[i]);
      && k < |l'| && l'[k] == l[Find(l, "refer")] && Find(l', "refer") == k && Fold(l', l[i]) == l'[k := c]
      && c.name == "refer" && l'[i..] == l[i + 1..] && !OldSetting(l'[k])
  {
    FindWithout(l, i);
    FoldIs(l[..i] + l[i + 1..], l[i]);
    hide Find, Put, SwitchedOn, OldRefer, OldSetting, Fold;
  }

  lemma GatherSays(l: seq<Directive>, i: nat, n: string)
    requires i < |l| && AllRefer(l) && HasBlock(l) && Setting3(n) && OldRefer(l[i])
    ensures var d, l', k, c := l[i], l[..i] + l[i + 1..], Block(l, i), Gathered(l[Find(l, "refer")], l[i]);
      && k < |l'| && HasBlock(l'[k := c]) && Lookup(l'[k := c], "refer", n) == (if NewName(d) == n then Some(d.args) else Lookup(l, "refer", n))
      && LastReferred(l'[k := c][i..], n) == LastReferred(l[i + 1..], n)
  {
    GatherFold(l, i);
    GatheredSays(l[Find(l, "refer")], l[i], n);
    var l', k, c := l[..i] + l[i + 1..], Block(l, i), Gathered(l[Find(l, "refer")], l[i]);
    hide Fold, OldRefer, OldSetting, Gathered, Find;
    LookupUpdate(l', c, n);
    BlockIsNoSetting(c);
    LastBehind(l', i, k, c, n);
  }

  lemma BlockIsNoSetting(c: Directive)
    requires c.name == "refer" && c.subs != []
    ensures !OldSetting(c) && Refers(c)
  {
  }

  /** One setting is put into the block. */
  lemma Gather(l: seq<Directive>, i: nat, n: string)
    requires i < |l| && AllRefer(l) && HasBlock(l) && Setting3(n) && OldRefer(l[i])
    ensures var r := Fold(l[..i] + l[i + 1..], l[i]);
      && i <= |r| && AllRefer(r) && HasBlock(r)
      && Or(LastReferred(r[i..], n), Lookup(r, "refer", n)) == Or(LastReferred(l[i..], n), Lookup(l, "refer", n))
  {
    hide Fold, OldRefer, OldSetting, Gathered, Find, Lookup, HasBlock, Block, Refers, NewName, Setting3, AllRefer, LastReferred;
    OldSettingIs(l[i]);
    GatherFold(l, i);
    GatherSays(l, i, n);
    HeadTail(l, i);
    LastReferredCons(l[i], l[i + 1..], n);
    AllReferUpdate(l, i, Block(l, i), Gathered(l[Find(l, "refer")], l[i]));
  }

  lemma AllReferUpdate(l: seq<Directive>, i: nat, k: nat, c: Directive)
    requires i < |l| && AllRefer(l) && c.name == "refer" && k < |l[..i] + l[i + 1..]|
    ensures AllRefer((l[..i] + l[i + 1..])[k := c])
  {
    var l' := l[..i] + l[i + 1..];
    assert forall j :: 0 <= j < |l'| ==> l'[j] == l[if j < i then j else j + 1];
  }

  lemma LastReferredCons(d: Directive, rest: seq<Directive>, n: string)
    ensures LastReferred([d] + rest, n) == Or(LastReferred(rest, n), if OldSetting(d) && NewName(d) == n then Some(d.args) else None)
  {
    LastReferredConcat([d], rest, n);
    LastReferredOne(d, n);
  }

  // --------------------------------------------------------------- the result

  /** What the refer directives l come to say about n.  If the first of them is a
      block, every old setting goes there; otherwise the first one opens a block:
      in the next directive called refer, if there is one, be it an old setting
      itself, which then does not count as one. */
  function Said(l: seq<Directive>, n: string): Option<seq<string>> {
    if l == [] then None
    else if !OldSetting(l[0]) then Or(LastReferred(l, n), Lookup(l, "refer", n))
    else
      var rest, k := l[1..], Find(l[1..], "refer");
      Or(LastReferred(if k < |rest| then rest[..k] + rest[k + 1..] else rest, n),
         Or(LastReferred([l[0]], n), if k < |rest| then Args(rest[k].subs, n) else None))
  }

  lemma FirstOpens(l: seq<Directive>, n: string)
    requires l != [] && AllRefer(l) && OldRefer(l[0]) && Setting3(n)
    ensures var r := Fold(l[1..], l[0]);
      AllRefer(r) && HasBlock(r) && Or(LastReferred(r, n), Lookup(r, "refer", n)) == Said(l, n)
  {
    var rest := l[1..];
    TailRefers(l);
    SaidIs(l, n);
    FoldIs(rest, l[0]);
    hide Fold, OldRefer, Gathered, LastReferred, NewName, AllRefer, HasBlock, Lookup, Find, Args, Said, Setting3;
    if Find(rest, "refer") < |rest| {
      OpensIn(rest, l[0], n);
    } else {
      OpensNew(rest, l[0], n);
    }
  }

  lemma TailRefers(l: seq<Directive>)
    requires l != [] && AllRefer(l)
    ensures AllRefer(l[1..])
  {
    assert forall j :: 0 <= j < |l[1..]| ==> l[1..][j] == l[j + 1];
  }

  lemma SaidIs(l: seq<Directive>, n: string)
    requires l != [] && OldRefer(l[0])
    ensures var rest, k := l[1..], Find(l[1..], "refer");
      Said(l, n) ==
        Or(LastReferred(if k < |rest| then rest[..k] + rest[k + 1..] else rest, n),
           if NewName(l[0]) == n then Some(l[0].args) else if k < |rest| then Args(rest[k].subs, n) else None)
  {
    OldSettingIs(l[0]);
    LastReferredOne(l[0], n);
    hide OldSetting, NewName, LastReferred, Find, Args, OldRefer;
  }

  /** The block is opened in a directive called refer that is there. */
  lemma OpensIn(rest: seq<Directive>, d: Directive, n: string)
    requires AllRefer(rest) && OldRefer(d) && Setting3(n) && Find(rest, "refer") < |rest|
    ensures var k := Find(rest, "refer");
      var r := rest[k := Gathered(rest[k], d)];
      && AllRefer(r) && HasBlock(r) && LastReferred(r, n) == LastReferred(rest[..k] + rest[k + 1..], n)
      && Lookup(r, "refer", n) == if NewName(d) == n then Some(d.args) else Args(rest[k].subs, n)
  {
    var k := Find(rest, "refer");
    var c := Gathered(rest[k], d);
    GatheredSays(rest[k], d, n);
    assert c.name == "refer";
    BlockIsNoSetting(c);
    LookupUpdate(rest, c, n);
    LastReferredUpdate(rest, k, c, n);
    hide Gathered, LastReferred, NewName;
  }

  /** The block is a new directive. */
  lemma OpensNew(rest: seq<Directive>, d: Directive, n: string)
    requires AllRefer(rest) && OldRefer(d) && Setting3(n) && Find(rest, "refer") == |rest|
    ensures var r := rest + [Gathered(Blank("refer"), d)];
      && AllRefer(r) && HasBlock(r) && LastReferred(r, n) == LastReferred(rest, n)
      && Lookup(r, "refer", n) == if NewName(d) == n then Some(d.args) else None
  {
    var c := Gathered(Blank("refer"), d);
    GatheredSays(Blank("refer"), d, n);
    assert Args([], n) == None by { assert Find([], n) == 0; }
    BlockIsNoSetting(c);
    assert (rest + [c])[|rest|] == c;
    FindIs(rest + [c], "refer", |rest|);
    LastReferredConcat(rest, [c], n);
    LastReferredOne(c, n);
    hide Gathered, LastReferred, NewName;
  }

  lemma NoFirst(l: seq<Directive>)
    requires l != []
    ensures l[..0] + l[0 + 1..] == l[1..] && l[0..] == l
  {
  }

  /** Where the old refer settings end up, for every vhost. */
  lemma RefersKeepTheirMeaning(ds: seq<Directive>, n: string)
    requires Setting3(n)
    ensures Lookup(Walk(ds, 0), "refer", n) == Said(Referring(ds), n)
  {
    var l := Referring(ds);
    WalkReferring(ds, 0);
    assert ds[..0] == [];
    LookupReferring(Walk(ds, 0), n);
    ReferringRefers(ds);
    hide Referring, Fold, OldRefer, Find;
    if l == [] {
      assert Lookup([], "refer", n) == None by { NothingThere(n); }
    } else {
      OldSettingIs(l[0]);
      NoFirst(l);
      if OldRefer(l[0]) {
        OldIsErased(l[0]);
        WalkErased(l, 0);
        FirstOpens(l, n);
        GatherOn(Fold(l[1..], l[0]), 0, n);
        assert Fold(l[1..], l[0])[0..] == Fold(l[1..], l[0]);
      } else {
        FirstIsBlock(l);
        GatherOn(l, 0, n);
      }
    }
  }

  lemma NothingThere(n: string)
    ensures Lookup([], "refer", n) == None
  {
  }

  lemma FirstIsBlock(l: seq<Directive>)
    requires l != [] && AllRefer(l) && !OldRefer(l[0])
    ensures HasBlock(l)
  {
    OldSettingIs(l[0]);
  }

  lemma {:induction false} NoneReferred(l: seq<Directive>, n: string)
    requires forall j :: 0 <= j < |l| ==> !(OldSetting(l[j]) && NewName(l[j]) == n)
    ensures LastReferred(l, n) == None
  {
    if l == [] {
    } else {
      NoneReferred(l[1..], n);
    }
  }

  lemma NotAll(d: Directive)
    requires Refers(d) && d.name != "refer"
    ensures NewName(d) != "all"
  {
    assert |"all"| == 3 && |"play"| == 4 && |"publish"| == 7;
  }

  lemma SaidByFirst(l: seq<Directive>)
    requires l != [] && AllRefer(l) && l[0].name == "refer" && l[0].subs == []
    requires forall j :: 1 <= j < |l| ==> l[j].name != "refer"
    ensures Said(l, "all") == Some(l[0].args)
  {
    var rest := l[1..];
    LastReferredOne(l[0], "all");
    hide Refers;
    assert forall j :: 0 <= j < |rest| ==> rest[j] == l[j + 1];
    FindNone(rest);
    forall j | 0 <= j < |rest|
      ensures NewName(rest[j]) != "all"
    {
      NotAll(rest[j]);
    }
    NoneReferred(rest, "all");
  }

  lemma SaidByLater(l: seq<Directive>, p: nat)
    requires 0 < p < |l| && AllRefer(l) && l[p].name == "refer" && l[p].subs == []
    requires forall j :: 0 <= j < |l| && j != p ==> l[j].name != "refer"
    ensures Said(l, "all") == None
  {
    var rest := l[1..];
    var others := rest[..p - 1] + rest[p..];
    assert forall j :: 0 <= j < |rest| ==> rest[j] == l[j + 1];
    FindIs(rest, "refer", p - 1);
    NotAll(l[0]);
    LastReferredOne(l[0], "all");
    assert OldSetting(l[0]) && Args(l[p].subs, "all") == None by { assert Find([], "all") == 0; }
    hide Refers, Find, Args, OldSetting;
    forall j | 0 <= j < |others|
      ensures NewName(others[j]) != "all"
    {
      assert others[j] == rest[if j < p - 1 then j else j + 1];
      NotAll(others[j]);
    }
    NoneReferred(others, "all");
  }

  /** An old `refer a`, the only directive of this name, is `all` afterwards if and
      only if it stands before every `refer_play` and `refer_publish`; behind one
      of them it is taken for the block to put that setting in, and what it says
      itself is lost. */
  lemma ReferIsKeptExactly(ds: seq<Directive>, p: nat)
    requires p < |Referring(ds)| && Referring(ds)[p].name == "refer" && Referring(ds)[p].subs == []
    requires forall j :: 0 <= j < |Referring(ds)| && j != p ==> Referring(ds)[j].name != "refer"
    ensures Lookup(Walk(ds, 0), "refer", "all") == if p == 0 then Some(Referring(ds)[p].args) else None
  {
    hide Referring, Walk, Lookup, Said, AllRefer;
    RefersKeepTheirMeaning(ds, "all");
    ReferringRefers(ds);
    if p == 0 {
      SaidByFirst(Referring(ds));
    } else {
      SaidByLater(Referring(ds), p);
    }
  }

  lemma {:induction false} FindNone(l: seq<Directive>)
    requires forall j :: 0 <= j < |l| ==> l[j].name != "refer"
    ensures Find(l, "refer") == |l|
  {
    var k := Find(l, "refer");
  }

  /** Such a vhost: what its `refer` said is not what is said afterwards. */
  lemma ReferBehindPlayIsLost(a: seq<string>, b: seq<string>)
    ensures var ds := [Directive("refer_play", b, [], 0), Directive("refer", a, [], 0)];
      Lookup(Walk(ds, 0), "refer", "all") == None
  {
    var ds := [Directive("refer_play", b, [], 0), Directive("refer", a, [], 0)];
    assert Referring(ds[1..]) == [ds[1]] + Referring(ds[1..][1..]) && ds[1..][1..] == [];
    assert Referring(ds) == ds;
    assert |"refer"| == 5 && |"refer_play"| == 10;
    ReferIsKeptExactly(ds, 1);
  }
}
