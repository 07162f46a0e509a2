/** What the rewriting leaves of the groups that it fills: `publish`, `play`,
    `cluster` and the block `refer` (srs_app_config.cpp). */
module ConfigGroups {
  import opened ConfigTree
  import opened Wrappers
  import opened Sequences
  import opened ConfigTransform
  import opened ConfigNormal
  import opened ConfigKeeps
  import opened ConfigRefer

  /** The groups of this name, in order; a `refer` without a block is none. */
  function Groups(ds: seq<Directive>, g: string): seq<Directive> {
    if ds == [] then [] else (if IsBlock(ds[0], g) then [ds[0]] else []) + Groups(ds[1..], g)
  }

  predicate IsBlock(d: Directive, g: string) {
    d.name == g && (g == "refer" ==> d.subs != [])
  }

  /** The settings b are the settings a, each at its place, and new ones behind
      them; only the first of each name can have got new arguments. */
  ghost predicate SubsKept(a: seq<Directive>, b: seq<Directive>) {
    && |b| >= |a|
    && (forall i :: 0 <= i < |a| ==> b[i] == a[i].(args := b[i].args))
    && (forall i, j :: 0 <= j < i < |a| && a[j].name == a[i].name ==> b[i] == a[i])
    && (forall i :: |a| <= i < |b| ==> b[i].subs == [] && b[i].line == 0)
  }

  /** A group keeps all but its settings as it was. */
  ghost predicate GroupKept(a: Directive, b: Directive) {
    b == a.(subs := b.subs) && SubsKept(a.subs, b.subs)
  }

  /** Of the groups of one name, at most the first is filled; if there is none,
      one can be made. */
  ghost predicate GroupsKept(a: seq<Directive>, b: seq<Directive>, g: string) {
    if a == [] then b == [] || (|b| == 1 && GroupKept(Directive(g, [], [], 0), b[0]))
    else |b| == |a| && GroupKept(a[0], b[0]) && b[1..] == a[1..]
  }

  // ------------------------------------------------------------ one setting

  lemma SubsKeptTwice(a: seq<Directive>, b: seq<Directive>, c: seq<Directive>)
    requires SubsKept(a, b) && SubsKept(b, c)
    ensures SubsKept(a, c)
  {
  }

  lemma PutKeeps(ds: seq<Directive>, n: string, args: seq<string>)
    ensures SubsKept(ds, Put(ds, n, args))
  {
  }

  lemma {:induction false} PutEachKeeps(ds: seq<Directive>, sets: seq<Setting>)
    ensures SubsKept(ds, PutEach(ds, sets))
    decreases |sets|
  {
    if sets == [] {
    } else {
      var r := Put(ds, sets[0].name, sets[0].args);
      PutKeeps(ds, sets[0].name, sets[0].args);
      PutEachKeeps(r, sets[1..]);
      hide Put, SubsKept;
      SubsKeptTwice(ds, r, PutEach(r, sets[1..]));
    }
  }

  lemma GatheredKeeps(c: Directive, d: Directive)
    ensures GroupKept(c, Gathered(c, d))
  {
    var s := SwitchedOn(c.subs);
    assert SubsKept(c.subs, s);
    hide SubsKept, Put, SwitchedOn, ReferTarget;
    PutKeeps(s, ReferTarget(d.name), d.args);
    SubsKeptTwice(c.subs, s, Put(s, ReferTarget(d.name), d.args));
  }

  lemma FilledKeeps(c: Directive, m: Move)
    ensures GroupKept(c, c.(subs := PutEach(c.subs, m.sets)))
  {
    hide PutEach;
    PutEachKeeps(c.subs, m.sets);
  }

  lemma GroupKeptTwice(a: Directive, b: Directive, c: Directive)
    requires GroupKept(a, b) && GroupKept(b, c)
    ensures GroupKept(a, c)
  {
    SubsKeptTwice(a.subs, b.subs, c.subs);
    hide SubsKept;
  }

  lemma GroupsKeptTwice(a: seq<Directive>, b: seq<Directive>, c: seq<Directive>, g: string)
    requires GroupsKept(a, b, g) && GroupsKept(b, c, g)
    ensures GroupsKept(a, c, g)
  {
    hide GroupKept;
    if b != [] {
      GroupKeptTwice(if a == [] then Blank(g) else a[0], b[0], c[0]);
    }
  }

  lemma NothingChanged(a: seq<Directive>, g: string)
    ensures GroupsKept(a, a, g)
  {
  }

  // ---------------------------------------------------------- lists of groups

  lemma {:induction false} GroupsConcat(a: seq<Directive>, b: seq<Directive>, g: string)
    ensures Groups(a + b, g) == Groups(a, g) + Groups(b, g)
  {
    if a == [] {
      assert a + b == b;
    } else {
      assert (a + b)[0] == a[0] && (a + b)[1..] == a[1..] + b;
      GroupsConcat(a[1..], b, g);
      hide IsBlock;
      Regroup(if IsBlock(a[0], g) then [a[0]] else [], Groups(a[1..], g), Groups(b, g));
    }
  }

  lemma GroupsOne(d: Directive, g: string)
    ensures Groups([d], g) == if IsBlock(d, g) then [d] else []
  {
    var one: seq<Directive> := [d];
    assert one[1..] == [];
  }

  lemma {:induction false} NoGroups(ds: seq<Directive>, g: string)
    requires forall j :: 0 <= j < |ds| ==> ds[j].name != g
    ensures Groups(ds, g) == []
  {
    if ds == [] {
    } else {
      NoGroups(ds[1..], g);
    }
  }

  /** A list split at i. */
  lemma GroupsSplit(ds: seq<Directive>, i: nat, g: string)
    requires i < |ds|
    ensures Groups(ds, g) == Groups(ds[..i], g) + ((if IsBlock(ds[i], g) then [ds[i]] else []) + Groups(ds[i + 1..], g))
  {
    assert ds == ds[..i] + ds[i..];
    GroupsConcat(ds[..i], ds[i..], g);
    HeadTail(ds, i);
  }

  lemma GroupsErased(ds: seq<Directive>, i: nat, g: string)
    requires i < |ds| && !IsBlock(ds[i], g)
    ensures Groups(ds[..i] + ds[i + 1..], g) == Groups(ds, g)
  {
    hide Groups, IsBlock;
    GroupsSplit(ds, i, g);
    GroupsConcat(ds[..i], ds[i + 1..], g);
    Regroup(Groups(ds[..i], g), [], Groups(ds[i + 1..], g));
  }

  lemma GroupsUpdated(ds: seq<Directive>, i: nat, d: Directive, g: string)
    requires i < |ds|
    ensures Groups(ds[i := d], g) == Groups(ds[..i], g) + ((if IsBlock(d, g) then [d] else []) + Groups(ds[i + 1..], g))
  {
    var r := ds[i := d];
    assert r[..i] == ds[..i] && r[i + 1..] == ds[i + 1..];
    hide Groups, IsBlock;
    GroupsSplit(r, i, g);
  }

  /** The first group is filled. */
  lemma FirstFilled(ds: seq<Directive>, g: string, d: Directive)
    requires Find(ds, g) < |ds| && IsBlock(ds[Find(ds, g)], g) && IsBlock(d, g) && GroupKept(ds[Find(ds, g)], d)
    ensures GroupsKept(Groups(ds, g), Groups(ds[Find(ds, g) := d], g), g)
  {
    var k := Find(ds, g);
    NoGroups(ds[..k], g);
    GroupsSplit(ds, k, g);
    GroupsUpdated(ds, k, d, g);
    hide Groups, IsBlock, GroupKept, Find;
    Regroup([], [ds[k]], Groups(ds[k + 1..], g));
    Regroup([], [d], Groups(ds[k + 1..], g));
  }

  lemma FirstMade(ds: seq<Directive>, g: string, d: Directive)
    requires Find(ds, g) == |ds| && IsBlock(d, g) && GroupKept(Blank(g), d)
    ensures Groups(ds, g) == [] && Groups(ds + [d], g) == [d] && GroupsKept(Groups(ds, g), Groups(ds + [d], g), g)
  {
    NoGroups(ds, g);
    GroupsConcat(ds, [d], g);
    GroupsOne(d, g);
    hide Groups, IsBlock, GroupKept, Find;
  }

  /** A directive with a new group of another name changes nothing. */
  lemma OtherGroup(ds: seq<Directive>, i: nat, d: Directive, g: string)
    requires i <= |ds| && !IsBlock(d, g) && (i < |ds| ==> !IsBlock(ds[i], g))
    ensures Groups(if i < |ds| then ds[i := d] else ds + [d], g) == Groups(ds, g)
  {
    hide IsBlock;
    if i < |ds| {
      GroupsSplit(ds, i, g);
      GroupsUpdated(ds, i, d, g);
    } else {
      GroupsConcat(ds, [d], g);
      GroupsOne(d, g);
    }
  }

  // -------------------------------------------------- publish, play, cluster

  predicate Filled(g: string) {
    g == "publish" || g == "play" || g == "cluster"
  }

  lemma OneChangedIs(ds: seq<Directive>, g: string, d: Directive, r: seq<Directive>)
    requires OneChanged(ds, g, d, r)
    ensures var k := Find(ds, g); r == if k < |ds| then ds[k := d] else ds + [d]
  {
    var k := Find(ds, g);
    if k < |ds| {
      assert r == ds[k := d];
    } else {
      assert r == ds + [d];
    }
  }

  lemma ChangedKeeps(ds: seq<Directive>, d: Directive)
    requires Erased(d)
    ensures GroupKept(FirstCalled(ds, GroupFor(d)), Changed(ds, d))
  {
    var c := FirstCalled(ds, GroupFor(d));
    if MoveOf(d).Some? {
      FilledKeeps(c, MoveOf(d).value);
    } else {
      GatheredKeeps(c, d);
    }
  }

  lemma FoldIsOne(ds: seq<Directive>, d: Directive)
    requires Erased(d)
    ensures var g, c := GroupFor(d), Changed(ds, d);
      var k := Find(ds, g);
      && c.name == g && Fold(ds, d) == (if k < |ds| then ds[k := c] else ds + [c])
      && GroupKept(if k < |ds| then ds[k] else Blank(g), c)
  {
    hide Erased, Fold, Changed, GroupFor, GroupKept;
    FoldChanges(ds, d);
    ChangedIsFine(ds, d);
    ChangedKeeps(ds, d);
    OneChangedIs(ds, GroupFor(d), Changed(ds, d), Fold(ds, d));
  }

  lemma FoldGroups(ds: seq<Directive>, d: Directive, g: string)
    requires Erased(d) && Filled(g)
    ensures GroupsKept(Groups(ds, g), Groups(Fold(ds, d), g), g)
  {
    FoldIsOne(ds, d);
    assert g != "refer" by { assert |"refer"| == 5 && |"publish"| == 7 && |"play"| == 4 && |"cluster"| == 7; }
    var h, c := GroupFor(d), Changed(ds, d);
    hide Fold, GroupFor, Changed, GroupKept, GroupsKept, Erased;
    if h == g {
      if Find(ds, g) < |ds| {
        FirstFilled(ds, g, c);
      } else {
        FirstMade(ds, g, c);
      }
    } else {
      OtherGroup(ds, Find(ds, h), c, g);
      NothingChanged(Groups(ds, g), g);
    }
  }

  lemma ErasedGroups(ds: seq<Directive>, i: nat, g: string)
    requires i < |ds| && Erased(ds[i]) && Filled(g)
    ensures GroupsKept(Groups(ds, g), Groups(Fold(ds[..i] + ds[i + 1..], ds[i]), g), g)
  {
    GroupKinds();
    ErasedIsNoGroup(ds[i], g);
    GroupsErased(ds, i, g);
    FoldGroups(ds[..i] + ds[i + 1..], ds[i], g);
  }

  lemma StayGroups(ds: seq<Directive>, i: nat, g: string)
    requires i < |ds| && Filled(g)
    ensures Groups(ds[i := InPlace(ds[i])], g) == Groups(ds, g)
  {
    GroupsStayInPlace(ds[i], g);
    hide InPlace;
    if IsBlock(ds[i], g) {
      assert ds[i := InPlace(ds[i])] == ds;
    } else {
      OtherGroup(ds, i, InPlace(ds[i]), g);
    }
  }

  lemma GroupsStayInPlace(d: Directive, g: string)
    requires Filled(g)
    ensures IsBlock(d, g) ==> InPlace(d) == d
    ensures !IsBlock(d, g) ==> !IsBlock(InPlace(d), g)
  {
    KindNames(d.name);
    assert |"refer"| == 5 && |"publish"| == 7 && |"play"| == 4 && |"cluster"| == 7 && |"http_static"| == 11;
  }

  /** A rewritten vhost has the groups it had, with all their settings; the first
      of each name is filled, or made. */
  lemma {:induction false} WalkGroups(ds: seq<Directive>, i: nat, g: string)
    requires i <= |ds| && Filled(g)
    ensures GroupsKept(Groups(ds, g), Groups(Walk(ds, i), g), g)
    decreases ToErase(ds[i..]), |ds| - i
  {
    if i == |ds| {
      NothingChanged(Groups(ds, g), g);
    } else if Erased(ds[i]) {
      var r := Fold(ds[..i] + ds[i + 1..], ds[i]);
      FoldErases(ds, i);
      ErasedGroups(ds, i, g);
      WalkGroups(r, i, g);
      hide GroupsKept, Groups, Fold, Erased, Filled;
      GroupsKeptTwice(Groups(ds, g), Groups(r, g), Groups(Walk(ds, i), g), g);
    } else {
      StayErases(ds, i);
      StayGroups(ds, i, g);
      WalkGroups(ds[i := InPlace(ds[i])], i + 1, g);
    }
  }

  // ------------------------------------------------------------------ refer

  lemma {:induction false} GroupsReferring(ds: seq<Directive>)
    ensures Groups(Referring(ds), "refer") == Groups(ds, "refer")
  {
    if ds == [] {
    } else {
      var rest := Referring(ds[1..]);
      GroupsReferring(ds[1..]);
      GroupsConcat(if Refers(ds[0]) then [ds[0]] else [], rest, "refer");
      GroupsOne(ds[0], "refer");
    }
  }

  lemma OldIsNoBlock(d: Directive)
    requires OldRefer(d)
    ensures !IsBlock(d, "refer")
  {
    OldSettingIs(d);
  }

  lemma GatheredIsBlock(c: Directive, d: Directive)
    requires OldRefer(d) && c.name == "refer"
    ensures IsBlock(Gathered(c, d), "refer") && GroupKept(c, Gathered(c, d))
  {
    GatheredKeeps(c, d);
    PutNonEmpty(SwitchedOn(c.subs), ReferTarget(d.name), d.args);
    hide GroupKept, Put, SwitchedOn;
  }

  lemma GatherGroups(l: seq<Directive>, i: nat)
    requires i < |l| && HasBlock(l) && OldRefer(l[i])
    ensures GroupsKept(Groups(l, "refer"), Groups(Fold(l[..i] + l[i + 1..], l[i]), "refer"), "refer")
  {
    GatherFold(l, i);
    OldIsNoBlock(l[i]);
    GroupsErased(l, i, "refer");
    var l', c := l[..i] + l[i + 1..], Gathered(l[Find(l, "refer")], l[i]);
    GatheredIsBlock(l[Find(l, "refer")], l[i]);
    hide Fold, Groups, GroupsKept, GroupKept, OldRefer, Gathered;
    FirstFilled(l', "refer", c);
  }

  lemma {:induction false} GatherOnGroups(l: seq<Directive>, i: nat)
    requires i <= |l| && AllRefer(l) && HasBlock(l)
    ensures GroupsKept(Groups(l, "refer"), Groups(Walk(l, i), "refer"), "refer")
    decreases ToErase(l[i..]), |l| - i
  {
    hide Fold, InPlace, OldRefer, Erased, Refers, GroupsKept, Groups, HasBlock;
    if i == |l| {
      NothingChanged(Groups(l, "refer"), "refer");
    } else if OldRefer(l[i]) {
      var r := Fold(l[..i] + l[i + 1..], l[i]);
      OldIsErased(l[i]);
      Gather(l, i, "all");
      GatherGroups(l, i);
      FoldErases(l, i);
      WalkErased(l, i);
      GatherOnGroups(r, i);
      GroupsKeptTwice(Groups(l, "refer"), Groups(r, "refer"), Groups(Walk(l, i), "refer"), "refer");
    } else {
      AllReferHas(l, i);
      StayErases(l, i);
      WalkStays(l, i);
      assert l[i := l[i]] == l;
      GatherOnGroups(l, i + 1);
    }
  }

  /** The old setting that comes first opens a block in the next directive called
      refer, if that is an old setting itself. */
  predicate TakenForBlock(l: seq<Directive>) {
    && l != [] && OldSetting(l[0])
    && var rest := l[1..];
       var k := Find(rest, "refer");
       k < |rest| && rest[k].subs == []
  }

  /** The blocks that are filled or kept, before they are. */
  function StartingBlocks(l: seq<Directive>): seq<Directive> {
    if TakenForBlock(l) then [l[1..][Find(l[1..], "refer")]] + Groups(l, "refer") else Groups(l, "refer")
  }

  /** The block is opened in an old `refer`. */
  lemma OpenedInOld(l: seq<Directive>, k: nat, c: Directive)
    requires Find(l, "refer") == k < |l| && l[k].subs == [] && IsBlock(c, "refer")
    ensures Groups(l[k := c], "refer") == [c] + Groups(l, "refer")
  {
    NoGroups(l[..k], "refer");
    GroupsSplit(l, k, "refer");
    GroupsUpdated(l, k, c, "refer");
    var tail := Groups(l[k + 1..], "refer");
    assert !IsBlock(l[k], "refer");
    hide Groups, IsBlock, Find;
    Regroup([], [], tail);
    Regroup([], [c], tail);
  }

  lemma StartingIs(l: seq<Directive>)
    requires l != [] && OldRefer(l[0])
    ensures var rest, k := l[1..], Find(l[1..], "refer");
      StartingBlocks(l) == (if k < |rest| && rest[k].subs == [] then [rest[k]] else []) + Groups(rest, "refer")
  {
    OldSettingIs(l[0]);
    OldIsNoBlock(l[0]);
    NoFirst(l);
    GroupsErased(l, 0, "refer");
    hide OldRefer, OldSetting, Groups, Find;
    Regroup([], Groups(l, "refer"), []);
  }

  lemma FirstOpensGroups(l: seq<Directive>)
    requires l != [] && AllRefer(l) && OldRefer(l[0])
    ensures GroupsKept(StartingBlocks(l), Groups(Fold(l[1..], l[0]), "refer"), "refer")
  {
    hide Groups, GroupsKept, StartingBlocks, Fold, OldRefer, AllRefer;
    StartingIs(l);
    OpensGroups(l[1..], l[0]);
  }

  lemma OpensGroups(rest: seq<Directive>, d: Directive)
    requires OldRefer(d)
    ensures var k := Find(rest, "refer");
      GroupsKept((if k < |rest| && rest[k].subs == [] then [rest[k]] else []) + Groups(rest, "refer"), Groups(Fold(rest, d), "refer"), "refer")
  {
    var k := Find(rest, "refer");
    FoldIs(rest, d);
    hide Fold, Groups, GroupKept, OldRefer, Gathered, GroupsKept;
    Regroup([], [], Groups(rest, "refer"));
    if k == |rest| {
      GatheredIsBlock(Blank("refer"), d);
      hide Find, IsBlock;
      FirstMade(rest, "refer", Gathered(Blank("refer"), d));
    } else if rest[k].subs == [] {
      hide Find, IsBlock;
      OpensInOld(rest, d);
    } else {
      GatheredIsBlock(rest[k], d);
      FirstFilled(rest, "refer", Gathered(rest[k], d));
    }
  }

  lemma OpensInOld(rest: seq<Directive>, d: Directive)
    requires OldRefer(d) && Find(rest, "refer") < |rest| && rest[Find(rest, "refer")].subs == []
    ensures var k := Find(rest, "refer");
      GroupsKept([rest[k]] + Groups(rest, "refer"), Groups(rest[k := Gathered(rest[k], d)], "refer"), "refer")
  {
    var k := Find(rest, "refer");
    hide Fold, Groups, GroupKept, OldRefer, Gathered, OldSetting;
    GatheredIsBlock(rest[k], d);
    OpenedInOld(rest, k, Gathered(rest[k], d));
    FirstAndRest(rest[k], Gathered(rest[k], d), Groups(rest, "refer"));
  }

  lemma FirstAndRest(a: Directive, b: Directive, rest: seq<Directive>)
    requires GroupKept(a, b)
    ensures GroupsKept([a] + rest, [b] + rest, "refer")
  {
    hide GroupKept;
  }

  /** A rewritten vhost has the refer blocks it had, with all their settings; the
      first is filled, or made, or is what was an old `refer` before. */
  lemma ReferBlocksKept(ds: seq<Directive>)
    ensures GroupsKept(StartingBlocks(Referring(ds)), Groups(Walk(ds, 0), "refer"), "refer")
  {
    var l := Referring(ds);
    WalkReferring(ds, 0);
    assert ds[..0] == [];
    GroupsReferring(Walk(ds, 0));
    ReferringRefers(ds);
    hide Referring, Fold, OldRefer, Find, Groups, GroupsKept, GroupKept;
    if l == [] {
      NothingChanged(Groups(l, "refer"), "refer");
    } else {
      OldSettingIs(l[0]);
      NoFirst(l);
      if OldRefer(l[0]) {
        var r := Fold(l[1..], l[0]);
        OldIsErased(l[0]);
        WalkErased(l, 0);
        FirstOpens(l, "all");
        FirstOpensGroups(l);
        GatherOnGroups(r, 0);
        GroupsKeptTwice(StartingBlocks(l), Groups(r, "refer"), Groups(Walk(r, 0), "refer"), "refer");
      } else {
        FirstIsBlock(l);
        GatherOnGroups(l, 0);
      }
    }
  }

  // ----------------------------------------------------- the block is enabled

  lemma {:induction false} FindArgIs(ds: seq<Directive>, n: string, a0: string)
    ensures var k := FindArg(ds, n, a0); k < |ds| ==> ds[k].name == n && Find(ds, n) < |ds|
  {
    if ds == [] || (ds[0].name == n && Arg0(ds[0]) == a0) {
    } else {
      FindArgIs(ds[1..], n, a0);
    }
  }

  lemma SwitchedOnSays(ds: seq<Directive>)
    ensures Args(SwitchedOn(ds), "enabled") == Or(Args(ds, "enabled"), Some(["on"]))
  {
    FindArgIs(ds, "enabled", "on");
    var r := SwitchedOn(ds);
    if r != ds {
      if Find(ds, "enabled") < |ds| {
        FindIs(r, "enabled", Find(ds, "enabled"));
      } else {
        assert r[|ds|].name == "enabled" && forall j :: 0 <= j < |ds| ==> r[j].name != "enabled";
        FindIs(r, "enabled", |ds|);
      }
    }
  }

  lemma GatheredOn(c: Directive, d: Directive)
    requires OldRefer(d)
    ensures Args(Gathered(c, d).subs, "enabled") == Or(Args(c.subs, "enabled"), Some(["on"]))
  {
    OldSettingIs(d);
    SwitchedOnSays(c.subs);
    PutArgs(SwitchedOn(c.subs), NewName(d), d.args, "enabled");
    assert |"enabled"| == 7 && |"all"| == 3 && |"play"| == 4 && |"publish"| == 7 && "enabled"[0] != "publish"[0];
  }

  predicate AnySetting(l: seq<Directive>) {
    exists j :: 0 <= j < |l| && OldSetting(l[j])
  }

  lemma GatherOnce(l: seq<Directive>, i: nat)
    requires i < |l| && AllRefer(l) && HasBlock(l) && OldRefer(l[i])
    ensures var r := Fold(l[..i] + l[i + 1..], l[i]);
      Lookup(r, "refer", "enabled") == Or(Lookup(l, "refer", "enabled"), Some(["on"]))
  {
    GatherFold(l, i);
    GatheredOn(l[Find(l, "refer")], l[i]);
    hide Fold, OldRefer, Gathered, Find, Args;
    LookupUpdate(l[..i] + l[i + 1..], Gathered(l[Find(l, "refer")], l[i]), "enabled");
    LookupIs(l, "enabled");
  }

  lemma LookupIs(l: seq<Directive>, n: string)
    requires HasBlock(l)
    ensures Find(l, "refer") < |l| && Lookup(l, "refer", n) == Args(l[Find(l, "refer")].subs, n)
  {
  }

  lemma AnyNext(l: seq<Directive>, i: nat)
    requires i < |l|
    ensures AnySetting(l[i..]) <==> OldSetting(l[i]) || AnySetting(l[i + 1..])
  {
    var a, b := l[i..], l[i + 1..];
    assert a[0] == l[i] && (forall j :: 0 < j < |a| ==> a[j] == b[j - 1]) && forall j :: 0 <= j < |b| ==> b[j] == a[j + 1];
  }

  lemma {:induction false} GatherTurnsOn(l: seq<Directive>, i: nat)
    requires i <= |l| && AllRefer(l) && HasBlock(l)
    ensures Lookup(Walk(l, i), "refer", "enabled") ==
      if AnySetting(l[i..]) then Or(Lookup(l, "refer", "enabled"), Some(["on"])) else Lookup(l, "refer", "enabled")
    decreases ToErase(l[i..]), |l| - i
  {
    hide Fold, InPlace, OldRefer, Erased, Refers, HasBlock, Lookup, AnySetting;
    if i == |l| {
      assert !AnySetting(l[i..]) by { NoneLeft(l[i..]); }
    } else {
      OldSettingIs(l[i]);
      AnyNext(l, i);
      if OldRefer(l[i]) {
        OldIsErased(l[i]);
        Gather(l, i, "all");
        GatherOnce(l, i);
        FoldErases(l, i);
        WalkErased(l, i);
        GatherTurnsOn(Fold(l[..i] + l[i + 1..], l[i]), i);
      } else {
        AllReferHas(l, i);
        StayErases(l, i);
        WalkStays(l, i);
        assert l[i := l[i]] == l;
        GatherTurnsOn(l, i + 1);
      }
    }
  }

  lemma NoneLeft(l: seq<Directive>)
    ensures l == [] ==> !AnySetting(l)
  {
  }

  /** What the refer directives l come to say about `enabled`: what their block
      says, or on, as soon as there is an old setting. */
  function TurnedOn(l: seq<Directive>): Option<seq<string>> {
    if l == [] then None
    else if OldSetting(l[0]) then
      var rest, k := l[1..], Find(l[1..], "refer");
      Or(if k < |rest| then Args(rest[k].subs, "enabled") else None, Some(["on"]))
    else if AnySetting(l) then Or(Args(l[0].subs, "enabled"), Some(["on"]))
    else Args(l[0].subs, "enabled")
  }

  lemma FirstTurnsOn(l: seq<Directive>)
    requires l != [] && AllRefer(l) && OldRefer(l[0])
    ensures Lookup(Fold(l[1..], l[0]), "refer", "enabled") == TurnedOn(l) && Or(TurnedOn(l), Some(["on"])) == TurnedOn(l)
  {
    var rest, d := l[1..], l[0];
    var k := Find(rest, "refer");
    OldSettingIs(d);
    FoldIs(rest, d);
    GatheredOn(if k < |rest| then rest[k] else Blank("refer"), d);
    if k < |rest| {
      hide Fold, OldRefer, Gathered, OldSetting, Args;
      LookupUpdate(rest, Gathered(rest[k], d), "enabled");
    } else {
      var c := Gathered(Blank("refer"), d);
      assert Args([], "enabled") == None by { assert Find([], "enabled") == 0; }
      assert (rest + [c])[|rest|] == c && c.name == "refer";
      hide Fold, OldRefer, Gathered, OldSetting;
      FindIs(rest + [c], "refer", |rest|);
    }
  }

  lemma ReferringTurnsOn(l: seq<Directive>)
    requires l != [] && AllRefer(l)
    ensures Lookup(Walk(l, 0), "refer", "enabled") == TurnedOn(l)
  {
    NoFirst(l);
    if OldRefer(l[0]) {
      hide Fold, OldRefer, Find, AnySetting, Args, AllRefer, HasBlock, TurnedOn, Lookup;
      OldIsErased(l[0]);
      WalkErased(l, 0);
      FirstOpens(l, "all");
      FirstTurnsOn(l);
      GatherTurnsOn(Fold(l[1..], l[0]), 0);
    } else {
      OldSettingIs(l[0]);
      FirstIsBlock(l);
      FirstSays(l);
      GatherTurnsOn(l, 0);
      hide OldRefer, Find, AnySetting, Args, AllRefer, HasBlock, OldSetting, Lookup;
    }
  }

  /** Old refer settings switch their block on, unless it says something else. */
  lemma RefersAreOn(ds: seq<Directive>)
    ensures Lookup(Walk(ds, 0), "refer", "enabled") == TurnedOn(Referring(ds))
  {
    var l := Referring(ds);
    WalkReferring(ds, 0);
    assert ds[..0] == [];
    LookupReferring(Walk(ds, 0), "enabled");
    ReferringRefers(ds);
    hide Referring, Find, Args, AllRefer;
    if l == [] {
      assert Lookup([], "refer", "enabled") == None by { NothingThere("enabled"); }
    } else {
      hide TurnedOn, Lookup;
      ReferringTurnsOn(l);
    }
  }

  lemma FirstSays(l: seq<Directive>)
    requires l != [] && AllRefer(l) && !OldRefer(l[0])
    ensures Lookup(l, "refer", "enabled") == Args(l[0].subs, "enabled")
  {
    OldSettingIs(l[0]);
    FindIs(l, "refer", 0);
  }
}
