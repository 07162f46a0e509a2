/** What the rewriting makes of the directives that stay (srs_app_config.cpp). */
module ConfigKeeps {
  import opened ConfigTree
  import opened Wrappers
  import opened ConfigTransform
  import opened ConfigNormal
  import opened ConfigTransformer

  /** Old names whose directives go elsewhere, and the names of the groups. */
  const MOVED_NAMES := ["refer", "refer_play", "refer_publish", "mr", "publish_1stpkt_timeout", "publish_normal_timeout",
                        "time_jitter", "mix_correct", "atc", "atc_auto", "mw_latency", "gop_cache", "queue_length",
                        "send_min_interval", "reduce_sequence_header",
                        "mode", "origin", "token_traverse", "vhost", "debug_srs_upnode"]
  const GROUP_NAMES := ["refer", "publish", "play", "cluster"]

  predicate Stays(d: Directive) {
    d.name !in MOVED_NAMES && d.name !in GROUP_NAMES
  }

  function Staying(ds: seq<Directive>): seq<Directive> {
    if ds == [] then [] else (if Stays(ds[0]) then [ds[0]] else []) + Staying(ds[1..])
  }

  /** The arguments of the first directive of this name. */
  function FirstArgs(ds: seq<Directive>, n: string): Option<seq<string>> {
    if ds == [] then None else if ds[0].name == n then Some(ds[0].args) else FirstArgs(ds[1..], n)
  }

  /** b is a without its first directive of this name, if it has one. */
  ghost predicate LosesFirst(a: seq<Directive>, n: string, b: seq<Directive>) {
    || (b == a && forall j :: 0 <= j < |a| ==> a[j].name != n)
    || (exists k :: 0 <= k < |a| && a[k].name == n && (forall j :: 0 <= j < k ==> a[j].name != n) && b == a[..k] + a[k + 1..])
  }

  /** What the style of today makes of a directive d that stays: its forward
      target becomes the destination of a forward that is enabled, a vhost's http
      is http_static, and the first hstrs of an http_remux is gone. */
  ghost predicate NewForm(d: Directive, r: Directive) {
    if d.name == "forward" && d.subs == [] && d.args != [] then (
      && r.name == "forward" && r.args == [] && r.line == d.line && |r.subs| == 2
      && FirstArgs(r.subs, "enabled") == Some(["on"]) && FirstArgs(r.subs, "destination") == Some(d.args))
    else if d.name == "http" then
      r.name == "http_static" && r.args == d.args && r.subs == d.subs && r.line == d.line
    else if d.name == "http_remux" then
      r.name == d.name && r.args == d.args && r.line == d.line && LosesFirst(d.subs, "hstrs", r.subs)
    else r == d
  }

  lemma KindNames(n: string)
    ensures KindOf(n) == Forward <==> n == "forward"
    ensures KindOf(n) == Http <==> n == "http"
    ensures KindOf(n) == Remux <==> n == "http_remux"
    ensures KindOf(n) == Refer <==> n == "refer"
    ensures KindOf(n) == ReferPart <==> n == "refer_play" || n == "refer_publish"
    ensures KindOf(n) == Mr <==> n == "mr"
    ensures KindOf(n) == Group <==> n == "publish" || n == "play" || n == "cluster"
  {
    GroupKinds();
    FirstLetters();
    NamesDiffer();
    ShadowKinds(n);
    assert |"http"| == 4 && |"http_remux"| == 10 && |"refer"| == 5 && |"refer_play"| == 10 && |"refer_publish"| == 13 && |"mr"| == 2;
    assert forall i :: 0 <= i < |PLAY_NAMES| ==> PLAY_NAMES[i][0] != 'f' && PLAY_NAMES[i][0] != 'h' && PLAY_NAMES[i][0] != 'p';
  }

  lemma MovedNames(n: string)
    ensures n in MOVED_NAMES <==>
      || n == "refer" || n == "refer_play" || n == "refer_publish"
      || n == "mr" || n == "publish_1stpkt_timeout" || n == "publish_normal_timeout"
      || n in PLAY_NAMES || n in CLUSTER_NAMES
  {
    var first := ["refer", "refer_play", "refer_publish", "mr", "publish_1stpkt_timeout", "publish_normal_timeout"];
    assert MOVED_NAMES == first + PLAY_NAMES + CLUSTER_NAMES;
    assert n in first <==> n == first[0] || n == first[1] || n == first[2] || n == first[3] || n == first[4] || n == first[5];
  }

  lemma GroupNames(n: string)
    ensures n in GROUP_NAMES <==> IsGroup(n)
  {
    assert n in GROUP_NAMES <==> n == GROUP_NAMES[0] || n == GROUP_NAMES[1] || n == GROUP_NAMES[2] || n == GROUP_NAMES[3];
  }

  lemma KindMoves(n: string)
    ensures KindOf(n) == FirstTimeout <==> n == "publish_1stpkt_timeout"
    ensures KindOf(n) == NormalTimeout <==> n == "publish_normal_timeout"
    ensures KindOf(n) == PlayName <==> n in PLAY_NAMES
    ensures KindOf(n) == ClusterName <==> n in CLUSTER_NAMES
  {
    NamesDiffer();
    ShadowKinds(n);
  }

  lemma StaysMeans(d: Directive)
    ensures Stays(d) <==> !IsGroup(d.name) && !Erased(d)
  {
    KindNames(d.name);
    KindMoves(d.name);
    MovedNames(d.name);
    GroupNames(d.name);
    hide KindOf;
  }

  lemma {:induction false} FirstArgsIs(ds: seq<Directive>, k: nat)
    requires k < |ds| && forall j :: 0 <= j < k ==> ds[j].name != ds[k].name
    ensures FirstArgs(ds, ds[k].name) == Some(ds[k].args)
  {
    if k == 0 {
    } else {
      FirstArgsIs(ds[1..], k - 1);
    }
  }

  /** What is done in place gives the style of today. */
  lemma InPlaceIsNew(d: Directive)
    requires Stays(d)
    ensures NewForm(d, InPlace(d))
  {
    KindNames(d.name);
    if OldForward(d) {
      var subs := InPlace(d).subs;
      assert subs[0].name != subs[1].name;
      FirstArgsIs(subs, 0);
      FirstArgsIs(subs, 1);
    }
  }

  lemma {:induction false} RewrittenIsNew(ds: seq<Directive>)
    ensures |Rewritten(ds)| == |Staying(ds)|
    ensures forall i :: 0 <= i < |Staying(ds)| ==> NewForm(Staying(ds)[i], Rewritten(ds)[i])
  {
    if ds == [] {
    } else {
      RewrittenIsNew(ds[1..]);
      StaysMeans(ds[0]);
      if Stays(ds[0]) {
        InPlaceIsNew(ds[0]);
      }
      hide InPlace, NewForm, Stays, Erased, IsGroup;
    }
  }

  /** The directives outside the groups. */
  function Ungrouped(ds: seq<Directive>): seq<Directive> {
    if ds == [] then [] else (if ds[0].name in GROUP_NAMES then [] else [ds[0]]) + Ungrouped(ds[1..])
  }

  lemma {:induction false} UngroupedIsOutside(ds: seq<Directive>)
    ensures Ungrouped(ds) == Outside(ds)
  {
    if ds == [] {
    } else {
      GroupNames(ds[0].name);
      UngroupedIsOutside(ds[1..]);
    }
  }

  /** Outside the groups, a rewritten vhost consists of the directives that stay,
      in their order, each in the style of today. */
  lemma VhostKeeps(ds: seq<Directive>)
    ensures var r := Ungrouped(Walk(ds, 0));
      |r| == |Staying(ds)| && forall i :: 0 <= i < |r| ==> NewForm(Staying(ds)[i], r[i])
  {
    WalkKeeps(ds, 0);
    UngroupedIsOutside(Walk(ds, 0));
    RewrittenIsNew(ds);
    assert ds[..0] == [] && ds[0..] == ds && Outside([]) + Rewritten(ds) == Rewritten(ds);
  }

  /** In the whole tree nothing but the vhosts and the name of http_stream
      changes. */
  lemma RootKeeps(ds: seq<Directive>)
    ensures var r := Rewrite(ds);
      && |r| == |ds|
      && forall i :: 0 <= i < |ds| ==>
        && r[i].args == ds[i].args && r[i].line == ds[i].line
        && r[i].name == (if ds[i].name == "http_stream" then "http_server" else ds[i].name)
        && (ds[i].name != "vhost" ==> r[i].subs == ds[i].subs)
        && (ds[i].name == "vhost" ==>
              var a, b := Staying(ds[i].subs), Ungrouped(r[i].subs);
              |b| == |a| && forall j :: 0 <= j < |a| ==> NewForm(a[j], b[j]))
  {
    forall i | 0 <= i < |ds| && ds[i].name == "vhost"
      ensures var a, b := Staying(ds[i].subs), Ungrouped(Rewrite(ds)[i].subs);
        |b| == |a| && forall j :: 0 <= j < |a| ==> NewForm(a[j], b[j])
    {
      assert "vhost" != "http_stream" by { assert |"vhost"| == 5 && |"http_stream"| == 11; }
      VhostKeeps(ds[i].subs);
    }
    assert |"vhost"| == 5 && |"http_stream"| == 11;
  }

  // ------------------------------------------------------------- mr

  /** The arguments of the first `sub` in the last `mr` that has one. */
  function LastInMr(ds: seq<Directive>, sub: string): Option<seq<string>> {
    if ds == [] then None
    else Or(LastInMr(ds[1..], sub), if ds[0].name == "mr" then FirstArgs(ds[0].subs, sub) else None)
  }

  lemma {:induction false} FirstArgsFind(ds: seq<Directive>, n: string)
    ensures FirstArgs(ds, n) == if Find(ds, n) < |ds| then Some(ds[Find(ds, n)].args) else None
  {
    if ds == [] {
    } else if ds[0].name == n {
    } else {
      FirstArgsFind(ds[1..], n);
    }
  }

  lemma MrOnly(d: Directive, sub: string, n: string)
    requires (sub == "enabled" && n == "mr") || (sub == "latency" && n == "mr_latency")
    ensures LastMoved([d], "publish", n) == if d.name == "mr" then FirstArgs(d.subs, sub) else None
  {
    LastMovedOne(d, "publish", n);
    KindNames(d.name);
    NamesDiffer();
    if MoveOf(d).Some? && KindOf(d.name) != Mr {
      LastOfOne(MoveOf(d).value.sets[0], n);
    }
    if d.name == "mr" {
      FirstArgsFind(d.subs, sub);
      MrSettingsAre(d.subs, n);
    }
  }

  lemma MrSettingsAre(subs: seq<Directive>, n: string)
    requires n == "mr" || n == "mr_latency"
    ensures LastOf(SetFrom(subs, "enabled", "mr") + SetFrom(subs, "latency", "mr_latency"), n) ==
      LastOf(if n == "mr" then SetFrom(subs, "enabled", "mr") else SetFrom(subs, "latency", "mr_latency"), n)
    ensures var sub := if n == "mr" then "enabled" else "latency";
      var k := Find(subs, sub);
      LastOf(if n == "mr" then SetFrom(subs, "enabled", "mr") else SetFrom(subs, "latency", "mr_latency"), n) ==
        if k < |subs| then Some(subs[k].args) else None
  {
    assert |"mr"| == 2 && |"mr_latency"| == 10;
    var a, b := SetFrom(subs, "enabled", "mr"), SetFrom(subs, "latency", "mr_latency");
    assert a == [] || a == [a[0]];
    assert b == [] || b == [b[0]];
    if a != [] {
      LastOfOne(a[0], n);
    }
    if b != [] {
      LastOfOne(b[0], n);
    }
    if a != [] && b != [] {
      assert (a + b)[1..] == b;
    } else if a == [] {
      assert a + b == b;
    } else {
      assert a + b == a;
    }
  }

  lemma {:induction false} LastInMrIs(ds: seq<Directive>, sub: string, n: string)
    requires (sub == "enabled" && n == "mr") || (sub == "latency" && n == "mr_latency")
    ensures LastMoved(ds, "publish", n) == LastInMr(ds, sub)
  {
    if ds == [] {
    } else {
      LastInMrIs(ds[1..], sub, n);
      MrOnly(ds[0], sub, n);
      LastMovedOne(ds[0], "publish", n);
    }
  }

  /** The two settings of old `mr` blocks are those of `publish` now. */
  lemma MrKeepsItsMeaning(ds: seq<Directive>)
    ensures Lookup(Walk(ds, 0), "publish", "mr") == Or(LastInMr(ds, "enabled"), Lookup(ds, "publish", "mr"))
    ensures Lookup(Walk(ds, 0), "publish", "mr_latency") == Or(LastInMr(ds, "latency"), Lookup(ds, "publish", "mr_latency"))
  {
    assert |"refer"| == 5 && |"publish"| == 7;
    WalkMoves(ds, 0, "publish", "mr");
    WalkMoves(ds, 0, "publish", "mr_latency");
    assert ds[0..] == ds;
    LastInMrIs(ds, "enabled", "mr");
    LastInMrIs(ds, "latency", "mr_latency");
  }
}
