/** The rewriting as it runs, over lists that change while they are walked
    (srs_app_config.cpp), and what it means for a whole tree. */
module ConfigTransformer {
  import opened ConfigTree
  import opened Wrappers
  import opened Sequences
  import opened ConfigTransform
  import opened ConfigNormal

  /** A directive whose sub-directives are being changed. */
  class Node {
    var directives: seq<Directive>

    constructor (ds: seq<Directive>)
      ensures directives == ds
    {
      directives := ds;
    }

    /** `get`: the position of the first directive of this name, or the end. */
    method Get(n: string) returns (k: nat)
      ensures k == Find(directives, n)
    {
      k := 0;
      while k < |directives| && directives[k].name != n
        invariant k <= |directives| && k + Find(directives[k..], n) == Find(directives, n)
      {
        HeadTail(directives, k);
        k := k + 1;
      }
    }

    method GetArg(n: string, a0: string) returns (k: nat)
      ensures k == FindArg(directives, n, a0)
    {
      k := 0;
      while k < |directives| && !(directives[k].name == n && Arg0(directives[k]) == a0)
        invariant k <= |directives| && k + FindArg(directives[k..], n, a0) == FindArg(directives, n, a0)
      {
        HeadTail(directives, k);
        k := k + 1;
      }
    }

    method GetOrCreate(n: string) returns (k: nat)
      modifies this
      ensures directives == Ensured(old(directives), n) && k == Find(old(directives), n) < |directives|
    {
      k := Get(n);
      if k == |directives| {
        directives := directives + [Blank(n)];
      }
    }

    method GetOrCreateArg(n: string, a0: string)
      modifies this
      ensures directives == if FindArg(old(directives), n, a0) < |old(directives)| then old(directives) else old(directives) + [Directive(n, [a0], [], 0)]
    {
      var k := GetArg(n, a0);
      if k == |directives| {
        directives := directives + [Directive(n, [a0], [], 0)];
      }
    }

    /** `remove`, of the first directive of this name. */
    method RemoveFirst(n: string)
      modifies this
      ensures directives == WithoutFirst(old(directives), n)
    {
      var k := Get(n);
      if k < |directives| {
        directives := directives[..k] + directives[k + 1..];
      }
    }

    method SetArgs(n: string, args: seq<string>)
      modifies this
      ensures directives == Put(old(directives), n, args)
    {
      var k := GetOrCreate(n);
      directives := directives[k := directives[k].(args := args)];
    }

    /** Puts settings into the first directive of the group. */
    method SetInGroup(group: string, sets: seq<Setting>)
      modifies this
      ensures directives == PutIn(old(directives), group, sets)
    {
      var k := GetOrCreate(group);
      var node := new Node(directives[k].subs);
      var i := 0;
      while i < |sets|
        invariant i <= |sets| && directives == Ensured(old(directives), group)
        invariant PutEach(node.directives, sets[i..]) == PutEach(directives[k].subs, sets)
      {
        HeadTail(sets, i);
        node.SetArgs(sets[i].name, sets[i].args);
        i := i + 1;
      }
      directives := directives[k := directives[k].(subs := node.directives)];
    }

    /** `refer`, `refer_play` and `refer_publish`. */
    method FoldRefer(conf: Directive)
      requires OldRefer(conf)
      modifies this
      ensures directives == Fold(old(directives), conf)
    {
      var k := GetOrCreate("refer");
      var node := new Node(directives[k].subs);
      node.GetOrCreateArg("enabled", "on");
      node.SetArgs(ReferTarget(conf.name), conf.args);
      directives := directives[k := directives[k].(subs := node.directives)];
    }

    /** The settings of an old `mr` block. */
    method MrSettings(conf: Directive) returns (sets: seq<Setting>)
      ensures sets == SetFrom(conf.subs, "enabled", "mr") + SetFrom(conf.subs, "latency", "mr_latency")
    {
      sets := [];
      var node := new Node(conf.subs);
      var enabled := node.Get("enabled");
      if enabled < |conf.subs| {
        sets := sets + [Setting("mr", conf.subs[enabled].args)];
      }
      var latency := node.Get("latency");
      if latency < |conf.subs| {
        sets := sets + [Setting("mr_latency", conf.subs[latency].args)];
      }
    }

    /** One directive that stays in its place. */
    method RewriteInPlace(conf: Directive) returns (r: Directive)
      requires !Erased(conf)
      ensures r == InPlace(conf)
    {
      r := conf;
      match KindOf(conf.name)
      case Http =>
        r := r.(name := "http_static");
      case Remux =>
        var node := new Node(conf.subs);
        node.RemoveFirst("hstrs");
        r := r.(subs := node.directives);
      case Forward =>
        if conf.subs == [] && conf.args != [] {
          r := r.(args := [], subs := [Directive("enabled", ["on"], [], 0), Directive("destination", conf.args, [], 0)]);
        }
      case _ =>
    }

    /** The loop over the directives of one vhost: an index that stays where it
        is when the directive under it is erased. */
    method TransformVhost()
      modifies this
      ensures directives == Walk(old(directives), 0)
    {
      var it: nat := 0;
      while it < |directives|
        invariant it <= |directives| && Walk(directives, it) == Walk(old(directives), 0)
        decreases ToErase(directives[it..]), |directives| - it
      {
        if Erased(directives[it]) {
          FoldErases(directives, it);
        } else {
          StayErases(directives, it);
        }
        it := TransformOne(it);
      }
    }

    /** One round of the loop. */
    method TransformOne(it: nat) returns (next: nat)
      requires it < |directives|
      modifies this
      ensures Erased(old(directives)[it]) ==>
        next == it && directives == Fold(old(directives)[..it] + old(directives)[it + 1..], old(directives)[it])
      ensures !Erased(old(directives)[it]) ==>
        next == it + 1 && directives == old(directives)[it := InPlace(old(directives)[it])]
    {
      var conf := directives[it];
      if OldRefer(conf) {
        directives := directives[..it] + directives[it + 1..];
        FoldRefer(conf);
        return it;
      }
      var move := WhereTo(conf);
      if move.Some? {
        directives := directives[..it] + directives[it + 1..];
        SetInGroup(move.value.group, move.value.sets);
        return it;
      }
      var r := RewriteInPlace(conf);
      directives := directives[it := r];
      next := it + 1;
    }

    /** Where the arguments of an old directive belong now. */
    method WhereTo(conf: Directive) returns (move: Option<Move>)
      ensures move == MoveOf(conf)
    {
      match KindOf(conf.name)
      case Mr =>
        var sets := MrSettings(conf);
        move := Some(Move("publish", sets));
      case FirstTimeout =>
        move := Some(Move("publish", [Setting("firstpkt_timeout", conf.args)]));
      case NormalTimeout =>
        move := Some(Move("publish", [Setting("normal_timeout", conf.args)]));
      case PlayName =>
        move := Some(Move("play", [Setting(conf.name, conf.args)]));
      case ClusterName =>
        move := Some(Move("cluster", [Setting(conf.name, conf.args)]));
      case _ =>
        move := None;
    }
  }

  // -------------------------------------------------------- the whole tree

  /** One directive of the root. */
  function RewriteTop(d: Directive): Directive {
    if d.name == "http_stream" then d.(name := "http_server")
    else if d.name == "vhost" then d.(subs := Walk(d.subs, 0))
    else d
  }

  function Rewrite(ds: seq<Directive>): (r: seq<Directive>)
    ensures |r| == |ds| && forall i :: 0 <= i < |ds| ==> r[i] == RewriteTop(ds[i])
  {
    seq(|ds|, i requires 0 <= i < |ds| => RewriteTop(ds[i]))
  }

  /** `srs_config_transform_vhost` */
  method TransformRoot(root: Node)
    modifies root
    ensures root.directives == Rewrite(old(root.directives))
  {
    var i := 0;
    ghost var ds := root.directives;
    while i < |root.directives|
      invariant i <= |root.directives| == |ds|
      invariant forall j :: 0 <= j < i ==> root.directives[j] == RewriteTop(ds[j])
      invariant forall j :: i <= j < |ds| ==> root.directives[j] == ds[j]
    {
      var dir := root.directives[i];
      if dir.name == "http_stream" {
        root.directives := root.directives[i := dir.(name := "http_server")];
      } else if dir.name == "vhost" {
        var vhost := new Node(dir.subs);
        vhost.TransformVhost();
        root.directives := root.directives[i := dir.(subs := vhost.directives)];
      }
      i := i + 1;
    }
  }

  predicate TopNormal(d: Directive) {
    d.name != "http_stream" && (d.name == "vhost" ==> Normal(d.subs))
  }

  predicate TopFewHstrs(d: Directive) {
    d.name == "vhost" ==> FewHstrs(d.subs)
  }

  lemma TopFacts(d: Directive)
    ensures TopNormal(RewriteTop(d)) <==> TopFewHstrs(d)
    ensures RewriteTop(d) == d <==> TopNormal(d)
  {
    assert |"http_server"| == |"http_stream"| && "http_server"[6] != "http_stream"[6];
    assert |"http_server"| != |"vhost"|;
    if d.name == "vhost" {
      WalkReachesNormalForm(d.subs);
      StaysExactlyIfNormal(d.subs);
    }
  }

  /** After the rewriting nothing legacy is left anywhere, and a second run
      changes nothing, exactly if no `http_remux` of a vhost has more than one
      `hstrs`. */
  lemma RewriteReachesNormalForm(ds: seq<Directive>)
    ensures (forall i :: 0 <= i < |ds| ==> TopNormal(Rewrite(ds)[i])) <==> (forall i :: 0 <= i < |ds| ==> TopFewHstrs(ds[i]))
    ensures Rewrite(Rewrite(ds)) == Rewrite(ds) <==> (forall i :: 0 <= i < |ds| ==> TopFewHstrs(ds[i]))
  {
    var r := Rewrite(ds);
    forall i | 0 <= i < |ds|
      ensures (TopNormal(r[i]) <==> TopFewHstrs(ds[i])) && (Rewrite(r)[i] == r[i] <==> TopNormal(r[i]))
    {
      TopFacts(ds[i]);
      TopFacts(r[i]);
    }
  }

  // ------------------------------------------------ the settings by their names

  /** The arguments of the last directive of this name. */
  function LastArgs(ds: seq<Directive>, n: string): Option<seq<string>> {
    if ds == [] then None else Or(LastArgs(ds[1..], n), if ds[0].name == n then Some(ds[0].args) else None)
  }

  /** What an old name is moved to: its group and its name there. */
  predicate MovesTo(from: string, g: string, n: string) {
    || (from in PLAY_NAMES && g == "play" && n == from)
    || (from in CLUSTER_NAMES && g == "cluster" && n == from)
    || (from == "publish_1stpkt_timeout" && g == "publish" && n == "firstpkt_timeout")
    || (from == "publish_normal_timeout" && g == "publish" && n == "normal_timeout")
  }

  /** Names that mean what they look like. */
  lemma NamesDiffer()
    ensures "firstpkt_timeout" != "normal_timeout" && "mr" != "firstpkt_timeout" && "mr_latency" != "firstpkt_timeout"
    ensures "mr" != "normal_timeout" && "mr_latency" != "normal_timeout"
    ensures "play" != "publish" && "cluster" != "publish" && "play" != "cluster"
    ensures KindOf("publish_1stpkt_timeout") == FirstTimeout && KindOf("publish_normal_timeout") == NormalTimeout
  {
    assert |"firstpkt_timeout"| == 16 && |"normal_timeout"| == 14 && |"mr"| == 2 && |"mr_latency"| == 10;
    assert |"play"| == 4 && |"cluster"| == 7 && |"publish"| == 7 && "cluster"[0] == 'c' && "publish"[0] == 'p';
    assert |"publish_1stpkt_timeout"| == 22 && |"publish_normal_timeout"| == 22;
    assert "publish_1stpkt_timeout"[8] == '1' && "publish_normal_timeout"[8] == 'n';
    assert |"http"| == 4 && |"http_remux"| == 10 && |"refer"| == 5 && |"refer_play"| == 10 && |"refer_publish"| == 13;
  }

  lemma ShadowKinds(n: string)
    ensures n in PLAY_NAMES ==> KindOf(n) == PlayName
    ensures n in CLUSTER_NAMES ==> KindOf(n) == ClusterName
  {
    FirstLetters();
    if n in PLAY_NAMES {
      var i :| 0 <= i < |PLAY_NAMES| && PLAY_NAMES[i] == n;
      assert n[0] != 'h' && n[0] != 'p' && (n[0] == 'r' ==> n[2] == 'd') && (n[0] == 'm' ==> n[1] == 'i' || n[1] == 'w');
    }
    if n in CLUSTER_NAMES {
      var i :| 0 <= i < |CLUSTER_NAMES| && CLUSTER_NAMES[i] == n;
    }
  }

  lemma FirstLetters()
    ensures "http"[0] == 'h' && "http_remux"[0] == 'h' && "refer"[2] == 'f' && "refer_play"[2] == 'f' && "refer_publish"[2] == 'f'
    ensures "mr"[1] == 'r' && "publish_1stpkt_timeout"[0] == 'p' && "publish_normal_timeout"[0] == 'p' && "forward"[0] == 'f'
  {
  }

  /** What one directive says about a setting: only the old name counts. */
  lemma MovesOnlyByName(d: Directive, from: string, g: string, n: string)
    requires MovesTo(from, g, n)
    ensures LastMoved([d], g, n) == if d.name == from then Some(d.args) else None
  {
    LastMovedOne(d, g, n);
    NamesDiffer();
    ShadowKinds(from);
    ShadowKinds(n);
    if KindOf(d.name) == Mr {
      MrSetsOnlyItsOwn(d.subs, n);
    }
    if MoveOf(d).Some? && KindOf(d.name) != Mr {
      LastOfOne(MoveOf(d).value.sets[0], n);
    }
  }

  lemma LastOfOne(s: Setting, n: string)
    ensures LastOf([s], n) == if s.name == n then Some(s.args) else None
  {
    var one: seq<Setting> := [s];
    assert one[1..] == [];
  }

  lemma MrSetsOnlyItsOwn(subs: seq<Directive>, n: string)
    requires n != "mr" && n != "mr_latency"
    ensures LastOf(SetFrom(subs, "enabled", "mr") + SetFrom(subs, "latency", "mr_latency"), n) == None
  {
    var a, b := SetFrom(subs, "enabled", "mr"), SetFrom(subs, "latency", "mr_latency");
    var sets := a + b;
    forall i | 0 <= i < |sets|
      ensures sets[i].name != n
    {
    }
    NoneOf(sets, n);
  }

  lemma {:induction false} NoneOf(sets: seq<Setting>, n: string)
    requires forall i :: 0 <= i < |sets| ==> sets[i].name != n
    ensures LastOf(sets, n) == None
  {
    if sets == [] {
    } else {
      NoneOf(sets[1..], n);
    }
  }

  lemma {:induction false} LastMovedByName(ds: seq<Directive>, from: string, g: string, n: string)
    requires MovesTo(from, g, n)
    ensures LastMoved(ds, g, n) == LastArgs(ds, from)
  {
    if ds == [] {
    } else {
      LastMovedByName(ds[1..], from, g, n);
      MovesOnlyByName(ds[0], from, g, n);
      LastMovedOne(ds[0], g, n);
    }
  }

  /** For the settings of players and of clusters and for the two timeouts: in
      the rewritten vhost, the first new-style place holds the arguments of the
      last old directive, or what it held before if there was none. */
  lemma SettingsKeepTheirMeaning(ds: seq<Directive>, from: string, g: string, n: string)
    requires MovesTo(from, g, n)
    ensures Lookup(Walk(ds, 0), g, n) == Or(LastArgs(ds, from), Lookup(ds, g, n))
  {
    NamesDiffer();
    assert |"refer"| == 5;
    WalkMoves(ds, 0, g, n);
    assert ds[0..] == ds;
    LastMovedByName(ds, from, g, n);
  }
}
