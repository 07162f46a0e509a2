/** The rewriting of old configuration trees (srs_app_config.cpp).

    The directives of a vhost are walked by an index while directives are erased
    at the index and appended at the end. */
module ConfigTransform {
  import opened ConfigTree
  import opened Wrappers

  // ------------------------------------------------------- access to a tree

  /** The position of the first directive of this name, or the end. */
  function Find(ds: seq<Directive>, n: string): (k: nat)
    ensures k <= |ds| && (k < |ds| ==> ds[k].name == n)
    ensures forall j :: 0 <= j < k ==> ds[j].name != n
  {
    if ds == [] || ds[0].name == n then 0 else 1 + Find(ds[1..], n)
  }

  function Arg0(d: Directive): string {
    if d.args == [] then "" else d.args[0]
  }

  function FindArg(ds: seq<Directive>, n: string, a0: string): (k: nat)
    ensures k <= |ds|
  {
    if ds == [] || (ds[0].name == n && Arg0(ds[0]) == a0) then 0 else 1 + FindArg(ds[1..], n, a0)
  }

  function Blank(n: string): Directive {
    Directive(n, [], [], 0)
  }

  /** `get_or_create` as a change of the list. */
  function Ensured(ds: seq<Directive>, n: string): (r: seq<Directive>)
    ensures Find(ds, n) < |ds| ==> r == ds
    ensures Find(ds, n) == |ds| ==> r == ds + [Blank(n)]
    ensures Find(r, n) == Find(ds, n) < |r|
  {
    if Find(ds, n) < |ds| then ds
    else
      FindAppend(ds, n);
      ds + [Blank(n)]
  }

  lemma {:induction false} FindAppend(ds: seq<Directive>, n: string)
    ensures Find(ds, n) == |ds| ==> Find(ds + [Blank(n)], n) == |ds|
  {
    var r := ds + [Blank(n)];
    if Find(ds, n) == |ds| {
      assert forall j :: 0 <= j < |ds| ==> r[j].name != n;
      assert r[|ds|].name == n;
    }
  }

  /** The first directive of this name, created if need be, gets new arguments. */
  function Put(ds: seq<Directive>, n: string, args: seq<string>): seq<Directive> {
    var e, k := Ensured(ds, n), Find(ds, n);
    e[k := e[k].(args := args)]
  }

  /** One argument list for one name. */
  datatype Setting = Setting(name: string, args: seq<string>)

  function PutEach(ds: seq<Directive>, sets: seq<Setting>): seq<Directive>
    decreases |sets|
  {
    if sets == [] then ds else PutEach(Put(ds, sets[0].name, sets[0].args), sets[1..])
  }

  /** The first directive of the group, created if need be, is given settings. */
  function PutIn(ds: seq<Directive>, group: string, sets: seq<Setting>): seq<Directive> {
    var e, k := Ensured(ds, group), Find(ds, group);
    e[k := e[k].(subs := PutEach(e[k].subs, sets))]
  }

  // ------------------------------------------------------------ what is legacy

  const PLAY_NAMES := ["time_jitter", "mix_correct", "atc", "atc_auto", "mw_latency", "gop_cache", "queue_length", "send_min_interval", "reduce_sequence_header"]
  const CLUSTER_NAMES := ["mode", "origin", "token_traverse", "vhost", "debug_srs_upnode"]

  datatype Kind = Http | Remux | Refer | ReferPart | Mr | FirstTimeout | NormalTimeout | PlayName | Forward | ClusterName | Group | Other

  function KindOf(n: string): Kind {
    if n == "http" then Http
    else if n == "http_remux" then Remux
    else if n == "refer" then Refer
    else if n == "refer_play" || n == "refer_publish" then ReferPart
    else if n == "mr" then Mr
    else if n == "publish_1stpkt_timeout" then FirstTimeout
    else if n == "publish_normal_timeout" then NormalTimeout
    else if n in PLAY_NAMES then PlayName
    else if n == "forward" then Forward
    else if n in CLUSTER_NAMES then ClusterName
    else if n == "publish" || n == "play" || n == "cluster" then Group
    else Other
  }

  /** Directives that are folded into `refer`. */
  predicate OldRefer(d: Directive) {
    (KindOf(d.name) == Refer && d.subs == []) || KindOf(d.name) == ReferPart
  }

  datatype Move = Move(group: string, sets: seq<Setting>)

  function SetFrom(subs: seq<Directive>, from: string, to: string): seq<Setting> {
    var k := Find(subs, from);
    if k < |subs| then [Setting(to, subs[k].args)] else []
  }

  /** Where the arguments of an old directive belong now. */
  function MoveOf(d: Directive): Option<Move> {
    match KindOf(d.name)
    case Mr => Some(Move("publish", SetFrom(d.subs, "enabled", "mr") + SetFrom(d.subs, "latency", "mr_latency")))
    case FirstTimeout => Some(Move("publish", [Setting("firstpkt_timeout", d.args)]))
    case NormalTimeout => Some(Move("publish", [Setting("normal_timeout", d.args)]))
    case PlayName => Some(Move("play", [Setting(d.name, d.args)]))
    case ClusterName => Some(Move("cluster", [Setting(d.name, d.args)]))
    case _ => None
  }

  predicate Erased(d: Directive) {
    OldRefer(d) || MoveOf(d).Some?
  }

  function WithoutFirst(ds: seq<Directive>, n: string): seq<Directive> {
    var k := Find(ds, n);
    if k < |ds| then ds[..k] + ds[k + 1..] else ds
  }

  predicate OldForward(d: Directive) {
    KindOf(d.name) == Forward && d.subs == [] && d.args != []
  }

  /** What happens to a directive that stays where it is. */
  function InPlace(d: Directive): Directive {
    match KindOf(d.name)
    case Http => d.(name := "http_static")
    case Remux => d.(subs := WithoutFirst(d.subs, "hstrs"))
    case Forward => if OldForward(d) then d.(args := [], subs := [Directive("enabled", ["on"], [], 0), Directive("destination", d.args, [], 0)]) else d
    case _ => d
  }

  /** Something the rewriting is there to remove. */
  predicate Legacy(d: Directive) {
    Erased(d) || KindOf(d.name) == Http || OldForward(d) || (KindOf(d.name) == Remux && Find(d.subs, "hstrs") < |d.subs|)
  }

  function ReferTarget(n: string): string {
    if n == "refer" then "all" else if n == "refer_play" then "play" else "publish"
  }

  function SwitchedOn(ds: seq<Directive>): seq<Directive> {
    if FindArg(ds, "enabled", "on") < |ds| then ds else ds + [Directive("enabled", ["on"], [], 0)]
  }

  /** What an erased directive leaves behind. */
  function Fold(ds: seq<Directive>, d: Directive): seq<Directive> {
    if OldRefer(d) then
      var e, k := Ensured(ds, "refer"), Find(ds, "refer");
      e[k := e[k].(subs := Put(SwitchedOn(e[k].subs), ReferTarget(d.name), d.args))]
    else match MoveOf(d)
      case Some(m) => PutIn(ds, m.group, m.sets)
      case None => ds
  }

  // ------------------------------------------------------ facts about names

  /** The directives that receive what is moved. */
  predicate IsGroup(n: string) {
    n == "refer" || n == "publish" || n == "play" || n == "cluster"
  }

  lemma GroupKinds()
    ensures KindOf("publish") == KindOf("play") == KindOf("cluster") == Group
    ensures KindOf("refer") == Refer
  {
    assert "publish"[0] == 'p' && "play"[0] == 'p' && "cluster"[0] == 'c' && "refer"[0] == 'r';
  }

  lemma GroupsStay(d: Directive)
    ensures IsGroup(d.name) <==> KindOf(d.name) == Group || KindOf(d.name) == Refer
    ensures MoveOf(d).Some? ==> IsGroup(MoveOf(d).value.group) && MoveOf(d).value.group != "refer"
  {
    GroupKinds();
    assert |"refer"| == 5 && |"publish"| == 7 && |"play"| == 4 && |"cluster"| == 7 && "publish"[0] != "cluster"[0];
  }

  /** The group that an erased directive goes to. */
  function GroupFor(d: Directive): string {
    match MoveOf(d)
    case Some(m) => m.group
    case None => "refer"
  }

  /** `r` is `ds` with the first directive called g, added at the end if there
      was none, replaced by d. */
  ghost predicate OneChanged(ds: seq<Directive>, g: string, d: Directive, r: seq<Directive>) {
    var k := Find(ds, g);
    && |r| == (if k < |ds| then |ds| else |ds| + 1)
    && (forall j :: 0 <= j < |ds| && j != k ==> r[j] == ds[j])
    && r[k] == d && d.name == g
  }

  function FirstCalled(ds: seq<Directive>, n: string): Directive {
    if Find(ds, n) < |ds| then ds[Find(ds, n)] else Blank(n)
  }

  /** The changed group, when d is folded into the directives ds. */
  function Changed(ds: seq<Directive>, d: Directive): Directive {
    var c := FirstCalled(ds, GroupFor(d));
    match MoveOf(d)
    case Some(m) => c.(subs := PutEach(c.subs, m.sets))
    case None => c.(subs := Put(SwitchedOn(c.subs), ReferTarget(d.name), d.args))
  }

  lemma MovedIsNoRefer(d: Directive)
    ensures MoveOf(d).Some? ==> !OldRefer(d)
  {
  }

  /** Folding changes one group, or adds it at the end, and nothing else. */
  lemma FoldChanges(ds: seq<Directive>, d: Directive)
    requires Erased(d)
    ensures OneChanged(ds, GroupFor(d), Changed(ds, d), Fold(ds, d))
  {
    MovedIsNoRefer(d);
    var e := Ensured(ds, GroupFor(d));
  }

  /** The group is nothing that has to be rewritten. */
  lemma ChangedIsFine(ds: seq<Directive>, d: Directive)
    requires Erased(d)
    ensures IsGroup(GroupFor(d)) && Changed(ds, d).name == GroupFor(d) && !Legacy(Changed(ds, d))
  {
    GroupsStay(d);
    GroupKinds();
    var c := Changed(ds, d);
    GroupsStay(c);
    if MoveOf(d).None? {
      assert |c.subs| > 0 by { PutNonEmpty(SwitchedOn(FirstCalled(ds, "refer").subs), ReferTarget(d.name), d.args); }
    }
  }

  lemma PutNonEmpty(ds: seq<Directive>, n: string, args: seq<string>)
    ensures |Put(ds, n, args)| > 0
  {
  }

  // -------------------------------------------------------------- the walk

  function ToErase(ds: seq<Directive>): nat {
    if ds == [] then 0 else ToErase(ds[1..]) + if Erased(ds[0]) then 1 else 0
  }

  lemma {:induction false} ToEraseLess(a: seq<Directive>, b: seq<Directive>)
    requires |b| >= |a|
    requires forall j :: 0 <= j < |b| && Erased(b[j]) ==> j < |a| && Erased(a[j])
    ensures ToErase(b) <= ToErase(a)
  {
    if b == [] {
    } else {
      var a' := if a == [] then [] else a[1..];
      forall j | 0 <= j < |b[1..]| && Erased(b[1..][j])
        ensures j < |a'| && Erased(a'[j])
      {
        assert b[1..][j] == b[j + 1];
      }
      ToEraseLess(a', b[1..]);
    }
  }

  /** A change of one group, from position i on, adds nothing to erase. */
  lemma ChangeErases(ds: seq<Directive>, g: string, d: Directive, r: seq<Directive>, i: nat)
    requires OneChanged(ds, g, d, r) && !Erased(d) && i <= |ds|
    ensures i <= |r| && ToErase(r[i..]) <= ToErase(ds[i..])
  {
    hide Erased, ToErase;
    forall j | 0 <= j < |r[i..]| && Erased(r[i..][j])
      ensures j < |ds[i..]| && Erased(ds[i..][j])
    {
      assert r[i..][j] == r[i + j];
    }
    ToEraseLess(ds[i..], r[i..]);
  }

  /** Erasing a directive and folding it leaves fewer directives to erase.  The
      list does not grow beyond what it was: what is appended fits in the room
      that the erased one has left. */
  lemma FoldErases(ds: seq<Directive>, i: nat)
    requires i < |ds| && Erased(ds[i])
    ensures i <= |Fold(ds[..i] + ds[i + 1..], ds[i])| <= |ds|
    ensures ToErase(Fold(ds[..i] + ds[i + 1..], ds[i])[i..]) < ToErase(ds[i..])
  {
    var ds' := ds[..i] + ds[i + 1..];
    FoldChanges(ds', ds[i]);
    ChangedIsFine(ds', ds[i]);
    ChangeErases(ds', GroupFor(ds[i]), Changed(ds', ds[i]), Fold(ds', ds[i]), i);
    assert ds[i..][1..] == ds[i + 1..] == ds'[i..];
  }

  lemma StayErases(ds: seq<Directive>, i: nat)
    requires i < |ds|
    ensures ToErase(ds[i := InPlace(ds[i])][i + 1..]) <= ToErase(ds[i..])
  {
    assert ds[i := InPlace(ds[i])][i + 1..] == ds[i..][1..];
  }

  /** The directives of a vhost from position i on are rewritten. */
  function Walk(ds: seq<Directive>, i: nat): seq<Directive>
    requires i <= |ds|
    decreases ToErase(ds[i..]), |ds| - i
  {
    if i == |ds| then ds
    else if Erased(ds[i]) then
      FoldErases(ds, i);
      Walk(Fold(ds[..i] + ds[i + 1..], ds[i]), i)
    else
      StayErases(ds, i);
      Walk(ds[i := InPlace(ds[i])], i + 1)
  }
}
