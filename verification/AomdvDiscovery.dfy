/** What AOMDV is for: along any path of nodes a route is discovered, over two paths that
    share no intermediate node both are found, and when the last link of a path breaks
    every node on it gives it up.  All by runs from the initial network. */
module AomdvDiscovery {
  import opened Freshness
  import opened AomdvSpec
  import opened AomdvNetwork

  // ----- stretches of a run

  /** Some steps lead from one state to the other. */
  ghost predicate Leads(net: Net, net': Net) {
    exists nets :: Stretch(nets, net, net')
  }

  ghost predicate Stretch(nets: seq<Net>, net: Net, net': Net) {
    && |nets| > 0 && nets[0] == net && nets[|nets| - 1] == net'
    && forall k :: 0 <= k < |nets| - 1 ==> Step(nets[k], nets[k + 1])
  }

  lemma LeadsItself(net: Net)
    ensures Leads(net, net)
  {
    assert Stretch([net], net, net);
  }

  lemma LeadsOn(net: Net, net1: Net, net2: Net)
    requires Leads(net, net1) && Leads(net1, net2)
    ensures Leads(net, net2)
  {
    hide Step;
    var a :| Stretch(a, net, net1);
    var b :| Stretch(b, net1, net2);
    var nets := a + b[1..];
    forall k | 0 <= k < |nets| - 1 ensures Step(nets[k], nets[k + 1]) {
      if k < |a| - 1 {
        assert nets[k] == a[k] && nets[k + 1] == a[k + 1];
      } else {
        var l := k - (|a| - 1);
        assert nets[k] == b[l] && nets[k + 1] == b[l + 1];
      }
    }
    assert nets[|nets| - 1] == net2;
    assert Stretch(nets, net, net2);
  }

  lemma LeadsIsRun(net: Net, net': Net) returns (nets: seq<Net>)
    requires Init(net) && Leads(net, net')
    ensures Run(nets) && nets[0] == net && nets[|nets| - 1] == net'
  {
    nets :| Stretch(nets, net, net');
  }

  /** Node `i` becomes `n'` and sends `sent`. */
  function Then(net: Net, i: Addr, n': Node, sent: seq<Msg>): Net {
    Net(net.nodes[i := n'], net.msgs + set m | m in sent)
  }

  predicate Arrives(net: Net, i: Addr, ev: Event) {
    ev.Deliver? ==> ev.m in net.msgs && (ev.m.Rrep? ==> ev.m.nexthop == i)
  }

  lemma OneStep(net: Net, i: Addr, ev: Event, n': Node, sent: seq<Msg>)
    requires i in net.nodes && TableOk(net.nodes[i]) && Arrives(net, i, ev)
    requires Handle(net.nodes[i], ev) == Outcome(n', sent)
    ensures Leads(net, Then(net, i, n', sent))
  {
    hide Handle, TableOk;
    var net' := Then(net, i, n', sent);
    assert StepBy(net, net', i, ev);
    assert Step(net, net');
    assert Stretch([net, net'], net, net');
  }

  // ----- a way from a source over intermediate nodes to a target

  /** Intermediate nodes `mids` between a source and a target. */
  datatype Way = Way(src: Addr, mids: seq<Addr>, dst: Addr)

  predicate WayOk(w: Way) {
    && w.src != w.dst && w.src !in w.mids && w.dst !in w.mids
    && forall i, j :: 0 <= i < j < |w.mids| ==> w.mids[i] != w.mids[j]
  }

  /** The node before number `i`; number `|mids|` is the target. */
  function Prev(w: Way, i: nat): Addr
    requires i <= |w.mids|
  {
    if i == 0 then w.src else w.mids[i - 1]
  }

  function At(w: Way, i: nat): Addr
    requires i <= |w.mids|
  {
    if i == |w.mids| then w.dst else w.mids[i]
  }

  /** The request as it arrives at node `i` of the way. */
  function Ask(w: Way, i: nat): Msg
    requires i <= |w.mids|
  {
    Rreq(Prev(w, i), i, 1, w.dst, 0, w.src, 4, if i == 0 then 0 else w.mids[0])
  }

  /** The reply as node `i` of the way sends it. */
  function Reply(w: Way, i: nat): Msg
    requires i <= |w.mids|
  {
    Rrep(At(w, i), |w.mids| - i, w.dst, 2, w.src, Prev(w, i), 1, Prev(w, |w.mids|))
  }

  /** The path back that node `i` stores, and the path forth that the node before it stores. */
  function Back(w: Way, i: nat): Path
    requires i <= |w.mids|
  {
    Path(Prev(w, i), i + 1, if w.mids == [] then w.dst else w.mids[0])
  }

  function Forth(w: Way, i: nat): Path
    requires i <= |w.mids|
  {
    Path(At(w, i), |w.mids| - i + 1, Prev(w, |w.mids|))
  }

  function Asking(w: Way, cfg: Config): Node {
    Node(w.src, cfg, 4, 2, [w.dst], map[w.dst := FRESH_ENTRY], map[], {})
  }

  function Relaying(w: Way, i: nat, cfg: Config): Node
    requires i < |w.mids|
  {
    Node(w.mids[i], cfg, 2, 1, [w.src], map[w.src := Entry(4, Fin(i + 1), [Back(w, i)], 1, 0, false, Up)],
         map[(w.src, 1) := 0], {})
  }

  function ForthEntry(w: Way, i: nat): Entry
    requires i < |w.mids|
  {
    Entry(2, Fin(|w.mids| - i), [Forth(w, i + 1)], 1, 0, true, Up)
  }

  function Routing(w: Way, i: nat, cfg: Config): Node
    requires i < |w.mids|
  {
    var n := Relaying(w, i, cfg);
    n.(order := [w.dst] + n.order, rt := n.rt[w.dst := ForthEntry(w, i)], seen := map[(w.src, 1) := 1])
  }

  /** The target, and the source, with some paths to each other stored. */
  function Answering(w: Way, paths: seq<Path>, cfg: Config): Node {
    Node(w.dst, cfg, 2, 1, [w.src], map[w.src := Entry(4, Inf, paths, |paths|, 0, false, Up)], map[(w.src, 1) := 0], {})
  }

  function Learning(w: Way, paths: seq<Path>, cfg: Config): Node {
    Asking(w, cfg).(rt := map[w.dst := Entry(2, Inf, paths, |paths|, 0, false, Up)])
  }

  // ----- what each node does

  lemma SourceAsks(w: Way, cfg: Config)
    requires WayOk(w)
    ensures TableOk(InitNode(w.src, cfg))
    ensures Handle(InitNode(w.src, cfg), Data(w.dst, w.src)) == Outcome(Asking(w, cfg), [Ask(w, 0)])
  {
  }

  lemma RestartFresh(s: nat, p: Path)
    ensures Restart(FRESH_ENTRY, s, p) == Entry(s, Inf, [p], 1, 0, false, Up)
  {
  }

  lemma OnePathHops(p: Path)
    requires p.hops >= 1
    ensures MaxHops([p]) == Fin(p.hops)
  {
    assert [p][..0] == [];
    assert LongestHops([p]) == p.hops;
  }

  lemma NodeRelays(w: Way, i: nat, cfg: Config)
    requires WayOk(w) && i < |w.mids|
    ensures TableOk(InitNode(w.mids[i], cfg))
    ensures Handle(InitNode(w.mids[i], cfg), Deliver(Ask(w, i))) == Outcome(Relaying(w, i, cfg), [Ask(w, i + 1)])
  {
    hide ReverseRoute, RelayRequest;
    var n, m, n1 := InitNode(w.mids[i], cfg), Ask(w, i), Hearing(w, i, cfg);
    assert w.mids[i] != w.src && w.mids[i] != w.dst;
    NodeHears(w, i, cfg);
    NodeSendsOn(w, i, cfg);
    assert (w.src, 1) !in n.seen && !CanAnswer(n1, m);
    assert RecvRequest(n, m) == RelayRequest(n1, m);
  }

  /** Node `i` with the path back, before it passes the request on. */
  function Hearing(w: Way, i: nat, cfg: Config): Node
    requires i < |w.mids|
  {
    Relaying(w, i, cfg).(rt := map[w.src := Entry(4, Inf, [Back(w, i)], 1, 0, false, Up)])
  }

  lemma NodeHears(w: Way, i: nat, cfg: Config)
    requires WayOk(w) && i < |w.mids|
    ensures ReverseRoute(InitNode(w.mids[i], cfg), Ask(w, i)) == (Hearing(w, i, cfg), Kept(true))
  {
    RestartFresh(4, Back(w, i));
    var (n1, v) := ReverseRoute(InitNode(w.mids[i], cfg), Ask(w, i));
    assert n1.rt == Hearing(w, i, cfg).rt;
    assert n1.seen == map[(w.src, 1) := 0];
    assert n1.order == [w.src];
    assert n1 == Hearing(w, i, cfg) && v == Kept(true);
  }

  lemma NodeSendsOn(w: Way, i: nat, cfg: Config)
    requires WayOk(w) && i < |w.mids|
    ensures RelayRequest(Hearing(w, i, cfg), Ask(w, i)) == Outcome(Relaying(w, i, cfg), [Ask(w, i + 1)])
  {
    assert w.mids[i] != w.src && w.mids[i] != w.dst;
    OnePathHops(Back(w, i));
    assert RelayRequest(Hearing(w, i, cfg), Ask(w, i)).node.rt == Relaying(w, i, cfg).rt;
  }

  lemma TargetAnswers(w: Way, cfg: Config)
    requires WayOk(w)
    ensures TableOk(InitNode(w.dst, cfg))
    ensures var k := |w.mids|;
      Handle(InitNode(w.dst, cfg), Deliver(Ask(w, k))) == Outcome(Answering(w, [Back(w, k)], cfg), [Reply(w, k)])
  {
    var n, m := InitNode(w.dst, cfg), Ask(w, |w.mids|);
    RestartFresh(4, Back(w, |w.mids|));
    var (n1, v) := ReverseRoute(n, m);
    assert v == Kept(true);
    assert n1 == Answering(w, [Back(w, |w.mids|)], cfg);
  }

  lemma NodePassesBack(w: Way, i: nat, cfg: Config)
    requires WayOk(w) && i < |w.mids|
    ensures TableOk(Relaying(w, i, cfg))
    ensures Handle(Relaying(w, i, cfg), Deliver(Reply(w, i + 1))) == Outcome(Routing(w, i, cfg), [Reply(w, i)])
  {
    var n, m := Relaying(w, i, cfg), Reply(w, i + 1);
    assert n.id != w.src && n.id != w.dst;
    OnePathHops(Forth(w, i + 1));
    RestartFresh(2, Forth(w, i + 1));
    var (n2, dropped) := WeighReply(n, m);
    assert !dropped;
    assert n2.rt == n.rt[w.dst := ForthEntry(w, i).(advertised := Inf, error := false)];
    assert CanRelayReply(n2, m);
    var o := RelayReply(n2, m);
    assert o.node.rt == Routing(w, i, cfg).rt;
    assert o.node.seen == map[(w.src, 1) := 1];
  }

  lemma SourceLearns(w: Way, cfg: Config)
    requires WayOk(w)
    ensures TableOk(Asking(w, cfg))
    ensures Handle(Asking(w, cfg), Deliver(Reply(w, 0))) == Outcome(Learning(w, [Forth(w, 0)], cfg), [])
  {
    RestartFresh(2, Forth(w, 0));
    var (n2, dropped) := WeighReply(Asking(w, cfg), Reply(w, 0));
    assert n2.rt == Learning(w, [Forth(w, 0)], cfg).rt;
  }

  // ----- along one way

  ghost predicate InNet(net: Net, w: Way) {
    WayOk(w) && w.src in net.nodes && w.dst in net.nodes && forall i :: 0 <= i < |w.mids| ==> w.mids[i] in net.nodes
  }

  /** From `net` on only nodes of `changed` have changed, and messages are kept. */
  ghost predicate Only(net: Net, net': Net, changed: seq<Addr>) {
    && net.msgs <= net'.msgs && net'.nodes.Keys == net.nodes.Keys
    && forall a :: a in net.nodes && a !in changed ==> net'.nodes[a] == net.nodes[a]
  }

  ghost predicate Fresh(net: Net, w: Way, from: nat)
    requires InNet(net, w)
  {
    forall j :: from <= j < |w.mids| ==> net.nodes[w.mids[j]] == InitNode(w.mids[j], net.nodes[w.mids[j]].cfg)
  }

  ghost predicate RelayingTo(net: Net, w: Way, to: nat)
    requires InNet(net, w) && to <= |w.mids|
  {
    forall j :: 0 <= j < to ==> net.nodes[w.mids[j]] == Relaying(w, j, net.nodes[w.mids[j]].cfg)
  }

  ghost predicate RoutingFrom(net: Net, w: Way, from: nat)
    requires InNet(net, w)
  {
    forall j :: from <= j < |w.mids| ==> net.nodes[w.mids[j]] == Routing(w, j, net.nodes[w.mids[j]].cfg)
  }

  lemma AskIsRequest(w: Way, i: nat)
    requires i <= |w.mids|
    ensures Ask(w, i).Rreq?
  {
  }

  lemma ReplyGoesTo(w: Way, i: nat)
    requires i <= |w.mids|
    ensures Reply(w, i).Rrep? && Reply(w, i).nexthop == Prev(w, i)
  {
  }

  /** The intermediate nodes pass the request on, up to node `i`. */
  lemma {:induction false} RequestSpreads(net: Net, w: Way, i: nat) returns (net': Net)
    requires InNet(net, w) && Fresh(net, w, 0) && Ask(w, 0) in net.msgs && i <= |w.mids|
    ensures Leads(net, net') && Only(net, net', w.mids) && InNet(net', w)
    ensures RelayingTo(net', w, i) && Fresh(net', w, i) && Ask(w, i) in net'.msgs
  {
    hide Handle, Leads, TableOk, Ask, Relaying, InitNode;
    if i == 0 {
      net' := net;
      LeadsItself(net);
    } else {
      var net1 := RequestSpreads(net, w, i - 1);
      net' := RequestPasses(net1, w, i - 1);
      LeadsOn(net, net1, net');
    }
  }

  /** Node `i` passes the request on. */
  lemma RequestPasses(net: Net, w: Way, i: nat) returns (net': Net)
    requires InNet(net, w) && i < |w.mids| && RelayingTo(net, w, i) && Fresh(net, w, i) && Ask(w, i) in net.msgs
    ensures Leads(net, net') && Only(net, net', w.mids) && InNet(net', w)
    ensures RelayingTo(net', w, i + 1) && Fresh(net', w, i + 1) && Ask(w, i + 1) in net'.msgs
  {
    hide Handle, Leads, TableOk, Ask, Relaying, InitNode;
    var a := w.mids[i];
    var cfg := net.nodes[a].cfg;
    NodeRelays(w, i, cfg);
    AskIsRequest(w, i);
    net' := Then(net, a, Relaying(w, i, cfg), [Ask(w, i + 1)]);
    OneStep(net, a, Deliver(Ask(w, i)), Relaying(w, i, cfg), [Ask(w, i + 1)]);
    RelayingIs(w, i, cfg);
  }

  lemma RelayingIs(w: Way, i: nat, cfg: Config)
    requires i < |w.mids|
    ensures Relaying(w, i, cfg).cfg == cfg && Routing(w, i, cfg).cfg == cfg
  {
  }

  /** The intermediate nodes pass the reply back, down to node `i`. */
  lemma {:induction false} ReplyComesBack(net: Net, w: Way, i: nat) returns (net': Net)
    requires InNet(net, w) && RelayingTo(net, w, |w.mids|) && Reply(w, |w.mids|) in net.msgs && i <= |w.mids|
    ensures Leads(net, net') && Only(net, net', w.mids) && InNet(net', w)
    ensures RelayingTo(net', w, i) && RoutingFrom(net', w, i) && Reply(w, i) in net'.msgs
    decreases |w.mids| - i
  {
    hide Handle, Leads, TableOk, Reply, Relaying, Routing;
    if i == |w.mids| {
      net' := net;
      LeadsItself(net);
    } else {
      var net1 := ReplyComesBack(net, w, i + 1);
      net' := ReplyPasses(net1, w, i);
      LeadsOn(net, net1, net');
    }
  }

  /** Node `i` passes the reply back. */
  lemma ReplyPasses(net: Net, w: Way, i: nat) returns (net': Net)
    requires InNet(net, w) && i < |w.mids|
    requires RelayingTo(net, w, i + 1) && RoutingFrom(net, w, i + 1) && Reply(w, i + 1) in net.msgs
    ensures Leads(net, net') && Only(net, net', w.mids) && InNet(net', w)
    ensures RelayingTo(net', w, i) && RoutingFrom(net', w, i) && Reply(w, i) in net'.msgs
  {
    hide Handle, Leads, TableOk, Reply, Relaying, Routing;
    var a := w.mids[i];
    var cfg := net.nodes[a].cfg;
    NodePassesBack(w, i, cfg);
    ReplyGoesTo(w, i + 1);
    net' := Then(net, a, Routing(w, i, cfg), [Reply(w, i)]);
    OneStep(net, a, Deliver(Reply(w, i + 1)), Routing(w, i, cfg), [Reply(w, i)]);
    RelayingIs(w, i, cfg);
  }

  /** A state in which the target has the path back and has replied. */
  lemma WayIsAsked(net: Net, w: Way) returns (net': Net)
    requires Init(net) && InNet(net, w)
    ensures Leads(net, net') && InNet(net', w) && net'.nodes[w.src] == Asking(w, net.nodes[w.src].cfg)
    ensures RelayingTo(net', w, |w.mids|) && Reply(w, |w.mids|) in net'.msgs
  {
    hide Handle, Leads, TableOk, Ask, Reply, Relaying, InitNode, Asking, Answering;
    var cs, cd, k := net.nodes[w.src].cfg, net.nodes[w.dst].cfg, |w.mids|;
    SourceAsks(w, cs);
    var net1 := Then(net, w.src, Asking(w, cs), [Ask(w, 0)]);
    OneStep(net, w.src, Data(w.dst, w.src), Asking(w, cs), [Ask(w, 0)]);
    var net2 := RequestSpreads(net1, w, k);
    LeadsOn(net, net1, net2);
    TargetAnswers(w, cd);
    AskIsRequest(w, k);
    net' := Then(net2, w.dst, Answering(w, [Back(w, k)], cd), [Reply(w, k)]);
    OneStep(net2, w.dst, Deliver(Ask(w, k)), Answering(w, [Back(w, k)], cd), [Reply(w, k)]);
    LeadsOn(net, net2, net');
  }

  /** The way is in use: the source has a path over it, and its nodes pass packets on. */
  ghost predicate InUse(net: Net, w: Way) {
    && InNet(net, w) && RoutingFrom(net, w, 0)
    && net.nodes[w.src] == Learning(w, [Forth(w, 0)], net.nodes[w.src].cfg)
  }

  lemma WayIsFound(net: Net, w: Way) returns (net': Net)
    requires Init(net) && InNet(net, w)
    ensures Leads(net, net') && InUse(net', w)
  {
    hide Handle, Leads, TableOk, Reply, Relaying, Routing, Forth;
    var cs := net.nodes[w.src].cfg;
    var net1 := WayIsAsked(net, w);
    var net2 := ReplyComesBack(net1, w, 0);
    LeadsOn(net, net1, net2);
    SourceLearns(w, cs);
    ReplyGoesTo(w, 0);
    net' := Then(net2, w.src, Learning(w, [Forth(w, 0)], cs), []);
    OneStep(net2, w.src, Deliver(Reply(w, 0)), Learning(w, [Forth(w, 0)], cs), []);
    LeadsOn(net, net2, net');
  }

  /** The path over which the route of `n` to `d` is. */
  predicate HasPathTo(n: Node, d: Addr, p: Path) {
    d in n.rt && n.rt[d].flags == Up && n.rt[d].paths == [p]
  }

  /** The source and every intermediate node have a path to the target, over the next node. */
  ghost predicate PathsAlong(net: Net, w: Way) {
    var k := |w.mids|;
    && w.src in net.nodes && HasPathTo(net.nodes[w.src], w.dst, Path(At(w, 0), k + 1, Prev(w, k)))
    && forall j :: 0 <= j < k ==>
         w.mids[j] in net.nodes && HasPathTo(net.nodes[w.mids[j]], w.dst, Path(At(w, j + 1), k - j, Prev(w, k)))
  }

  /** Discovery: along every way a run from the initial network gives the source and every
      intermediate node a live path to the target, over the next node, of as many hops as
      the rest of the way has. */
  lemma DiscoveryWorks(net: Net, w: Way) returns (nets: seq<Net>)
    requires Init(net) && InNet(net, w)
    ensures Run(nets) && nets[0] == net
    ensures PathsAlong(nets[|nets| - 1], w)
  {
    hide InUse, PathsAlong;
    var net' := WayIsFound(net, w);
    UseGivesPaths(net', w);
    nets := LeadsIsRun(net, net');
  }

  lemma UseGivesPaths(net: Net, w: Way)
    requires InUse(net, w)
    ensures PathsAlong(net, w)
  {
    forall j | 0 <= j < |w.mids| ensures HasPathTo(net.nodes[w.mids[j]], w.dst, Forth(w, j + 1)) {
      RoutingHasPath(w, j, net.nodes[w.mids[j]].cfg);
    }
    hide Routing;
  }

  lemma RoutingHasPath(w: Way, j: nat, cfg: Config)
    requires j < |w.mids|
    ensures HasPathTo(Routing(w, j, cfg), w.dst, Forth(w, j + 1))
  {
  }

  // ----- two ways that share no intermediate node

  ghost predicate Apart(v: Way, w: Way) {
    && WayOk(v) && WayOk(w) && v.src == w.src && v.dst == w.dst && v.mids != w.mids
    && forall a :: a in v.mids ==> a !in w.mids
  }

  /** A node may store a path of `b` hops next to one of `a` hops. */
  predicate RoomForBoth(cfg: Config, a: nat, b: nat) {
    cfg.maxPaths >= 2 && cfg.lenDiff >= 0 && b - a <= cfg.lenDiff && b - 255 <= cfg.lenDiff
  }

  lemma SimilarToOne(p: Path, q: Path, cfg: Config)
    requires RoomForBoth(cfg, p.hops, q.hops)
    ensures SimilarLength([p], q.hops, cfg) && SimilarLength([p, q], q.hops, cfg)
  {
    assert [p][..0] == [] && [p, q][..1] == [p];
    assert MinHops([p]) == if p.hops < MAX_HOPS then p.hops else MAX_HOPS;
    assert MinHops([p, q]) == if q.hops < MinHops([p]) then q.hops else MinHops([p]);
  }

  lemma SecondOffer(s: nat, p: Path, q: Path, cfg: Config)
    requires RoomForBoth(cfg, p.hops, q.hops) && q.hops >= 1
    requires p.nexthop != q.nexthop && p.lasthop != q.lasthop
    ensures var e1, e2 := Entry(s, Inf, [p], 1, 0, false, Up), Entry(s, Inf, [p, q], 2, 0, false, Up);
      OfferReverse(e1, s, q, cfg, true) == (e2, Kept(true)) && OfferForward(e1, s, q, cfg) == (e2, false)
  {
    SimilarToOne(p, q, cfg);
    hide SimilarLength;
    assert [p] + [q] == [p, q];
    assert !HasPath([p], q.nexthop, q.lasthop) && NewDisjoint([p], q.nexthop, q.lasthop);
    var e1 := Entry(s, Inf, [p], 1, 0, false, Up);
    assert AddPath(e1, q) == Entry(s, Inf, [p, q], 2, 0, false, Up);
  }

  lemma EndsAreApart(v: Way, w: Way)
    requires Apart(v, w)
    ensures At(v, 0) != At(w, 0) && Prev(v, |v.mids|) != Prev(w, |w.mids|)
    ensures Back(v, |v.mids|).lasthop != Back(w, |w.mids|).lasthop
    ensures Ask(v, 0) == Ask(w, 0)
  {
    if v.mids != [] && w.mids != [] {
      assert v.mids[0] in v.mids && w.mids[0] in w.mids;
      assert v.mids[|v.mids| - 1] in v.mids && w.mids[|w.mids| - 1] in w.mids;
    }
  }

  lemma TargetAnswersAgain(v: Way, w: Way, cfg: Config)
    requires Apart(v, w) && RoomForBoth(cfg, |v.mids| + 1, |w.mids| + 1)
    ensures var p, q, k := Back(v, |v.mids|), Back(w, |w.mids|), |w.mids|;
      && TableOk(Answering(v, [p], cfg))
      && Handle(Answering(v, [p], cfg), Deliver(Ask(w, k))) == Outcome(Answering(v, [p, q], cfg), [Reply(w, k)])
  {
    var p, q := Back(v, |v.mids|), Back(w, |w.mids|);
    EndsAreApart(v, w);
    SecondOffer(4, p, q, cfg);
    hide OfferReverse;
    var n, m := Answering(v, [p], cfg), Ask(w, |w.mids|);
    assert ReversePath(n, m) == q;
    var (n1, u) := ReverseRoute(n, m);
    assert n1.rt == Answering(v, [p, q], cfg).rt;
    assert n1 == Answering(v, [p, q], cfg) && u == Kept(true);
  }

  lemma SourceLearnsAgain(v: Way, w: Way, cfg: Config)
    requires Apart(v, w) && RoomForBoth(cfg, |v.mids| + 1, |w.mids| + 1)
    ensures var p, q := Forth(v, 0), Forth(w, 0);
      && TableOk(Learning(v, [p], cfg))
      && Handle(Learning(v, [p], cfg), Deliver(Reply(w, 0))) == Outcome(Learning(v, [p, q], cfg), [])
  {
    var p, q := Forth(v, 0), Forth(w, 0);
    EndsAreApart(v, w);
    SecondOffer(2, p, q, cfg);
    hide OfferForward;
    var (n2, dropped) := WeighReply(Learning(v, [p], cfg), Reply(w, 0));
    assert n2.rt == Learning(v, [p, q], cfg).rt;
  }

  /** The target has both paths back and has replied along both. */
  ghost predicate BothAsked(net: Net, v: Way, w: Way, cs: Config) {
    && InNet(net, v) && InNet(net, w) && net.nodes[v.src] == Asking(v, cs)
    && RelayingTo(net, v, |v.mids|) && RelayingTo(net, w, |w.mids|)
    && Reply(v, |v.mids|) in net.msgs && Reply(w, |w.mids|) in net.msgs
    && net.nodes[v.dst] == Answering(v, [Back(v, |v.mids|), Back(w, |w.mids|)], net.nodes[v.dst].cfg)
  }

  /** The request has come to the target over both ways. */
  lemma BothSpread(net: Net, v: Way, w: Way) returns (net': Net)
    requires Init(net) && InNet(net, v) && InNet(net, w) && Apart(v, w)
    ensures Leads(net, net') && InNet(net', v) && InNet(net', w)
    ensures net'.nodes[v.src] == Asking(v, net.nodes[v.src].cfg) && net'.nodes[v.dst] == net.nodes[v.dst]
    ensures RelayingTo(net', v, |v.mids|) && RelayingTo(net', w, |w.mids|)
    ensures Ask(v, |v.mids|) in net'.msgs && Ask(w, |w.mids|) in net'.msgs
  {
    hide Handle, Leads, TableOk, Ask, Relaying, InitNode, Asking;
    var cs := net.nodes[v.src].cfg;
    EndsAreApart(v, w);
    SourceAsks(v, cs);
    var net1 := Then(net, v.src, Asking(v, cs), [Ask(v, 0)]);
    OneStep(net, v.src, Data(v.dst, v.src), Asking(v, cs), [Ask(v, 0)]);
    InitialIs(net);
    var net2 := RequestSpreads(net1, v, |v.mids|);
    LeadsOn(net, net1, net2);
    net' := RequestSpreads(net2, w, |w.mids|);
    LeadsOn(net, net2, net');
  }

  lemma InitialIs(net: Net)
    requires Init(net)
    ensures forall i :: i in net.nodes ==> net.nodes[i] == InitNode(i, net.nodes[i].cfg)
  {
  }

  lemma BothAreAsked(net: Net, v: Way, w: Way) returns (net': Net)
    requires Init(net) && InNet(net, v) && InNet(net, w) && Apart(v, w)
    requires RoomForBoth(net.nodes[v.dst].cfg, |v.mids| + 1, |w.mids| + 1)
    ensures Leads(net, net') && BothAsked(net', v, w, net.nodes[v.src].cfg)
  {
    hide Handle, Leads, TableOk, Ask, Reply, Relaying, InitNode, Asking, Answering, Back;
    var p, q, cfg := Back(v, |v.mids|), Back(w, |w.mids|), net.nodes[v.dst].cfg;
    InitialIs(net);
    var net1 := BothSpread(net, v, w);
    TargetAnswers(v, cfg);
    AskIsRequest(v, |v.mids|);
    var net2 := Then(net1, v.dst, Answering(v, [p], cfg), [Reply(v, |v.mids|)]);
    OneStep(net1, v.dst, Deliver(Ask(v, |v.mids|)), Answering(v, [p], cfg), [Reply(v, |v.mids|)]);
    LeadsOn(net, net1, net2);
    TargetAnswersAgain(v, w, cfg);
    AskIsRequest(w, |w.mids|);
    net' := Then(net2, v.dst, Answering(v, [p, q], cfg), [Reply(w, |w.mids|)]);
    OneStep(net2, v.dst, Deliver(Ask(w, |w.mids|)), Answering(v, [p, q], cfg), [Reply(w, |w.mids|)]);
    LeadsOn(net, net2, net');
    EndsKeepConfig(v, [p, q], cfg);
  }

  lemma EndsKeepConfig(w: Way, paths: seq<Path>, cfg: Config)
    ensures Answering(w, paths, cfg).cfg == cfg && Learning(w, paths, cfg).cfg == cfg
  {
  }

  lemma BothAreAnswered(net: Net, v: Way, w: Way, cs: Config) returns (net': Net)
    requires BothAsked(net, v, w, cs) && Apart(v, w) && RoomForBoth(cs, |v.mids| + 1, |w.mids| + 1)
    ensures Leads(net, net') && InNet(net', v)
    ensures net'.nodes[v.src] == Learning(v, [Forth(v, 0), Forth(w, 0)], cs) && net'.nodes[v.dst] == net.nodes[v.dst]
  {
    hide Handle, Leads, TableOk, Ask, Reply, Relaying, Routing, InitNode, Asking, Answering, Learning, Back, Forth;
    var p, q := Forth(v, 0), Forth(w, 0);
    var net1 := ReplyComesBack(net, v, 0);
    var net2 := ReplyComesBack(net1, w, 0);
    LeadsOn(net, net1, net2);
    SourceLearns(v, cs);
    ReplyGoesTo(v, 0);
    var net3 := Then(net2, v.src, Learning(v, [p], cs), []);
    OneStep(net2, v.src, Deliver(Reply(v, 0)), Learning(v, [p], cs), []);
    LeadsOn(net, net2, net3);
    SourceLearnsAgain(v, w, cs);
    ReplyGoesTo(w, 0);
    net' := Then(net3, v.src, Learning(v, [p, q], cs), []);
    OneStep(net3, v.src, Deliver(Reply(w, 0)), Learning(v, [p, q], cs), []);
    LeadsOn(net, net3, net');
  }

  /** Multipath discovery: over any two ways that share no intermediate node a run from the
      initial network ends with both paths stored, at the source and at the target, if the
      configuration of the two leaves room for them. */
  lemma BothPathsAreFound(net: Net, v: Way, w: Way) returns (nets: seq<Net>)
    requires Init(net) && InNet(net, v) && InNet(net, w) && Apart(v, w)
    requires RoomForBoth(net.nodes[v.src].cfg, |v.mids| + 1, |w.mids| + 1)
    requires RoomForBoth(net.nodes[v.dst].cfg, |v.mids| + 1, |w.mids| + 1)
    ensures Run(nets) && nets[0] == net
    ensures var n := nets[|nets| - 1];
      && v.src in n.nodes && v.dst in n.nodes[v.src].rt && v.dst in n.nodes && v.src in n.nodes[v.dst].rt
      && n.nodes[v.src].rt[v.dst].flags == Up && n.nodes[v.src].rt[v.dst].paths
         == [Path(At(v, 0), |v.mids| + 1, Prev(v, |v.mids|)), Path(At(w, 0), |w.mids| + 1, Prev(w, |w.mids|))]
      && n.nodes[v.dst].rt[v.src].flags == Up && n.nodes[v.dst].rt[v.src].paths
         == [Back(v, |v.mids|), Back(w, |w.mids|)]
  {
    var net1 := BothAreAsked(net, v, w);
    var net2 := BothAreAnswered(net1, v, w, net.nodes[v.src].cfg);
    LeadsOn(net, net1, net2);
    nets := LeadsIsRun(net, net2);
    hide Run, Leads;
  }

  // ----- withdrawal

  /** Node `n` has closed its entry for `d` under number `s`. */
  predicate GivenUp(n: Node, d: Addr, s: nat) {
    d in n.rt && n.rt[d].flags == Down && n.rt[d].paths == [] && n.rt[d].seqno == s
  }

  function Withdrawal(w: Way, i: nat): Msg
    requires i < |w.mids|
  {
    Rerr(w.mids[i], [(w.dst, 3)])
  }

  lemma LinkIsLost(w: Way, cfg: Config)
    requires WayOk(w) && w.mids != []
    ensures var i := |w.mids| - 1;
      && TableOk(Routing(w, i, cfg))
      && var out := Handle(Routing(w, i, cfg), Lost(w.dst));
         GivenUp(out.node, w.dst, 3) && out.sent == [Withdrawal(w, i)]
  {
    var i := |w.mids| - 1;
    var n := Routing(w, i, cfg);
    var e := n.rt[w.dst];
    assert e.paths[0].nexthop == w.dst && HasNexthop(e.paths, w.dst);
    assert FailEntry(e, w.dst).flags == Down && FailEntry(e, w.dst).seqno == 3;
    assert n.rt[w.src].paths[0].nexthop == Prev(w, i) != w.dst;
    assert !Uses(n.rt[w.src], w.dst);
    assert n.order == [w.dst, w.src] && n.order[..1] == [w.dst] && n.order[..0] == [];
    assert Broken(n.rt, [w.dst], w.dst) == [(w.dst, 3)];
    assert Broken(n.rt, n.order, w.dst) == [(w.dst, 3)];
  }

  lemma OneItemOnly(n: Node, from: Addr, item: (Addr, nat))
    ensures ApplyErrors(n, from, [item]) == ApplyError(n, from, item)
  {
    var r := ApplyError(n, from, item);
    assert [item][..0] == [] && [] + r.1 == r.1;
  }

  lemma NodeGivesUp(w: Way, i: nat, cfg: Config)
    requires WayOk(w) && i < |w.mids| - 1
    ensures TableOk(Routing(w, i, cfg))
    ensures var out := Handle(Routing(w, i, cfg), Deliver(Withdrawal(w, i + 1)));
      GivenUp(out.node, w.dst, 3) && out.sent == [Withdrawal(w, i)]
  {
    var n := Routing(w, i, cfg);
    var e := n.rt[w.dst];
    assert e.paths[0].nexthop == w.mids[i + 1] && HasNexthop(e.paths, w.mids[i + 1]);
    assert HearError(e, w.mids[i + 1], 3).flags == Down && HearError(e, w.mids[i + 1], 3).seqno == 3;
    OneItemOnly(n, w.mids[i + 1], (w.dst, 3));
  }

  /** The source loses its first hop, or hears of it. */
  lemma SourceGivesUp(w: Way, cfg: Config)
    requires WayOk(w)
    ensures var n := Learning(w, [Forth(w, 0)], cfg);
      && TableOk(n)
      && GivenUp(Handle(n, if w.mids == [] then Lost(w.dst) else Deliver(Withdrawal(w, 0))).node, w.dst, 3)
  {
    var n := Learning(w, [Forth(w, 0)], cfg);
    var e := n.rt[w.dst];
    assert e.paths[0].nexthop == At(w, 0) && HasNexthop(e.paths, At(w, 0));
    if w.mids == [] {
      assert FailEntry(e, w.dst).flags == Down && FailEntry(e, w.dst).seqno == 3;
    } else {
      assert HearError(e, w.mids[0], 3).flags == Down && HearError(e, w.mids[0], 3).seqno == 3;
      OneItemOnly(n, w.mids[0], (w.dst, 3));
    }
  }

  /** The nodes from number `i` on have given up, and `i` has said so; the others have not. */
  ghost predicate GivenUpFrom(net: Net, w: Way, i: nat) {
    && InNet(net, w) && i < |w.mids| && Withdrawal(w, i) in net.msgs
    && net.nodes[w.src] == Learning(w, [Forth(w, 0)], net.nodes[w.src].cfg)
    && (forall j :: 0 <= j < i ==> net.nodes[w.mids[j]] == Routing(w, j, net.nodes[w.mids[j]].cfg))
    && (forall j :: i <= j < |w.mids| ==> GivenUp(net.nodes[w.mids[j]], w.dst, 3))
  }

  lemma {:induction false} ErrorSpreads(net: Net, w: Way, i: nat) returns (net': Net)
    requires InUse(net, w) && i < |w.mids|
    ensures Leads(net, net') && GivenUpFrom(net', w, i)
    decreases |w.mids| - i
  {
    hide Handle, Leads, TableOk, Routing, Withdrawal, GivenUp, Learning;
    var a, last := w.mids[i], |w.mids| - 1;
    if i == last {
      var cfg := net.nodes[a].cfg;
      LinkIsLost(w, cfg);
      var out := Handle(Routing(w, i, cfg), Lost(w.dst));
      net' := Then(net, a, out.node, out.sent);
      OneStep(net, a, Lost(w.dst), out.node, out.sent);
    } else {
      var net1 := ErrorSpreads(net, w, i + 1);
      var cfg := net1.nodes[a].cfg;
      NodeGivesUp(w, i, cfg);
      WithdrawalIsError(w, i + 1);
      var out := Handle(Routing(w, i, cfg), Deliver(Withdrawal(w, i + 1)));
      net' := Then(net1, a, out.node, out.sent);
      OneStep(net1, a, Deliver(Withdrawal(w, i + 1)), out.node, out.sent);
      LeadsOn(net, net1, net');
    }
  }

  lemma WithdrawalIsError(w: Way, i: nat)
    requires i < |w.mids|
    ensures Withdrawal(w, i).Rerr?
  {
  }

  /** The source and the intermediate nodes have given up. */
  ghost predicate AllGivenUp(net: Net, w: Way) {
    && InNet(net, w) && GivenUp(net.nodes[w.src], w.dst, 3)
    && forall j :: 0 <= j < |w.mids| ==> GivenUp(net.nodes[w.mids[j]], w.dst, 3)
  }

  lemma WayIsGivenUp(net: Net, w: Way) returns (net': Net)
    requires InUse(net, w)
    ensures Leads(net, net') && AllGivenUp(net', w)
  {
    hide Handle, Leads, TableOk, Routing, Withdrawal, GivenUp, Learning;
    var cs := net.nodes[w.src].cfg;
    SourceGivesUp(w, cs);
    var net1, ev := net, Lost(w.dst);
    if w.mids != [] {
      net1 := ErrorSpreads(net, w, 0);
      WithdrawalIsError(w, 0);
      ev := Deliver(Withdrawal(w, 0));
      cs := net1.nodes[w.src].cfg;
      SourceGivesUp(w, cs);
    } else {
      LeadsItself(net);
    }
    var out := Handle(Learning(w, [Forth(w, 0)], cs), ev);
    net' := Then(net1, w.src, out.node, out.sent);
    OneStep(net1, w.src, ev, out.node, out.sent);
    LeadsOn(net, net1, net');
  }

  /** Withdrawal: after a discovery along any way, the loss of its last link is a run at
      whose end the source and every intermediate node have closed their entries, under a
      higher number. */
  lemma BreaksAreWithdrawn(net: Net, w: Way) returns (net1: Net, nets: seq<Net>)
    requires Init(net) && InNet(net, w)
    ensures Run(nets) && nets[0] == net && AllGivenUp(nets[|nets| - 1], w)
    ensures Leads(net, net1) && PathsAlong(net1, w) && Leads(net1, nets[|nets| - 1])
  {
    hide InUse, AllGivenUp, PathsAlong, Leads;
    net1 := WayIsFound(net, w);
    UseGivesPaths(net1, w);
    var net2 := WayIsGivenUp(net1, w);
    LeadsOn(net, net1, net2);
    nets := LeadsIsRun(net, net2);
  }
}
