/** What AODV is for: along any path of nodes a route is discovered, and when its last
    link breaks every node on the path gives it up.  All by runs from the initial
    network, for paths of every length. */
module AodvDiscovery {
  import opened Freshness
  import opened AodvSpec
  import opened AodvNetwork

  // ----- stretches of a run

  /** Some steps, without local repair, lead from one state to the other. */
  ghost predicate Leads(net: Net, net': Net) {
    exists nets :: Stretch(nets, net, net')
  }

  ghost predicate Stretch(nets: seq<Net>, net: Net, net': Net) {
    && |nets| > 0 && nets[0] == net && nets[|nets| - 1] == net'
    && forall k :: 0 <= k < |nets| - 1 ==> Step(nets[k], nets[k + 1], Off)
  }

  lemma LeadsItself(net: Net)
    ensures Leads(net, net)
  {
    assert Stretch([net], net, net);
  }

  lemma LeadsOn(net: Net, net1: Net, net2: Net)
    requires Leads(net, net1) && Leads(net1, net2)
    ensures Leads(net, net2)
  {
    hide Step;
    var a :| Stretch(a, net, net1);
    var b :| Stretch(b, net1, net2);
    var nets := a + b[1..];
    forall k | 0 <= k < |nets| - 1 ensures Step(nets[k], nets[k + 1], Off) {
      if k < |a| - 1 {
        assert nets[k] == a[k] && nets[k + 1] == a[k + 1];
      } else {
        var l := k - (|a| - 1);
        assert nets[k] == b[l] && nets[k + 1] == b[l + 1];
      }
    }
    assert nets[|nets| - 1] == net2;
    assert Stretch(nets, net, net2);
  }

  lemma LeadsIsRun(net: Net, net': Net) returns (nets: seq<Net>)
    requires Init(net) && Leads(net, net')
    ensures Run(nets, Off) && nets[0] == net && nets[|nets| - 1] == net'
  {
    nets :| Stretch(nets, net, net');
  }

  /** Node `i` becomes `n'` and sends `m`. */
  function Then(net: Net, i: Addr, n': Node, m: Msg): Net {
    Net(net.nodes[i := n'], net.msgs + {m})
  }

  predicate Arrives(net: Net, i: Addr, ev: Event) {
    match ev
    case Deliver(m) => m in net.msgs && (m.Rrep? ==> m.nexthop == i)
    case LinkBreaks(_, _, _) => false
    case RepairTimeout(_) => false
    case _ => true
  }

  lemma OneStep(net: Net, i: Addr, ev: Event, n': Node, sent: seq<Msg>, net': Net)
    requires i in net.nodes && TableOk(net.nodes[i]) && Arrives(net, i, ev)
    requires Handle(net.nodes[i], ev) == Outcome(n', sent)
    requires net' == Net(net.nodes[i := n'], net.msgs + set m | m in sent)
    ensures Leads(net, net')
  {
    hide Handle, TableOk;
    assert StepBy(net, net', i, ev);
    assert Step(net, net', Off);
    assert Stretch([net, net'], net, net');
  }

  lemma OneMessage(net: Net, i: Addr, ev: Event, n': Node, m: Msg)
    requires i in net.nodes && TableOk(net.nodes[i]) && Arrives(net, i, ev)
    requires Handle(net.nodes[i], ev) == Outcome(n', [m])
    ensures Leads(net, Then(net, i, n', m))
  {
    hide Handle, TableOk, Leads, Arrives;
    assert (set x | x in [m]) == {m};
    OneStep(net, i, ev, n', [m], Then(net, i, n', m));
  }

  // ----- the messages and the nodes along a path

  predicate Distinct(path: seq<Addr>) {
    |path| >= 2 && forall i, j :: 0 <= i < j < |path| ==> path[i] != path[j]
  }

  function Source(path: seq<Addr>): Addr
    requires Distinct(path)
  {
    path[0]
  }

  function Target(path: seq<Addr>): Addr
    requires Distinct(path)
  {
    path[|path| - 1]
  }

  /** The request as node `i` of the path sends it. */
  function Ask(path: seq<Addr>, i: nat): Msg
    requires Distinct(path) && i < |path|
  {
    Rreq(path[i], i + 1, 1, Target(path), 0, Source(path), 4)
  }

  /** The reply as node `i` of the path sends it. */
  function Reply(path: seq<Addr>, i: nat): Msg
    requires Distinct(path) && 0 < i < |path|
  {
    Rrep(path[i], |path| - i, Target(path), 4, Source(path), path[i - 1])
  }

  /** The error as node `i` of the path sends it. */
  function Withdrawal(path: seq<Addr>, i: nat): Msg
    requires Distinct(path) && i < |path|
  {
    Rerr(path[i], [(Target(path), 5)])
  }

  function Back(path: seq<Addr>, i: nat): Entry
    requires 0 < i < |path|
  {
    Entry(4, Fin(i), path[i - 1], Up, {})
  }

  function Forth(path: seq<Addr>, i: nat): Entry
    requires i < |path| - 1
  {
    Entry(4, Fin(|path| - 1 - i), path[i + 1], Up, if i > 0 then {path[i - 1]} else {})
  }

  function Asking(path: seq<Addr>): Node
    requires Distinct(path)
  {
    Node(Source(path), 4, 2, [Target(path)], map[Target(path) := FRESH_ENTRY], {}, {})
  }

  function Relaying(path: seq<Addr>, i: nat): Node
    requires Distinct(path) && 0 < i < |path|
  {
    Node(path[i], 2, 1, [Source(path)], map[Source(path) := Back(path, i)], {(Source(path), 1)}, {})
  }

  function Answering(path: seq<Addr>): Node
    requires Distinct(path)
  {
    Relaying(path, |path| - 1).(seqno := 4)
  }

  /** Node `i` of the path once it has the route. */
  function Routing(path: seq<Addr>, i: nat): Node
    requires Distinct(path) && i < |path| - 1
  {
    var d := Target(path);
    if i == 0 then Asking(path).(rt := map[d := Forth(path, 0)])
    else
      var n := Relaying(path, i);
      n.(order := [d] + n.order, rt := n.rt[d := Forth(path, i)])
  }

  lemma SourceAsks(path: seq<Addr>)
    requires Distinct(path)
    ensures TableOk(InitNode(Source(path)))
    ensures Handle(InitNode(Source(path)), Data(Target(path), Source(path))) == Outcome(Asking(path), [Ask(path, 0)])
  {
  }

  lemma NodeRelays(path: seq<Addr>, i: nat)
    requires Distinct(path) && 0 < i < |path| - 1
    ensures TableOk(InitNode(path[i]))
    ensures Handle(InitNode(path[i]), Deliver(Ask(path, i - 1))) == Outcome(Relaying(path, i), [Ask(path, i)])
  {
    assert path[i] != Source(path) && path[i] != Target(path) && Target(path) != Source(path);
    var n := ReverseRoute(InitNode(path[i]), Ask(path, i - 1));
    assert n.rt == map[Source(path) := Back(path, i)];
    assert n == Relaying(path, i);
  }

  lemma TargetAnswers(path: seq<Addr>)
    requires Distinct(path)
    ensures TableOk(InitNode(Target(path)))
    ensures var k := |path| - 1;
      Handle(InitNode(Target(path)), Deliver(Ask(path, k - 1))) == Outcome(Answering(path), [Reply(path, k)])
  {
    var k := |path| - 1;
    var n := ReverseRoute(InitNode(Target(path)), Ask(path, k - 1));
    assert n.rt == map[Source(path) := Back(path, k)];
    assert n == Relaying(path, k);
  }

  lemma NodePassesBack(path: seq<Addr>, i: nat)
    requires Distinct(path) && 0 < i < |path| - 1
    ensures TableOk(Relaying(path, i))
    ensures Handle(Relaying(path, i), Deliver(Reply(path, i + 1))) == Outcome(Routing(path, i), [Reply(path, i)])
  {
    var n, m := Relaying(path, i), Reply(path, i + 1);
    var s, d := Source(path), Target(path);
    assert s != d && path[i] != s;
    var n2 := EnsureEntry(n, d);
    var n3 := n2.(rt := n2.rt[d := Update(FRESH_ENTRY, 4, m.hops, m.sender)]);
    assert n3.rt[s] == Back(path, i);
    var n4 := AddPrecursor(n3, d, path[i - 1]);
    assert {} + {path[i - 1]} == {path[i - 1]};
    assert n4.rt[d] == Forth(path, i) && n4.rt[s] == Back(path, i);
    assert n4.rt == Routing(path, i).rt;
  }

  lemma SourceLearns(path: seq<Addr>)
    requires Distinct(path)
    ensures TableOk(Asking(path))
    ensures Handle(Asking(path), Deliver(Reply(path, 1))) == Outcome(Routing(path, 0), [])
  {
    assert Asking(path).rt[Target(path) := Forth(path, 0)] == Routing(path, 0).rt;
  }

  // ----- discovery

  /** From `net` on only the nodes of `changed` have changed, and messages are kept. */
  ghost predicate Only(net: Net, net': Net, changed: seq<Addr>) {
    && net.msgs <= net'.msgs && net'.nodes.Keys == net.nodes.Keys
    && forall a :: a in net.nodes && a !in changed ==> net'.nodes[a] == net.nodes[a]
  }

  ghost predicate OnPath(net: Net, path: seq<Addr>) {
    Distinct(path) && forall i :: 0 <= i < |path| ==> path[i] in net.nodes
  }

  /** The request has been passed on by the nodes up to number `i`. */
  ghost predicate AskedUpTo(net: Net, path: seq<Addr>, i: nat)
    requires Distinct(path) && i < |path| - 1
  {
    && OnPath(net, path) && Ask(path, i) in net.msgs
    && net.nodes[path[0]] == Asking(path)
    && (forall j :: 0 < j <= i ==> net.nodes[path[j]] == Relaying(path, j))
    && (forall j :: i < j < |path| ==> net.nodes[path[j]] == InitNode(path[j]))
  }

  lemma {:induction false} RequestSpreads(net: Net, path: seq<Addr>, i: nat) returns (net': Net)
    requires OnPath(net, path) && i < |path| - 1
    requires forall j :: 0 <= j < |path| ==> net.nodes[path[j]] == InitNode(path[j])
    ensures Leads(net, net') && AskedUpTo(net', path, i)
  {
    hide Handle, Leads, TableOk, InitNode, Asking, Relaying, Ask;
    if i == 0 {
      SourceAsks(path);
      net' := Then(net, path[0], Asking(path), Ask(path, 0));
      OneMessage(net, path[0], Data(Target(path), Source(path)), Asking(path), Ask(path, 0));
    } else {
      var net1 := RequestSpreads(net, path, i - 1);
      NodeRelays(path, i);
      AskIsRequest(path, i - 1);
      net' := Then(net1, path[i], Relaying(path, i), Ask(path, i));
      OneMessage(net1, path[i], Deliver(Ask(path, i - 1)), Relaying(path, i), Ask(path, i));
      LeadsOn(net, net1, net');
    }
  }

  lemma AskIsRequest(path: seq<Addr>, i: nat)
    requires Distinct(path) && i < |path|
    ensures Ask(path, i).Rreq?
  {
  }

  /** The reply has come back to the nodes from number `i` on. */
  ghost predicate AnsweredFrom(net: Net, path: seq<Addr>, i: nat)
    requires Distinct(path) && 0 < i < |path|
  {
    && OnPath(net, path) && Reply(path, i) in net.msgs
    && net.nodes[path[0]] == Asking(path)
    && (forall j :: 0 < j < i ==> net.nodes[path[j]] == Relaying(path, j))
    && (forall j :: i <= j < |path| - 1 ==> net.nodes[path[j]] == Routing(path, j))
  }

  lemma {:induction false} ReplyComesBack(net: Net, path: seq<Addr>, i: nat) returns (net': Net)
    requires OnPath(net, path) && 0 < i < |path| && AskedUpTo(net, path, |path| - 2)
    ensures Leads(net, net') && AnsweredFrom(net', path, i)
    decreases |path| - i
  {
    hide Handle, Leads, TableOk, InitNode, Asking, Relaying, Routing, Answering, Ask, Reply;
    var k := |path| - 1;
    if i == k {
      TargetAnswers(path);
      AskIsRequest(path, k - 1);
      net' := Then(net, path[k], Answering(path), Reply(path, k));
      OneMessage(net, path[k], Deliver(Ask(path, k - 1)), Answering(path), Reply(path, k));
    } else {
      var net1 := ReplyComesBack(net, path, i + 1);
      NodePassesBack(path, i);
      ReplyGoesTo(path, i + 1);
      net' := Then(net1, path[i], Routing(path, i), Reply(path, i));
      OneMessage(net1, path[i], Deliver(Reply(path, i + 1)), Routing(path, i), Reply(path, i));
      LeadsOn(net, net1, net');
    }
  }

  lemma ReplyGoesTo(path: seq<Addr>, i: nat)
    requires Distinct(path) && 0 < i < |path|
    ensures Reply(path, i).Rrep? && Reply(path, i).nexthop == path[i - 1]
  {
  }

  /** Every node of the path but the last routes to it over the next one. */
  ghost predicate Routed(net: Net, path: seq<Addr>)
    requires Distinct(path)
  {
    OnPath(net, path) && forall j :: 0 <= j < |path| - 1 ==> net.nodes[path[j]] == Routing(path, j)
  }

  lemma RouteIsFound(net: Net, path: seq<Addr>) returns (net': Net)
    requires OnPath(net, path) && forall j :: 0 <= j < |path| ==> net.nodes[path[j]] == InitNode(path[j])
    ensures Leads(net, net') && Routed(net', path)
  {
    hide Handle, Leads, TableOk, InitNode, Asking, Relaying, Routing, Ask, Reply;
    var net1 := RequestSpreads(net, path, |path| - 2);
    var net2 := ReplyComesBack(net1, path, 1);
    SourceLearns(path);
    ReplyGoesTo(path, 1);
    net' := Net(net2.nodes[path[0] := Routing(path, 0)], net2.msgs);
    assert net2.msgs + (set m | m in []) == net2.msgs;
    OneStep(net2, path[0], Deliver(Reply(path, 1)), Routing(path, 0), [], net');
    LeadsOn(net, net1, net2);
    LeadsOn(net, net2, net');
  }

  /** Discovery: along every path of distinct nodes a run from the initial network gives
      its first node a live route to its last node, of as many hops as the path has,
      over the second node. */
  lemma DiscoveryWorks(net: Net, path: seq<Addr>) returns (nets: seq<Net>)
    requires Init(net) && |path| >= 2 && (forall i, j :: 0 <= i < j < |path| ==> path[i] != path[j])
    requires forall i :: 0 <= i < |path| ==> path[i] in net.nodes
    ensures Run(nets, Off) && nets[0] == net
    ensures var k := |path| - 1;
      forall j :: 0 <= j < k ==>
        && path[j] in nets[|nets| - 1].nodes && path[k] in nets[|nets| - 1].nodes[path[j]].rt
        && var e := nets[|nets| - 1].nodes[path[j]].rt[path[k]];
           e.flags == Up && e.hops == Fin(k - j) && e.nexthop == path[j + 1]
  {
    var net' := RouteIsFound(net, path);
    nets := LeadsIsRun(net, net');
    hide Run, Leads;
    forall j | 0 <= j < |path| - 1
      ensures path[j] in net'.nodes && path[|path| - 1] in net'.nodes[path[j]].rt
        && net'.nodes[path[j]].rt[path[|path| - 1]] == Forth(path, j)
    {
      assert net'.nodes[path[j]] == Routing(path, j);
    }
  }

  // ----- withdrawal

  /** Node `n` has given up its route to `d` under number `s`. */
  predicate GivenUp(n: Node, d: Addr, s: nat) {
    d in n.rt && n.rt[d].flags == Down && n.rt[d].hops == Inf && n.rt[d].seqno == s
  }

  function Dead(path: seq<Addr>, i: nat): Entry
    requires i < |path| - 1
  {
    Forth(path, i).(seqno := 5, hops := Inf, nexthop := 0, flags := Down)
  }

  lemma LinkIsLost(path: seq<Addr>)
    requires Distinct(path)
    ensures var i, d := |path| - 2, Target(path);
      && TableOk(Routing(path, i))
      && var out := Handle(Routing(path, i), Lost(d));
         GivenUp(out.node, d, 5) && out.sent == [Withdrawal(path, i)]
  {
    var i, s, d := |path| - 2, Source(path), Target(path);
    assert s != d;
    var n := Routing(path, i);
    assert n.rt[d] == Forth(path, i) && Uses(n.rt[d], d);
    if i > 0 {
      assert path[i - 1] != d;
      assert n.order == [d, s] && n.order[..1] == [d] && n.order[..0] == [];
      assert n.rt[s] == Back(path, i) && !Uses(n.rt[s], d);
      assert Broken(n.rt, [d], d) == [(d, 5)];
      assert Broken(n.rt, n.order, d) == [(d, 5)];
    } else {
      assert n.order == [d] && n.order[..0] == [];
      assert Broken(n.rt, n.order, d) == [(d, 5)];
    }
  }

  lemma NodeGivesUp(path: seq<Addr>, i: nat)
    requires Distinct(path) && i < |path| - 2
    ensures TableOk(Routing(path, i))
    ensures var out := Handle(Routing(path, i), Deliver(Withdrawal(path, i + 1)));
      GivenUp(out.node, Target(path), 5) && out.sent == if i > 0 then [Withdrawal(path, i)] else []
  {
    var n, m, d := Routing(path, i), Withdrawal(path, i + 1), Target(path);
    assert n.rt[d] == Forth(path, i);
    assert ErrorApplies(n, m.sender, (d, 5));
    assert m.unreachable[..0] == [];
    assert ApplyErrors(n, m.sender, []) == (n, []);
    var r := ApplyError(n, m.sender, (d, 5));
    assert [] + r.1 == r.1;
    assert ApplyErrors(n, m.sender, m.unreachable) == r;
  }

  /** The nodes from number `i` on have given the route up, and `i` has said so. */
  ghost predicate GivenUpFrom(net: Net, path: seq<Addr>, i: nat)
    requires Distinct(path) && i < |path| - 1
  {
    && OnPath(net, path) && (i > 0 || i == |path| - 2 ==> Withdrawal(path, i) in net.msgs)
    && (forall j :: 0 <= j < i ==> net.nodes[path[j]] == Routing(path, j))
    && (forall j :: i <= j < |path| - 1 ==> GivenUp(net.nodes[path[j]], Target(path), 5))
  }

  lemma {:induction false} ErrorSpreads(net: Net, path: seq<Addr>, i: nat) returns (net': Net)
    requires Distinct(path) && Routed(net, path) && i < |path| - 1
    ensures Leads(net, net') && GivenUpFrom(net', path, i)
    decreases |path| - i
  {
    hide Handle, Leads, TableOk, Routing, Withdrawal, GivenUp;
    if i == |path| - 2 {
      LinkIsLost(path);
      var out := Handle(Routing(path, i), Lost(Target(path)));
      net' := Then(net, path[i], out.node, Withdrawal(path, i));
      OneMessage(net, path[i], Lost(Target(path)), out.node, Withdrawal(path, i));
    } else {
      var net1 := ErrorSpreads(net, path, i + 1);
      NodeGivesUp(path, i);
      WithdrawalIsError(path, i + 1);
      var out := Handle(Routing(path, i), Deliver(Withdrawal(path, i + 1)));
      net' := Net(net1.nodes[path[i] := out.node], net1.msgs + set m | m in out.sent);
      OneStep(net1, path[i], Deliver(Withdrawal(path, i + 1)), out.node, out.sent, net');
      LeadsOn(net, net1, net');
    }
  }

  lemma WithdrawalIsError(path: seq<Addr>, i: nat)
    requires Distinct(path) && i < |path|
    ensures Withdrawal(path, i).Rerr?
  {
  }

  /** Withdrawal: after a discovery along any path, the loss of its last link is a run at
      whose end every node of the path has taken its route down, under a higher number. */
  lemma BreaksAreWithdrawn(net: Net, path: seq<Addr>) returns (nets: seq<Net>)
    requires Init(net) && |path| >= 2 && (forall i, j :: 0 <= i < j < |path| ==> path[i] != path[j])
    requires forall i :: 0 <= i < |path| ==> path[i] in net.nodes
    ensures Run(nets, Off) && nets[0] == net
    ensures exists k :: 0 <= k < |nets| && Routed(nets[k], path)
    ensures forall j :: 0 <= j < |path| - 1 ==>
      path[j] in nets[|nets| - 1].nodes && GivenUp(nets[|nets| - 1].nodes[path[j]], path[|path| - 1], 5)
  {
    hide Step, GivenUp, Routing;
    var net1 := RouteIsFound(net, path);
    var net2 := ErrorSpreads(net1, path, 0);
    var a :| Stretch(a, net, net1);
    var b :| Stretch(b, net1, net2);
    nets := a + b[1..];
    forall k | 0 <= k < |nets| - 1 ensures Step(nets[k], nets[k + 1], Off) {
      if k < |a| - 1 {
        assert nets[k] == a[k] && nets[k + 1] == a[k + 1];
      } else {
        var l := k - (|a| - 1);
        assert nets[k] == b[l] && nets[k + 1] == b[l + 1];
      }
    }
    assert nets[|a| - 1] == net1 && nets[|nets| - 1] == net2;
  }
}
