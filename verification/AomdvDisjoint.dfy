/** Node-disjoint discovery: during one lifetime of a broadcast id in the cache of an
    intermediate node, that node sends at most one reply for the discovery, so replies
    that reach the source share no intermediate node. */
module AomdvDisjoint {
  import opened Freshness
  import opened AomdvSpec
  import opened AomdvNetwork

  /** A discovery: its source and broadcast id. */
  type Key = (Addr, nat)

  /** A reply for the discovery, sent by a node other than the destination. */
  predicate FromIntermediate(m: Msg, key: Key) {
    m.Rrep? && (m.ipdst, m.bid) == key && m.sender != m.dst
  }

  predicate Keeps(ev: Event, key: Key) {
    ev.ForgetIds? ==> key !in ev.ids
  }

  /** A step that is not a purge of the id at node `a`; others may purge it. */
  ghost predicate KeepingStep(net: Net, net': Net, key: Key, a: Addr) {
    exists i, ev :: StepBy(net, net', i, ev) && (i == a ==> Keeps(ev, key))
  }

  /** From state `from` on node `a` does not purge the id. */
  ghost predicate KeepsSince(nets: seq<Net>, from: nat, key: Key, a: Addr) {
    forall k :: from <= k < |nets| - 1 ==> KeepingStep(nets[k], nets[k + 1], key, a)
  }

  predicate Used(n: Node, key: Key) {
    key in n.seen && n.seen[key] == 1
  }

  /** A handler sends at most one intermediate reply, and only if the id was not
      used; from then on it is. */
  ghost predicate RepliesOnce(n: Node, out: Outcome, key: Key) {
    && out.node.id == n.id
    && (Used(n, key) ==> Used(out.node, key))
    && (forall k :: 0 <= k < |out.sent| && FromIntermediate(out.sent[k], key) ==>
          out.sent[k].sender == n.id && !Used(n, key) && Used(out.node, key))
    && (forall k, l :: (0 <= k < |out.sent| && 0 <= l < |out.sent|
          && FromIntermediate(out.sent[k], key) && FromIntermediate(out.sent[l], key)) ==> out.sent[k] == out.sent[l])
  }

  /** Caching the id does not mark it as used. */
  lemma ReverseRouteKeepsUsed(n: Node, m: Msg, key: Key)
    requires m.Rreq?
    ensures var n1 := ReverseRoute(n, m).0;
      n1.id == n.id && m.src in n1.rt && (Used(n1, key) <==> Used(n, key))
  {
    hide OfferReverse;
  }

  /** A node that uses up the id in the same states counts as the same node here. */
  lemma OnceFromSameUse(n: Node, n1: Node, out: Outcome, key: Key)
    requires n1.id == n.id && (Used(n1, key) <==> Used(n, key)) && RepliesOnce(n1, out, key)
    ensures RepliesOnce(n, out, key)
  {
    hide Used, FromIntermediate;
  }

  /** An answer from the table is given once, and then the id is used. */
  lemma TableAnswersOnce(n: Node, m: Msg, usable: bool, key: Key)
    requires m.Rreq? && m.dst in n.rt
    ensures RepliesOnce(n, AnswerFromTable(n, m, usable), key)
  {
    hide Advertise, FirstLast, HopsOf;
  }

  lemma OthersAreNoIntermediateReply(n: Node, m: Msg, key: Key)
    requires m.Rreq? && m.src in n.rt
    ensures RepliesOnce(n, AnswerAsDestination(n, m), key) && RepliesOnce(n, RelayRequest(n, m), key)
  {
    hide Advertise, FirstLast, HopsOf, AnswerSeqno;
  }

  lemma NothingSent(n: Node, key: Key)
    ensures RepliesOnce(n, Outcome(n, []), key)
  {
  }

  lemma RecvRequestRepliesOnce(n: Node, m: Msg, key: Key)
    requires m.Rreq?
    ensures RepliesOnce(n, RecvRequest(n, m), key)
  {
    hide ReverseRoute, AnswerFromTable, AnswerAsDestination, RelayRequest, RepliesOnce, Used;
    var (n1, v) := ReverseRoute(n, m);
    ReverseRouteKeepsUsed(n, m, key);
    OthersAreNoIntermediateReply(n1, m, key);
    NothingSent(n, key);
    NothingSent(n1, key);
    if m.src != n.id {
      if v != Dropped && CanAnswer(n1, m) {
        TableAnswersOnce(n1, m, v.usable, key);
      }
      OnceFromSameUse(n, n1, RecvRequest(n, m), key);
    }
  }

  lemma RelaysOnce(n: Node, m: Msg, key: Key)
    requires m.Rrep? && m.dst in n.rt && CanRelayReply(n, m)
    ensures RepliesOnce(n, RelayReply(n, m), key)
  {
    hide Advertise, FirstLast, HopsOf;
  }

  lemma RecvReplyRepliesOnce(n: Node, m: Msg, key: Key)
    requires m.Rrep?
    ensures RepliesOnce(n, RecvReply(n, m), key)
  {
    hide OfferForward, CanRelayReply, RelayReply, RepliesOnce;
    NothingSent(n, key);
    if m.dst != n.id {
      var n1 := EnsureEntry(n, m.dst);
      var e := OfferForward(n1.rt[m.dst], m.dstSeqno, Path(m.sender, m.hops + 1, m.firstHop), n.cfg).0;
      var n2 := n1.(rt := n1.rt[m.dst := e]);
      NothingSent(n2, key);
      if CanRelayReply(n2, m) {
        RelaysOnce(n2, m, key);
      }
      OnceFromSameUse(n, n2, RecvReply(n, m), key);
    }
  }

  lemma {:induction false} PurgeKeepsSeen(n: Node, ds: seq<Addr>, gone: map<Addr, set<Addr>>, waiting: set<Addr>)
    requires forall d :: d in ds ==> d in n.rt
    ensures var out := PurgeAll(n, ds, gone, waiting);
      && out.node.seen == n.seen && out.node.id == n.id
      && (forall k :: 0 <= k < |out.sent| ==> out.sent[k].Rreq?)
  {
    if ds != [] {
      PurgeKeepsSeen(n, ds[..|ds| - 1], gone, waiting);
    }
  }

  lemma {:induction false} ErrorsKeepSeen(n: Node, from: Addr, items: seq<(Addr, nat)>)
    ensures ApplyErrors(n, from, items).0.seen == n.seen && ApplyErrors(n, from, items).0.id == n.id
  {
    if items != [] {
      ErrorsKeepSeen(n, from, items[..|items| - 1]);
    }
  }

  lemma HandleRepliesOnce(n: Node, ev: Event, key: Key)
    requires TableOk(n) && Keeps(ev, key)
    ensures RepliesOnce(n, Handle(n, ev), key)
  {
    hide RecvRequest, RecvReply, ApplyErrors, PurgeAll;
    match ev
    case Deliver(m) =>
      match m {
        case Rreq(_, _, _, _, _, _, _, _) => RecvRequestRepliesOnce(n, m, key);
        case Rrep(_, _, _, _, _, _, _, _) => RecvReplyRepliesOnce(n, m, key);
        case Rerr(_, _) => ErrorsKeepSeen(n, m.sender, m.unreachable);
        case Hello(_, _) => RecvReplyRepliesOnce(n.(nbs := n.nbs + {m.sender}), HelloAsReply(n, m), key);
      }
    case Expire(gone, waiting) => PurgeKeepsSeen(n, n.order, gone, waiting);
    case Lost(nb) =>
    case Data(dst, source) =>
    case SayHello =>
    case ForgetIds(_) =>
  }

  // ----- at most one reply per intermediate node

  /** What node `a` has sent for the discovery beyond `before`: at most one reply, and
      then the id is used. */
  ghost predicate Once(net: Net, key: Key, a: Addr, before: set<Msg>) {
    && (forall m :: m in net.msgs - before && FromIntermediate(m, key) && m.sender == a ==>
          a in net.nodes && Used(net.nodes[a], key))
    && (forall m1, m2 :: (m1 in net.msgs - before && m2 in net.msgs - before && FromIntermediate(m1, key)
          && FromIntermediate(m2, key) && m1.sender == m2.sender == a) ==> m1 == m2)
  }

  lemma StepKeepsOnce(net: Net, net': Net, i: Addr, ev: Event, key: Key, a: Addr, before: set<Msg>)
    requires Inv(net) && Once(net, key, a, before) && StepBy(net, net', i, ev) && (i == a ==> Keeps(ev, key))
    ensures Once(net', key, a, before)
  {
    var n, out := net.nodes[i], Handle(net.nodes[i], ev);
    assert n.id == i;
    if i == a {
      HandleRepliesOnce(n, ev, key);
    } else {
      HandleSendsOwn(net, i, ev);
    }
    forall m | m in net'.msgs && m !in net.msgs && FromIntermediate(m, key) && m.sender == a
      ensures i == a && !Used(n, key) && Used(out.node, key)
    {
      var k :| 0 <= k < |out.sent| && out.sent[k] == m;
    }
    hide Inv, Handle, Used, FromIntermediate;
    forall m1, m2 | m1 in net'.msgs - before && m2 in net'.msgs - before && FromIntermediate(m1, key)
      && FromIntermediate(m2, key) && m1.sender == m2.sender == a
      ensures m1 == m2
    {
      if m1 !in net.msgs && m2 !in net.msgs {
        var k :| 0 <= k < |out.sent| && out.sent[k] == m1;
        var l :| 0 <= l < |out.sent| && out.sent[l] == m2;
      }
    }
  }

  /** A node only sends replies in its own name. */
  lemma HandleSendsOwn(net: Net, i: Addr, ev: Event)
    requires Inv(net) && i in net.nodes && TableOk(net.nodes[i]) && Enabled(net, i, ev)
    ensures forall k :: 0 <= k < |Handle(net.nodes[i], ev).sent| && Handle(net.nodes[i], ev).sent[k].Rrep? ==>
      Handle(net.nodes[i], ev).sent[k].sender == i
  {
    var out := Handle(net.nodes[i], ev);
    StepSound(net, Net(net.nodes[i := out.node], net.msgs + set m | m in out.sent), i, ev);
    assert SendsOk(out.node, out.sent) && out.node.id == i;
    forall k | 0 <= k < |out.sent| && out.sent[k].Rrep? ensures out.sent[k].sender == i {
      var r := out.sent[k];
      assert IsOffer(r, Offer(r.sender, r.dst, r.dstSeqno, r.hops));
    }
  }

  lemma KeepsSinceUnfolds(nets: seq<Net>, from: nat, key: Key, a: Addr)
    requires from < |nets| - 1 && KeepsSince(nets, from, key, a)
    ensures KeepsSince(nets[..|nets| - 1], from, key, a)
    ensures KeepingStep(nets[|nets| - 2], nets[|nets| - 1], key, a)
  {
    hide KeepingStep;
    var init := nets[..|nets| - 1];
    forall k | from <= k < |init| - 1 ensures KeepingStep(init[k], init[k + 1], key, a) {
      assert KeepingStep(nets[k], nets[k + 1], key, a);
    }
    assert KeepingStep(nets[|nets| - 2], nets[|nets| - 2 + 1], key, a);
  }

  lemma NothingNew(net: Net, key: Key, a: Addr)
    ensures Once(net, key, a, net.msgs)
  {
  }

  lemma KeepingStepKeepsOnce(net: Net, net': Net, key: Key, a: Addr, before: set<Msg>)
    requires Inv(net) && Once(net, key, a, before) && KeepingStep(net, net', key, a)
    ensures Once(net', key, a, before)
  {
    var i, ev :| StepBy(net, net', i, ev) && (i == a ==> Keeps(ev, key));
    StepKeepsOnce(net, net', i, ev, key, a, before);
  }

  lemma {:induction false} RunKeepsOnce(nets: seq<Net>, from: nat, key: Key, a: Addr)
    requires Run(nets) && from < |nets| && KeepsSince(nets, from, key, a)
    ensures Once(nets[|nets| - 1], key, a, nets[from].msgs)
    decreases |nets|
  {
    hide *;
    if from == |nets| - 1 {
      NothingNew(nets[from], key, a);
    } else {
      var init := nets[..|nets| - 1];
      RunUnfolds(nets);
      KeepsSinceUnfolds(nets, from, key, a);
      RunKeepsOnce(init, from, key, a);
      RunKeepsInv(init);
      KeepingStepKeepsOnce(nets[|nets| - 2], nets[|nets| - 1], key, a, nets[from].msgs);
    }
  }

  /** Between two purges of the id at an intermediate node, whatever other nodes purge,
      it emits at most one reply for the discovery. */
  lemma OneReplyPerIntermediate(nets: seq<Net>, from: nat, key: Key, m1: Msg, m2: Msg)
    requires Run(nets) && from < |nets| && KeepsSince(nets, from, key, m1.sender)
    requires m1 in nets[|nets| - 1].msgs - nets[from].msgs && m2 in nets[|nets| - 1].msgs - nets[from].msgs
    requires FromIntermediate(m1, key) && FromIntermediate(m2, key) && m1.sender == m2.sender
    ensures m1 == m2
  {
    RunKeepsOnce(nets, from, key, m1.sender);
  }

  // ----- replies on their way to the source

  /** The hops of one reply: each hop is sent by the next hop of the one before,
      by a node other than the destination, until the source is the next hop. */
  ghost predicate ReplyTrail(net: Net, key: Key, trail: seq<Msg>) {
    && |trail| > 0
    && (forall k :: 0 <= k < |trail| ==> trail[k] in net.msgs && trail[k].Rrep? && (trail[k].ipdst, trail[k].bid) == key)
    && (forall k :: 0 < k < |trail| ==> FromIntermediate(trail[k], key) && trail[k].sender == trail[k - 1].nexthop)
    && (forall k :: 0 <= k < |trail| ==> (trail[k].nexthop == key.0 <==> k == |trail| - 1))
  }

  /** A node that relays a reply is the next hop of what it relays, is not the
      destination, and extends the trail of the same discovery. */
  lemma RelaysExtendTrails(n: Node, m: Msg, r: Msg)
    requires m.Rrep? && m.nexthop == n.id && r in RecvReply(n, m).sent
    ensures FromIntermediate(r, (m.ipdst, m.bid)) && r.sender == m.nexthop && r.dst == m.dst && n.id != m.ipdst
  {
    hide OfferForward, Advertise, FirstLast;
  }

  /** The intermediate nodes on the trail keep the id from state `from` on, in which they
      had not sent their hop of it yet. */
  ghost predicate TrailKeeps(nets: seq<Net>, from: nat, key: Key, trail: seq<Msg>)
    requires from < |nets|
  {
    forall k :: 0 <= k < |trail| && FromIntermediate(trail[k], key) ==>
      trail[k] !in nets[from].msgs && KeepsSince(nets, from, key, trail[k].sender)
  }

  /** Two replies of one discovery that reach the source and share an intermediate node
      are the same reply, whatever nodes off the trails do with the id. */
  lemma {:induction false} DiscoveredPathsAreNodeDisjoint(
      nets: seq<Net>, from: nat, key: Key, trail1: seq<Msg>, trail2: seq<Msg>, a: nat, b: nat)
    requires Run(nets) && from < |nets|
    requires ReplyTrail(nets[|nets| - 1], key, trail1) && ReplyTrail(nets[|nets| - 1], key, trail2)
    requires TrailKeeps(nets, from, key, trail1) && TrailKeeps(nets, from, key, trail2)
    requires a < |trail1| && b < |trail2|
    requires FromIntermediate(trail1[a], key) && FromIntermediate(trail2[b], key)
    requires trail1[a].sender == trail2[b].sender
    ensures trail1[|trail1| - 1] == trail2[|trail2| - 1]
    decreases |trail1| - a
  {
    OneReplyPerIntermediate(nets, from, key, trail1[a], trail2[b]);
    assert trail1[a].nexthop == key.0 <==> a == |trail1| - 1;
    assert trail2[b].nexthop == key.0 <==> b == |trail2| - 1;
    if a < |trail1| - 1 {
      assert FromIntermediate(trail1[a + 1], key) && trail1[a + 1].sender == trail1[a + 1 - 1].nexthop;
      assert FromIntermediate(trail2[b + 1], key) && trail2[b + 1].sender == trail2[b + 1 - 1].nexthop;
      DiscoveredPathsAreNodeDisjoint(nets, from, key, trail1, trail2, a + 1, b + 1);
    }
  }

  // ----- every reply in flight has come all the way from an answer

  predicate IsAnswerTo(q: Msg, r: Msg)
    requires q.Rreq? && r.Rrep?
  {
    q.src == r.ipdst && q.bid == r.bid && q.dst == r.dst && q.sender == r.nexthop
  }

  /** `r` answers a request in flight, back to the node that passed the request on. */
  ghost predicate Answers(msgs: set<Msg>, r: Msg)
    requires r.Rrep?
  {
    exists q :: q in msgs && q.Rreq? && IsAnswerTo(q, r)
  }

  /** `trail` leads from an answer to a request to the reply `r`: every hop after the
      first is sent by the next hop of the one before, an intermediate node. */
  ghost predicate TrailTo(msgs: set<Msg>, trail: seq<Msg>, r: Msg)
    requires r.Rrep?
  {
    && |trail| > 0 && trail[|trail| - 1] == r
    && (forall k :: 0 <= k < |trail| ==> Hop(msgs, trail, r, k))
    && trail[0].Rrep? && Answers(msgs, trail[0])
  }

  ghost predicate Hop(msgs: set<Msg>, trail: seq<Msg>, r: Msg, k: nat)
    requires r.Rrep? && k < |trail|
  {
    var h := trail[k];
    && h in msgs && h.Rrep? && h.ipdst == r.ipdst && h.bid == r.bid && h.dst == r.dst
    && (k > 0 ==> FromIntermediate(h, (r.ipdst, r.bid)) && trail[k - 1].Rrep?
                  && h.sender == trail[k - 1].nexthop != r.ipdst)
  }

  ghost predicate HasTrail(msgs: set<Msg>, r: Msg)
    requires r.Rrep?
  {
    exists trail :: TrailTo(msgs, trail, r)
  }

  ghost predicate AllHaveTrails(msgs: set<Msg>) {
    forall r :: r in msgs && r.Rrep? ==> HasTrail(msgs, r)
  }

  lemma TrailStays(msgs: set<Msg>, more: set<Msg>, r: Msg)
    requires r.Rrep? && HasTrail(msgs, r) && msgs <= more
    ensures HasTrail(more, r)
  {
    var trail :| TrailTo(msgs, trail, r);
    var q :| q in msgs && q.Rreq? && IsAnswerTo(q, trail[0]);
    hide IsAnswerTo, FromIntermediate;
    forall k | 0 <= k < |trail| ensures Hop(more, trail, r, k) {
      assert Hop(msgs, trail, r, k);
    }
    assert TrailTo(more, trail, r);
  }

  lemma AnswerStartsTrail(msgs: set<Msg>, q: Msg, r: Msg)
    requires q in msgs && r in msgs && q.Rreq? && r.Rrep? && IsAnswerTo(q, r)
    ensures HasTrail(msgs, r)
  {
    assert TrailTo(msgs, [r], r);
  }

  lemma RelayContinuesTrail(msgs: set<Msg>, m: Msg, r: Msg)
    requires r in msgs && m.Rrep? && HasTrail(msgs, m)
    requires FromIntermediate(r, (m.ipdst, m.bid)) && r.sender == m.nexthop != m.ipdst && r.dst == m.dst
    ensures HasTrail(msgs, r)
  {
    var trail :| TrailTo(msgs, trail, m);
    var longer := trail + [r];
    hide Answers;
    forall k | 0 <= k < |longer| ensures Hop(msgs, longer, r, k) {
      assert k < |trail| ==> Hop(msgs, trail, m, k);
    }
    assert longer[0] == trail[0];
    assert TrailTo(msgs, longer, r);
  }

  lemma RequestIsAnswered(n: Node, m: Msg, r: Msg)
    requires m.Rreq? && r in RecvRequest(n, m).sent && r.Rrep?
    ensures IsAnswerTo(m, r)
  {
    ReverseRouteKeepsUsed(n, m, (m.src, m.bid));
    hide ReverseRoute, Advertise, FirstLast, HopsOf, AnswerSeqno, Used;
  }

  /** Where a reply that a node sends comes from. */
  lemma RepliesComeFrom(n: Node, ev: Event, r: Msg)
    requires TableOk(n) && r in Handle(n, ev).sent && r.Rrep?
    ensures ev.Deliver? && (ev.m.Rreq? || ev.m.Rrep?)
    ensures ev.m.Rreq? ==> IsAnswerTo(ev.m, r)
    ensures ev.m.Rrep? ==> r in RecvReply(n, ev.m).sent
  {
    hide RecvRequest, ApplyErrors, PurgeAll, FailTable, Broken, EnsureEntry, WeighReply, OfferForward;
    match ev
    case Deliver(m) =>
      match m {
        case Rreq(_, _, _, _, _, _, _, _) => RequestIsAnswered(n, m, r);
        case Rrep(_, _, _, _, _, _, _, _) =>
        case Rerr(_, _) =>
        case Hello(_, _) =>
      }
    case Lost(nb) =>
    case Expire(gone, waiting) => PurgeKeepsSeen(n, n.order, gone, waiting);
    case Data(dst, source) =>
    case SayHello =>
    case ForgetIds(_) =>
  }

  lemma StepKeepsTrails(net: Net, net': Net, i: Addr, ev: Event)
    requires Inv(net) && AllHaveTrails(net.msgs) && StepBy(net, net', i, ev)
    ensures AllHaveTrails(net'.msgs)
  {
    hide HasTrail, IsAnswerTo, Handle, FromIntermediate;
    var n := net.nodes[i];
    assert n.id == i;
    hide Inv;
    forall r | r in net'.msgs && r.Rrep? ensures HasTrail(net'.msgs, r) {
      if r in net.msgs {
        TrailStays(net.msgs, net'.msgs, r);
      } else {
        assert r in Handle(n, ev).sent;
        RepliesComeFrom(n, ev, r);
        if ev.m.Rreq? {
          AnswerStartsTrail(net'.msgs, ev.m, r);
        } else {
          RelaysExtendTrails(n, ev.m, r);
          TrailStays(net.msgs, net'.msgs, ev.m);
          RelayContinuesTrail(net'.msgs, ev.m, r);
        }
      }
    }
  }

  /** In every reachable state each reply in flight ends a trail of replies that starts
      with an answer to a request for the same discovery. */
  lemma {:induction false} RepliesHaveTrails(nets: seq<Net>)
    requires Run(nets)
    ensures AllHaveTrails(nets[|nets| - 1].msgs)
  {
    if |nets| > 1 {
      hide Inv, AllHaveTrails, StepBy, Run;
      var k := |nets| - 2;
      RunUnfolds(nets);
      RunKeepsInv(nets[..k + 1]);
      RepliesHaveTrails(nets[..k + 1]);
      var i, ev :| StepBy(nets[k], nets[k + 1], i, ev);
      StepKeepsTrails(nets[k], nets[k + 1], i, ev);
    }
  }

  /** The intermediate nodes that have replied for the discovery keep the id from state
      `from` on, in which they had not replied yet. */
  ghost predicate RepliersKeep(nets: seq<Net>, from: nat, key: Key)
    requires from < |nets|
  {
    forall m :: m in nets[|nets| - 1].msgs && FromIntermediate(m, key) ==>
      m !in nets[from].msgs && KeepsSince(nets, from, key, m.sender)
  }

  /** No intermediate node sent a hop of both trails. */
  ghost predicate NodeDisjoint(key: Key, trail1: seq<Msg>, trail2: seq<Msg>) {
    forall a, b :: (0 <= a < |trail1| && 0 <= b < |trail2|
      && FromIntermediate(trail1[a], key) && FromIntermediate(trail2[b], key)) ==> trail1[a].sender != trail2[b].sender
  }

  lemma TrailReachesSource(nets: seq<Net>, from: nat, r: Msg, trail: seq<Msg>)
    requires from < |nets| && r.Rrep? && r.nexthop == r.ipdst && TrailTo(nets[|nets| - 1].msgs, trail, r)
    requires RepliersKeep(nets, from, (r.ipdst, r.bid))
    ensures ReplyTrail(nets[|nets| - 1], (r.ipdst, r.bid), trail)
    ensures TrailKeeps(nets, from, (r.ipdst, r.bid), trail)
  {
    var net, key := nets[|nets| - 1], (r.ipdst, r.bid);
    hide KeepsSince, Answers;
    forall k | 0 <= k < |trail|
      ensures trail[k] in net.msgs && trail[k].Rrep? && (trail[k].ipdst, trail[k].bid) == key
        && (trail[k].nexthop == key.0 <==> k == |trail| - 1)
    {
      assert Hop(net.msgs, trail, r, k);
      assert k < |trail| - 1 ==> Hop(net.msgs, trail, r, k + 1);
    }
    forall k | 0 < k < |trail| ensures FromIntermediate(trail[k], key) && trail[k].sender == trail[k - 1].nexthop {
      assert Hop(net.msgs, trail, r, k);
    }
    forall k | 0 <= k < |trail| && FromIntermediate(trail[k], key)
      ensures trail[k] !in nets[from].msgs && KeepsSince(nets, from, key, trail[k].sender)
    {
      assert trail[k] in net.msgs;
    }
  }

  /** Node-disjoint discovery, end to end: two different replies of one discovery that
      reach the source came over trails, each from an answer to the request, that share
      no intermediate node. */
  lemma DiscoveryIsNodeDisjoint(nets: seq<Net>, from: nat, r1: Msg, r2: Msg) returns (trail1: seq<Msg>, trail2: seq<Msg>)
    requires Run(nets) && from < |nets|
    requires r1 in nets[|nets| - 1].msgs && r1.Rrep? && r1.nexthop == r1.ipdst
    requires r2 in nets[|nets| - 1].msgs && r2.Rrep? && r2.nexthop == r2.ipdst
    requires (r1.ipdst, r1.bid) == (r2.ipdst, r2.bid) && r1 != r2
    requires RepliersKeep(nets, from, (r1.ipdst, r1.bid))
    ensures TrailTo(nets[|nets| - 1].msgs, trail1, r1) && TrailTo(nets[|nets| - 1].msgs, trail2, r2)
    ensures NodeDisjoint((r1.ipdst, r1.bid), trail1, trail2)
  {
    RepliesHaveTrails(nets);
    var msgs, key := nets[|nets| - 1].msgs, (r1.ipdst, r1.bid);
    hide Run, TrailTo, ReplyTrail, TrailKeeps, RepliersKeep;
    assert HasTrail(msgs, r1) && HasTrail(msgs, r2);
    trail1 :| TrailTo(msgs, trail1, r1);
    trail2 :| TrailTo(msgs, trail2, r2);
    TrailReachesSource(nets, from, r1, trail1);
    TrailReachesSource(nets, from, r2, trail2);
    TrailEnds(msgs, trail1, r1);
    TrailEnds(msgs, trail2, r2);
    forall a: nat, b: nat | a < |trail1| && b < |trail2| && FromIntermediate(trail1[a], key)
      && FromIntermediate(trail2[b], key) ensures trail1[a].sender != trail2[b].sender
    {
      if trail1[a].sender == trail2[b].sender {
        DiscoveredPathsAreNodeDisjoint(nets, from, key, trail1, trail2, a, b);
      }
    }
  }

  lemma TrailEnds(msgs: set<Msg>, trail: seq<Msg>, r: Msg)
    requires r.Rrep? && TrailTo(msgs, trail, r)
    ensures |trail| > 0 && trail[|trail| - 1] == r
  {
  }
}
