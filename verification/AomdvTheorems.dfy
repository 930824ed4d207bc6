/** What every run of an AOMDV network guarantees. */
module AomdvTheorems {
  import opened Freshness
  import opened AomdvSpec
  import opened AomdvEntries
  import opened AomdvNetwork

  function Last(nets: seq<Net>): Net
    requires |nets| > 0
  {
    nets[|nets| - 1]
  }

  /** The rank of an entry: its number and the hop count it advertises. */
  function RankOf(n: Node, d: Addr): Rank {
    Rank(EntryOf(n, d).seqno, EntryOf(n, d).advertised)
  }

  /** `i` has a stored path to `d` whose next hop is `j`. */
  ghost predicate Edge(net: Net, d: Addr, i: Addr, j: Addr) {
    i in net.nodes && exists p :: p in EntryOf(net.nodes[i], d).paths && p.nexthop == j
  }

  /** A walk over any stored paths towards `d`, stopping at `d`. */
  ghost predicate Walk(net: Net, d: Addr, walk: seq<Addr>) {
    forall k :: 0 <= k < |walk| - 1 ==> walk[k] != d && Edge(net, d, walk[k], walk[k + 1])
  }

  lemma EdgeClimbs(net: Net, d: Addr, i: Addr, j: Addr)
    requires Inv(net) && Edge(net, d, i, j)
    ensures i in net.nodes && j in net.nodes
    ensures j != d ==> Better(RankOf(net.nodes[j], d), RankOf(net.nodes[i], d))
  {
    var n := net.nodes[i];
    var p :| p in EntryOf(n, d).paths && p.nexthop == j;
    var o := Offer(j, d, EntryOf(n, d).seqno, p.hops - 1);
    assert PathOffered(net.msgs, d, EntryOf(n, d).seqno, p);
    assert Offered(net.msgs, o) && OfferHolds(net, o);
    EntryOfOk(n, d);
    var k :| 0 <= k < |EntryOf(n, d).paths| && EntryOf(n, d).paths[k] == p;
  }

  lemma NoCycleIn(net: Net, d: Addr, walk: seq<Addr>, i: nat, j: nat)
    requires Inv(net) && Walk(net, d, walk) && i < j < |walk| && walk[j] != d
    ensures walk[i] != walk[j]
  {
    hide Inv, Edge, RankOf, EntryOf, Better;
    var rank := (a: Addr) => if a in net.nodes then RankOf(net.nodes[a], d) else NO_INFO;
    forall k | 0 <= k < j ensures Better(rank(walk[k + 1]), rank(walk[k])) {
      assert walk[k + 1] != d by { assert k + 1 == j || walk[k + 1] != d; }
      assert Edge(net, d, walk[k], walk[k + 1]);
      EdgeClimbs(net, d, walk[k], walk[k + 1]);
    }
    ClimbingWalkIsSimple(walk, rank, i, j);
  }

  /** Multipath loop freedom: in every reachable state and for every destination
      the graph of the next hops of all stored paths at all nodes is acyclic. */
  lemma LoopFreedom(nets: seq<Net>, d: Addr, walk: seq<Addr>, i: nat, j: nat)
    requires Run(nets) && Walk(Last(nets), d, walk) && i < j < |walk|
    ensures walk[i] != walk[j]
  {
    assert walk[i] != d;
    RunKeepsInv(nets);
    hide Run, Inv;
    if walk[j] != d {
      NoCycleIn(Last(nets), d, walk, i, j);
    }
  }

  /** Entry well-formedness and the parity discipline, in every reachable state. */
  lemma EntriesWellFormed(nets: seq<Net>, i: Addr, d: Addr)
    requires Run(nets) && i in Last(nets).nodes && d in Last(nets).nodes[i].rt
    ensures var n := Last(nets).nodes[i];
      var e := n.rt[d];
      && (forall a, b :: 0 <= a < b < |e.paths| ==>
            e.paths[a].nexthop != e.paths[b].nexthop && e.paths[a].lasthop != e.paths[b].lasthop)
      && (forall k :: 0 <= k < |e.paths| && e.advertised.Fin? ==> e.paths[k].hops <= e.advertised.n)
      && e.numPaths == |e.paths|
      && (n.cfg.maxPaths >= 1 ==> |e.paths| <= n.cfg.maxPaths)
      && (e.flags == Up <==> e.paths != [])
      && (e.flags == Up ==> e.seqno >= 2 && e.seqno % 2 == 0)
      && (e.flags == Down ==> (e.seqno == 0 || e.seqno % 2 == 1) && e.advertised.Inf?)
      && n.seqno % 2 == 0
  {
    RunKeepsInv(nets);
    assert NodesOk(Last(nets));
    assert NodeOk(Last(nets).nodes[i]);
    assert EntryOk(Last(nets).nodes[i].rt[d], Last(nets).nodes[i].cfg);
  }

  /** One advertisement per number, over the whole run: all requests, replies and
      hellos ever sent by one node about one destination under one sequence number
      carry the same hop count. */
  lemma OneAdvertisementPerSeqno(nets: seq<Net>, m1: Msg, m2: Msg, o1: Offer, o2: Offer)
    requires Run(nets) && m1 in Last(nets).msgs && m2 in Last(nets).msgs
    requires IsOffer(m1, o1) && IsOffer(m2, o2)
    requires o1.from == o2.from && o1.dst == o2.dst && o1.seqno == o2.seqno
    ensures o1.hops == o2.hops
  {
    RunKeepsInv(nets);
    assert OneHopCount(Last(nets).msgs);
    assert Offered(Last(nets).msgs, o1) && Offered(Last(nets).msgs, o2);
  }

  /** The assertions on a duplicate path never fail: whenever a message repeats an
      offer under the number a node already stores, the entry is up, and every
      stored path over the sender has the hop count that the message implies. */
  lemma DuplicatePathsAgree(nets: seq<Net>, i: Addr, m: Msg, o: Offer)
    requires Run(nets) && i in Last(nets).nodes && m in Last(nets).msgs && IsOffer(m, o)
    requires EntryOf(Last(nets).nodes[i], o.dst).seqno == o.seqno
    ensures var e := EntryOf(Last(nets).nodes[i], o.dst);
      && e.flags == Up
      && (forall k :: 0 <= k < |e.paths| && e.paths[k].nexthop == o.from ==> e.paths[k].hops == o.hops + 1)
  {
    var net := Last(nets);
    RunKeepsInv(nets);
    var e := EntryOf(net.nodes[i], o.dst);
    assert MsgOk(m) && NodeOk(net.nodes[i]);
    EntryOfOk(net.nodes[i], o.dst);
    SameNumberIsUp(e, o.seqno, net.nodes[i].cfg);
    assert Offered(net.msgs, o);
    forall k | 0 <= k < |e.paths| && e.paths[k].nexthop == o.from ensures e.paths[k].hops == o.hops + 1 {
      var p := e.paths[k];
      assert p in e.paths;
      assert PathOffered(net.msgs, o.dst, e.seqno, p);
      assert SameSubject(o, Offer(p.nexthop, o.dst, e.seqno, p.hops - 1));
    }
  }

  /** Every stored path over the sender of an offer has the hop count it implies. */
  ghost predicate AgreesWith(e: Entry, from: Addr, seqno: nat, hops: nat) {
    e.seqno == seqno ==>
      forall k :: 0 <= k < |e.paths| && e.paths[k].nexthop == from ==> e.paths[k].hops == hops + 1
  }

  /** What the handlers may rely on when message `m` reaches node `n`. */
  ghost predicate Agrees(n: Node, m: Msg) {
    match m
    case Rreq(sender, hops, _, _, _, src, srcSeqno, _) => AgreesWith(EntryOf(n, src), sender, srcSeqno, hops)
    case Rrep(sender, hops, dst, dstSeqno, _, _, _, _) => AgreesWith(EntryOf(n, dst), sender, dstSeqno, hops)
    case Rerr(_, _) => true
    case Hello(sender, s) => AgreesWith(EntryOf(n, sender), sender, s, 0)
  }

  /** In a reachable state every message in flight may reach every node: the
      preconditions of the handlers of the agent are met. */
  lemma HandlersMayRun(nets: seq<Net>, i: Addr, m: Msg)
    requires Run(nets) && i in Last(nets).nodes && m in Last(nets).msgs
    ensures NodeOk(Last(nets).nodes[i]) && MsgOk(m) && Agrees(Last(nets).nodes[i], m)
  {
    RunKeepsInv(nets);
    forall o | IsOffer(m, o) ensures AgreesWith(EntryOf(Last(nets).nodes[i], o.dst), o.from, o.seqno, o.hops) {
      if EntryOf(Last(nets).nodes[i], o.dst).seqno == o.seqno {
        DuplicatePathsAgree(nets, i, m, o);
      }
    }
    match m {
      case Rreq(sender, hops, _, _, _, src, srcSeqno, _) => assert IsOffer(m, Offer(sender, src, srcSeqno, hops));
      case Rrep(sender, hops, dst, dstSeqno, _, _, _, _) => assert IsOffer(m, Offer(sender, dst, dstSeqno, hops));
      case Rerr(_, _) =>
      case Hello(sender, s) => assert IsOffer(m, Offer(sender, sender, s, 0));
    }
  }

  lemma MovesItself(n: Node)
    ensures Moves(n, n)
  {
  }

  lemma StepMoves(net: Net, net': Net, i: Addr)
    requires Inv(net) && Step(net, net') && i in net.nodes
    ensures i in net'.nodes && Moves(net.nodes[i], net'.nodes[i])
  {
    var j, ev :| StepBy(net, net', j, ev);
    StepSound(net, net', j, ev);
    MovesItself(net.nodes[i]);
    hide Moves;
  }

  lemma LastStepMoves(nets: seq<Net>, k: nat, i: Addr)
    requires Run(nets) && k < |nets| - 1 && i in nets[k].nodes
    requires var p := |nets| - 2;
      i in nets[p].nodes && Moves(nets[k].nodes[i], nets[p].nodes[i])
    ensures i in Last(nets).nodes && Moves(nets[k].nodes[i], Last(nets).nodes[i])
  {
    hide Moves, Inv, Run, Step;
    var p := |nets| - 2;
    RunUnfolds(nets);
    RunKeepsInv(nets[..p + 1]);
    StepMoves(nets[p], nets[p + 1], i);
    MovesComposes(nets[k].nodes[i], nets[p].nodes[i], nets[p + 1].nodes[i]);
  }

  /** Over a whole run the number of every entry never falls, and between two
      rises of it the advertised hop count, once set, never changes. */
  lemma {:induction false} AdvertisedHopsAreStable(nets: seq<Net>, k: nat, i: Addr)
    requires Run(nets) && k < |nets| && i in nets[k].nodes
    ensures i in Last(nets).nodes && Moves(nets[k].nodes[i], Last(nets).nodes[i])
    decreases |nets|
  {
    hide Moves, Run, Step;
    if k == |nets| - 1 {
      MovesItself(nets[k].nodes[i]);
    } else {
      RunUnfolds(nets);
      AdvertisedHopsAreStable(nets[..|nets| - 1], k, i);
      LastStepMoves(nets, k, i);
    }
  }

  /** Taking an entry down strictly raises its sequence number. */
  lemma InvalidationRaisesSeqno(nets: seq<Net>, i: Addr, ev: Event, next: Net, d: Addr)
    requires Run(nets) && StepBy(Last(nets), next, i, ev)
    requires EntryOf(Last(nets).nodes[i], d).flags == Up && EntryOf(next.nodes[i], d).flags == Down
    ensures EntryOf(Last(nets).nodes[i], d).seqno < EntryOf(next.nodes[i], d).seqno
  {
    RunKeepsInv(nets);
    StepSound(Last(nets), next, i, ev);
    var n, n' := Last(nets).nodes[i], next.nodes[i];
    assert NodeOk(n) && NodeOk(n') && Moves(n, n');
    EntryOfOk(n, d);
    EntryOfOk(n', d);
    assert Evolves(EntryOf(n, d), EntryOf(n', d));
  }
}
