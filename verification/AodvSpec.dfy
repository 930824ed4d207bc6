/** What each AODV handler does to the state of one node, as functions from
    the state and the input to the new state and the messages sent.
    The clock and the send buffer are parameters. */
module AodvSpec {
  import opened Freshness

  datatype Flags = Down | InRepair | Up

  datatype Entry = Entry(seqno: nat, hops: Hops, nexthop: Addr, flags: Flags, precursors: set<Addr>)

  /** `order` lists the destinations of the routing table from the head of the
      linked list (newest first); `rt` gives their entries. */
  datatype Node = Node(
    id: Addr,
    seqno: nat,
    bid: nat,
    order: seq<Addr>,
    rt: map<Addr, Entry>,
    seen: set<(Addr, nat)>,
    nbs: set<Addr>)

  datatype Msg =
    | Rreq(sender: Addr, hops: nat, bid: nat, dst: Addr, dstSeqno: nat, src: Addr, srcSeqno: nat)
    | Rrep(sender: Addr, hops: nat, dst: Addr, dstSeqno: nat, ipdst: Addr, nexthop: Addr)
    | Rerr(sender: Addr, unreachable: seq<(Addr, nat)>)
    | Hello(sender: Addr, seqno: nat)

  datatype Outcome = Outcome(node: Node, sent: seq<Msg>)

  const FRESH_ENTRY := Entry(0, Inf, 0, Down, {})

  function InitNode(id: Addr): Node {
    Node(id, 2, 1, [], map[], {}, {})
  }

  function EntryRank(e: Entry): Rank {
    Rank(e.seqno, e.hops)
  }

  /** What a node knows about a destination; nothing when it has no entry. */
  function RankOf(n: Node, d: Addr): Rank {
    if d in n.rt then EntryRank(n.rt[d]) else NO_INFO
  }

  function EnsureEntry(n: Node, d: Addr): Node {
    if d in n.rt then n else n.(order := [d] + n.order, rt := n.rt[d := FRESH_ENTRY])
  }

  function Update(e: Entry, seqno: nat, hops: nat, nexthop: Addr): Entry {
    e.(seqno := seqno, hops := Fin(hops), flags := Up, nexthop := nexthop)
  }

  function TakeDown(e: Entry): Entry {
    if e.flags == Down then e else e.(hops := Inf, flags := Down, nexthop := 0)
  }

  function AddPrecursor(n: Node, d: Addr, p: Addr): Node
    requires d in n.rt
  {
    n.(rt := n.rt[d := n.rt[d].(precursors := n.rt[d].precursors + {p})])
  }

  // ----- route requests

  function SendRequest(n: Node, d: Addr): Outcome
    requires d in n.rt
  {
    if n.rt[d].flags == Up then Outcome(n, [])
    else
      Outcome(n.(bid := n.bid + 1, seqno := n.seqno + 2),
              [Rreq(n.id, 1, n.bid, d, n.rt[d].seqno, n.id, n.seqno + 2)])
  }

  /** The part of recvRequest that caches the broadcast id and puts the reverse
      route to the source of the request into the table. */
  function ReverseRoute(n: Node, m: Msg): Node
    requires m.Rreq?
  {
    var n1 := EnsureEntry(n.(seen := n.seen + {(m.src, m.bid)}), m.src);
    var e := n1.rt[m.src];
    if Better(Rank(m.srcSeqno, Fin(m.hops)), EntryRank(e)) then
      n1.(rt := n1.rt[m.src := Update(e, m.srcSeqno, m.hops, m.sender)])
    else n1
  }

  /** The sequence number the destination answers with: above its own and the
      requested one, and even. */
  function BumpSeqno(own: nat, requested: nat): nat {
    var s := Max(own, requested) + 1;
    if s % 2 == 1 then s + 1 else s
  }

  predicate CanAnswer(n: Node, m: Msg)
    requires m.Rreq?
  {
    m.dst in n.rt && n.rt[m.dst].hops.Fin? && n.rt[m.dst].seqno >= m.dstSeqno
  }

  function RecvRequest(n: Node, m: Msg): Outcome
    requires m.Rreq?
  {
    if m.src == n.id || (m.src, m.bid) in n.seen then Outcome(n, [])
    else
      var n1 := ReverseRoute(n, m);
      var back := n1.rt[m.src].nexthop;
      if m.dst == n.id then
        var s := BumpSeqno(n1.seqno, m.dstSeqno);
        Outcome(n1.(seqno := s), [Rrep(n.id, 1, n.id, s, m.src, back)])
      else if CanAnswer(n1, m) then
        var e := n1.rt[m.dst];
        var n2 := AddPrecursor(n1, m.dst, back);
        Outcome(AddPrecursor(n2, m.src, e.nexthop),
                [Rrep(n.id, e.hops.n + 1, m.dst, e.seqno, m.src, back)])
      else
        var s := if m.dst in n1.rt then Max(n1.rt[m.dst].seqno, m.dstSeqno) else m.dstSeqno;
        Outcome(n1, [Rreq(n.id, m.hops + 1, m.bid, m.dst, s, m.src, m.srcSeqno)])
  }

  // ----- route replies

  function RecvReply(n: Node, m: Msg): Outcome
    requires m.Rrep?
  {
    var n1 := EnsureEntry(n, m.dst);
    var e := n1.rt[m.dst];
    if !Better(Rank(m.dstSeqno, Fin(m.hops)), EntryRank(e)) then Outcome(n1, [])
    else
      var n2 := n1.(rt := n1.rt[m.dst := Update(e, m.dstSeqno, m.hops, m.sender)]);
      if m.ipdst == n.id || m.ipdst !in n2.rt || n2.rt[m.ipdst].hops.Inf? then Outcome(n2, [])
      else
        var back := n2.rt[m.ipdst].nexthop;
        Outcome(AddPrecursor(n2, m.dst, back),
                [Rrep(n.id, m.hops + 1, m.dst, m.dstSeqno, m.ipdst, back)])
  }

  // ----- route errors

  function AsError(id: Addr, items: seq<(Addr, nat)>): seq<Msg> {
    if items == [] then [] else [Rerr(id, items)]
  }

  predicate ErrorApplies(n: Node, from: Addr, item: (Addr, nat)) {
    item.0 in n.rt && n.rt[item.0].hops.Fin? && n.rt[item.0].nexthop == from && n.rt[item.0].seqno <= item.1
  }

  /** One unreachable destination of a received error; the pair is the new
      node and the items this adds to the error that is passed on. */
  function ApplyError(n: Node, from: Addr, item: (Addr, nat)): (Node, seq<(Addr, nat)>) {
    if !ErrorApplies(n, from, item) then (n, [])
    else
      var e := TakeDown(n.rt[item.0].(seqno := item.1));
      (n.(rt := n.rt[item.0 := e.(precursors := {})]), if e.precursors == {} then [] else [item])
  }

  function ApplyErrors(n: Node, from: Addr, items: seq<(Addr, nat)>): (Node, seq<(Addr, nat)>) {
    if items == [] then (n, [])
    else
      var (n1, out1) := ApplyErrors(n, from, items[..|items| - 1]);
      var (n2, out2) := ApplyError(n1, from, items[|items| - 1]);
      (n2, out1 + out2)
  }

  function RecvError(n: Node, m: Msg): Outcome
    requires m.Rerr?
  {
    var (n1, items) := ApplyErrors(n, m.sender, m.unreachable);
    Outcome(n1, AsError(n.id, items))
  }

  // ----- neighbour loss, route expiry, data packets without a route

  predicate Uses(e: Entry, nb: Addr) {
    e.hops.Fin? && e.nexthop == nb
  }

  function FailEntry(e: Entry, nb: Addr): Entry {
    var e1 := if Uses(e, nb) then TakeDown(e.(seqno := e.seqno + 1)) else e;
    e1.(precursors := e1.precursors - {nb})
  }

  /** The destinations of `order` that were routed over `nb`, with the
      sequence numbers they get. */
  function Broken(rt: map<Addr, Entry>, order: seq<Addr>, nb: Addr): seq<(Addr, nat)> {
    if order == [] then []
    else
      var d := order[|order| - 1];
      Broken(rt, order[..|order| - 1], nb) + if d in rt && Uses(rt[d], nb) then [(d, rt[d].seqno + 1)] else []
  }

  ghost predicate TableOk(n: Node) {
    && (forall d :: d in n.rt <==> d in n.order)
    && (forall i, j :: 0 <= i < j < |n.order| ==> n.order[i] != n.order[j])
  }

  function FailTable(rt: map<Addr, Entry>, nb: Addr): map<Addr, Entry> {
    map d | d in rt :: FailEntry(rt[d], nb)
  }

  function LinkFailure(n: Node, nb: Addr): Outcome
    requires TableOk(n)
  {
    Outcome(n.(rt := FailTable(n.rt, nb)), AsError(n.id, Broken(n.rt, n.order, nb)))
  }

  function NeighborLost(n: Node, nb: Addr): Outcome
    requires TableOk(n)
  {
    LinkFailure(n.(seqno := n.seqno + 2, nbs := n.nbs - {nb}), nb)
  }

  /** One entry of rt_purge: an expired live route is invalidated; for a dead
      one with buffered packets a new request goes out. */
  function PurgeOne(n: Node, d: Addr, expired: set<Addr>, waiting: set<Addr>): Outcome
    requires d in n.rt
  {
    var e := n.rt[d];
    if e.flags == Up && d in expired then
      Outcome(n.(rt := n.rt[d := TakeDown(e.(seqno := e.seqno + 1))]), [])
    else if e.flags != Up && d in waiting then SendRequest(n, d)
    else Outcome(n, [])
  }

  function PurgeAll(n: Node, ds: seq<Addr>, expired: set<Addr>, waiting: set<Addr>): (o: Outcome)
    requires forall d :: d in ds ==> d in n.rt
    ensures o.node.rt.Keys == n.rt.Keys && o.node.order == n.order
  {
    if ds == [] then Outcome(n, [])
    else
      var o1 := PurgeAll(n, ds[..|ds| - 1], expired, waiting);
      var o2 := PurgeOne(o1.node, ds[|ds| - 1], expired, waiting);
      Outcome(o2.node, o1.sent + o2.sent)
  }

  function Purge(n: Node, expired: set<Addr>, waiting: set<Addr>): Outcome
    requires TableOk(n)
  {
    PurgeAll(n, n.order, expired, waiting)
  }

  /** A data packet from `source` to `d` looks for a route. */
  function Resolve(n: Node, d: Addr, source: Addr): Outcome {
    var n1 := EnsureEntry(n, d);
    var e := n1.rt[d];
    if e.flags == Up then Outcome(n1, [])
    else if source == n.id then SendRequest(n1, d)
    else if e.flags == InRepair then Outcome(n1, [])
    else Outcome(n1, [Rerr(n.id, [(d, e.seqno)])])
  }

  // ----- local repair

  /** local_rt_repair: the broken route is marked, its number and hop count stay, and a
      new request goes out. */
  function StartRepair(n: Node, d: Addr): Outcome
    requires d in n.rt
  {
    SendRequest(n.(rt := n.rt[d := n.rt[d].(flags := InRepair)]), d)
  }

  /** rt_ll_failed: the link to `nb` broke under a data packet to `d` that had been
      forwarded `forwards` times.  Closer to the destination than to the source the
      route is repaired, else the neighbour is given up. */
  function LinkLayerFailed(n: Node, d: Addr, nb: Addr, forwards: nat): Outcome
    requires TableOk(n)
  {
    if d !in n.rt then Outcome(n, [])
    else if n.rt[d].hops.Fin? && forwards > n.rt[d].hops.n then StartRepair(n, d)
    else NeighborLost(n, nb)
  }

  /** The repair timer: a route that is not up is taken down, with the number it has. */
  function RepairTimer(n: Node, d: Addr): Outcome {
    if d in n.rt && n.rt[d].flags != Up then Outcome(n.(rt := n.rt[d := TakeDown(n.rt[d])]), [])
    else Outcome(n, [])
  }

  /** No route is under repair. */
  ghost predicate Settled(n: Node) {
    forall d :: d in n.rt ==> n.rt[d].flags != InRepair
  }

  // ----- routes under repair where a handler asserts that a route is up

  /** The reply is relayed back over a route under repair. */
  predicate ReplyMeetsRepair(n: Node, m: Msg)
    requires m.Rrep?
  {
    && Better(Rank(m.dstSeqno, Fin(m.hops)), RankOf(n, m.dst))
    && m.ipdst != n.id && m.ipdst != m.dst && m.ipdst in n.rt && n.rt[m.ipdst].flags == InRepair
  }

  predicate ErrorMeetsRepair(n: Node, from: Addr, item: (Addr, nat)) {
    ErrorApplies(n, from, item) && n.rt[item.0].flags == InRepair
  }

  predicate LossMeetsRepair(n: Node, nb: Addr) {
    exists d :: d in n.rt && n.rt[d].flags == InRepair && n.rt[d].nexthop == nb
  }

  // ----- hello messages and the broadcast id cache

  function SendHello(n: Node): Outcome {
    Outcome(n, [Hello(n.id, n.seqno)])
  }

  function RecvHello(n: Node, m: Msg): Outcome
    requires m.Hello?
  {
    if m.sender in n.nbs then Outcome(n, [])
    else Outcome(n.(nbs := n.nbs + {m.sender}, seqno := n.seqno + 2), [])
  }

  function PurgeIds(n: Node, expired: set<(Addr, nat)>): Outcome {
    Outcome(n.(seen := n.seen - expired), [])
  }
}
