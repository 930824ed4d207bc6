/** What each AOMDV handler does to the state of one node, in the configuration
    of the source: node-disjoint paths, no link-layer detection.  The clock and
    the send buffer are parameters. */
module AomdvSpec {
  import opened Freshness

  /** INFINITY2 of the source: where path_get_min_hopcount starts. */
  const MAX_HOPS: nat := 255

  datatype Flags = Down | Up

  datatype Path = Path(nexthop: Addr, hops: nat, lasthop: Addr)

  datatype Entry = Entry(
    seqno: nat,
    advertised: Hops,
    paths: seq<Path>,
    numPaths: int,
    heard: nat,
    error: bool,
    flags: Flags)

  /** The two bound variables aomdv_max_paths_ and aomdv_prim_alt_path_len_diff_. */
  datatype Config = Config(maxPaths: int, lenDiff: int)

  /** `seen` maps a cached broadcast id to its `count`. */
  datatype Node = Node(
    id: Addr,
    cfg: Config,
    seqno: nat,
    bid: nat,
    order: seq<Addr>,
    rt: map<Addr, Entry>,
    seen: map<(Addr, nat), nat>,
    nbs: set<Addr>)

  datatype Msg =
    | Rreq(sender: Addr, hops: nat, bid: nat, dst: Addr, dstSeqno: nat, src: Addr, srcSeqno: nat, firstHop: Addr)
    | Rrep(sender: Addr, hops: nat, dst: Addr, dstSeqno: nat, ipdst: Addr, nexthop: Addr, bid: nat, firstHop: Addr)
    | Rerr(sender: Addr, unreachable: seq<(Addr, nat)>)
    | Hello(sender: Addr, seqno: nat)

  datatype Outcome = Outcome(node: Node, sent: seq<Msg>)

  const FRESH_ENTRY := Entry(0, Inf, [], 0, 0, false, Down)

  function InitNode(id: Addr, cfg: Config): Node {
    Node(id, cfg, 2, 1, [], map[], map[], {})
  }

  function EntryOf(n: Node, d: Addr): Entry {
    if d in n.rt then n.rt[d] else FRESH_ENTRY
  }

  function EnsureEntry(n: Node, d: Addr): Node {
    if d in n.rt then n else n.(order := [d] + n.order, rt := n.rt[d := FRESH_ENTRY])
  }

  // ----- path lists

  predicate HasNexthop(ps: seq<Path>, nh: Addr) {
    exists k :: 0 <= k < |ps| && ps[k].nexthop == nh
  }

  predicate HasLasthop(ps: seq<Path>, lh: Addr) {
    exists k :: 0 <= k < |ps| && ps[k].lasthop == lh
  }

  predicate HasPath(ps: seq<Path>, nh: Addr, lh: Addr) {
    exists k :: 0 <= k < |ps| && ps[k].nexthop == nh && ps[k].lasthop == lh
  }

  /** No path shares its next hop or its last hop with the new one. */
  predicate NewDisjoint(ps: seq<Path>, nh: Addr, lh: Addr) {
    !HasNexthop(ps, nh) && !HasLasthop(ps, lh)
  }

  /** The index of the first path with this last hop; the length if there is none. */
  function FirstLasthop(ps: seq<Path>, lh: Addr): (k: nat)
    ensures k <= |ps|
    ensures k < |ps| ==> ps[k].lasthop == lh
    ensures forall j :: 0 <= j < k ==> ps[j].lasthop != lh
  {
    if ps == [] then 0
    else if ps[0].lasthop == lh then 0
    else FirstLasthop(ps[1..], lh) + 1
  }

  /** Removes the first path over `nh`. */
  function WithoutNexthop(ps: seq<Path>, nh: Addr): seq<Path> {
    if ps == [] then []
    else if ps[0].nexthop == nh then ps[1..]
    else [ps[0]] + WithoutNexthop(ps[1..], nh)
  }

  /** Removes every path over one of `gone`; path_purge with the expired ones. */
  function WithoutAll(ps: seq<Path>, gone: set<Addr>): seq<Path> {
    if ps == [] then []
    else (if ps[0].nexthop in gone then [] else [ps[0]]) + WithoutAll(ps[1..], gone)
  }

  function LongestHops(ps: seq<Path>): nat {
    if ps == [] then 0 else Max(LongestHops(ps[..|ps| - 1]), ps[|ps| - 1].hops)
  }

  function MaxHops(ps: seq<Path>): Hops {
    if LongestHops(ps) == 0 then Inf else Fin(LongestHops(ps))
  }

  function MinHops(ps: seq<Path>): nat {
    if ps == [] then MAX_HOPS
    else
      var m := MinHops(ps[..|ps| - 1]);
      if ps[|ps| - 1].hops < m then ps[|ps| - 1].hops else m
  }

  // ----- route entries

  function AddPath(e: Entry, p: Path): Entry {
    e.(paths := e.paths + [p], numPaths := e.numPaths + 1)
  }

  /** A newer sequence number: forget the old paths and start with this one. */
  function Restart(e: Entry, seqno: nat, p: Path): Entry {
    AddPath(e.(seqno := seqno, advertised := Inf, paths := [], numPaths := 0, flags := Up), p)
  }

  function DropPath(e: Entry, nh: Addr): Entry {
    if HasNexthop(e.paths, nh) then
      e.(paths := WithoutNexthop(e.paths, nh), numPaths := e.numPaths - 1)
    else e
  }

  function TakeDown(e: Entry): Entry {
    if e.flags == Down then e else e.(flags := Down, advertised := Inf, paths := [], numPaths := 0)
  }

  /** The hop count the node tells others: fixed at the first advertisement. */
  function Advertise(e: Entry): Entry {
    if e.advertised == Inf then e.(advertised := MaxHops(e.paths)) else e
  }

  function HopsOf(h: Hops): nat {
    match h
    case Fin(n) => n
    case Inf => MAX_HOPS
  }

  function FirstLast(e: Entry): Addr {
    if e.paths == [] then 0 else e.paths[0].lasthop
  }

  // ----- offers of a path, as requests and replies make them

  /** The new path is not much longer than the shortest known one. */
  predicate SimilarLength(ps: seq<Path>, hops: nat, cfg: Config) {
    hops - MinHops(ps) <= cfg.lenDiff
  }

  function TryAdd(e: Entry, p: Path, cfg: Config): Entry {
    if e.numPaths < cfg.maxPaths && SimilarLength(e.paths, p.hops, cfg) then AddPath(e, p) else e
  }

  /** `Same(e)` says the offer refines the present generation of the entry. */
  predicate Refines(e: Entry, seqno: nat, hops: nat) {
    e.seqno == seqno && Fewer(Fin(hops), e.advertised)
  }

  datatype Verdict = Dropped | Kept(usable: bool)

  /** What a request does to the entry for its source, and whether it is dropped
      there; a kept request has a usable reverse path or not. */
  function OfferReverse(e: Entry, seqno: nat, p: Path, cfg: Config, forMe: bool): (Entry, Verdict)
    requires p.hops >= 1
  {
    if e.seqno < seqno then (Restart(e, seqno, p), Kept(true))
    else if !Refines(e, seqno, p.hops - 1) then (e, Dropped)
    else if HasPath(e.paths, p.nexthop, p.lasthop) then (e, Kept(true))
    else if NewDisjoint(e.paths, p.nexthop, p.lasthop) then
      var e1 := TryAdd(e, p, cfg);
      (e1, if SimilarLength(e1.paths, p.hops, cfg) then Kept(e1 != e) else Dropped)
    else
      var k := FirstLasthop(e.paths, p.lasthop);
      (e, if forMe && (k == |e.paths| || p.hops > e.paths[k].hops) then Dropped else Kept(false))
  }

  /** What a reply does to the entry for its destination, and whether it is dropped. */
  function OfferForward(e: Entry, seqno: nat, p: Path, cfg: Config): (Entry, bool)
    requires p.hops >= 1
  {
    if e.seqno < seqno then (Restart(e, seqno, p), false)
    else if !Refines(e, seqno, p.hops - 1) then (e, true)
    else if HasPath(e.paths, p.nexthop, p.lasthop) then (e, false)
    else if NewDisjoint(e.paths, p.nexthop, p.lasthop) && e.numPaths < cfg.maxPaths && SimilarLength(e.paths, p.hops, cfg)
    then (AddPath(e, p), false)
    else (e, true)
  }

  // ----- handlers

  function SendRequest(n: Node, d: Addr): Outcome
    requires d in n.rt
  {
    if n.rt[d].flags == Up then Outcome(n, [])
    else
      Outcome(n.(bid := n.bid + 1, seqno := n.seqno + 2),
              [Rreq(n.id, 0, n.bid, d, n.rt[d].seqno, n.id, n.seqno + 2, 0)])
  }

  function AnswerSeqno(own: nat, requested: nat): nat {
    var s := if own < requested then requested + 1 else own;
    if s % 2 == 1 then s + 1 else s
  }

  /** Caches the broadcast id of a request that was not known yet. */
  function Remember(n: Node, key: (Addr, nat)): Node {
    if key in n.seen then n else n.(seen := n.seen[key := 0])
  }

  function ReversePath(n: Node, m: Msg): Path
    requires m.Rreq?
  {
    Path(m.sender, m.hops + 1, if m.hops == 0 then n.id else m.firstHop)
  }

  /** The node after the reverse route has been dealt with, and the verdict. */
  function ReverseRoute(n: Node, m: Msg): (Node, Verdict)
    requires m.Rreq?
  {
    var n1 := EnsureEntry(Remember(n, (m.src, m.bid)), m.src);
    var (e, v) := OfferReverse(n1.rt[m.src], m.srcSeqno, ReversePath(n, m), n.cfg, m.dst == n.id);
    (n1.(rt := n1.rt[m.src := e]), v)
  }

  predicate CanAnswer(n: Node, m: Msg)
    requires m.Rreq?
  {
    m.dst in n.rt && n.rt[m.dst].flags == Up && n.rt[m.dst].seqno >= m.dstSeqno
  }

  function AnswerFromTable(n: Node, m: Msg, usable: bool): Outcome
    requires m.Rreq? && m.dst in n.rt
  {
    var key := (m.src, m.bid);
    if usable && key in n.seen && n.seen[key] == 0 then
      var e := Advertise(n.rt[m.dst]).(error := true);
      Outcome(n.(seen := n.seen[key := 1], rt := n.rt[m.dst := e]),
              [Rrep(n.id, HopsOf(e.advertised), m.dst, e.seqno, m.src, m.sender, m.bid, FirstLast(e))])
    else Outcome(n, [])
  }

  function RelayRequest(n: Node, m: Msg): Outcome
    requires m.Rreq? && m.src in n.rt
  {
    var e := Advertise(n.rt[m.src]);
    var s := if m.dst in n.rt then Max(n.rt[m.dst].seqno, m.dstSeqno) else m.dstSeqno;
    Outcome(n.(rt := n.rt[m.src := e]),
            [Rreq(n.id, HopsOf(e.advertised), m.bid, m.dst, s, m.src, m.srcSeqno, FirstLast(e))])
  }

  function AnswerAsDestination(n: Node, m: Msg): Outcome
    requires m.Rreq?
  {
    var s := AnswerSeqno(n.seqno, m.dstSeqno);
    Outcome(n.(seqno := s), [Rrep(n.id, 0, n.id, s, m.src, m.sender, m.bid, m.sender)])
  }

  function RecvRequest(n: Node, m: Msg): Outcome
    requires m.Rreq?
  {
    if m.src == n.id then Outcome(n, [])
    else
      var duplicate := (m.src, m.bid) in n.seen;
      var (n1, v) := ReverseRoute(n, m);
      if v == Dropped then Outcome(n1, [])
      else if m.dst == n.id then AnswerAsDestination(n1, m)
      else if CanAnswer(n1, m) then AnswerFromTable(n1, m, v.usable)
      else if duplicate then Outcome(n1, [])
      else RelayRequest(n1, m)
  }

  predicate CanRelayReply(n: Node, m: Msg)
    requires m.Rrep?
  {
    && m.ipdst in n.rt && n.rt[m.ipdst].flags == Up
    && (m.ipdst, m.bid) in n.seen && n.seen[(m.ipdst, m.bid)] == 0
  }

  function RelayReply(n: Node, m: Msg): Outcome
    requires m.Rrep? && m.dst in n.rt && CanRelayReply(n, m)
  {
    var back := n.rt[m.ipdst].paths;
    var e := Advertise(n.rt[m.dst]).(error := true);
    Outcome(n.(seen := n.seen[(m.ipdst, m.bid) := 1], rt := n.rt[m.dst := e]),
            [Rrep(n.id, HopsOf(e.advertised), m.dst, m.dstSeqno, m.ipdst, if back == [] then 0 else back[0].nexthop,
                  m.bid, FirstLast(e))])
  }

  function RecvReply(n: Node, m: Msg): Outcome
    requires m.Rrep?
  {
    if m.dst == n.id then Outcome(n, [])
    else
      var n1 := EnsureEntry(n, m.dst);
      var (e, dropped) := OfferForward(n1.rt[m.dst], m.dstSeqno, Path(m.sender, m.hops + 1, m.firstHop), n.cfg);
      var n2 := n1.(rt := n1.rt[m.dst := e]);
      if dropped || m.ipdst == n.id || !CanRelayReply(n2, m) then Outcome(n2, [])
      else RelayReply(n2, m)
  }

  /** A hello is handled as a reply of its sender about itself, for this node. */
  function HelloAsReply(n: Node, m: Msg): Msg
    requires m.Hello?
  {
    Rrep(m.sender, 0, m.sender, m.seqno, n.id, n.id, 0, n.id)
  }

  function RecvHello(n: Node, m: Msg): Outcome
    requires m.Hello?
  {
    RecvReply(n.(nbs := n.nbs + {m.sender}), HelloAsReply(n, m))
  }

  function AsError(id: Addr, items: seq<(Addr, nat)>): seq<Msg> {
    if items == [] then [] else [Rerr(id, items)]
  }

  predicate ErrorApplies(e: Entry, from: Addr, s: nat) {
    e.flags == Up && HasNexthop(e.paths, from) && e.seqno <= s
  }

  function HearError(e: Entry, from: Addr, s: nat): Entry {
    var e1 := DropPath(e, from);
    var e2 := e1.(heard := Max(e1.heard, s));
    if e2.paths == [] then TakeDown(e2.(seqno := e2.heard)).(error := false) else e2
  }

  function ApplyError(n: Node, from: Addr, item: (Addr, nat)): (Node, seq<(Addr, nat)>) {
    if item.0 !in n.rt || !ErrorApplies(n.rt[item.0], from, item.1) then (n, [])
    else
      var e := HearError(n.rt[item.0], from, item.1);
      (n.(rt := n.rt[item.0 := e]),
       if e.flags == Down && n.rt[item.0].error then [(item.0, e.seqno)] else [])
  }

  function ApplyErrors(n: Node, from: Addr, items: seq<(Addr, nat)>): (Node, seq<(Addr, nat)>) {
    if items == [] then (n, [])
    else
      var (n1, out1) := ApplyErrors(n, from, items[..|items| - 1]);
      var (n2, out2) := ApplyError(n1, from, items[|items| - 1]);
      (n2, out1 + out2)
  }

  function RecvError(n: Node, m: Msg): Outcome
    requires m.Rerr?
  {
    var (n1, items) := ApplyErrors(n, m.sender, m.unreachable);
    Outcome(n1, AsError(n.id, items))
  }

  predicate Uses(e: Entry, nb: Addr) {
    e.flags == Up && HasNexthop(e.paths, nb)
  }

  function FailEntry(e: Entry, nb: Addr): Entry {
    if !Uses(e, nb) then e
    else
      var e1 := DropPath(e, nb);
      if e1.paths == [] then TakeDown(e1.(seqno := Max(e1.seqno + 1, e1.heard), error := false)) else e1
  }

  /** The error item that the loss of `nb` adds for one entry. */
  function BrokenItem(e: Entry, d: Addr, nb: Addr): seq<(Addr, nat)> {
    var f := FailEntry(e, nb);
    if e.flags == Up && f.flags == Down && e.error then [(d, f.seqno)] else []
  }

  function Broken(rt: map<Addr, Entry>, order: seq<Addr>, nb: Addr): seq<(Addr, nat)> {
    if order == [] then []
    else
      var d := order[|order| - 1];
      Broken(rt, order[..|order| - 1], nb) + if d in rt then BrokenItem(rt[d], d, nb) else []
  }

  function FailTable(rt: map<Addr, Entry>, nb: Addr): map<Addr, Entry> {
    map d | d in rt :: FailEntry(rt[d], nb)
  }

  function LinkFailure(n: Node, nb: Addr): Outcome {
    Outcome(n.(rt := FailTable(n.rt, nb)), AsError(n.id, Broken(n.rt, n.order, nb)))
  }

  function NeighborLost(n: Node, nb: Addr): Outcome {
    LinkFailure(n.(seqno := n.seqno + 2, nbs := n.nbs - {nb}), nb)
  }

  /** One entry of rt_purge; `gone` are the next hops of its expired paths. */
  function ExpireEntry(e: Entry, gone: set<Addr>): Entry {
    if e.flags == Down then e
    else
      var ps := WithoutAll(e.paths, gone);
      var e1 := e.(paths := ps, numPaths := e.numPaths - (|e.paths| - |ps|));
      if ps != [] then e1
      else
        var s := Max(e1.seqno + 1, e1.heard);
        TakeDown(e1.(seqno := if s % 2 == 0 then s + 1 else s))
  }

  function PurgeOne(n: Node, d: Addr, gone: map<Addr, set<Addr>>, waiting: set<Addr>): Outcome
    requires d in n.rt
  {
    if n.rt[d].flags == Up then
      Outcome(n.(rt := n.rt[d := ExpireEntry(n.rt[d], if d in gone then gone[d] else {})]), [])
    else if d in waiting then SendRequest(n, d)
    else Outcome(n, [])
  }

  function PurgeAll(n: Node, ds: seq<Addr>, gone: map<Addr, set<Addr>>, waiting: set<Addr>): (o: Outcome)
    requires forall d :: d in ds ==> d in n.rt
    ensures o.node.rt.Keys == n.rt.Keys && o.node.order == n.order
  {
    if ds == [] then Outcome(n, [])
    else
      var o1 := PurgeAll(n, ds[..|ds| - 1], gone, waiting);
      var o2 := PurgeOne(o1.node, ds[|ds| - 1], gone, waiting);
      Outcome(o2.node, o1.sent + o2.sent)
  }

  ghost predicate TableOk(n: Node) {
    && (forall d :: d in n.rt <==> d in n.order)
    && (forall i, j :: 0 <= i < j < |n.order| ==> n.order[i] != n.order[j])
  }

  function Purge(n: Node, gone: map<Addr, set<Addr>>, waiting: set<Addr>): Outcome
    requires TableOk(n)
  {
    PurgeAll(n, n.order, gone, waiting)
  }

  /** A data packet from `source` to `d` looks for a route; forwarding it for
      another node sets the error flag of the entry. */
  function Resolve(n: Node, d: Addr, source: Addr): Outcome {
    var n1 := EnsureEntry(n, d);
    var e := n1.rt[d];
    if e.flags == Up then
      Outcome(n1.(rt := n1.rt[d := e.(error := e.error || source != n.id)]), [])
    else if source == n.id then SendRequest(n1, d)
    else Outcome(n1, [Rerr(n.id, [(d, e.seqno)])])
  }

  /** Hello messages are sent only while some route is up. */
  function SendHello(n: Node): Outcome {
    Outcome(n, if exists d :: d in n.rt && n.rt[d].flags == Up then [Hello(n.id, n.seqno)] else [])
  }

  function PurgeIds(n: Node, expired: set<(Addr, nat)>): Outcome {
    Outcome(n.(seen := n.seen - expired), [])
  }
}
