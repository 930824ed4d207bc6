/** What each AOMDV handler stores, decides and sends, in the fields of paths, entries and
    messages. */
module AomdvHandlers {
  import opened Freshness
  import opened AomdvSpec
  import opened AomdvEntries
  import opened AomdvNetwork
  import opened AomdvRtable

  // ----- offered paths

  /** The offer is shorter than what the entry advertises under the same number. */
  predicate Shorter(e: Entry, seqno: nat, p: Path) {
    seqno == e.seqno && (e.advertised.Fin? ==> p.hops <= e.advertised.n)
  }

  /** The path is stored already, as far as its two hops tell. */
  ghost predicate Stored(ps: seq<Path>, p: Path) {
    exists k :: 0 <= k < |ps| && ps[k].nexthop == p.nexthop && ps[k].lasthop == p.lasthop
  }

  /** No stored path shares its first node or its last intermediate node. */
  ghost predicate Apart(ps: seq<Path>, p: Path) {
    forall k :: 0 <= k < |ps| ==> ps[k].nexthop != p.nexthop && ps[k].lasthop != p.lasthop
  }

  /** Not more than `lenDiff` longer than any stored path, or than 255 hops. */
  ghost predicate Similar(ps: seq<Path>, p: Path, cfg: Config) {
    p.hops - 255 <= cfg.lenDiff && forall k :: 0 <= k < |ps| ==> p.hops - ps[k].hops <= cfg.lenDiff
  }

  ghost predicate HasRoom(e: Entry, p: Path, cfg: Config) {
    |e.paths| < cfg.maxPaths && Similar(e.paths, p, cfg)
  }

  /** The entry after an offer: a newer number leaves just the offered path; under the same
      number it is appended if it is shorter than advertised, apart from the stored ones,
      and there is room for it; otherwise nothing changes. */
  ghost predicate TakesPath(e: Entry, e': Entry, seqno: nat, p: Path, cfg: Config) {
    if seqno > e.seqno then
      && e'.paths == [p] && e'.numPaths == 1 && e'.seqno == seqno && e'.flags == Up && e'.advertised == Inf
      && e'.heard == e.heard && e'.error == e.error
    else if Shorter(e, seqno, p) && Apart(e.paths, p) && HasRoom(e, p, cfg) then
      e' == e.(paths := e.paths + [p], numPaths := |e.paths| + 1)
    else e' == e
  }

  /** A reply goes on with its path if that is new or stored. */
  ghost predicate GoesOn(e: Entry, seqno: nat, p: Path, cfg: Config) {
    || seqno > e.seqno
    || (Shorter(e, seqno, p) && (Stored(e.paths, p) || (Apart(e.paths, p) && HasRoom(e, p, cfg))))
  }

  /** A request gives a path back to its source to answer along, under the same condition. */
  ghost predicate GivesWayBack(e: Entry, seqno: nat, p: Path, cfg: Config) {
    || seqno > e.seqno
    || (Shorter(e, seqno, p) && (Stored(e.paths, p) || (Apart(e.paths, p) && HasRoom(e, p, cfg) && cfg.lenDiff >= 0)))
  }

  /** A request is dropped if it is older, not shorter, or too long to be of use; at its
      destination also if it shares no last hop, or only that of a shorter path. */
  ghost predicate DroppedThere(e: Entry, seqno: nat, p: Path, cfg: Config, forMe: bool) {
    && seqno <= e.seqno
    && (if !Shorter(e, seqno, p) then true
        else if Stored(e.paths, p) then false
        else if Apart(e.paths, p) then !Similar(e.paths, p, cfg) || (|e.paths| < cfg.maxPaths && cfg.lenDiff < 0)
        else forMe && forall k :: 0 <= k < |e.paths| && e.paths[k].lasthop == p.lasthop ==> p.hops > e.paths[k].hops)
  }

  lemma {:induction false} ShortestIs(ps: seq<Path>, h: int)
    ensures MinHops(ps) >= h <==> h <= 255 && forall k :: 0 <= k < |ps| ==> ps[k].hops >= h
  {
    if ps != [] {
      var init := ps[..|ps| - 1];
      ShortestIs(init, h);
      assert forall k :: 0 <= k < |init| ==> init[k] == ps[k];
    }
  }

  lemma SimilarIs(ps: seq<Path>, p: Path, cfg: Config)
    ensures SimilarLength(ps, p.hops, cfg) <==> Similar(ps, p, cfg)
  {
    ShortestIs(ps, p.hops - cfg.lenDiff);
  }

  lemma ApartIs(ps: seq<Path>, p: Path)
    ensures HasPath(ps, p.nexthop, p.lasthop) <==> Stored(ps, p)
    ensures NewDisjoint(ps, p.nexthop, p.lasthop) <==> Apart(ps, p)
  {
  }

  /** What a reply does to the entry for its destination, and whether it goes on. */
  lemma ForwardOfferIs(e: Entry, seqno: nat, p: Path, cfg: Config)
    requires EntryOk(e, cfg) && LiveSeqno(seqno) && p.hops >= 1
    ensures var (e', dropped) := OfferForward(e, seqno, p, cfg);
      TakesPath(e, e', seqno, p, cfg) && (dropped <==> !GoesOn(e, seqno, p, cfg))
  {
    hide HasPath, NewDisjoint, Apart, Stored, SimilarLength, Similar;
    SimilarIs(e.paths, p, cfg);
    ApartIs(e.paths, p);
    StoredIsNotApart(e.paths, p);
  }

  lemma StoredIsNotApart(ps: seq<Path>, p: Path)
    ensures !(Stored(ps, p) && Apart(ps, p))
  {
  }

  lemma FirstLasthopIs(ps: seq<Path>, p: Path)
    requires Disjoint(ps)
    ensures var k := FirstLasthop(ps, p.lasthop);
      (k == |ps| || p.hops > ps[k].hops)
      <==> forall k :: 0 <= k < |ps| && ps[k].lasthop == p.lasthop ==> p.hops > ps[k].hops
  {
    var k := FirstLasthop(ps, p.lasthop);
    assert forall i, j :: 0 <= i < j < |ps| ==> ps[i].lasthop != ps[j].lasthop;
    assert forall j :: 0 <= j < |ps| && ps[j].lasthop == p.lasthop ==> j == k;
  }

  lemma AddedIsSimilar(ps: seq<Path>, p: Path, cfg: Config)
    requires Similar(ps, p, cfg)
    ensures Similar(ps + [p], p, cfg) <==> cfg.lenDiff >= 0
  {
    assert (ps + [p])[|ps|] == p;
  }

  /** What a request does to the entry for its source, and whether it is dropped there. */
  lemma ReverseOfferIs(e: Entry, seqno: nat, p: Path, cfg: Config, forMe: bool)
    requires EntryOk(e, cfg) && LiveSeqno(seqno) && p.hops >= 1
    ensures var (e', v) := OfferReverse(e, seqno, p, cfg, forMe);
      && TakesPath(e, e', seqno, p, cfg)
      && (v == Dropped <==> DroppedThere(e, seqno, p, cfg, forMe))
      && (v == Kept(true) <==> GivesWayBack(e, seqno, p, cfg))
  {
    hide HasPath, NewDisjoint, Apart, Stored, SimilarLength, Similar, FirstLasthop, Disjoint;
    SimilarIs(e.paths, p, cfg);
    SimilarIs(e.paths + [p], p, cfg);
    ApartIs(e.paths, p);
    StoredIsNotApart(e.paths, p);
    FirstLasthopIs(e.paths, p);
    if Similar(e.paths, p, cfg) {
      AddedIsSimilar(e.paths, p, cfg);
    }
  }

  // ----- what is advertised

  /** The hop count of an entry is fixed once, as that of its longest path. */
  ghost predicate Fixes(e: Entry, e': Entry) {
    && e' == e.(advertised := e'.advertised, error := e'.error)
    && if e.advertised.Fin? then e'.advertised == e.advertised
       else
         && e'.advertised.Fin?
         && (forall k :: 0 <= k < |e.paths| ==> e.paths[k].hops <= e'.advertised.n)
         && exists k :: 0 <= k < |e.paths| && e.paths[k].hops == e'.advertised.n
  }

  lemma AdvertiseFixes(e: Entry, cfg: Config)
    requires EntryOk(e, cfg) && e.flags == Up
    ensures Fixes(e, Advertise(e)) && Advertise(e).error == e.error
    ensures Advertise(e).advertised.Fin? && e.paths != []
  {
    LongestHopsBounds(e.paths);
    assert e.paths[0].hops >= 1;
  }

  // ----- requests

  /** The path back that a request offers; its first relay is the last hop of the path. */
  function WayBack(n: Node, m: Msg): Path
    requires m.Rreq?
  {
    Path(m.sender, m.hops + 1, if m.hops == 0 then n.id else m.firstHop)
  }

  /** The entry for `d`, if there is none one without paths. */
  function Known(n: Node, d: Addr): Entry {
    if d in n.rt then n.rt[d] else Entry(0, Inf, [], 0, 0, false, Down)
  }

  /** From `n` to `n'` only the cached ids and the entry for `d` may have changed. */
  ghost predicate OnlyEntry(n: Node, n': Node, d: Addr) {
    && n' == n.(order := n'.order, rt := n'.rt, seen := n'.seen)
    && n'.rt.Keys == n.rt.Keys + {d}
    && forall x :: x in n.rt && x != d ==> n'.rt[x] == n.rt[x]
  }

  /** After the way back has been weighed. */
  ghost predicate Weighed(n: Node, n1: Node, m: Msg)
    requires m.Rreq?
  {
    && OnlyEntry(n, n1, m.src)
    && n1.seen == (if (m.src, m.bid) in n.seen then n.seen else n.seen[(m.src, m.bid) := 0])
    && TakesPath(Known(n, m.src), n1.rt[m.src], m.srcSeqno, WayBack(n, m), n.cfg)
  }

  predicate Foreign(n: Node, m: Msg)
    requires m.Rreq?
  {
    m.src != n.id
  }

  ghost predicate IsDropped(n: Node, m: Msg)
    requires m.Rreq?
  {
    DroppedThere(Known(n, m.src), m.srcSeqno, WayBack(n, m), n.cfg, m.dst == n.id)
  }

  ghost predicate IsUsable(n: Node, m: Msg)
    requires m.Rreq?
  {
    GivesWayBack(Known(n, m.src), m.srcSeqno, WayBack(n, m), n.cfg)
  }

  lemma RequestIsWeighed(n: Node, m: Msg)
    requires NodeOk(n) && MsgOk(m) && m.Rreq?
    ensures var (n1, v) := ReverseRoute(n, m);
      && Weighed(n, n1, m) && NodeOk(n1)
      && (v == Dropped <==> IsDropped(n, m)) && (v == Kept(true) <==> IsUsable(n, m))
      && (v != Dropped ==> n1.rt[m.src].flags == Up)
  {
    hide OfferReverse, ReverseRoute, TakesPath, DroppedThere, GivesWayBack, NodeOk, EntryOk, Known, WayBack;
    KnownIsOk(n, m);
    ReverseOfferIs(Known(n, m.src), m.srcSeqno, WayBack(n, m), n.cfg, m.dst == n.id);
    WeighingShape(n, m);
    WeighingKeepsOk(n, m);
  }

  lemma KnownIsOk(n: Node, m: Msg)
    requires NodeOk(n) && MsgOk(m) && m.Rreq?
    ensures EntryOk(Known(n, m.src), n.cfg) && LiveSeqno(m.srcSeqno) && WayBack(n, m).hops >= 1
  {
    EntryOfOk(n, m.src);
  }

  lemma WeighingShape(n: Node, m: Msg)
    requires m.Rreq? && WayBack(n, m).hops >= 1
    ensures var (n1, v) := ReverseRoute(n, m);
      var (e, u) := OfferReverse(Known(n, m.src), m.srcSeqno, WayBack(n, m), n.cfg, m.dst == n.id);
      && v == u && OnlyEntry(n, n1, m.src) && n1.rt[m.src] == e
      && n1.seen == (if (m.src, m.bid) in n.seen then n.seen else n.seen[(m.src, m.bid) := 0])
  {
    hide OfferReverse;
  }

  lemma WeighingKeepsOk(n: Node, m: Msg)
    requires NodeOk(n) && MsgOk(m) && m.Rreq?
    ensures var (n1, v) := ReverseRoute(n, m);
      NodeOk(n1) && m.src in n1.rt && (v != Dropped ==> n1.rt[m.src].flags == Up)
  {
    hide ReverseRoute;
    ReverseRouteSound(n, m);
  }

  /** A request of the node itself is ignored. */
  lemma OwnRequestIsIgnored(n: Node, m: Msg)
    requires m.Rreq? && m.src == n.id
    ensures RecvRequest(n, m) == Outcome(n, [])
  {
  }

  /** A request that gives no better way back is dropped. */
  lemma RequestIsDropped(n: Node, m: Msg)
    requires NodeOk(n) && MsgOk(m) && m.Rreq? && m.src != n.id && IsDropped(n, m)
    ensures var o := RecvRequest(n, m);
      Weighed(n, o.node, m) && o.sent == []
  {
    hide RecvRequest, ReverseRoute, NodeOk, TakesPath, IsDropped, IsUsable;
    RequestIsWeighed(n, m);
    RequestShape(n, m);
  }

  /** The own number, or if the requested one is larger the least even one above that. */
  predicate AnswerNumber(s: nat, own: nat, asked: nat) {
    s % 2 == 0 && if own >= asked then s == own else asked < s <= asked + 2
  }

  /** The destination answers every kept request back to the node it came from. */
  lemma TargetReplies(n: Node, m: Msg)
    requires NodeOk(n) && MsgOk(m) && m.Rreq? && m.src != n.id && !IsDropped(n, m) && m.dst == n.id
    ensures var o := RecvRequest(n, m);
      && Weighed(n, o.node.(seqno := n.seqno), m) && AnswerNumber(o.node.seqno, n.seqno, m.dstSeqno)
      && o.sent == [Rrep(n.id, 0, n.id, o.node.seqno, m.src, m.sender, m.bid, m.sender)]
  {
    hide RecvRequest, ReverseRoute, NodeOk, TakesPath, IsDropped, IsUsable, Known, WayBack;
    OwnNumberIsEven(n);
    RequestIsWeighed(n, m);
    RequestShape(n, m);
  }

  lemma OwnNumberIsEven(n: Node)
    requires NodeOk(n)
    ensures n.seqno % 2 == 0
  {
  }

  /** recvRequest in two parts. */
  lemma RequestShape(n: Node, m: Msg)
    requires m.Rreq? && m.src != n.id && m.src in ReverseRoute(n, m).0.rt
    ensures var (n1, v) := ReverseRoute(n, m);
      && n1.id == n.id && n1.cfg == n.cfg && n1.seqno == n.seqno && (m.src, m.bid) in n1.seen
      && RecvRequest(n, m) ==
           if v == Dropped then Outcome(n1, [])
           else if m.dst == n.id then AnswerAsDestination(n1, m)
           else if Knows(n1, m.dst, m.dstSeqno) then AnswerFromTable(n1, m, v.usable)
           else if (m.src, m.bid) in n.seen then Outcome(n1, [])
           else RelayRequest(n1, m)
  {
    hide OfferReverse, AnswerAsDestination, AnswerFromTable, RelayRequest;
  }

  lemma TableAnswerIs(n1: Node, m: Msg, usable: bool)
    requires NodeOk(n1) && m.Rreq? && Knows(n1, m.dst, m.dstSeqno) && (m.src, m.bid) in n1.seen
    ensures var o, key := AnswerFromTable(n1, m, usable), (m.src, m.bid);
      if usable && n1.seen[key] == 0 then
        && Advertises(n1, o.node, m.dst, key, true)
        && var e := o.node.rt[m.dst];
           o.sent == [Rrep(n1.id, e.advertised.n, m.dst, e.seqno, m.src, m.sender, m.bid, e.paths[0].lasthop)]
      else o == Outcome(n1, [])
  {
    EntryOfOk(n1, m.dst);
    AdvertiseFixes(n1.rt[m.dst], n1.cfg);
    hide NodeOk, Advertise, EntryOk;
  }

  lemma PassedRequestIs(n1: Node, m: Msg)
    requires NodeOk(n1) && m.Rreq? && m.src in n1.rt && n1.rt[m.src].flags == Up
    ensures var o, key := RelayRequest(n1, m), (m.src, m.bid);
      && Advertises(n1, o.node, m.src, key, false)
      && |o.sent| == 1
      && var e, s := o.node.rt[m.src], o.sent[0].dstSeqno;
         && o.sent[0] == Rreq(n1.id, e.advertised.n, m.bid, m.dst, s, m.src, m.srcSeqno, e.paths[0].lasthop)
         && s >= m.dstSeqno && (m.dst in n1.rt ==> s >= n1.rt[m.dst].seqno)
         && (s == m.dstSeqno || (m.dst in n1.rt && s == n1.rt[m.dst].seqno))
  {
    EntryOfOk(n1, m.src);
    AdvertiseFixes(n1.rt[m.src], n1.cfg);
    hide NodeOk, Advertise, EntryOk;
  }

  lemma PassedReplyIs(n1: Node, m: Msg)
    requires NodeOk(n1) && m.Rrep? && m.dst in n1.rt && n1.rt[m.dst].flags == Up && MayPassBack(n1, m)
    ensures var o, key := RelayReply(n1, m), (m.ipdst, m.bid);
      && Advertises(n1, o.node, m.dst, key, true) && n1.rt[m.ipdst].paths != []
      && var e, back := o.node.rt[m.dst], n1.rt[m.ipdst].paths[0].nexthop;
         o.sent == [Rrep(n1.id, e.advertised.n, m.dst, m.dstSeqno, m.ipdst, back, m.bid, e.paths[0].lasthop)]
  {
    EntryOfOk(n1, m.dst);
    EntryOfOk(n1, m.ipdst);
    AdvertiseFixes(n1.rt[m.dst], n1.cfg);
    hide NodeOk, Advertise;
  }

  /** The node has a live route to `d` that is not older than number `s`. */
  predicate Knows(n: Node, d: Addr, s: nat) {
    d in n.rt && n.rt[d].flags == Up && n.rt[d].seqno >= s
  }

  /** Exactly the entry for `d` of `n1` has changed: it is advertised from now on. */
  ghost predicate Advertises(n1: Node, n': Node, d: Addr, key: (Addr, nat), answers: bool)
    requires d in n1.rt
  {
    && d in n'.rt && n' == n1.(rt := n1.rt[d := n'.rt[d]], seen := if answers then n1.seen[key := 1] else n1.seen)
    && Fixes(n1.rt[d], n'.rt[d]) && n'.rt[d].error == (n1.rt[d].error || answers)
    && n'.rt[d].advertised.Fin? && n'.rt[d].paths != []
  }

  /** A kept request for a destination that is known under at least the requested number is
      answered once per id, if there is a way back, with the advertised hop count and the
      last hop of the first path. */
  lemma NodeRepliesFromTable(n: Node, m: Msg)
    requires NodeOk(n) && MsgOk(m) && m.Rreq? && m.src != n.id && !IsDropped(n, m) && m.dst != n.id
    requires Knows(ReverseRoute(n, m).0, m.dst, m.dstSeqno)
    ensures var n1, o, key := ReverseRoute(n, m).0, RecvRequest(n, m), (m.src, m.bid);
      && Weighed(n, n1, m)
      && if IsUsable(n, m) && n1.seen[key] == 0 then
           && Advertises(n1, o.node, m.dst, key, true)
           && var e := o.node.rt[m.dst];
              o.sent == [Rrep(n.id, e.advertised.n, m.dst, e.seqno, m.src, m.sender, m.bid, e.paths[0].lasthop)]
         else o == Outcome(n1, [])
  {
    hide RecvRequest, ReverseRoute, NodeOk, TakesPath, IsDropped, IsUsable, Advertises, AnswerFromTable;
    RequestIsWeighed(n, m);
    RequestShape(n, m);
    var (n1, v) := ReverseRoute(n, m);
    TableAnswerIs(n1, m, v.usable);
  }

  /** Any other kept request is passed on once per id, for the highest number known, with
      the advertised hop count of the way back and the last hop of its first path. */
  lemma NodePassesRequestOn(n: Node, m: Msg)
    requires NodeOk(n) && MsgOk(m) && m.Rreq? && m.src != n.id && !IsDropped(n, m) && m.dst != n.id
    requires !Knows(ReverseRoute(n, m).0, m.dst, m.dstSeqno)
    ensures var n1, o, key := ReverseRoute(n, m).0, RecvRequest(n, m), (m.src, m.bid);
      && Weighed(n, n1, m)
      && if key in n.seen then o == Outcome(n1, [])
         else
           && Advertises(n1, o.node, m.src, key, false)
           && |o.sent| == 1
           && var e, s := o.node.rt[m.src], o.sent[0].dstSeqno;
              && o.sent[0] == Rreq(n.id, e.advertised.n, m.bid, m.dst, s, m.src, m.srcSeqno, e.paths[0].lasthop)
              && s >= m.dstSeqno && (m.dst in n1.rt ==> s >= n1.rt[m.dst].seqno)
              && (s == m.dstSeqno || (m.dst in n1.rt && s == n1.rt[m.dst].seqno))
  {
    hide RecvRequest, ReverseRoute, NodeOk, TakesPath, IsDropped, IsUsable, Advertises, RelayRequest;
    RequestIsWeighed(n, m);
    RequestShape(n, m);
    PassedRequestIs(ReverseRoute(n, m).0, m);
  }

  // ----- replies

  function WayForth(m: Msg): Path
    requires m.Rrep?
  {
    Path(m.sender, m.hops + 1, m.firstHop)
  }

  /** After the reply has been weighed. */
  ghost predicate Heard(n: Node, n1: Node, m: Msg)
    requires m.Rrep?
  {
    && OnlyEntry(n, n1, m.dst) && n1.seen == n.seen
    && TakesPath(Known(n, m.dst), n1.rt[m.dst], m.dstSeqno, WayForth(m), n.cfg)
  }

  ghost predicate ReplyGoesOn(n: Node, m: Msg)
    requires m.Rrep?
  {
    GoesOn(Known(n, m.dst), m.dstSeqno, WayForth(m), n.cfg)
  }

  lemma HearingShape(n: Node, m: Msg)
    requires m.Rrep? && WayForth(m).hops >= 1
    ensures var (n1, dropped) := WeighReply(n, m);
      var (e, u) := OfferForward(Known(n, m.dst), m.dstSeqno, WayForth(m), n.cfg);
      && dropped == u && OnlyEntry(n, n1, m.dst) && n1.rt[m.dst] == e && n1.seen == n.seen
  {
    hide OfferForward;
  }

  lemma ReplyIsWeighed(n: Node, m: Msg)
    requires NodeOk(n) && MsgOk(m) && m.Rrep?
    ensures var (n1, dropped) := WeighReply(n, m);
      && Heard(n, n1, m) && NodeOk(n1) && (dropped <==> !ReplyGoesOn(n, m))
      && (!dropped ==> n1.rt[m.dst].flags == Up)
  {
    hide OfferForward, WeighReply, TakesPath, GoesOn, NodeOk, EntryOk, Known;
    ReplyKnownIsOk(n, m);
    ForwardOfferIs(Known(n, m.dst), m.dstSeqno, WayForth(m), n.cfg);
    HearingShape(n, m);
    HearingKeepsOk(n, m);
  }

  lemma ReplyKnownIsOk(n: Node, m: Msg)
    requires NodeOk(n) && MsgOk(m) && m.Rrep?
    ensures EntryOk(Known(n, m.dst), n.cfg) && LiveSeqno(m.dstSeqno)
  {
    EntryOfOk(n, m.dst);
  }

  lemma HearingKeepsOk(n: Node, m: Msg)
    requires NodeOk(n) && MsgOk(m) && m.Rrep?
    ensures var (n1, dropped) := WeighReply(n, m);
      NodeOk(n1) && m.dst in n1.rt && (!dropped ==> n1.rt[m.dst].flags == Up)
  {
    hide WeighReply;
    WeighReplySound(n, m, m);
  }

  /** The request the reply belongs to has come by and has not been answered yet. */
  predicate MayPassBack(n: Node, m: Msg)
    requires m.Rrep?
  {
    && m.ipdst != n.id && m.ipdst in n.rt && n.rt[m.ipdst].flags == Up
    && (m.ipdst, m.bid) in n.seen && n.seen[(m.ipdst, m.bid)] == 0
  }

  /** A reply offers a path to its destination; if that is new or stored it is passed on
      once per id, along the first path back, with the advertised hop count and the last
      hop of the first path. */
  lemma ReplyIsTakenAndPassedOn(n: Node, m: Msg)
    requires NodeOk(n) && MsgOk(m) && m.Rrep? && m.dst != n.id
    ensures var n1, o, key := WeighReply(n, m).0, RecvReply(n, m), (m.ipdst, m.bid);
      && Heard(n, n1, m)
      && if ReplyGoesOn(n, m) && MayPassBack(n1, m) then
           && Advertises(n1, o.node, m.dst, key, true) && n1.rt[m.ipdst].paths != []
           && var e, back := o.node.rt[m.dst], n1.rt[m.ipdst].paths[0].nexthop;
              o.sent == [Rrep(n.id, e.advertised.n, m.dst, m.dstSeqno, m.ipdst, back, m.bid, e.paths[0].lasthop)]
         else o == Outcome(n1, [])
  {
    hide WeighReply, RecvReply, NodeOk, TakesPath, ReplyGoesOn, Advertises, RelayReply;
    ReplyIsWeighed(n, m);
    ReplyShape(n, m);
    var n1 := WeighReply(n, m).0;
    if ReplyGoesOn(n, m) && MayPassBack(n1, m) {
      PassedReplyIs(n1, m);
    }
  }

  lemma ReplyShape(n: Node, m: Msg)
    requires m.Rrep? && m.dst != n.id
    ensures var (n1, dropped) := WeighReply(n, m);
      && m.dst in n1.rt && n1.id == n.id
      && RecvReply(n, m) ==
           if dropped || m.ipdst == n.id || !CanRelayReply(n1, m) then Outcome(n1, []) else RelayReply(n1, m)
  {
    hide OfferForward, CanRelayReply, RelayReply;
  }

  // ----- errors

  ghost predicate HasOver(e: Entry, nh: Addr) {
    exists k :: 0 <= k < |e.paths| && e.paths[k].nexthop == nh
  }

  /** `rest` are the paths `ps` but for the one over `nh`. */
  ghost predicate Cut(ps: seq<Path>, rest: seq<Path>, nh: Addr) {
    exists k :: 0 <= k < |ps| && ps[k].nexthop == nh && rest == ps[..k] + ps[k + 1..]
  }

  /** The entry with its last path gone, under number `s`. */
  function Closed(e: Entry, s: nat): Entry {
    e.(paths := [], numPaths := 0, flags := Down, advertised := Inf, seqno := s, error := false)
  }

  lemma {:induction false} FirstOver(ps: seq<Path>, nh: Addr) returns (k: nat)
    requires exists k :: 0 <= k < |ps| && ps[k].nexthop == nh
    ensures k < |ps| && ps[k].nexthop == nh && forall j :: 0 <= j < k ==> ps[j].nexthop != nh
  {
    if ps[0].nexthop == nh {
      k := 0;
    } else {
      var i :| 0 <= i < |ps| && ps[i].nexthop == nh;
      assert ps[1..][i - 1].nexthop == nh;
      k := FirstOver(ps[1..], nh);
      k := k + 1;
    }
  }

  lemma CutIs(ps: seq<Path>, nh: Addr)
    requires exists k :: 0 <= k < |ps| && ps[k].nexthop == nh
    ensures Cut(ps, WithoutNexthop(ps, nh), nh)
  {
    var k := FirstOver(ps, nh);
    WithoutNexthopAt(ps, nh, k);
  }

  lemma DropCuts(e: Entry, nh: Addr, cfg: Config)
    requires PathsOk(e, cfg)
    ensures HasNexthop(e.paths, nh) <==> HasOver(e, nh)
    ensures HasOver(e, nh) ==>
      && Cut(e.paths, DropPath(e, nh).paths, nh)
      && DropPath(e, nh) == e.(paths := DropPath(e, nh).paths, numPaths := |e.paths| - 1)
      && (DropPath(e, nh).paths == [] <==> |e.paths| == 1) && !HasNexthop(DropPath(e, nh).paths, nh)
  {
    if HasOver(e, nh) {
      CutIs(e.paths, nh);
      DropPathOk(e, nh, cfg);
    }
  }

  /** An error under number `s` from the next hop: its path goes, the number is noted, and
      with the last path the entry closes under the highest number heard. */
  ghost predicate HearsError(e: Entry, e': Entry, from: Addr, s: nat) {
    var h := Max(e.heard, s);
    if |e.paths| == 1 then e' == Closed(e, h).(heard := h)
    else Cut(e.paths, e'.paths, from) && e' == e.(paths := e'.paths, numPaths := |e.paths| - 1, heard := h)
  }

  lemma HearErrorIs(e: Entry, from: Addr, s: nat, cfg: Config)
    requires EntryOk(e, cfg) && ErrorApplies(e, from, s)
    ensures HearsError(e, HearError(e, from, s), from, s) && !HasOver(HearError(e, from, s), from)
    ensures HearError(e, from, s).flags == Down <==> |e.paths| == 1
  {
    DropCuts(e, from, cfg);
    hide Cut;
  }

  /** The item is about a live entry with a path over the sender, and not older. */
  ghost predicate Undercut(n: Node, from: Addr, item: (Addr, nat)) {
    var d := item.0;
    d in n.rt && n.rt[d].flags == Up && HasOver(n.rt[d], from) && n.rt[d].seqno <= item.1
  }

  /** The first item that undercuts the entry for `d`; the length if there is none. */
  ghost function FirstFor(n: Node, from: Addr, items: seq<(Addr, nat)>, d: Addr): (k: nat)
    ensures k <= |items| && (k < |items| ==> items[k].0 == d && Undercut(n, from, items[k]))
    ensures forall j :: 0 <= j < k ==> items[j].0 != d || !Undercut(n, from, items[j])
  {
    if items == [] then 0
    else
      var last := |items| - 1;
      var k := FirstFor(n, from, items[..last], d);
      if k < last || (items[last].0 == d && Undercut(n, from, items[last])) then k else |items|
  }

  /** Exactly the entries that an item undercuts have heard the first such item. */
  ghost predicate Withdrawn(n: Node, from: Addr, items: seq<(Addr, nat)>, n': Node) {
    && n' == n.(rt := n'.rt) && n'.rt.Keys == n.rt.Keys
    && forall d :: d in n.rt ==>
         var k := FirstFor(n, from, items, d);
         if k < |items| then HearsError(n.rt[d], n'.rt[d], from, items[k].1) && !HasOver(n'.rt[d], from)
         else n'.rt[d] == n.rt[d]
  }

  /** `out` names the entries that closed and that others use, under their new numbers. */
  ghost predicate Reported(n: Node, from: Addr, items: seq<(Addr, nat)>, out: seq<(Addr, nat)>) {
    forall x :: x in out <==>
      && x.0 in n.rt && n.rt[x.0].error && |n.rt[x.0].paths| == 1
      && FirstFor(n, from, items, x.0) < |items|
      && x.1 == Max(n.rt[x.0].heard, items[FirstFor(n, from, items, x.0)].1)
  }

  lemma FirstForMore(n: Node, from: Addr, items: seq<(Addr, nat)>, d: Addr)
    requires items != []
    ensures var last := |items| - 1;
      var k := FirstFor(n, from, items[..last], d);
      FirstFor(n, from, items, d) == if k < last || (items[last].0 == d && Undercut(n, from, items[last])) then k else |items|
  {
  }

  /** The last item applies exactly if it is the first to undercut its entry. */
  lemma LastApplies(n: Node, from: Addr, items: seq<(Addr, nat)>, n1: Node)
    requires items != [] && NodeOk(n) && Withdrawn(n, from, items[..|items| - 1], n1)
    ensures var last := |items| - 1;
      var d := items[last].0;
      var applies := d in n1.rt && ErrorApplies(n1.rt[d], from, items[last].1);
      && (applies <==> d in n.rt && FirstFor(n, from, items, d) == last)
      && (applies ==> n1.rt[d] == n.rt[d] && EntryOk(n.rt[d], n.cfg))
  {
    var last := |items| - 1;
    var d := items[last].0;
    EntryOfOk(n, d);
    hide NodeOk, FirstFor, HearsError, EntryOk;
    FirstForMore(n, from, items, d);
  }

  lemma OneItem(n: Node, from: Addr, item: (Addr, nat))
    ensures var (n', out) := ApplyError(n, from, item);
      var applies := item.0 in n.rt && ErrorApplies(n.rt[item.0], from, item.1);
      && n' == n.(rt := n'.rt) && n'.rt.Keys == n.rt.Keys
      && (forall d :: d in n.rt && d != item.0 ==> n'.rt[d] == n.rt[d])
      && (!applies ==> n' == n && out == [])
      && (applies ==> n'.rt[item.0] == HearError(n.rt[item.0], from, item.1))
      && (applies ==> out == if n'.rt[item.0].flags == Down && n.rt[item.0].error then [(item.0, n'.rt[item.0].seqno)] else [])
  {
    hide HearError, ErrorApplies;
  }

  lemma LastWithdraws(n: Node, from: Addr, items: seq<(Addr, nat)>, n1: Node)
    requires items != [] && NodeOk(n) && Withdrawn(n, from, items[..|items| - 1], n1)
    ensures Withdrawn(n, from, items, ApplyError(n1, from, items[|items| - 1]).0)
  {
    hide NodeOk, FirstFor, ErrorApplies, Undercut, ApplyError, HearsError, HasOver, HearError, EntryOk;
    LastApplies(n, from, items, n1);
    OneItem(n1, from, items[|items| - 1]);
    var last := |items| - 1;
    var init, n2 := items[..last], ApplyError(n1, from, items[last]).0;
    forall d | d in n.rt
      ensures var k := FirstFor(n, from, items, d);
        if k < |items| then HearsError(n.rt[d], n2.rt[d], from, items[k].1) && !HasOver(n2.rt[d], from)
        else n2.rt[d] == n.rt[d]
    {
      FirstForMore(n, from, items, d);
      var k := FirstFor(n, from, init, d);
      assert k < last ==> init[k] == items[k];
      if d == items[last].0 && FirstFor(n, from, items, d) == last {
        HearErrorIs(n.rt[d], from, items[last].1, n.cfg);
      }
    }
  }

  lemma LastReports(n: Node, from: Addr, items: seq<(Addr, nat)>, n1: Node, out1: seq<(Addr, nat)>)
    requires items != [] && NodeOk(n)
    requires Withdrawn(n, from, items[..|items| - 1], n1) && Reported(n, from, items[..|items| - 1], out1)
    ensures Reported(n, from, items, out1 + ApplyError(n1, from, items[|items| - 1]).1)
  {
    hide NodeOk, FirstFor, ErrorApplies, Undercut, Withdrawn, ApplyError, HearError, EntryOk;
    LastApplies(n, from, items, n1);
    OneItem(n1, from, items[|items| - 1]);
    var last := |items| - 1;
    var init, out2 := items[..last], ApplyError(n1, from, items[last]).1;
    if items[last].0 in n.rt && FirstFor(n, from, items, items[last].0) == last {
      HearErrorIs(n.rt[items[last].0], from, items[last].1, n.cfg);
    }
    hide Cut, HasOver;
    forall x: (Addr, nat)
      ensures x in out1 + out2 <==>
        && x.0 in n.rt && n.rt[x.0].error && |n.rt[x.0].paths| == 1
        && FirstFor(n, from, items, x.0) < |items|
        && x.1 == Max(n.rt[x.0].heard, items[FirstFor(n, from, items, x.0)].1)
    {
      FirstForMore(n, from, items, x.0);
      var k := FirstFor(n, from, init, x.0);
      assert k < last ==> init[k] == items[k];
      assert x in out1 + out2 <==> x in out1 || x in out2;
    }
  }

  lemma {:induction false} ItemsAreApplied(n: Node, from: Addr, items: seq<(Addr, nat)>)
    requires NodeOk(n)
    ensures var (n', out) := ApplyErrors(n, from, items);
      Withdrawn(n, from, items, n') && Reported(n, from, items, out)
  {
    hide NodeOk, Withdrawn, Reported, ApplyError;
    if items == [] {
      NothingApplied(n, from);
    } else {
      var init := items[..|items| - 1];
      ItemsAreApplied(n, from, init);
      var (n1, out1) := ApplyErrors(n, from, init);
      LastWithdraws(n, from, items, n1);
      LastReports(n, from, items, n1, out1);
    }
  }

  lemma NothingApplied(n: Node, from: Addr)
    ensures Withdrawn(n, from, [], n) && Reported(n, from, [], [])
  {
  }

  /** A route error takes the path over its sender out of exactly the entries that are not
      newer, and is passed on for exactly those that closed and that others use. */
  lemma ErrorWithdraws(n: Node, m: Msg)
    requires NodeOk(n) && m.Rerr?
    ensures var o := RecvError(n, m);
      && Withdrawn(n, m.sender, m.unreachable, o.node)
      && (if o.sent == [] then Reported(n, m.sender, m.unreachable, [])
          else
            && |o.sent| == 1 && o.sent[0].Rerr? && o.sent[0].sender == n.id
            && Reported(n, m.sender, m.unreachable, o.sent[0].unreachable))
  {
    hide NodeOk, Withdrawn, Reported, ApplyErrors;
    ItemsAreApplied(n, m.sender, m.unreachable);
    assert ApplyErrors(n, m.sender, m.unreachable).0.id == n.id by {
      SameNode(n, m.sender, m.unreachable, ApplyErrors(n, m.sender, m.unreachable).0);
    }
  }

  lemma SameNode(n: Node, from: Addr, items: seq<(Addr, nat)>, n': Node)
    requires Withdrawn(n, from, items, n')
    ensures n'.id == n.id
  {
  }

  // ----- the loss of a neighbour

  /** The path over a lost neighbour goes; with the last path the entry closes under the
      next number, or a higher one that was heard. */
  ghost predicate Fails(e: Entry, e': Entry, nb: Addr) {
    if e.flags == Up && HasOver(e, nb) then
      if |e.paths| == 1 then e' == Closed(e, Max(e.seqno + 1, e.heard))
      else Cut(e.paths, e'.paths, nb) && e' == e.(paths := e'.paths, numPaths := |e.paths| - 1)
    else e' == e
  }

  ghost predicate ClosesOver(e: Entry, nb: Addr) {
    e.flags == Up && |e.paths| == 1 && HasOver(e, nb)
  }

  lemma FailEntryIs(e: Entry, nb: Addr, cfg: Config)
    requires EntryOk(e, cfg)
    ensures Fails(e, FailEntry(e, nb), nb)
    ensures e.flags == Up && FailEntry(e, nb).flags == Down <==> ClosesOver(e, nb)
  {
    DropCuts(e, nb, cfg);
    hide Cut, HasOver, HasNexthop;
  }

  ghost predicate LossReported(n: Node, nb: Addr, items: seq<(Addr, nat)>) {
    forall x :: x in items <==>
      && x.0 in n.rt && n.rt[x.0].error && ClosesOver(n.rt[x.0], nb)
      && x.1 == Max(n.rt[x.0].seqno + 1, n.rt[x.0].heard)
  }

  lemma BrokenItemIs(n: Node, d: Addr, nb: Addr)
    requires NodeOk(n) && d in n.rt
    ensures var e := n.rt[d];
      BrokenItem(e, d, nb)
      == if e.error && ClosesOver(e, nb) then [(d, Max(e.seqno + 1, e.heard))] else []
  {
    EntryOfOk(n, d);
    FailEntryIs(n.rt[d], nb, n.cfg);
    hide FailEntry, NodeOk, EntryOk, HasOver, Cut;
  }

  lemma {:induction false} BrokenAre(n: Node, order: seq<Addr>, nb: Addr)
    requires NodeOk(n)
    ensures forall x: (Addr, nat) :: x in Broken(n.rt, order, nb) <==>
      && x.0 in order && x.0 in n.rt && n.rt[x.0].error && ClosesOver(n.rt[x.0], nb)
      && x.1 == Max(n.rt[x.0].seqno + 1, n.rt[x.0].heard)
  {
    hide NodeOk, BrokenItem, ClosesOver;
    if order != [] {
      var d := order[|order| - 1];
      BrokenAre(n, order[..|order| - 1], nb);
      if d in n.rt {
        BrokenItemIs(n, d, nb);
      }
      assert order == order[..|order| - 1] + [d];
    }
  }

  /** The loss of a neighbour takes the path over it out of every live entry, and reports
      exactly the entries that closed and that others use. */
  lemma LossWithdraws(n: Node, nb: Addr)
    requires NodeOk(n)
    ensures var o := NeighborLost(n, nb);
      && o.node == n.(seqno := n.seqno + 2, nbs := n.nbs - {nb}, rt := o.node.rt) && o.node.rt.Keys == n.rt.Keys
      && (forall d :: d in n.rt ==> Fails(n.rt[d], o.node.rt[d], nb))
      && (if o.sent == [] then LossReported(n, nb, [])
          else
            && |o.sent| == 1 && o.sent[0].Rerr? && o.sent[0].sender == n.id
            && LossReported(n, nb, o.sent[0].unreachable))
  {
    hide FailEntry, Fails, Broken, ClosesOver;
    BrokenAre(n, n.order, nb);
    forall d | d in n.rt ensures Fails(n.rt[d], FailEntry(n.rt[d], nb), nb) {
      EntryOfOk(n, d);
      FailEntryIs(n.rt[d], nb, n.cfg);
    }
  }

  // ----- expiry

  /** The live entry keeps exactly the paths that are not past their time, and without any
      it closes under the next odd number above its own and the highest heard. */
  ghost predicate Expires(e: Entry, e': Entry, gone: set<Addr>) {
    if e.flags == Down then e' == e
    else if exists q :: q in e.paths && q.nexthop !in gone then
      && (forall q :: q in e'.paths <==> q in e.paths && q.nexthop !in gone)
      && e' == e.(paths := e'.paths, numPaths := |e'.paths|)
    else
      && e' == Closed(e, e'.seqno).(error := e.error)
      && e'.seqno % 2 == 1 && e'.seqno > e.seqno && e'.seqno >= e.heard
      && (e'.seqno <= e.seqno + 2 || e'.seqno <= e.heard + 1)
  }

  lemma ExpireEntryIs(e: Entry, gone: set<Addr>, cfg: Config)
    requires EntryOk(e, cfg)
    ensures Expires(e, ExpireEntry(e, gone), gone)
  {
    WithoutAllMembers(e.paths, gone);
    var ps := WithoutAll(e.paths, gone);
    if ps != [] {
      assert ps[0] in ps;
    }
    hide WithoutAll;
  }

  /** The first destinations have been gone through: live entries lost their expired paths,
      and for each dead one with waiting packets, and no other, a request was sent. */
  ghost predicate PurgedTo(n: Node, ds: seq<Addr>, gone: map<Addr, set<Addr>>, waiting: set<Addr>, o: Outcome) {
    PurgedTable(n, ds, gone, o.node) && AskedFor(n, ds, waiting, o)
  }

  ghost predicate PurgedTable(n: Node, ds: seq<Addr>, gone: map<Addr, set<Addr>>, n': Node) {
    && n'.rt.Keys == n.rt.Keys && n'.id == n.id && n'.seen == n.seen && n'.nbs == n.nbs
    && forall d :: d in n.rt ==>
         if d in ds then Expires(n.rt[d], n'.rt[d], if d in gone then gone[d] else {}) else n'.rt[d] == n.rt[d]
  }

  ghost predicate AskedFor(n: Node, ds: seq<Addr>, waiting: set<Addr>, o: Outcome) {
    && (forall d :: d in n.rt ==> (Asks(o.sent, d) <==> d in ds && d in waiting && n.rt[d].flags == Down))
    && |o.sent| == o.node.bid - n.bid && o.node.seqno == n.seqno + 2 * |o.sent|
    && forall k :: 0 <= k < |o.sent| ==> IsAsk(n, o.sent[k], k)
  }

  ghost predicate Asks(sent: seq<Msg>, d: Addr) {
    exists k :: 0 <= k < |sent| && sent[k].Rreq? && sent[k].dst == d
  }

  /** The `k`-th request a node sends: new id, raised own number, the number of the entry. */
  ghost predicate IsAsk(n: Node, m: Msg, k: nat) {
    && m.Rreq? && m.dst in n.rt
    && m == Rreq(n.id, 0, n.bid + k, m.dst, n.rt[m.dst].seqno, n.id, n.seqno + 2 * (k + 1), 0)
  }

  lemma AsksMore(sent: seq<Msg>, m: Msg, d: Addr)
    ensures Asks(sent + [m], d) <==> Asks(sent, d) || (m.Rreq? && m.dst == d)
  {
    var more := sent + [m];
    if k :| 0 <= k < |sent| && sent[k].Rreq? && sent[k].dst == d {
      assert more[k] == sent[k];
    }
    assert more[|sent|] == m;
  }

  lemma NextAsks(sent: seq<Msg>, more: seq<Msg>)
    requires |more| <= 1
    ensures forall d :: Asks(sent + more, d) <==> Asks(sent, d) || (more != [] && more[0].Rreq? && more[0].dst == d)
  {
    hide Asks;
    if more == [] {
      assert sent + more == sent;
    } else {
      assert more == [more[0]];
      forall d ensures Asks(sent + more, d) <==> Asks(sent, d) || (more[0].Rreq? && more[0].dst == d) {
        AsksMore(sent, more[0], d);
      }
    }
  }

  lemma PurgesNext(n: Node, ds: seq<Addr>, d: Addr, gone: map<Addr, set<Addr>>, waiting: set<Addr>, o: Outcome)
    requires NodeOk(n) && d in n.rt && d !in ds && PurgedTo(n, ds, gone, waiting, o)
    ensures var o2 := PurgeOne(o.node, d, gone, waiting);
      PurgedTo(n, ds + [d], gone, waiting, Outcome(o2.node, o.sent + o2.sent))
  {
    hide Asks, Expires, PurgeOne, NodeOk, AskedFor;
    OnePurged(n, o.node, d, gone, waiting);
    NextAskedFor(n, ds, d, gone, waiting, o);
  }

  lemma NextAskedFor(n: Node, ds: seq<Addr>, d: Addr, gone: map<Addr, set<Addr>>, waiting: set<Addr>, o: Outcome)
    requires NodeOk(n) && d in n.rt && d !in ds
    requires PurgedTable(n, ds, gone, o.node) && AskedFor(n, ds, waiting, o)
    ensures var o2 := PurgeOne(o.node, d, gone, waiting);
      AskedFor(n, ds + [d], waiting, Outcome(o2.node, o.sent + o2.sent))
  {
    hide Asks, PurgeOne, NodeOk, Expires;
    OnePurged(n, o.node, d, gone, waiting);
    hide PurgedTable;
    NextAsks(o.sent, PurgeOne(o.node, d, gone, waiting).sent);
  }

  /** What expiry does for one entry. */
  lemma OnePurged(n: Node, n1: Node, d: Addr, gone: map<Addr, set<Addr>>, waiting: set<Addr>)
    requires NodeOk(n) && d in n.rt && n1.rt.Keys == n.rt.Keys && n1.rt[d] == n.rt[d] && n1.id == n.id
    ensures var o := PurgeOne(n1, d, gone, waiting);
      var asks := d in waiting && n.rt[d].flags == Down;
      && o.node.rt.Keys == n.rt.Keys && o.node.id == n.id && o.node.seen == n1.seen && o.node.nbs == n1.nbs
      && (forall x :: x in n.rt && x != d ==> o.node.rt[x] == n1.rt[x])
      && Expires(n.rt[d], o.node.rt[d], if d in gone then gone[d] else {})
      && o.node.bid == n1.bid + (if asks then 1 else 0) && o.node.seqno == n1.seqno + (if asks then 2 else 0)
      && o.sent == if asks then [Rreq(n.id, 0, n1.bid, d, n.rt[d].seqno, n.id, n1.seqno + 2, 0)] else []
  {
    hide Expires, ExpireEntry, EntryOk, NodeOk, EntryOf;
    TableEntryOk(n, d);
    ExpireEntryIs(n.rt[d], if d in gone then gone[d] else {}, n.cfg);
    DeadStays(n.rt[d], if d in gone then gone[d] else {});
  }

  lemma TableEntryOk(n: Node, d: Addr)
    requires NodeOk(n) && d in n.rt
    ensures EntryOk(n.rt[d], n.cfg)
  {
  }

  lemma DeadStays(e: Entry, gone: set<Addr>)
    ensures e.flags == Down ==> Expires(e, e, gone)
  {
  }

  lemma {:induction false} PurgesAll(n: Node, ds: seq<Addr>, gone: map<Addr, set<Addr>>, waiting: set<Addr>)
    requires NodeOk(n)
    requires (forall d :: d in ds ==> d in n.rt) && forall i, j :: 0 <= i < j < |ds| ==> ds[i] != ds[j]
    ensures PurgedTo(n, ds, gone, waiting, PurgeAll(n, ds, gone, waiting))
  {
    if ds != [] {
      var init, d := ds[..|ds| - 1], ds[|ds| - 1];
      assert d !in init && ds == init + [d];
      hide PurgeOne, PurgedTo, NodeOk;
      PurgesAll(n, init, gone, waiting);
      PurgesNext(n, init, d, gone, waiting, PurgeAll(n, init, gone, waiting));
    }
  }

  /** Expiry takes exactly the paths past their time out of the live entries, and asks again
      exactly for the dead ones with waiting packets. */
  lemma ExpiryIs(n: Node, gone: map<Addr, set<Addr>>, waiting: set<Addr>)
    requires NodeOk(n)
    ensures PurgedTo(n, n.order, gone, waiting, Purge(n, gone, waiting))
  {
    PurgesAll(n, n.order, gone, waiting);
  }

  // ----- data packets

  /** A data packet without a route makes its source ask and any other node report; with one,
      a packet of another node marks the route as used by others. */
  lemma DataNeedsRoute(n: Node, d: Addr, source: Addr)
    requires NodeOk(n)
    ensures var o := Resolve(n, d, source);
      && o.node.rt.Keys == n.rt.Keys + {d} && (forall x :: x in n.rt && x != d ==> o.node.rt[x] == n.rt[x])
      && if d in n.rt && n.rt[d].flags == Up then
           o.sent == [] && o.node.rt[d] == n.rt[d].(error := n.rt[d].error || source != n.id)
         else
           var s := if d in n.rt then n.rt[d].seqno else 0;
           && o.node.rt[d] == Known(n, d)
           && if source == n.id then
                && o.sent == [Rreq(n.id, 0, n.bid, d, s, n.id, n.seqno + 2, 0)]
                && o.node.bid == n.bid + 1 && o.node.seqno == n.seqno + 2
              else o.sent == [Rerr(n.id, [(d, s)])]
  {
  }

  /** Hellos go out while some route is live; the sender of one is a neighbour and offers a
      path of one hop to itself. */
  lemma HellosOfferNeighbours(n: Node, m: Msg)
    requires NodeOk(n) && m.Hello? && MsgOk(m) && m.sender != n.id
    ensures AomdvSpec.SendHello(n).node == n && AomdvSpec.SendHello(n).sent
         == if exists d :: d in n.rt && n.rt[d].flags == Up then [Hello(n.id, n.seqno)] else []
    ensures var o := RecvHello(n, m);
      && o.sent == [] && o.node == n.(nbs := n.nbs + {m.sender}, order := o.node.order, rt := o.node.rt)
      && o.node.rt.Keys == n.rt.Keys + {m.sender} && (forall x :: x in n.rt && x != m.sender ==> o.node.rt[x] == n.rt[x])
      && TakesPath(Known(n, m.sender), o.node.rt[m.sender], m.seqno, Path(m.sender, 1, n.id), n.cfg)
  {
    var n0, r := n.(nbs := n.nbs + {m.sender}), HelloAsReply(n, m);
    NeighboursDoNotMatter(n, n0);
    hide NodeOk, TakesPath, WeighReply, RecvReply;
    ReplyIsWeighed(n0, r);
    ReplyShape(n0, r);
  }

  lemma NeighboursDoNotMatter(n: Node, n0: Node)
    requires NodeOk(n) && n0 == n.(nbs := n0.nbs)
    ensures NodeOk(n0)
  {
  }
}
