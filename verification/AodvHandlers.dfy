/** What each AODV handler decides, sends and changes, in the fields of messages and
    table entries. */
module AodvHandlers {
  import opened Freshness
  import opened AodvSpec
  import opened AodvNetwork

  /** The two entries are the same route; only precursors may differ. */
  predicate SameRoute(e: Entry, e': Entry) {
    e'.seqno == e.seqno && e'.hops == e.hops && e'.nexthop == e.nexthop && e'.flags == e.flags
  }

  predicate IsRoute(e: Entry, seqno: nat, hops: nat, nexthop: Addr) {
    e.seqno == seqno && e.hops == Fin(hops) && e.nexthop == nexthop && e.flags == Up
  }

  /** From `rt` to `rt'` every route but the one to `d` stays, and `d` is entered. */
  ghost predicate OthersStay(rt: map<Addr, Entry>, rt': map<Addr, Entry>, d: Addr) {
    rt'.Keys == rt.Keys + {d} && forall x :: x in rt && x != d ==> SameRoute(rt[x], rt'[x])
  }

  /** The offered route is fresher than the known one, if there is any. */
  predicate Fresher(rt: map<Addr, Entry>, d: Addr, seqno: nat, hops: nat) {
    d !in rt || seqno > rt[d].seqno || (seqno == rt[d].seqno && (rt[d].hops.Fin? ==> hops < rt[d].hops.n))
  }

  /** The entry for `d` after an offer of a route: taken if fresher, else kept as it was. */
  ghost predicate TakesOffer(rt: map<Addr, Entry>, rt': map<Addr, Entry>, d: Addr, seqno: nat, hops: nat, from: Addr)
    requires d in rt'
  {
    if Fresher(rt, d, seqno, hops) then IsRoute(rt'[d], seqno, hops, from) else SameRoute(rt[d], rt'[d])
  }

  // ----- requests

  /** The least even number above both. */
  predicate NextEven(s: nat, own: nat, asked: nat) {
    s % 2 == 0 && s > own && s > asked && (s - 2 <= own || s - 2 <= asked)
  }

  lemma RequestReverse(n: Node, m: Msg)
    requires m.Rreq?
    ensures var n' := ReverseRoute(n, m);
      && n' == n.(seen := n.seen + {(m.src, m.bid)}, order := n'.order, rt := n'.rt)
      && OthersStay(n.rt, n'.rt, m.src) && TakesOffer(n.rt, n'.rt, m.src, m.srcSeqno, m.hops, m.sender)
  {
  }

  /** A request is ignored if it is the own one or its id is known; otherwise the id is
      cached and the route back is taken if fresher. */
  lemma RequestIsNoted(n: Node, m: Msg)
    requires m.Rreq?
    ensures var o := RecvRequest(n, m);
      if m.src == n.id || (m.src, m.bid) in n.seen then o == Outcome(n, [])
      else
        && o.node.seen == n.seen + {(m.src, m.bid)} && o.node.bid == n.bid && o.node.nbs == n.nbs
        && OthersStay(n.rt, o.node.rt, m.src) && TakesOffer(n.rt, o.node.rt, m.src, m.srcSeqno, m.hops, m.sender)
  {
    if m.src != n.id && (m.src, m.bid) !in n.seen {
      RequestReverse(n, m);
      hide ReverseRoute;
    }
  }

  /** A new request for this node is answered along the route back, under the least even
      number above the own and the requested one, which becomes the own one. */
  lemma TargetReplies(n: Node, m: Msg)
    requires m.Rreq? && m.src != n.id && (m.src, m.bid) !in n.seen && m.dst == n.id
    ensures var o := RecvRequest(n, m);
      && m.src in o.node.rt && NextEven(o.node.seqno, n.seqno, m.dstSeqno)
      && o.sent == [Rrep(n.id, 1, n.id, o.node.seqno, m.src, o.node.rt[m.src].nexthop)]
  {
    RequestReverse(n, m);
    hide ReverseRoute;
  }

  /** The node has a route to `d` that is not older than number `s`. */
  predicate Knows(n: Node, d: Addr, s: nat) {
    d in n.rt && n.rt[d].hops.Fin? && n.rt[d].seqno >= s
  }

  /** A new request for a destination to which a route under at least the requested number
      is known is answered with it, and the next hops on the two sides become precursors. */
  lemma NodeRepliesFromTable(n: Node, m: Msg)
    requires m.Rreq? && m.src != n.id && (m.src, m.bid) !in n.seen && m.dst != n.id
    requires Knows(RecvRequest(n, m).node, m.dst, m.dstSeqno)
    ensures var o := RecvRequest(n, m);
      && m.src in o.node.rt && o.node.seqno == n.seqno
      && var back, forth := o.node.rt[m.src], o.node.rt[m.dst];
         && o.sent == [Rrep(n.id, forth.hops.n + 1, m.dst, forth.seqno, m.src, back.nexthop)]
         && back.nexthop in forth.precursors && forth.nexthop in back.precursors
  {
    RequestReverse(n, m);
    hide ReverseRoute;
  }

  /** Any other new request is passed on, one hop longer, for the highest number known. */
  lemma NodePassesRequestOn(n: Node, m: Msg)
    requires m.Rreq? && m.src != n.id && (m.src, m.bid) !in n.seen && m.dst != n.id
    requires !Knows(RecvRequest(n, m).node, m.dst, m.dstSeqno)
    ensures var o := RecvRequest(n, m);
      && o.node.seqno == n.seqno && |o.sent| == 1
      && var s := o.sent[0].dstSeqno;
         && o.sent[0] == Rreq(n.id, m.hops + 1, m.bid, m.dst, s, m.src, m.srcSeqno)
         && s >= m.dstSeqno && (m.dst in o.node.rt ==> s >= o.node.rt[m.dst].seqno)
         && (s == m.dstSeqno || (m.dst in o.node.rt && s == o.node.rt[m.dst].seqno))
  {
    RequestReverse(n, m);
    hide ReverseRoute;
  }

  // ----- replies

  /** A reply offers a route to its destination; a fresher one is passed on along the
      route to the node that asked, one hop longer, if there is such a route. */
  lemma ReplyIsTakenAndPassedOn(n: Node, m: Msg)
    requires m.Rrep?
    ensures var o := RecvReply(n, m);
      && o.node.seqno == n.seqno && o.node.seen == n.seen && o.node.bid == n.bid && o.node.nbs == n.nbs
      && OthersStay(n.rt, o.node.rt, m.dst) && TakesOffer(n.rt, o.node.rt, m.dst, m.dstSeqno, m.hops, m.sender)
      && (if Fresher(n.rt, m.dst, m.dstSeqno, m.hops)
             && m.ipdst != n.id && m.ipdst in o.node.rt && o.node.rt[m.ipdst].hops.Fin? then
            var back := o.node.rt[m.ipdst].nexthop;
            && o.sent == [Rrep(n.id, m.hops + 1, m.dst, m.dstSeqno, m.ipdst, back)]
            && back in o.node.rt[m.dst].precursors
          else o.sent == [])
  {
  }

  // ----- errors

  /** The route goes over the sender of the error and is not newer than what it says. */
  predicate Undercut(n: Node, from: Addr, item: (Addr, nat)) {
    var d := item.0;
    d in n.rt && n.rt[d].hops.Fin? && n.rt[d].nexthop == from && n.rt[d].seqno <= item.1
  }

  /** The first item that undercuts the route to `d`; the length if there is none. */
  function FirstFor(n: Node, from: Addr, items: seq<(Addr, nat)>, d: Addr): (k: nat)
    ensures k <= |items| && (k < |items| ==> items[k].0 == d && Undercut(n, from, items[k]))
    ensures forall j :: 0 <= j < k ==> items[j].0 != d || !Undercut(n, from, items[j])
  {
    if items == [] then 0
    else
      var last := |items| - 1;
      var k := FirstFor(n, from, items[..last], d);
      if k < last || (items[last].0 == d && Undercut(n, from, items[last])) then k else |items|
  }

  predicate IsDead(e: Entry, seqno: nat) {
    e.seqno == seqno && e.hops == Inf && e.flags == Down
  }

  /** The routes that an item undercuts are dead under the number of the first such item;
      the others are as they were. */
  ghost predicate Withdrawn(n: Node, from: Addr, items: seq<(Addr, nat)>, n': Node) {
    && n' == n.(rt := n'.rt) && n'.rt.Keys == n.rt.Keys
    && forall d :: d in n.rt ==>
         var k := FirstFor(n, from, items, d);
         if k < |items| then IsDead(n'.rt[d], items[k].1) && n'.rt[d].precursors == {} else n'.rt[d] == n.rt[d]
  }

  /** `out` holds the items that were the first to undercut a route others use. */
  ghost predicate Reported(n: Node, from: Addr, items: seq<(Addr, nat)>, out: seq<(Addr, nat)>) {
    forall x :: x in out <==>
      && x.0 in n.rt && n.rt[x.0].precursors != {}
      && FirstFor(n, from, items, x.0) < |items| && items[FirstFor(n, from, items, x.0)] == x
  }

  lemma FirstForMore(n: Node, from: Addr, items: seq<(Addr, nat)>, d: Addr)
    requires items != []
    ensures var last := |items| - 1;
      var k := FirstFor(n, from, items[..last], d);
      FirstFor(n, from, items, d) == if k < last || (items[last].0 == d && Undercut(n, from, items[last])) then k else |items|
  {
  }

  /** The last item applies exactly if it is the first to undercut its route. */
  lemma LastApplies(n: Node, from: Addr, items: seq<(Addr, nat)>, n1: Node)
    requires items != [] && NodeOk(n) && Withdrawn(n, from, items[..|items| - 1], n1)
    ensures var last := |items| - 1;
      var d := items[last].0;
      && (ErrorApplies(n1, from, items[last]) <==> d in n.rt && FirstFor(n, from, items, d) == last)
      && (ErrorApplies(n1, from, items[last]) ==> d in n.rt && n1.rt[d] == n.rt[d] && n.rt[d].flags != Down)
  {
    var last := |items| - 1;
    var d := items[last].0;
    assert d in n.rt ==> EntryOk(n.rt[d]);
    hide NodeOk, FirstFor;
    FirstForMore(n, from, items, d);
  }

  lemma OneItem(n: Node, from: Addr, item: (Addr, nat))
    ensures var n' := ApplyError(n, from, item).0;
      && n' == n.(rt := n'.rt) && n'.rt.Keys == n.rt.Keys
      && (forall d :: d in n.rt && d != item.0 ==> n'.rt[d] == n.rt[d])
      && (!ErrorApplies(n, from, item) ==> n' == n)
      && (ErrorApplies(n, from, item) && n.rt[item.0].flags != Down ==>
            IsDead(n'.rt[item.0], item.1) && n'.rt[item.0].precursors == {})
  {
  }

  lemma LastWithdraws(n: Node, from: Addr, items: seq<(Addr, nat)>, n1: Node)
    requires items != [] && NodeOk(n) && Withdrawn(n, from, items[..|items| - 1], n1)
    ensures Withdrawn(n, from, items, ApplyError(n1, from, items[|items| - 1]).0)
  {
    LastApplies(n, from, items, n1);
    OneItem(n1, from, items[|items| - 1]);
    hide NodeOk, FirstFor, ErrorApplies, Undercut, ApplyError, IsDead;
    var last := |items| - 1;
    var init, n2 := items[..last], ApplyError(n1, from, items[last]).0;
    forall d | d in n.rt
      ensures var k := FirstFor(n, from, items, d);
        if k < |items| then IsDead(n2.rt[d], items[k].1) && n2.rt[d].precursors == {} else n2.rt[d] == n.rt[d]
    {
      FirstForMore(n, from, items, d);
      var k := FirstFor(n, from, init, d);
      assert k < last ==> init[k] == items[k];
    }
  }

  lemma LastReports(n: Node, from: Addr, items: seq<(Addr, nat)>, n1: Node, out1: seq<(Addr, nat)>)
    requires items != [] && NodeOk(n)
    requires Withdrawn(n, from, items[..|items| - 1], n1) && Reported(n, from, items[..|items| - 1], out1)
    ensures Reported(n, from, items, out1 + ApplyError(n1, from, items[|items| - 1]).1)
  {
    LastApplies(n, from, items, n1);
    hide NodeOk, FirstFor, ErrorApplies, Undercut, Withdrawn;
    var last := |items| - 1;
    var init, out2 := items[..last], ApplyError(n1, from, items[last]).1;
    forall x: (Addr, nat)
      ensures x in out1 + out2 <==>
        && x.0 in n.rt && n.rt[x.0].precursors != {}
        && FirstFor(n, from, items, x.0) < |items| && items[FirstFor(n, from, items, x.0)] == x
    {
      FirstForMore(n, from, items, x.0);
      var k := FirstFor(n, from, init, x.0);
      assert k < last ==> init[k] == items[k];
      assert x in out1 + out2 <==> x in out1 || x in out2;
    }
  }

  lemma {:induction false} ItemsAreApplied(n: Node, from: Addr, items: seq<(Addr, nat)>)
    requires NodeOk(n)
    ensures var (n', out) := ApplyErrors(n, from, items);
      Withdrawn(n, from, items, n') && Reported(n, from, items, out)
  {
    hide NodeOk, Withdrawn, Reported, ApplyError;
    if items == [] {
      NothingApplied(n, from);
    } else {
      var init := items[..|items| - 1];
      ItemsAreApplied(n, from, init);
      var (n1, out1) := ApplyErrors(n, from, init);
      LastWithdraws(n, from, items, n1);
      LastReports(n, from, items, n1, out1);
    }
  }

  lemma NothingApplied(n: Node, from: Addr)
    ensures Withdrawn(n, from, [], n) && Reported(n, from, [], [])
  {
  }

  /** A route error takes down exactly the routes that go over its sender and are not
      newer, and is passed on for exactly those of them that have precursors. */
  lemma ErrorWithdraws(n: Node, m: Msg)
    requires NodeOk(n) && m.Rerr?
    ensures var o := RecvError(n, m);
      && Withdrawn(n, m.sender, m.unreachable, o.node)
      && (if o.sent == [] then Reported(n, m.sender, m.unreachable, [])
          else
            && |o.sent| == 1 && o.sent[0].Rerr? && o.sent[0].sender == n.id
            && Reported(n, m.sender, m.unreachable, o.sent[0].unreachable))
  {
    ItemsAreApplied(n, m.sender, m.unreachable);
  }

  // ----- the loss of a neighbour

  predicate Over(e: Entry, nb: Addr) {
    e.hops.Fin? && e.nexthop == nb
  }

  /** The loss of a neighbour takes down exactly the routes over it, under the next
      number, reports exactly these, and forgets it as a precursor. */
  lemma LossWithdraws(n: Node, nb: Addr)
    requires NodeOk(n)
    ensures var o := NeighborLost(n, nb);
      && o.node == n.(seqno := n.seqno + 2, nbs := n.nbs - {nb}, rt := o.node.rt) && o.node.rt.Keys == n.rt.Keys
      && (forall d :: d in n.rt ==>
            && o.node.rt[d].precursors == n.rt[d].precursors - {nb}
            && if Over(n.rt[d], nb) then IsDead(o.node.rt[d], n.rt[d].seqno + 1) else SameRoute(n.rt[d], o.node.rt[d]))
      && (if exists d :: d in n.rt && Over(n.rt[d], nb) then
            && |o.sent| == 1 && o.sent[0].Rerr? && o.sent[0].sender == n.id
            && forall x: (Addr, nat) :: x in o.sent[0].unreachable <==>
                 x.0 in n.rt && Over(n.rt[x.0], nb) && x.1 == n.rt[x.0].seqno + 1
          else o.sent == [])
  {
    hide FailEntry;
    LossOfEntries(n, nb);
    BrokenAre(n, n.order, nb);
    var items := Broken(n.rt, n.order, nb);
    if d :| d in n.rt && Over(n.rt[d], nb) {
      assert (d, n.rt[d].seqno + 1) in items;
    }
    hide NodeOk, Broken;
    if items != [] {
      assert items[0] in items;
    }
  }

  lemma LossOfEntries(n: Node, nb: Addr)
    requires NodeOk(n)
    ensures forall d :: d in n.rt ==>
      && FailEntry(n.rt[d], nb).precursors == n.rt[d].precursors - {nb}
      && if Over(n.rt[d], nb) then IsDead(FailEntry(n.rt[d], nb), n.rt[d].seqno + 1)
         else SameRoute(n.rt[d], FailEntry(n.rt[d], nb))
  {
    forall d | d in n.rt ensures n.rt[d].hops.Fin? ==> n.rt[d].flags != Down {
      assert EntryOk(n.rt[d]);
    }
  }

  lemma {:induction false} BrokenAre(n: Node, order: seq<Addr>, nb: Addr)
    ensures forall x: (Addr, nat) :: x in Broken(n.rt, order, nb) <==>
      x.0 in order && x.0 in n.rt && Over(n.rt[x.0], nb) && x.1 == n.rt[x.0].seqno + 1
  {
    if order != [] {
      BrokenAre(n, order[..|order| - 1], nb);
      assert order == order[..|order| - 1] + [order[|order| - 1]];
    }
  }

  // ----- expiry

  /** What expiry does to one entry. */
  ghost predicate Expires(e: Entry, e': Entry, expired: bool) {
    if e.flags == Up && expired then IsDead(e', e.seqno + 1) && e'.precursors == e.precursors else e' == e
  }

  /** The first destinations have been gone through: what is expired is dead, and for each
      dead route with waiting packets, and no other, a request was sent. */
  ghost predicate PurgedTo(n: Node, ds: seq<Addr>, expired: set<Addr>, waiting: set<Addr>, o: Outcome) {
    && o.node.rt.Keys == n.rt.Keys && o.node.id == n.id && o.node.seen == n.seen && o.node.nbs == n.nbs
    && (forall d :: d in n.rt ==> if d in ds then Expires(n.rt[d], o.node.rt[d], d in expired) else o.node.rt[d] == n.rt[d])
    && (forall d :: d in n.rt ==> (Asks(o.sent, d) <==> d in ds && d in waiting && n.rt[d].flags != Up))
    && |o.sent| == o.node.bid - n.bid && o.node.seqno == n.seqno + 2 * |o.sent|
    && forall k :: 0 <= k < |o.sent| ==> IsAsk(n, o.sent[k], k)
  }

  ghost predicate Asks(sent: seq<Msg>, d: Addr) {
    exists k :: 0 <= k < |sent| && sent[k].Rreq? && sent[k].dst == d
  }

  /** The `k`-th request a node sends: new id, raised own number, the number of the entry. */
  ghost predicate IsAsk(n: Node, m: Msg, k: nat) {
    m.Rreq? && m.dst in n.rt && m == Rreq(n.id, 1, n.bid + k, m.dst, n.rt[m.dst].seqno, n.id, n.seqno + 2 * (k + 1))
  }

  lemma AsksMore(sent: seq<Msg>, m: Msg, d: Addr)
    ensures Asks(sent + [m], d) <==> Asks(sent, d) || (m.Rreq? && m.dst == d)
  {
    var more := sent + [m];
    if k :| 0 <= k < |sent| && sent[k].Rreq? && sent[k].dst == d {
      assert more[k] == sent[k];
    }
    assert more[|sent|] == m;
  }

  lemma NextAsks(sent: seq<Msg>, more: seq<Msg>)
    requires |more| <= 1
    ensures forall d :: Asks(sent + more, d) <==> Asks(sent, d) || (more != [] && more[0].Rreq? && more[0].dst == d)
  {
    hide Asks;
    if more == [] {
      assert sent + more == sent;
    } else {
      assert more == [more[0]];
      forall d ensures Asks(sent + more, d) <==> Asks(sent, d) || (more[0].Rreq? && more[0].dst == d) {
        AsksMore(sent, more[0], d);
      }
    }
  }

  lemma PurgesNext(n: Node, ds: seq<Addr>, d: Addr, expired: set<Addr>, waiting: set<Addr>, o: Outcome)
    requires d in n.rt && d !in ds && PurgedTo(n, ds, expired, waiting, o)
    ensures var o2 := PurgeOne(o.node, d, expired, waiting);
      PurgedTo(n, ds + [d], expired, waiting, Outcome(o2.node, o.sent + o2.sent))
  {
    var o2 := PurgeOne(o.node, d, expired, waiting);
    hide Asks;
    NextAsks(o.sent, o2.sent);
  }

  lemma {:induction false} PurgesAll(n: Node, ds: seq<Addr>, expired: set<Addr>, waiting: set<Addr>)
    requires (forall d :: d in ds ==> d in n.rt) && forall i, j :: 0 <= i < j < |ds| ==> ds[i] != ds[j]
    ensures PurgedTo(n, ds, expired, waiting, PurgeAll(n, ds, expired, waiting))
  {
    if ds != [] {
      var init, d := ds[..|ds| - 1], ds[|ds| - 1];
      assert d !in init && ds == init + [d];
      hide PurgeOne, PurgedTo;
      PurgesAll(n, init, expired, waiting);
      PurgesNext(n, init, d, expired, waiting, PurgeAll(n, init, expired, waiting));
    }
  }

  /** Expiry takes down exactly the live routes past their time, under the next number,
      and asks again exactly for the dead ones with waiting packets. */
  lemma ExpiryIs(n: Node, expired: set<Addr>, waiting: set<Addr>)
    requires NodeOk(n)
    ensures PurgedTo(n, n.order, expired, waiting, Purge(n, expired, waiting))
  {
    PurgesAll(n, n.order, expired, waiting);
  }

  // ----- data packets and hellos

  /** A data packet without a route makes its source ask and any other node report. */
  lemma DataNeedsRoute(n: Node, d: Addr, source: Addr)
    requires NodeOk(n)
    ensures var o := Resolve(n, d, source);
      && o.node.rt.Keys == n.rt.Keys + {d} && (forall x :: x in n.rt ==> o.node.rt[x] == n.rt[x])
      && var s := if d in n.rt then n.rt[d].seqno else 0;
         if d in n.rt && n.rt[d].flags == Up then o.sent == []
         else if source == n.id then
           && o.sent == [Rreq(n.id, 1, n.bid, d, s, n.id, n.seqno + 2)]
           && o.node.bid == n.bid + 1 && o.node.seqno == n.seqno + 2
         else if d in n.rt && n.rt[d].flags == InRepair then o.sent == []
         else o.sent == [Rerr(n.id, [(d, s)])]
  {
  }

  /** A hello carries the own number; from a new neighbour it enters it and raises the own
      number by 2. */
  lemma HellosKeepNeighbours(n: Node, m: Msg)
    requires m.Hello?
    ensures AodvSpec.SendHello(n) == Outcome(n, [Hello(n.id, n.seqno)])
    ensures var o := RecvHello(n, m);
      && o.sent == [] && o.node == n.(nbs := n.nbs + {m.sender}, seqno := o.node.seqno)
      && o.node.seqno == n.seqno + (if m.sender in n.nbs then 0 else 2)
  {
    assert m.sender in n.nbs ==> n.nbs + {m.sender} == n.nbs;
  }

  // ----- broken links

  /** A broken link is repaired where the packet has come further than it has to go: the
      route is marked and asked for again.  Elsewhere the neighbour is lost. */
  lemma BrokenLinkIs(n: Node, d: Addr, nb: Addr, forwards: nat)
    requires NodeOk(n)
    ensures var o := LinkLayerFailed(n, d, nb, forwards);
      if d !in n.rt then o == Outcome(n, [])
      else if n.rt[d].hops.Fin? && n.rt[d].hops.n < forwards then
        && o.node == n.(rt := n.rt[d := n.rt[d].(flags := InRepair)], bid := n.bid + 1, seqno := n.seqno + 2)
        && o.sent == [Rreq(n.id, 1, n.bid, d, n.rt[d].seqno, n.id, n.seqno + 2)]
      else o == NeighborLost(n, nb)
  {
  }
}
