/** A network of AODV nodes as a step system, and the proof that its routes
    never form a loop.  Messages stay in `msgs` for ever once they are sent, so
    they can be delivered late, out of order, repeatedly, or never. */
module AodvNetwork {
  import opened Freshness
  import opened AodvSpec

  datatype Net = Net(nodes: map<Addr, Node>, msgs: set<Msg>)

  /** What a request, reply or hello says about a destination: `from` offers a
      route of `hops` hops, itself included, with sequence number `seqno`. */
  datatype Offer = Offer(from: Addr, dst: Addr, seqno: nat, hops: nat)

  // ----- invariants of one node and of one message

  ghost predicate EntryOk(e: Entry) {
    match e.flags
    case Up => LiveSeqno(e.seqno) && e.hops.Fin?
    case InRepair => LiveSeqno(e.seqno) && e.hops.Fin?
    case Down => DeadSeqno(e.seqno) && e.hops.Inf?
  }

  ghost predicate NodeOk(n: Node) {
    && TableOk(n)
    && LiveSeqno(n.seqno)
    && (forall d :: d in n.rt ==> EntryOk(n.rt[d]))
  }

  /** The offer of a message; only requests and replies install routes. */
  ghost predicate IsOffer(m: Msg, o: Offer) {
    match m
    case Rreq(sender, hops, _, _, _, src, srcSeqno) => o == Offer(sender, src, srcSeqno, hops)
    case Rrep(sender, hops, dst, dstSeqno, _, _) => o == Offer(sender, dst, dstSeqno, hops)
    case Rerr(_, _) => false
    case Hello(_, _) => false
  }

  ghost predicate MsgOk(m: Msg) {
    match m
    case Rreq(_, hops, _, _, _, _, srcSeqno) => hops >= 1 && LiveSeqno(srcSeqno)
    case Rrep(_, hops, _, dstSeqno, _, _) => hops >= 1 && LiveSeqno(dstSeqno)
    case Rerr(_, unreachable) => forall k :: 0 <= k < |unreachable| ==> DeadSeqno(unreachable[k].1)
    case Hello(_, s) => LiveSeqno(s)
  }

  /** Node `n` can vouch for the offer: it is the destination, or what it knows
      is at least as fresh as the offer without the last hop. */
  ghost predicate Vouches(n: Node, o: Offer) {
    o.hops >= 1 && (o.dst != o.from ==> AtLeast(RankOf(n, o.dst), Rank(o.seqno, Fin(o.hops - 1))))
  }

  ghost predicate OfferHolds(net: Net, o: Offer) {
    o.from in net.nodes && Vouches(net.nodes[o.from], o)
  }

  ghost predicate OffersHold(net: Net, m: Msg) {
    forall o :: IsOffer(m, o) ==> OfferHolds(net, o)
  }

  /** The route of `n` to `d`, read as an offer of its next hop. */
  function RouteOffer(n: Node, d: Addr): Offer
    requires d in n.rt && n.rt[d].hops.Fin?
  {
    Offer(n.rt[d].nexthop, d, n.rt[d].seqno, n.rt[d].hops.n)
  }

  ghost predicate Inv(net: Net) {
    && (forall i :: i in net.nodes ==> net.nodes[i].id == i && NodeOk(net.nodes[i]))
    && (forall m :: m in net.msgs ==> MsgOk(m) && OffersHold(net, m))
    && (forall i, d :: i in net.nodes && d in net.nodes[i].rt && net.nodes[i].rt[d].flags == Up
          ==> OfferHolds(net, RouteOffer(net.nodes[i], d)))
  }

  // ----- what a handler may do to a node

  /** Nothing a node knows gets staler. */
  ghost predicate Improves(n: Node, n': Node) {
    n'.id == n.id && n.seqno <= n'.seqno && forall d :: AtLeast(RankOf(n', d), RankOf(n, d))
  }

  /** Every live route of `n'` is one of `n` or was offered by a message of `heard`. */
  ghost predicate RoutesFrom(n: Node, n': Node, heard: set<Msg>) {
    forall d :: d in n'.rt && n'.rt[d].flags == Up && n'.rt[d].hops.Fin? ==>
      || (d in n.rt && n.rt[d].flags == Up && n.rt[d].hops.Fin? && RouteOffer(n, d) == RouteOffer(n', d))
      || exists m :: m in heard && IsOffer(m, RouteOffer(n', d))
  }

  ghost predicate SendsOk(n: Node, sent: seq<Msg>) {
    forall k :: 0 <= k < |sent| ==>
      MsgOk(sent[k]) && forall o :: IsOffer(sent[k], o) ==> o.from == n.id && Vouches(n, o)
  }

  /** The local condition on a handler under which the network invariant is kept. */
  ghost predicate Sound(n: Node, out: Outcome, heard: set<Msg>) {
    NodeOk(out.node) && Improves(n, out.node) && RoutesFrom(n, out.node, heard) && SendsOk(out.node, out.sent)
  }

  lemma ImprovesKeepsVouching(n: Node, n': Node, o: Offer)
    requires Improves(n, n') && Vouches(n, o)
    ensures Vouches(n', o)
  {
    if o.dst != o.from {
      assert AtLeast(RankOf(n', o.dst), RankOf(n, o.dst));
    }
  }

  lemma SoundComposes(n: Node, o1: Outcome, o2: Outcome, heard: set<Msg>)
    requires Sound(n, o1, heard) && Sound(o1.node, o2, heard)
    ensures Sound(n, Outcome(o2.node, o1.sent + o2.sent), heard)
  {
    var sent := o1.sent + o2.sent;
    forall d ensures AtLeast(RankOf(o2.node, d), RankOf(n, d)) {
      assert AtLeast(RankOf(o1.node, d), RankOf(n, d));
      assert AtLeast(RankOf(o2.node, d), RankOf(o1.node, d));
    }
    forall k | 0 <= k < |sent|
      ensures MsgOk(sent[k]) && forall o :: IsOffer(sent[k], o) ==> o.from == n.id && Vouches(o2.node, o)
    {
      if k < |o1.sent| {
        assert sent[k] == o1.sent[k];
        forall o | IsOffer(sent[k], o) ensures Vouches(o2.node, o) {
          ImprovesKeepsVouching(o1.node, o2.node, o);
        }
      } else {
        assert sent[k] == o2.sent[k - |o1.sent|];
      }
    }
  }

  lemma AtLeastItself(r: Rank)
    ensures AtLeast(r, r)
  {
  }

  // ----- every handler is sound

  lemma EnsureEntrySound(n: Node, d: Addr)
    requires NodeOk(n)
    ensures Sound(n, Outcome(EnsureEntry(n, d), []), {})
  {
    var n' := EnsureEntry(n, d);
    if d !in n.rt {
      assert forall i :: 0 < i < |n'.order| ==> n'.order[i] == n.order[i - 1];
    }
  }

  lemma SoundWiden(n: Node, out: Outcome, heard: set<Msg>, more: set<Msg>)
    requires Sound(n, out, heard) && heard <= more
    ensures Sound(n, out, more)
  {
    forall d | d in out.node.rt && out.node.rt[d].flags == Up && out.node.rt[d].hops.Fin?
      ensures (d in n.rt && n.rt[d].flags == Up && n.rt[d].hops.Fin? && RouteOffer(n, d) == RouteOffer(out.node, d))
           || exists m :: m in more && IsOffer(m, RouteOffer(out.node, d))
    {
      if !(d in n.rt && n.rt[d].flags == Up && n.rt[d].hops.Fin? && RouteOffer(n, d) == RouteOffer(out.node, d)) {
        var m :| m in heard && IsOffer(m, RouteOffer(out.node, d));
        assert m in more;
      }
    }
  }

  lemma SendRequestSound(n: Node, d: Addr)
    requires NodeOk(n) && d in n.rt
    ensures Sound(n, SendRequest(n, d), {})
  {
  }

  /** Installing the route a message offers, when it is fresher than the entry. */
  lemma InstallSound(n: Node, d: Addr, m: Msg, o: Offer)
    requires NodeOk(n) && d in n.rt && MsgOk(m) && IsOffer(m, o) && o.dst == d
    requires Better(Rank(o.seqno, Fin(o.hops)), EntryRank(n.rt[d]))
    ensures Sound(n, Outcome(n.(rt := n.rt[d := Update(n.rt[d], o.seqno, o.hops, o.from)]), []), {m})
  {
    var n' := n.(rt := n.rt[d := Update(n.rt[d], o.seqno, o.hops, o.from)]);
    assert RouteOffer(n', d) == o;
    assert m in {m} && IsOffer(m, RouteOffer(n', d));
  }

  lemma MarkSeenSound(n: Node, key: (Addr, nat))
    requires NodeOk(n)
    ensures Sound(n, Outcome(n.(seen := n.seen + {key}), []), {})
  {
  }

  lemma AddPrecursorSound(n: Node, d: Addr, p: Addr)
    requires NodeOk(n) && d in n.rt
    ensures Sound(n, Outcome(AddPrecursor(n, d, p), []), {})
  {
  }

  /** Sending a message the node can vouch for. */
  lemma SendOneSound(n: Node, m: Msg)
    requires NodeOk(n) && MsgOk(m)
    requires forall o :: IsOffer(m, o) ==> o.from == n.id && Vouches(n, o)
    ensures Sound(n, Outcome(n, [m]), {})
  {
  }

  /** A silent step followed by another. */
  lemma SoundThen(n: Node, n1: Node, out: Outcome, heard: set<Msg>, heard1: set<Msg>)
    requires Sound(n, Outcome(n1, []), heard) && Sound(n1, out, heard1) && heard1 <= heard
    ensures Sound(n, out, heard)
  {
    SoundWiden(n1, out, heard1, heard);
    SoundComposes(n, Outcome(n1, []), out, heard);
    assert [] + out.sent == out.sent;
  }

  /** Puts a heard offer into an existing entry if it is fresher. */
  function Consider(n: Node, o: Offer): Node
    requires o.dst in n.rt
  {
    if Better(Rank(o.seqno, Fin(o.hops)), EntryRank(n.rt[o.dst])) then
      n.(rt := n.rt[o.dst := Update(n.rt[o.dst], o.seqno, o.hops, o.from)])
    else n
  }

  lemma ConsiderSound(n: Node, m: Msg, o: Offer)
    requires NodeOk(n) && MsgOk(m) && IsOffer(m, o) && o.dst in n.rt
    ensures Sound(n, Outcome(Consider(n, o), []), {m})
    ensures AtLeast(RankOf(Consider(n, o), o.dst), Rank(o.seqno, Fin(o.hops)))
  {
    if Better(Rank(o.seqno, Fin(o.hops)), EntryRank(n.rt[o.dst])) {
      InstallSound(n, o.dst, m, o);
    }
  }

  lemma ReverseRouteSound(n: Node, m: Msg)
    requires NodeOk(n) && MsgOk(m) && m.Rreq?
    ensures Sound(n, Outcome(ReverseRoute(n, m), []), {m})
    ensures NodeOk(ReverseRoute(n, m)) && ReverseRoute(n, m).id == n.id && m.src in ReverseRoute(n, m).rt
    ensures AtLeast(RankOf(ReverseRoute(n, m), m.src), Rank(m.srcSeqno, Fin(m.hops)))
  {
    var n0 := n.(seen := n.seen + {(m.src, m.bid)});
    var n1 := EnsureEntry(n0, m.src);
    MarkSeenSound(n, (m.src, m.bid));
    EnsureEntrySound(n0, m.src);
    var o := Offer(m.sender, m.src, m.srcSeqno, m.hops);
    ConsiderSound(n1, m, o);
    var n2 := ReverseRoute(n, m);
    assert n2 == Consider(n1, o);
    hide Sound;
    SoundThen(n, n0, Outcome(n1, []), {}, {});
    SoundWiden(n, Outcome(n1, []), {}, {m});
    SoundThen(n, n1, Outcome(n2, []), {m}, {m});
  }

  lemma AnswerAsDestinationSound(n: Node, m: Msg, back: Addr)
    requires NodeOk(n) && MsgOk(m) && m.Rreq?
    ensures var s := BumpSeqno(n.seqno, m.dstSeqno);
      Sound(n, Outcome(n.(seqno := s), [Rrep(n.id, 1, n.id, s, m.src, back)]), {})
  {
  }

  lemma AnswerFromTableSound(n: Node, m: Msg, back: Addr)
    requires NodeOk(n) && MsgOk(m) && m.Rreq? && m.src in n.rt && CanAnswer(n, m)
    ensures var e := n.rt[m.dst];
      Sound(n, Outcome(AddPrecursor(AddPrecursor(n, m.dst, back), m.src, e.nexthop),
                       [Rrep(n.id, e.hops.n + 1, m.dst, e.seqno, m.src, back)]), {})
  {
    var e := n.rt[m.dst];
    var n2 := AddPrecursor(n, m.dst, back);
    var n3 := AddPrecursor(n2, m.src, e.nexthop);
    var reply := Rrep(n.id, e.hops.n + 1, m.dst, e.seqno, m.src, back);
    AddPrecursorSound(n, m.dst, back);
    AddPrecursorSound(n2, m.src, e.nexthop);
    assert EntryOk(e);
    assert RankOf(n3, m.dst) == EntryRank(e);
    SendOneSound(n3, reply);
    hide Sound;
    SoundThen(n, n2, Outcome(n3, []), {}, {});
    SoundThen(n, n3, Outcome(n3, [reply]), {}, {});
  }

  lemma ForwardRequestSound(n: Node, m: Msg, dstSeqno: nat)
    requires NodeOk(n) && MsgOk(m) && m.Rreq?
    requires AtLeast(RankOf(n, m.src), Rank(m.srcSeqno, Fin(m.hops)))
    ensures Sound(n, Outcome(n, [Rreq(n.id, m.hops + 1, m.bid, m.dst, dstSeqno, m.src, m.srcSeqno)]), {})
  {
    var f := Rreq(n.id, m.hops + 1, m.bid, m.dst, dstSeqno, m.src, m.srcSeqno);
    SendOneSound(n, f);
  }

  lemma RecvRequestSound(n: Node, m: Msg)
    requires NodeOk(n) && MsgOk(m) && m.Rreq?
    ensures Sound(n, RecvRequest(n, m), {m})
  {
    if m.src == n.id || (m.src, m.bid) in n.seen {
      NothingSound(n, {m});
    } else {
      FreshRequestSound(n, m);
    }
  }

  lemma NothingSound(n: Node, heard: set<Msg>)
    requires NodeOk(n)
    ensures Sound(n, Outcome(n, []), heard)
  {
  }

  lemma FreshRequestSound(n: Node, m: Msg)
    requires NodeOk(n) && MsgOk(m) && m.Rreq? && m.src != n.id && (m.src, m.bid) !in n.seen
    ensures Sound(n, RecvRequest(n, m), {m})
  {
    hide Sound, ReverseRoute;
    ReverseRouteSound(n, m);
    var n1 := ReverseRoute(n, m);
    var out := RecvRequest(n, m);
    if m.dst == n.id {
      AnswerAsDestinationSound(n1, m, n1.rt[m.src].nexthop);
    } else if CanAnswer(n1, m) {
      AnswerFromTableSound(n1, m, n1.rt[m.src].nexthop);
    } else {
      ForwardRequestSound(n1, m, if m.dst in n1.rt then Max(n1.rt[m.dst].seqno, m.dstSeqno) else m.dstSeqno);
    }
    SoundThen(n, n1, out, {m}, {});
  }

  lemma ForwardReplySound(n: Node, m: Msg, back: Addr)
    requires NodeOk(n) && MsgOk(m) && m.Rrep? && m.dst in n.rt
    requires AtLeast(RankOf(n, m.dst), Rank(m.dstSeqno, Fin(m.hops)))
    ensures Sound(n, Outcome(AddPrecursor(n, m.dst, back),
                             [Rrep(n.id, m.hops + 1, m.dst, m.dstSeqno, m.ipdst, back)]), {})
  {
    var n1 := AddPrecursor(n, m.dst, back);
    var f := Rrep(n.id, m.hops + 1, m.dst, m.dstSeqno, m.ipdst, back);
    AddPrecursorSound(n, m.dst, back);
    SendOneSound(n1, f);
    hide Sound;
    SoundThen(n, n1, Outcome(n1, [f]), {}, {});
  }

  /** recvReply either stops after considering the offer or passes the reply on. */
  lemma RecvReplyShape(n: Node, m: Msg)
    requires m.Rrep?
    ensures var o := Offer(m.sender, m.dst, m.dstSeqno, m.hops);
      var n2 := Consider(EnsureEntry(n, m.dst), o);
      var out := RecvReply(n, m);
      out.sent != [] ==>
        m.ipdst in n2.rt && out == Outcome(AddPrecursor(n2, m.dst, n2.rt[m.ipdst].nexthop),
          [Rrep(n.id, m.hops + 1, m.dst, m.dstSeqno, m.ipdst, n2.rt[m.ipdst].nexthop)])
    ensures var o := Offer(m.sender, m.dst, m.dstSeqno, m.hops);
      RecvReply(n, m).sent == [] ==> RecvReply(n, m).node == Consider(EnsureEntry(n, m.dst), o)
  {
  }

  lemma RecvReplySound(n: Node, m: Msg)
    requires NodeOk(n) && MsgOk(m) && m.Rrep?
    ensures Sound(n, RecvReply(n, m), {m})
  {
    var n1 := EnsureEntry(n, m.dst);
    var o := Offer(m.sender, m.dst, m.dstSeqno, m.hops);
    var n2 := Consider(n1, o);
    var out := RecvReply(n, m);
    RecvReplyShape(n, m);
    EnsureEntrySound(n, m.dst);
    assert IsOffer(m, o) && NodeOk(n1) && m.dst in n1.rt;
    hide RecvReply, EnsureEntry;
    ConsiderSound(n1, m, o);
    assert NodeOk(n2) && m.dst in n2.rt && n2.id == n.id;
    hide *;
    SoundWiden(n, Outcome(n1, []), {}, {m});
    SoundThen(n, n1, Outcome(n2, []), {m}, {m});
    if out.sent != [] {
      ForwardReplySound(n2, m, n2.rt[m.ipdst].nexthop);
      SoundThen(n, n2, out, {m}, {});
    } else {
      assert out == Outcome(n2, []);
    }
  }

  lemma ApplyErrorSound(n: Node, from: Addr, item: (Addr, nat))
    requires NodeOk(n) && DeadSeqno(item.1)
    ensures Sound(n, Outcome(ApplyError(n, from, item).0, []), {})
    ensures forall k :: 0 <= k < |ApplyError(n, from, item).1| ==> DeadSeqno(ApplyError(n, from, item).1[k].1)
    // parity makes the `<=` of the guard a strict rise
    ensures ErrorApplies(n, from, item) ==>
      var e := ApplyError(n, from, item).0.rt[item.0];
      n.rt[item.0].flags != Down && n.rt[item.0].seqno < e.seqno && e.flags == Down
  {
  }

  lemma {:induction false} ApplyErrorsSound(n: Node, from: Addr, items: seq<(Addr, nat)>)
    requires NodeOk(n)
    requires forall k :: 0 <= k < |items| ==> DeadSeqno(items[k].1)
    ensures Sound(n, Outcome(ApplyErrors(n, from, items).0, []), {})
    ensures forall k :: 0 <= k < |ApplyErrors(n, from, items).1| ==> DeadSeqno(ApplyErrors(n, from, items).1[k].1)
  {
    if items != [] {
      var last := |items| - 1;
      ApplyErrorsSound(n, from, items[..last]);
      var n1 := ApplyErrors(n, from, items[..last]).0;
      ApplyErrorSound(n1, from, items[last]);
      SoundComposes(n, Outcome(n1, []), Outcome(ApplyError(n1, from, items[last]).0, []), {});
    }
  }

  lemma RecvErrorSound(n: Node, m: Msg)
    requires NodeOk(n) && MsgOk(m) && m.Rerr?
    ensures Sound(n, RecvError(n, m), {m})
  {
    ApplyErrorsSound(n, m.sender, m.unreachable);
    var out := RecvError(n, m);
    assert Sound(n, out, {});
    SoundWiden(n, out, {}, {m});
  }

  lemma {:induction false} BrokenAreDead(rt: map<Addr, Entry>, order: seq<Addr>, nb: Addr)
    requires forall d :: d in order ==> d in rt && EntryOk(rt[d])
    ensures forall k :: 0 <= k < |Broken(rt, order, nb)| ==> DeadSeqno(Broken(rt, order, nb)[k].1)
  {
    if order != [] {
      BrokenAreDead(rt, order[..|order| - 1], nb);
    }
  }

  lemma FailEntryOk(e: Entry, nb: Addr)
    requires EntryOk(e)
    ensures var f := FailEntry(e, nb);
      && EntryOk(f) && AtLeast(EntryRank(f), EntryRank(e))
      && (f.flags == Up ==> e.flags == Up && e.hops == f.hops && e.seqno == f.seqno && e.nexthop == f.nexthop)
      && (Uses(e, nb) ==> e.seqno < f.seqno)
  {
  }

  lemma NeighborLostSound(n: Node, nb: Addr)
    requires NodeOk(n)
    ensures Sound(n, NeighborLost(n, nb), {})
  {
    BrokenAreDead(n.rt, n.order, nb);
    forall d | d in n.rt
      ensures var e, f := n.rt[d], FailEntry(n.rt[d], nb);
        && EntryOk(f) && AtLeast(EntryRank(f), EntryRank(e))
        && (f.flags == Up ==> e.flags == Up && e.hops == f.hops && e.seqno == f.seqno && e.nexthop == f.nexthop)
    {
      FailEntryOk(n.rt[d], nb);
    }
    hide FailEntry, Broken, EntryOk, AtLeast;
    var out := NeighborLost(n, nb);
    assert out.node.rt == FailTable(n.rt, nb);
    forall d ensures AtLeast(RankOf(out.node, d), RankOf(n, d)) {
      AtLeastItself(RankOf(n, d));
    }
  }

  /** Taking a live entry down is sound when its number goes up to a dead one. */
  lemma TakeDownSound(n: Node, d: Addr, s: nat)
    requires NodeOk(n) && d in n.rt && n.rt[d].flags == Up && n.rt[d].seqno < s && DeadSeqno(s)
    ensures Sound(n, Outcome(n.(rt := n.rt[d := TakeDown(n.rt[d].(seqno := s))]), []), {})
  {
  }

  lemma PurgeOneSound(n: Node, d: Addr, expired: set<Addr>, waiting: set<Addr>)
    requires NodeOk(n) && d in n.rt
    ensures Sound(n, PurgeOne(n, d, expired, waiting), {})
  {
    var e := n.rt[d];
    assert EntryOk(e);
    if e.flags == Up && d in expired {
      TakeDownSound(n, d, e.seqno + 1);
    } else if e.flags != Up && d in waiting {
      SendRequestSound(n, d);
    }
  }

  lemma {:induction false} PurgeAllSound(n: Node, ds: seq<Addr>, expired: set<Addr>, waiting: set<Addr>)
    requires NodeOk(n) && forall d :: d in ds ==> d in n.rt
    ensures Sound(n, PurgeAll(n, ds, expired, waiting), {})
  {
    if ds != [] {
      var init, d := ds[..|ds| - 1], ds[|ds| - 1];
      PurgeAllSound(n, init, expired, waiting);
      var o1 := PurgeAll(n, init, expired, waiting);
      assert d in ds;
      PurgeOneSound(o1.node, d, expired, waiting);
      SoundComposes(n, o1, PurgeOne(o1.node, d, expired, waiting), {});
    }
  }

  lemma ResolveSound(n: Node, d: Addr, source: Addr)
    requires NodeOk(n)
    ensures Sound(n, Resolve(n, d, source), {})
  {
    hide RoutesFrom, SendRequest, AtLeast;
    var n1 := EnsureEntry(n, d);
    EnsureEntrySound(n, d);
    if n1.rt[d].flags != Up && source == n.id {
      SendRequestSound(n1, d);
      SoundComposes(n, Outcome(n1, []), SendRequest(n1, d), {});
      assert [] + SendRequest(n1, d).sent == SendRequest(n1, d).sent;
    }
  }

  /** The repair timer keeps the order of route information exactly if it does not find
      a route under repair that still has a hop count. */
  ghost predicate TimerIsHarmless(n: Node, d: Addr) {
    d in n.rt ==> n.rt[d].flags != InRepair || n.rt[d].hops.Inf?
  }

  lemma StartRepairSound(n: Node, d: Addr)
    requires NodeOk(n) && d in n.rt && n.rt[d].hops.Fin?
    ensures Sound(n, StartRepair(n, d), {})
  {
    var n1 := n.(rt := n.rt[d := n.rt[d].(flags := InRepair)]);
    assert EntryOk(n.rt[d]);
    forall x ensures AtLeast(RankOf(n1, x), RankOf(n, x)) {
      AtLeastItself(RankOf(n, x));
    }
    SendRequestSound(n1, d);
    hide Sound;
    SoundThen(n, n1, SendRequest(n1, d), {}, {});
  }

  lemma LinkLayerFailedSound(n: Node, d: Addr, nb: Addr, forwards: nat)
    requires NodeOk(n)
    ensures Sound(n, LinkLayerFailed(n, d, nb, forwards), {})
  {
    if d in n.rt {
      if n.rt[d].hops.Fin? && forwards > n.rt[d].hops.n {
        StartRepairSound(n, d);
      } else {
        NeighborLostSound(n, nb);
      }
    }
  }

  lemma RepairTimerSound(n: Node, d: Addr)
    requires NodeOk(n) && TimerIsHarmless(n, d)
    ensures Sound(n, RepairTimer(n, d), {})
  {
    assert d in n.rt ==> EntryOk(n.rt[d]);
    assert RepairTimer(n, d).node.rt == n.rt;
  }

  // ----- the step system

  datatype Event =
    | Deliver(m: Msg)
    | Lost(nb: Addr)
    | Expire(expired: set<Addr>, waiting: set<Addr>)
    | Data(dst: Addr, source: Addr)
    | LinkBreaks(dst: Addr, nb: Addr, forwards: nat)
    | RepairTimeout(dst: Addr)
    | SayHello
    | ForgetIds(ids: set<(Addr, nat)>)

  /** A reply goes to its next hop only; everything else is broadcast. */
  ghost predicate Enabled(net: Net, i: Addr, ev: Event) {
    ev.Deliver? ==> ev.m in net.msgs && (ev.m.Rrep? ==> ev.m.nexthop == i)
  }

  function Handle(n: Node, ev: Event): Outcome
    requires TableOk(n)
  {
    match ev
    case Deliver(m) =>
      (match m
       case Rreq(_, _, _, _, _, _, _) => RecvRequest(n, m)
       case Rrep(_, _, _, _, _, _) => RecvReply(n, m)
       case Rerr(_, _) => RecvError(n, m)
       case Hello(_, _) => RecvHello(n, m))
    case Lost(nb) => NeighborLost(n, nb)
    case Expire(expired, waiting) => Purge(n, expired, waiting)
    case Data(dst, source) => Resolve(n, dst, source)
    case LinkBreaks(dst, nb, forwards) => LinkLayerFailed(n, dst, nb, forwards)
    case RepairTimeout(dst) => RepairTimer(n, dst)
    case SayHello => SendHello(n)
    case ForgetIds(ids) => PurgeIds(n, ids)
  }

  ghost predicate StepBy(net: Net, net': Net, i: Addr, ev: Event) {
    && i in net.nodes && TableOk(net.nodes[i]) && Enabled(net, i, ev)
    && var out := Handle(net.nodes[i], ev);
       net' == Net(net.nodes[i := out.node], net.msgs + set m | m in out.sent)
  }

  /** How local repair is used: not at all; only with timers that find nothing to take
      down; or as it comes. */
  datatype Repair = Off | Timely | Unchecked

  ghost predicate Allowed(repair: Repair, n: Node, ev: Event) {
    match repair
    case Off => !ev.LinkBreaks? && !ev.RepairTimeout?
    case Timely => ev.RepairTimeout? ==> TimerIsHarmless(n, ev.dst)
    case Unchecked => true
  }

  ghost predicate Step(net: Net, net': Net, repair: Repair) {
    exists i, ev :: StepBy(net, net', i, ev) && Allowed(repair, net.nodes[i], ev)
  }

  ghost predicate Init(net: Net) {
    net.msgs == {} && forall i :: i in net.nodes ==> net.nodes[i] == InitNode(i)
  }

  ghost predicate Run(nets: seq<Net>, repair: Repair) {
    |nets| > 0 && Init(nets[0]) && forall k :: 0 <= k < |nets| - 1 ==> Step(nets[k], nets[k + 1], repair)
  }

  lemma HandleSound(n: Node, ev: Event)
    requires NodeOk(n) && (ev.Deliver? ==> MsgOk(ev.m)) && Allowed(Timely, n, ev)
    ensures Sound(n, Handle(n, ev), if ev.Deliver? then {ev.m} else {})
  {
    match ev
    case Deliver(m) =>
      match m {
        case Rreq(_, _, _, _, _, _, _) => RecvRequestSound(n, m);
        case Rrep(_, _, _, _, _, _) => RecvReplySound(n, m);
        case Rerr(_, _) => RecvErrorSound(n, m);
        case Hello(_, _) =>
      }
    case Lost(nb) => NeighborLostSound(n, nb);
    case Expire(expired, waiting) => PurgeAllSound(n, n.order, expired, waiting);
    case Data(dst, source) => ResolveSound(n, dst, source);
    case LinkBreaks(dst, nb, forwards) => LinkLayerFailedSound(n, dst, nb, forwards);
    case RepairTimeout(dst) => RepairTimerSound(n, dst);
    case SayHello =>
    case ForgetIds(_) =>
  }

  lemma StepSound(net: Net, net': Net, i: Addr, ev: Event)
    requires Inv(net) && StepBy(net, net', i, ev) && Allowed(Timely, net.nodes[i], ev)
    ensures Sound(net.nodes[i], Handle(net.nodes[i], ev), net.msgs)
  {
    HandleSound(net.nodes[i], ev);
    SoundWiden(net.nodes[i], Handle(net.nodes[i], ev), if ev.Deliver? then {ev.m} else {}, net.msgs);
  }

  lemma OfferSurvives(net: Net, net': Net, i: Addr, ev: Event, o: Offer)
    requires Inv(net) && StepBy(net, net', i, ev) && Allowed(Timely, net.nodes[i], ev) && OfferHolds(net, o)
    ensures OfferHolds(net', o)
  {
    StepSound(net, net', i, ev);
    if o.from == i {
      ImprovesKeepsVouching(net.nodes[i], net'.nodes[i], o);
    }
  }

  lemma StepKeepsInv(net: Net, net': Net, i: Addr, ev: Event)
    requires Inv(net) && StepBy(net, net', i, ev) && Allowed(Timely, net.nodes[i], ev)
    ensures Inv(net')
  {
    StepSound(net, net', i, ev);
    var n := net.nodes[i];
    var out := Handle(n, ev);
    forall m | m in net'.msgs ensures MsgOk(m) && OffersHold(net', m) {
      if m in net.msgs {
        forall o | IsOffer(m, o) ensures OfferHolds(net', o) {
          OfferSurvives(net, net', i, ev, o);
        }
      } else {
        var k :| 0 <= k < |out.sent| && out.sent[k] == m;
      }
    }
    forall j, d | j in net'.nodes && d in net'.nodes[j].rt && net'.nodes[j].rt[d].flags == Up
      ensures OfferHolds(net', RouteOffer(net'.nodes[j], d))
    {
      var o := RouteOffer(net'.nodes[j], d);
      if j == i && !(d in n.rt && n.rt[d].flags == Up && RouteOffer(n, d) == o) {
        var m :| m in net.msgs && IsOffer(m, o);
        assert OffersHold(net, m);
      } else {
        assert o == RouteOffer(net.nodes[j], d);
      }
      assert OfferHolds(net, o);
      OfferSurvives(net, net', i, ev, o);
    }
  }

  /** A run of more than one state is a shorter run and one more step. */
  lemma RunUnfolds(nets: seq<Net>, repair: Repair)
    requires Run(nets, repair) && |nets| > 1
    ensures var p := |nets| - 2;
      && Run(nets[..p + 1], repair) && nets[..p + 1][|nets[..p + 1]| - 1] == nets[p]
      && Step(nets[p], nets[p + 1], repair)
  {
    hide Step, Init;
    var p := |nets| - 2;
    assert Step(nets[p], nets[p + 1], repair);
    var init := nets[..p + 1];
    forall k | 0 <= k < |init| - 1 ensures Step(init[k], init[k + 1], repair) {
      assert Step(nets[k], nets[k + 1], repair);
    }
  }

  lemma {:induction false} RunKeepsInv(nets: seq<Net>, repair: Repair)
    requires Run(nets, repair) && repair != Unchecked
    ensures Inv(nets[|nets| - 1])
  {
    if |nets| > 1 {
      var k := |nets| - 2;
      RunUnfolds(nets, repair);
      RunKeepsInv(nets[..k + 1], repair);
      var i, ev :| StepBy(nets[k], nets[k + 1], i, ev) && Allowed(repair, nets[k].nodes[i], ev);
      hide Inv, StepBy, Run;
      StepKeepsInv(nets[k], nets[k + 1], i, ev);
    }
  }

  // ----- without local repair no route is ever under repair

  lemma {:induction false} ApplyErrorsSettled(n: Node, from: Addr, items: seq<(Addr, nat)>)
    requires Settled(n)
    ensures Settled(ApplyErrors(n, from, items).0)
  {
    if items != [] {
      ApplyErrorsSettled(n, from, items[..|items| - 1]);
    }
  }

  lemma {:induction false} PurgeAllSettled(n: Node, ds: seq<Addr>, expired: set<Addr>, waiting: set<Addr>)
    requires Settled(n) && forall d :: d in ds ==> d in n.rt
    ensures Settled(PurgeAll(n, ds, expired, waiting).node)
  {
    if ds != [] {
      PurgeAllSettled(n, ds[..|ds| - 1], expired, waiting);
    }
  }

  lemma RecvRequestSettled(n: Node, m: Msg)
    requires Settled(n) && m.Rreq?
    ensures Settled(RecvRequest(n, m).node)
  {
    assert Settled(ReverseRoute(n, m));
    hide ReverseRoute, EnsureEntry;
  }

  lemma RecvReplySettled(n: Node, m: Msg)
    requires Settled(n) && m.Rrep?
    ensures Settled(RecvReply(n, m).node)
  {
    RecvReplyShape(n, m);
    hide RecvReply;
  }

  lemma LostSettled(n: Node, nb: Addr)
    requires TableOk(n) && Settled(n)
    ensures Settled(NeighborLost(n, nb).node)
  {
    hide Broken, TableOk;
  }

  lemma HandleSettled(n: Node, ev: Event)
    requires TableOk(n) && Settled(n) && Allowed(Off, n, ev)
    ensures Settled(Handle(n, ev).node)
  {
    hide RecvRequest, RecvReply, NeighborLost, ApplyErrors, PurgeAll, TableOk;
    match ev
    case Deliver(m) =>
      match m {
        case Rreq(_, _, _, _, _, _, _) => RecvRequestSettled(n, m);
        case Rrep(_, _, _, _, _, _) => RecvReplySettled(n, m);
        case Rerr(_, _) => ApplyErrorsSettled(n, m.sender, m.unreachable);
        case Hello(_, _) =>
      }
    case Lost(nb) => LostSettled(n, nb);
    case Expire(expired, waiting) => PurgeExpiresSettled(n, expired, waiting);
    case Data(dst, source) =>
    case SayHello =>
    case ForgetIds(_) =>
  }

  lemma PurgeExpiresSettled(n: Node, expired: set<Addr>, waiting: set<Addr>)
    requires TableOk(n) && Settled(n)
    ensures Settled(Purge(n, expired, waiting).node)
  {
    PurgeAllSettled(n, n.order, expired, waiting);
  }

  ghost predicate AllSettled(net: Net) {
    forall i :: i in net.nodes ==> Settled(net.nodes[i])
  }

  lemma {:induction false} OffRunIsSettled(nets: seq<Net>)
    requires Run(nets, Off)
    ensures AllSettled(nets[|nets| - 1])
  {
    if |nets| > 1 {
      var k := |nets| - 2;
      RunUnfolds(nets, Off);
      OffRunIsSettled(nets[..k + 1]);
      var i, ev :| StepBy(nets[k], nets[k + 1], i, ev) && Allowed(Off, nets[k].nodes[i], ev);
      HandleSettled(nets[k].nodes[i], ev);
    }
  }

  // ----- main results

  /** `path` follows live next hops towards `d`, stopping at `d`. */
  ghost predicate FollowsRoutes(net: Net, d: Addr, path: seq<Addr>) {
    forall k :: 0 <= k < |path| - 1 ==>
      && path[k] != d
      && path[k] in net.nodes
      && d in net.nodes[path[k]].rt
      && net.nodes[path[k]].rt[d].flags == Up
      && net.nodes[path[k]].rt[d].nexthop == path[k + 1]
  }

  lemma HopClimbs(net: Net, d: Addr, i: Addr)
    requires Inv(net) && i in net.nodes && d in net.nodes[i].rt && net.nodes[i].rt[d].flags == Up
    ensures var nh := net.nodes[i].rt[d].nexthop;
      nh in net.nodes && (nh != d ==> Better(RankOf(net.nodes[nh], d), RankOf(net.nodes[i], d)))
  {
    var n := net.nodes[i];
    assert EntryOk(n.rt[d]);
    var o := RouteOffer(n, d);
    assert OfferHolds(net, o);
    if o.from != d {
      BetterIsTransitive(RankOf(net.nodes[o.from], d), Rank(o.seqno, Fin(o.hops - 1)), RankOf(n, d));
    }
  }

  lemma NoCycleIn(net: Net, d: Addr, path: seq<Addr>, i: nat, j: nat)
    requires Inv(net) && FollowsRoutes(net, d, path) && i < j < |path| && path[j] != d
    ensures path[i] != path[j]
  {
    hide Inv, RankOf, Better;
    var rank := (a: Addr) => if a in net.nodes then RankOf(net.nodes[a], d) else NO_INFO;
    forall k | 0 <= k < j ensures Better(rank(path[k + 1]), rank(path[k])) {
      assert path[k + 1] != d by { assert k + 1 == j || path[k + 1] != d; }
      HopClimbs(net, d, path[k]);
    }
    ClimbingWalkIsSimple(path, rank, i, j);
  }

  /** Loop freedom: in every reachable state, for every destination, following
      next hops never visits a node twice; without local repair, and with it as long
      as no repair timer finds a route still under repair. */
  lemma LoopFreedom(nets: seq<Net>, repair: Repair, d: Addr, path: seq<Addr>, i: nat, j: nat)
    requires Run(nets, repair) && repair != Unchecked && FollowsRoutes(nets[|nets| - 1], d, path) && i < j < |path|
    ensures path[i] != path[j]
  {
    hide Step, Init, Inv;
    RunKeepsInv(nets, repair);
    assert path[i] != d;
    if path[j] != d {
      NoCycleIn(nets[|nets| - 1], d, path, i, j);
    }
  }

  /** Parity and flags: in every reachable state a live entry has an even
      sequence number and a usable hop count, and so has one under repair; a dead one
      has number 0 or odd and no hop count; own sequence numbers are even, and an error
      names only dead numbers. */
  lemma ParityDiscipline(nets: seq<Net>, repair: Repair, i: Addr)
    requires Run(nets, repair) && repair != Unchecked && i in nets[|nets| - 1].nodes
    ensures var n := nets[|nets| - 1].nodes[i];
      && n.seqno % 2 == 0
      && (forall d :: d in n.rt && n.rt[d].flags != Down ==> n.rt[d].seqno % 2 == 0 && n.rt[d].hops.Fin?)
      && (forall d :: d in n.rt && n.rt[d].flags == Down ==>
            (n.rt[d].seqno == 0 || n.rt[d].seqno % 2 == 1) && n.rt[d].hops.Inf?)
    ensures forall m, k :: m in nets[|nets| - 1].msgs && m.Rerr? && 0 <= k < |m.unreachable| ==>
      m.unreachable[k].1 == 0 || m.unreachable[k].1 % 2 == 1
  {
    RunKeepsInv(nets, repair);
    var net := nets[|nets| - 1];
    assert NodeOk(net.nodes[i]);
    forall d | d in net.nodes[i].rt ensures EntryOk(net.nodes[i].rt[d]) {
    }
    forall m, k | m in net.msgs && m.Rerr? && 0 <= k < |m.unreachable| ensures DeadSeqno(m.unreachable[k].1) {
      assert MsgOk(m);
    }
  }

  /** Without local repair every node and every message in flight meet, in a reachable
      state, what the handlers of the agent require, so their assertions hold. */
  lemma HandlersMayRun(nets: seq<Net>, i: Addr, m: Msg, nb: Addr)
    requires Run(nets, Off) && i in nets[|nets| - 1].nodes && m in nets[|nets| - 1].msgs
    ensures NodeOk(nets[|nets| - 1].nodes[i]) && MsgOk(m)
    ensures m.Rrep? ==> !ReplyMeetsRepair(nets[|nets| - 1].nodes[i], m)
    ensures m.Rerr? ==> forall k :: 0 <= k < |m.unreachable| ==>
      !ErrorMeetsRepair(nets[|nets| - 1].nodes[i], m.sender, m.unreachable[k])
    ensures !LossMeetsRepair(nets[|nets| - 1].nodes[i], nb)
  {
    RunKeepsInv(nets, Off);
    OffRunIsSettled(nets);
  }

  lemma ImprovesComposes(a: Node, b: Node, c: Node)
    requires Improves(a, b) && Improves(b, c)
    ensures Improves(a, c)
  {
    forall d ensures AtLeast(RankOf(c, d), RankOf(a, d)) {
      assert AtLeast(RankOf(b, d), RankOf(a, d));
      assert AtLeast(RankOf(c, d), RankOf(b, d));
    }
  }

  lemma StepImproves(net: Net, net': Net, repair: Repair, i: Addr)
    requires Inv(net) && Step(net, net', repair) && repair != Unchecked && i in net.nodes
    ensures i in net'.nodes && Improves(net.nodes[i], net'.nodes[i])
  {
    var j, ev :| StepBy(net, net', j, ev) && Allowed(repair, net.nodes[j], ev);
    StepSound(net, net', j, ev);
  }

  lemma ImprovesItself(n: Node)
    ensures Improves(n, n)
  {
    forall d ensures AtLeast(RankOf(n, d), RankOf(n, d)) {
      AtLeastItself(RankOf(n, d));
    }
  }

  lemma LastStepImproves(nets: seq<Net>, repair: Repair, k: nat, i: Addr)
    requires Run(nets, repair) && repair != Unchecked && k < |nets| - 1 && i in nets[k].nodes
    requires var p := |nets| - 2;
      i in nets[p].nodes && Improves(nets[k].nodes[i], nets[p].nodes[i])
    ensures i in nets[|nets| - 1].nodes && Improves(nets[k].nodes[i], nets[|nets| - 1].nodes[i])
  {
    hide Improves, Inv, Run, Step;
    var p := |nets| - 2;
    RunUnfolds(nets, repair);
    RunKeepsInv(nets[..p + 1], repair);
    StepImproves(nets[p], nets[p + 1], repair, i);
    ImprovesComposes(nets[k].nodes[i], nets[p].nodes[i], nets[p + 1].nodes[i]);
  }

  /** Over a whole run no node forgets: its own number never falls, and for every
      destination the pair (sequence number, hops) never gets staler. */
  lemma {:induction false} KnowledgeOnlyImproves(nets: seq<Net>, repair: Repair, k: nat, i: Addr)
    requires Run(nets, repair) && repair != Unchecked && k < |nets| && i in nets[k].nodes
    ensures i in nets[|nets| - 1].nodes && Improves(nets[k].nodes[i], nets[|nets| - 1].nodes[i])
    decreases |nets|
  {
    hide Improves, Run, Step;
    if k == |nets| - 1 {
      ImprovesItself(nets[k].nodes[i]);
    } else {
      RunUnfolds(nets, repair);
      KnowledgeOnlyImproves(nets[..|nets| - 1], repair, k, i);
      LastStepImproves(nets, repair, k, i);
    }
  }

  /** An invalidation strictly raises the sequence number of the entry. */
  lemma InvalidationRaisesSeqno(nets: seq<Net>, repair: Repair, i: Addr, ev: Event, next: Net, d: Addr)
    requires Run(nets, repair) && repair != Unchecked
    requires StepBy(nets[|nets| - 1], next, i, ev) && Allowed(repair, nets[|nets| - 1].nodes[i], ev)
    requires d in nets[|nets| - 1].nodes[i].rt && nets[|nets| - 1].nodes[i].rt[d].flags != Down
    requires d in next.nodes[i].rt ==> next.nodes[i].rt[d].flags == Down
    ensures d in next.nodes[i].rt && nets[|nets| - 1].nodes[i].rt[d].seqno < next.nodes[i].rt[d].seqno
  {
    var net := nets[|nets| - 1];
    RunKeepsInv(nets, repair);
    StepSound(net, next, i, ev);
    assert AtLeast(RankOf(next.nodes[i], d), RankOf(net.nodes[i], d));
    assert EntryOk(net.nodes[i].rt[d]);
    assert d in next.nodes[i].rt ==> EntryOk(next.nodes[i].rt[d]);
  }
}
