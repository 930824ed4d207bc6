/** A network of AOMDV nodes as a step system, and the proof that the graph of
    all stored paths is acyclic for every destination.  Messages stay in `msgs`
    for ever, so they can be delivered late, out of order, repeatedly, or never. */
module AomdvNetwork {
  import opened Freshness
  import opened AomdvSpec
  import opened AomdvEntries

  datatype Net = Net(nodes: map<Addr, Node>, msgs: set<Msg>)

  /** `from` advertises that it reaches `dst` in `hops` hops under `seqno`. */
  datatype Offer = Offer(from: Addr, dst: Addr, seqno: nat, hops: nat)

  ghost predicate NodeOk(n: Node) {
    && TableOk(n)
    && LiveSeqno(n.seqno)
    && (forall d :: d in n.rt ==> EntryOk(n.rt[d], n.cfg))
  }

  ghost predicate IsOffer(m: Msg, o: Offer) {
    match m
    case Rreq(sender, hops, _, _, _, src, srcSeqno, _) => o == Offer(sender, src, srcSeqno, hops)
    case Rrep(sender, hops, dst, dstSeqno, _, _, _, _) => o == Offer(sender, dst, dstSeqno, hops)
    case Rerr(_, _) => false
    case Hello(sender, s) => o == Offer(sender, sender, s, 0)
  }

  ghost predicate MsgOk(m: Msg) {
    match m
    case Rreq(_, _, _, _, _, _, srcSeqno, _) => LiveSeqno(srcSeqno)
    case Rrep(_, _, _, dstSeqno, _, _, _, _) => LiveSeqno(dstSeqno)
    case Rerr(_, unreachable) => forall k :: 0 <= k < |unreachable| ==> DeadSeqno(unreachable[k].1)
    case Hello(_, s) => LiveSeqno(s)
  }

  /** The offer is what `n` advertises now: zero hops about itself, otherwise
      its advertised hop count under its present number. */
  ghost predicate Current(n: Node, o: Offer) {
    if o.dst == o.from then o.hops == 0
    else o.hops >= 1 && EntryOf(n, o.dst).seqno == o.seqno && EntryOf(n, o.dst).advertised == Fin(o.hops)
  }

  /** The offer is current, or `n` has moved on to a newer number since. */
  ghost predicate Vouches(n: Node, o: Offer) {
    if o.dst == o.from then o.hops == 0
    else o.hops >= 1 && (o.seqno < EntryOf(n, o.dst).seqno || Current(n, o))
  }

  ghost predicate OfferHolds(net: Net, o: Offer) {
    o.from in net.nodes && Vouches(net.nodes[o.from], o)
  }

  ghost predicate Offered(msgs: set<Msg>, o: Offer) {
    exists m :: m in msgs && IsOffer(m, o)
  }

  /** A stored path, read as an offer of its next hop. */
  ghost predicate PathOffered(msgs: set<Msg>, d: Addr, seqno: nat, p: Path) {
    p.hops >= 1 && Offered(msgs, Offer(p.nexthop, d, seqno, p.hops - 1))
  }

  ghost predicate NodesOk(net: Net) {
    forall i :: i in net.nodes ==> net.nodes[i].id == i && NodeOk(net.nodes[i])
  }

  ghost predicate MsgsOk(net: Net) {
    (forall m :: m in net.msgs ==> MsgOk(m)) && (forall o :: Offered(net.msgs, o) ==> OfferHolds(net, o))
  }

  predicate SameSubject(o1: Offer, o2: Offer) {
    o1.from == o2.from && o1.dst == o2.dst && o1.seqno == o2.seqno
  }

  /** One advertisement per sequence number: a node never offers two different
      hop counts to the same destination under the same number. */
  ghost predicate OneHopCount(msgs: set<Msg>) {
    forall o1, o2 :: (Offered(msgs, o1) && Offered(msgs, o2) && SameSubject(o1, o2)) ==> o1 == o2
  }

  ghost predicate PathsOffered(net: Net) {
    forall i, d, p :: i in net.nodes && p in EntryOf(net.nodes[i], d).paths
      ==> PathOffered(net.msgs, d, EntryOf(net.nodes[i], d).seqno, p)
  }

  ghost predicate Inv(net: Net) {
    NodesOk(net) && MsgsOk(net) && OneHopCount(net.msgs) && PathsOffered(net)
  }

  // ----- the local condition on handlers

  ghost predicate Moves(n: Node, n': Node) {
    && n'.id == n.id && n'.cfg == n.cfg && n.seqno <= n'.seqno
    && forall d :: Evolves(EntryOf(n, d), EntryOf(n', d))
  }

  /** Every path of `n'` is one `n` has under the same number, or was heard. */
  ghost predicate PathsHeard(n: Node, n': Node, heard: set<Msg>) {
    forall d, p :: p in EntryOf(n', d).paths ==>
      || (p in EntryOf(n, d).paths && EntryOf(n', d).seqno == EntryOf(n, d).seqno)
      || PathOffered(heard, d, EntryOf(n', d).seqno, p)
  }

  ghost predicate SendsOk(n: Node, sent: seq<Msg>) {
    forall k :: 0 <= k < |sent| ==>
      MsgOk(sent[k]) && forall o :: IsOffer(sent[k], o) ==> o.from == n.id && Current(n, o)
  }

  ghost predicate Sound(n: Node, out: Outcome, heard: set<Msg>) {
    NodeOk(out.node) && Moves(n, out.node) && PathsHeard(n, out.node, heard) && SendsOk(out.node, out.sent)
  }

  lemma EntryOfOk(n: Node, d: Addr)
    requires NodeOk(n)
    ensures EntryOk(EntryOf(n, d), n.cfg)
  {
  }

  lemma EvolvesTransitive(a: Entry, b: Entry, c: Entry)
    requires Evolves(a, b) && Evolves(b, c)
    ensures Evolves(a, c)
  {
  }

  lemma MovesComposes(a: Node, b: Node, c: Node)
    requires Moves(a, b) && Moves(b, c)
    ensures Moves(a, c)
  {
    forall d ensures Evolves(EntryOf(a, d), EntryOf(c, d)) {
      assert Evolves(EntryOf(a, d), EntryOf(b, d)) && Evolves(EntryOf(b, d), EntryOf(c, d));
      EvolvesTransitive(EntryOf(a, d), EntryOf(b, d), EntryOf(c, d));
    }
  }

  lemma OfferedWiden(heard: set<Msg>, more: set<Msg>, o: Offer)
    requires heard <= more && Offered(heard, o)
    ensures Offered(more, o)
  {
    var m :| m in heard && IsOffer(m, o);
    assert m in more;
  }

  lemma SoundWiden(n: Node, out: Outcome, heard: set<Msg>, more: set<Msg>)
    requires Sound(n, out, heard) && heard <= more
    ensures Sound(n, out, more)
  {
    forall d, p | p in EntryOf(out.node, d).paths && PathOffered(heard, d, EntryOf(out.node, d).seqno, p)
      ensures PathOffered(more, d, EntryOf(out.node, d).seqno, p)
    {
      OfferedWiden(heard, more, Offer(p.nexthop, d, EntryOf(out.node, d).seqno, p.hops - 1));
    }
  }

  lemma PathsHeardComposes(a: Node, b: Node, c: Node, heard: set<Msg>)
    requires PathsHeard(a, b, heard) && PathsHeard(b, c, heard)
    ensures PathsHeard(a, c, heard)
  {
  }

  /** A silent step followed by another. */
  lemma SoundThen(n: Node, n1: Node, out: Outcome, heard: set<Msg>, heard1: set<Msg>)
    requires Sound(n, Outcome(n1, []), heard) && Sound(n1, out, heard1) && heard1 <= heard
    ensures Sound(n, out, heard)
  {
    SoundWiden(n1, out, heard1, heard);
    MovesComposes(n, n1, out.node);
    PathsHeardComposes(n, n1, out.node, heard);
    hide NodeOk, Moves, PathsHeard, SendsOk;
  }

  // ----- handlers are sound

  lemma EnsureEntrySound(n: Node, d: Addr)
    requires NodeOk(n)
    ensures Sound(n, Outcome(EnsureEntry(n, d), []), {})
  {
    var n' := EnsureEntry(n, d);
    if d !in n.rt {
      assert forall i :: 0 < i < |n'.order| ==> n'.order[i] == n.order[i - 1];
    }
  }

  /** Replacing one entry by an evolved one. */
  lemma ReplaceEntrySound(n: Node, d: Addr, e: Entry)
    requires NodeOk(n) && d in n.rt
    requires EntryOk(e, n.cfg) && Evolves(n.rt[d], e) && OnlyOldPaths(n.rt[d], e)
    ensures Sound(n, Outcome(n.(rt := n.rt[d := e]), []), {})
  {
  }

  /** Replacing one entry by one that took in the path a message offers. */
  lemma TakeOfferSound(n: Node, d: Addr, e: Entry, m: Msg, seqno: nat, p: Path)
    requires NodeOk(n) && d in n.rt && p.hops >= 1
    requires EntryOk(e, n.cfg) && Evolves(n.rt[d], e) && PathsFrom(n.rt[d], e, seqno, p)
    requires IsOffer(m, Offer(p.nexthop, d, seqno, p.hops - 1))
    ensures Sound(n, Outcome(n.(rt := n.rt[d := e]), []), {m})
  {
    assert m in {m} && IsOffer(m, Offer(p.nexthop, d, seqno, p.hops - 1));
    assert PathOffered({m}, d, seqno, p);
  }

  /** Changes outside the routing table. */
  lemma SameTableSound(n: Node, n': Node)
    requires NodeOk(n) && n'.id == n.id && n'.cfg == n.cfg && n'.rt == n.rt && n'.order == n.order
    requires n.seqno <= n'.seqno && LiveSeqno(n'.seqno)
    ensures Sound(n, Outcome(n', []), {})
  {
    forall d ensures EntryOf(n', d) == EntryOf(n, d) {
    }
  }

  lemma SendOneSound(n: Node, m: Msg)
    requires NodeOk(n) && MsgOk(m)
    requires forall o :: IsOffer(m, o) ==> o.from == n.id && Current(n, o)
    ensures Sound(n, Outcome(n, [m]), {})
  {
    SameTableSound(n, n);
  }

  lemma ReverseRouteSound(n: Node, m: Msg)
    requires NodeOk(n) && MsgOk(m) && m.Rreq?
    ensures var (n', v) := ReverseRoute(n, m);
      && Sound(n, Outcome(n', []), {m})
      && m.src in n'.rt && (m.src, m.bid) in n'.seen
      && (v.Kept? ==> n'.rt[m.src].flags == Up && n'.rt[m.src].seqno == m.srcSeqno)
  {
    var n0 := Remember(n, (m.src, m.bid));
    var n1 := EnsureEntry(n0, m.src);
    var p := ReversePath(n, m);
    SameTableSound(n, n0);
    EnsureEntrySound(n0, m.src);
    EntryOfOk(n1, m.src);
    OfferReverseOk(n1.rt[m.src], m.srcSeqno, p, n.cfg, m.dst == n.id);
    var (e, v) := OfferReverse(n1.rt[m.src], m.srcSeqno, p, n.cfg, m.dst == n.id);
    TakeOfferSound(n1, m.src, e, m, m.srcSeqno, p);
    var n2 := n1.(rt := n1.rt[m.src := e]);
    assert ReverseRoute(n, m) == (n2, v);
    hide Sound, OfferReverse, NodeOk, EntryOk, Evolves, PathsFrom, ReverseRoute;
    SoundThen(n, n0, Outcome(n1, []), {}, {});
    SoundWiden(n, Outcome(n1, []), {}, {m});
    SoundThen(n, n1, Outcome(n2, []), {m}, {m});
  }

  lemma AnswerAsDestinationSound(n: Node, m: Msg)
    requires NodeOk(n) && m.Rreq?
    ensures Sound(n, AnswerAsDestination(n, m), {})
  {
    var out := AnswerAsDestination(n, m);
    SameTableSound(n, out.node);
    SendOneSound(out.node, out.sent[0]);
    hide Sound;
    SoundThen(n, out.node, out, {}, {});
  }

  /** The node after it fixed its advertised hop count for `d`, and what it then
      may offer. */
  lemma AdvertiseSound(n: Node, d: Addr, err: bool)
    requires NodeOk(n) && d in n.rt && n.rt[d].flags == Up
    ensures var e := Advertise(n.rt[d]).(error := err);
      && Sound(n, Outcome(n.(rt := n.rt[d := e]), []), {})
      && e.advertised.Fin? && e.advertised.n >= 1 && e.seqno == n.rt[d].seqno
      && LiveSeqno(e.seqno)
      && (n.id != d ==> Current(n.(rt := n.rt[d := e]), Offer(n.id, d, e.seqno, HopsOf(e.advertised))))
  {
    EntryOfOk(n, d);
    AdvertiseOk(n.rt[d], n.cfg);
    SetErrorOk(Advertise(n.rt[d]), n.cfg, err);
    var e := Advertise(n.rt[d]).(error := err);
    EvolvesTransitive(n.rt[d], Advertise(n.rt[d]), e);
    ReplaceEntrySound(n, d, e);
  }

  lemma AnswerFromTableSound(n: Node, m: Msg, usable: bool)
    requires NodeOk(n) && m.Rreq? && m.dst != n.id && CanAnswer(n, m)
    ensures Sound(n, AnswerFromTable(n, m, usable), {})
  {
    SameTableSound(n, n);
    var out := AnswerFromTable(n, m, usable);
    if out.sent != [] {
      AdvertiseSound(n, m.dst, true);
      var n1 := n.(rt := out.node.rt);
      SameTableSound(n1, out.node);
      SendOneSound(out.node, out.sent[0]);
      hide Sound;
      SoundThen(n, n1, Outcome(out.node, []), {}, {});
      SoundThen(n, out.node, out, {}, {});
    }
  }

  lemma RelayRequestSound(n: Node, m: Msg)
    requires NodeOk(n) && MsgOk(m) && m.Rreq? && m.src != n.id
    requires m.src in n.rt && n.rt[m.src].flags == Up && n.rt[m.src].seqno == m.srcSeqno
    ensures Sound(n, RelayRequest(n, m), {})
  {
    var out := RelayRequest(n, m);
    AdvertiseSound(n, m.src, n.rt[m.src].error);
    assert out.node.rt[m.src] == Advertise(n.rt[m.src]).(error := n.rt[m.src].error);
    SendOneSound(out.node, out.sent[0]);
    hide Sound;
    SoundThen(n, out.node, out, {}, {});
  }

  lemma RecvRequestSound(n: Node, m: Msg)
    requires NodeOk(n) && MsgOk(m) && m.Rreq?
    ensures Sound(n, RecvRequest(n, m), {m})
  {
    if m.src == n.id {
      SameTableSound(n, n);
      SoundWiden(n, Outcome(n, []), {}, {m});
    } else {
      ReverseRouteSound(n, m);
      var (n1, v) := ReverseRoute(n, m);
      var out := RecvRequest(n, m);
      assert NodeOk(n1) && n1.id == n.id;
      hide Sound, ReverseRoute, NodeOk;
      if v.Kept? && out != Outcome(n1, []) {
        if m.dst == n.id {
          AnswerAsDestinationSound(n1, m);
        } else if CanAnswer(n1, m) {
          AnswerFromTableSound(n1, m, v.usable);
        } else {
          RelayRequestSound(n1, m);
        }
        SoundThen(n, n1, out, {m}, {});
      }
    }
  }

  lemma RelayReplySound(n: Node, m: Msg)
    requires NodeOk(n) && MsgOk(m) && m.Rrep? && m.dst != n.id
    requires m.dst in n.rt && n.rt[m.dst].flags == Up && n.rt[m.dst].seqno == m.dstSeqno && CanRelayReply(n, m)
    ensures Sound(n, RelayReply(n, m), {})
  {
    var out := RelayReply(n, m);
    AdvertiseSound(n, m.dst, true);
    var n1 := n.(rt := out.node.rt);
    SameTableSound(n1, out.node);
    SendOneSound(out.node, out.sent[0]);
    hide Sound;
    SoundThen(n, n1, Outcome(out.node, []), {}, {});
    SoundThen(n, out.node, out, {}, {});
  }

  /** The node after it has weighed the offer of a reply. */
  function WeighReply(n: Node, m: Msg): (Node, bool)
    requires m.Rrep?
  {
    var n1 := EnsureEntry(n, m.dst);
    var (e, dropped) := OfferForward(n1.rt[m.dst], m.dstSeqno, Path(m.sender, m.hops + 1, m.firstHop), n.cfg);
    (n1.(rt := n1.rt[m.dst := e]), dropped)
  }

  lemma WeighReplySound(n: Node, m: Msg, heard: Msg)
    requires NodeOk(n) && MsgOk(m) && m.Rrep? && IsOffer(heard, Offer(m.sender, m.dst, m.dstSeqno, m.hops))
    ensures var (n', dropped) := WeighReply(n, m);
      && Sound(n, Outcome(n', []), {heard})
      && m.dst in n'.rt
      && (!dropped ==> n'.rt[m.dst].flags == Up && n'.rt[m.dst].seqno == m.dstSeqno)
  {
    hide Sound, NodeOk, OfferForward, EnsureEntry, IsOffer, MsgOk;
    var n1 := EnsureEntry(n, m.dst);
    EnsureEntrySound(n, m.dst);
    EnsureEntryOk(n, m.dst);
    WeighForwardSound(n1, m, heard);
    SoundWiden(n, Outcome(n1, []), {}, {heard});
    SoundThen(n, n1, Outcome(WeighReply(n, m).0, []), {heard}, {heard});
  }

  lemma EnsureEntryOk(n: Node, d: Addr)
    requires NodeOk(n)
    ensures NodeOk(EnsureEntry(n, d)) && d in EnsureEntry(n, d).rt && EnsureEntry(n, d).cfg == n.cfg
  {
    EnsureEntrySound(n, d);
  }

  /** The same once there is an entry for the destination. */
  lemma WeighForwardSound(n: Node, m: Msg, heard: Msg)
    requires NodeOk(n) && m.Rrep? && MsgOk(m) && m.dst in n.rt
    requires IsOffer(heard, Offer(m.sender, m.dst, m.dstSeqno, m.hops))
    ensures var (e, dropped) := OfferForward(n.rt[m.dst], m.dstSeqno, Path(m.sender, m.hops + 1, m.firstHop), n.cfg);
      && Sound(n, Outcome(n.(rt := n.rt[m.dst := e]), []), {heard})
      && (!dropped ==> e.flags == Up && e.seqno == m.dstSeqno)
  {
    hide Sound, OfferForward, NodeOk, EntryOk, Evolves, PathsFrom;
    var p := Path(m.sender, m.hops + 1, m.firstHop);
    EntryOfOk(n, m.dst);
    OfferForwardOk(n.rt[m.dst], m.dstSeqno, p, n.cfg);
    var e := OfferForward(n.rt[m.dst], m.dstSeqno, p, n.cfg).0;
    TakeOfferSound(n, m.dst, e, heard, m.dstSeqno, p);
  }

  /** `heard` is the reply itself, or the hello it stands for. */
  lemma RecvReplySound(n: Node, m: Msg, heard: Msg)
    requires NodeOk(n) && MsgOk(m) && m.Rrep? && IsOffer(heard, Offer(m.sender, m.dst, m.dstSeqno, m.hops))
    ensures Sound(n, RecvReply(n, m), {heard})
  {
    if m.dst == n.id {
      SameTableSound(n, n);
      SoundWiden(n, Outcome(n, []), {}, {heard});
    } else {
      WeighReplySound(n, m, heard);
      var (n2, dropped) := WeighReply(n, m);
      var out := RecvReply(n, m);
      assert out == if dropped || m.ipdst == n.id || !CanRelayReply(n2, m) then Outcome(n2, []) else RelayReply(n2, m);
      assert NodeOk(n2) && n2.id == n.id;
      hide Sound, WeighReply, NodeOk, RecvReply;
      if out != Outcome(n2, []) {
        RelayReplySound(n2, m);
        SoundThen(n, n2, out, {heard}, {});
      }
    }
  }

  lemma RecvHelloSound(n: Node, m: Msg)
    requires NodeOk(n) && MsgOk(m) && m.Hello?
    ensures Sound(n, RecvHello(n, m), {m})
  {
    var n1 := n.(nbs := n.nbs + {m.sender});
    SameTableSound(n, n1);
    RecvReplySound(n1, HelloAsReply(n, m), m);
    hide Sound, NodeOk;
    SoundWiden(n, Outcome(n1, []), {}, {m});
    SoundThen(n, n1, RecvHello(n, m), {m}, {m});
  }

  lemma ApplyErrorSound(n: Node, from: Addr, item: (Addr, nat))
    requires NodeOk(n) && DeadSeqno(item.1)
    ensures Sound(n, Outcome(ApplyError(n, from, item).0, []), {})
    ensures forall k :: 0 <= k < |ApplyError(n, from, item).1| ==> DeadSeqno(ApplyError(n, from, item).1[k].1)
  {
    SameTableSound(n, n);
    if item.0 in n.rt && ErrorApplies(n.rt[item.0], from, item.1) {
      EntryOfOk(n, item.0);
      HearErrorOk(n.rt[item.0], from, item.1, n.cfg);
      ReplaceEntrySound(n, item.0, HearError(n.rt[item.0], from, item.1));
      hide Sound, HearError, NodeOk;
    }
  }

  lemma NothingSound(n: Node)
    requires NodeOk(n)
    ensures Sound(n, Outcome(n, []), {})
  {
    SameTableSound(n, n);
  }

  lemma {:induction false} ApplyErrorsSound(n: Node, from: Addr, items: seq<(Addr, nat)>)
    requires NodeOk(n)
    requires forall k :: 0 <= k < |items| ==> DeadSeqno(items[k].1)
    ensures Sound(n, Outcome(ApplyErrors(n, from, items).0, []), {})
    ensures forall k :: 0 <= k < |ApplyErrors(n, from, items).1| ==> DeadSeqno(ApplyErrors(n, from, items).1[k].1)
  {
    hide NodeOk, ApplyError;
    if items == [] {
      NothingSound(n);
    } else {
      var last := |items| - 1;
      ApplyErrorsSound(n, from, items[..last]);
      var n1 := ApplyErrors(n, from, items[..last]).0;
      ApplyErrorSound(n1, from, items[last]);
      SoundThen(n, n1, Outcome(ApplyError(n1, from, items[last]).0, []), {}, {});
    }
  }

  lemma RecvErrorSound(n: Node, m: Msg)
    requires NodeOk(n) && MsgOk(m) && m.Rerr?
    ensures Sound(n, RecvError(n, m), {m})
  {
    ApplyErrorsSound(n, m.sender, m.unreachable);
    var out := RecvError(n, m);
    assert Sound(n, out, {});
    SoundWiden(n, out, {}, {m});
  }

  lemma {:induction false} BrokenAreDead(rt: map<Addr, Entry>, order: seq<Addr>, nb: Addr, cfg: Config)
    requires forall d :: d in rt ==> EntryOk(rt[d], cfg)
    ensures forall k :: 0 <= k < |Broken(rt, order, nb)| ==> DeadSeqno(Broken(rt, order, nb)[k].1)
  {
    if order != [] {
      BrokenAreDead(rt, order[..|order| - 1], nb, cfg);
      var d := order[|order| - 1];
      if d in rt {
        FailEntryOk(rt[d], nb, cfg);
      }
    }
  }

  /** Evolving every entry in place without new paths. */
  lemma ReplaceTableSound(n: Node, n': Node)
    requires NodeOk(n) && n'.id == n.id && n'.cfg == n.cfg && n'.order == n.order && n'.rt.Keys == n.rt.Keys
    requires n.seqno <= n'.seqno && LiveSeqno(n'.seqno)
    requires forall d :: d in n.rt ==>
      EntryOk(n'.rt[d], n.cfg) && Evolves(n.rt[d], n'.rt[d]) && OnlyOldPaths(n.rt[d], n'.rt[d])
    ensures Sound(n, Outcome(n', []), {})
  {
    hide EntryOk;
  }

  lemma NeighborLostSound(n: Node, nb: Addr)
    requires NodeOk(n)
    ensures Sound(n, NeighborLost(n, nb), {})
  {
    BrokenAreDead(n.rt, n.order, nb, n.cfg);
    var out := NeighborLost(n, nb);
    forall d | d in n.rt
      ensures EntryOk(out.node.rt[d], n.cfg) && Evolves(n.rt[d], out.node.rt[d]) && OnlyOldPaths(n.rt[d], out.node.rt[d])
    {
      FailEntryOk(n.rt[d], nb, n.cfg);
    }
    hide FailEntry, EntryOk, Broken, Evolves, OnlyOldPaths;
    ReplaceTableSound(n, out.node);
    if out.sent != [] {
      SendOneSound(out.node, out.sent[0]);
      hide Sound;
      SoundThen(n, out.node, out, {}, {});
    }
  }

  lemma SendRequestSound(n: Node, d: Addr)
    requires NodeOk(n) && d in n.rt
    ensures Sound(n, SendRequest(n, d), {})
  {
    var out := SendRequest(n, d);
    SameTableSound(n, out.node);
    if out.sent != [] {
      SendOneSound(out.node, out.sent[0]);
      hide Sound;
      SoundThen(n, out.node, out, {}, {});
    }
  }

  /** Requests of the node itself: its offers about itself are current for ever. */
  ghost predicate OwnRequests(id: Addr, sent: seq<Msg>) {
    forall k :: 0 <= k < |sent| ==> sent[k].Rreq? && sent[k].src == sent[k].sender == id && sent[k].hops == 0 && MsgOk(sent[k])
  }

  lemma OwnRequestsOk(n: Node, sent: seq<Msg>)
    requires OwnRequests(n.id, sent)
    ensures SendsOk(n, sent)
  {
  }

  lemma OwnRequestsJoin(id: Addr, a: seq<Msg>, b: seq<Msg>)
    requires OwnRequests(id, a) && OwnRequests(id, b)
    ensures OwnRequests(id, a + b)
  {
  }

  lemma PurgeOneSound(n: Node, d: Addr, gone: map<Addr, set<Addr>>, waiting: set<Addr>)
    requires NodeOk(n) && d in n.rt
    ensures Sound(n, PurgeOne(n, d, gone, waiting), {})
    ensures OwnRequests(n.id, PurgeOne(n, d, gone, waiting).sent)
  {
    SameTableSound(n, n);
    EntryOfOk(n, d);
    if n.rt[d].flags == Up {
      var g := if d in gone then gone[d] else {};
      ExpireEntryOk(n.rt[d], g, n.cfg);
      ReplaceEntrySound(n, d, ExpireEntry(n.rt[d], g));
    } else if d in waiting {
      SendRequestSound(n, d);
    }
    hide Sound, NodeOk, EntryOk, ExpireEntry, Evolves, OnlyOldPaths;
  }

  lemma {:induction false} PurgeAllSound(n: Node, ds: seq<Addr>, gone: map<Addr, set<Addr>>, waiting: set<Addr>)
    requires NodeOk(n) && forall d :: d in ds ==> d in n.rt
    ensures Sound(n, PurgeAll(n, ds, gone, waiting), {})
    ensures OwnRequests(n.id, PurgeAll(n, ds, gone, waiting).sent)
  {
    if ds == [] {
      SameTableSound(n, n);
    } else {
      var init, d := ds[..|ds| - 1], ds[|ds| - 1];
      PurgeAllSound(n, init, gone, waiting);
      var o1 := PurgeAll(n, init, gone, waiting);
      assert d in ds;
      PurgeOneSound(o1.node, d, gone, waiting);
      var o2 := PurgeOne(o1.node, d, gone, waiting);
      assert PurgeAll(n, ds, gone, waiting) == Outcome(o2.node, o1.sent + o2.sent);
      assert o1.node.id == n.id && o2.node.id == n.id;
      MovesComposes(n, o1.node, o2.node);
      PathsHeardComposes(n, o1.node, o2.node, {});
      hide Moves, PathsHeard, NodeOk, PurgeOne, PurgeAll, OwnRequests, SendsOk;
      OwnRequestsJoin(n.id, o1.sent, o2.sent);
      OwnRequestsOk(o2.node, o1.sent + o2.sent);
    }
  }

  lemma ResolveSound(n: Node, d: Addr, source: Addr)
    requires NodeOk(n)
    ensures Sound(n, Resolve(n, d, source), {})
  {
    var n1 := EnsureEntry(n, d);
    EnsureEntrySound(n, d);
    EntryOfOk(n1, d);
    var out := Resolve(n, d, source);
    if n1.rt[d].flags == Up {
      SetErrorOk(n1.rt[d], n1.cfg, n1.rt[d].error || source != n.id);
      ReplaceEntrySound(n1, d, out.node.rt[d]);
    } else if source == n.id {
      SendRequestSound(n1, d);
    } else {
      SendOneSound(n1, out.sent[0]);
    }
    hide Sound, EntryOk, NodeOk;
    SoundThen(n, n1, out, {}, {});
  }

  // ----- the step system

  datatype Event =
    | Deliver(m: Msg)
    | Lost(nb: Addr)
    | Expire(gone: map<Addr, set<Addr>>, waiting: set<Addr>)
    | Data(dst: Addr, source: Addr)
    | SayHello
    | ForgetIds(ids: set<(Addr, nat)>)

  /** A reply goes to its next hop only; everything else is broadcast. */
  ghost predicate Enabled(net: Net, i: Addr, ev: Event) {
    ev.Deliver? ==> ev.m in net.msgs && (ev.m.Rrep? ==> ev.m.nexthop == i)
  }

  function Handle(n: Node, ev: Event): Outcome
    requires TableOk(n)
  {
    match ev
    case Deliver(m) =>
      (match m
       case Rreq(_, _, _, _, _, _, _, _) => RecvRequest(n, m)
       case Rrep(_, _, _, _, _, _, _, _) => RecvReply(n, m)
       case Rerr(_, _) => RecvError(n, m)
       case Hello(_, _) => RecvHello(n, m))
    case Lost(nb) => NeighborLost(n, nb)
    case Expire(gone, waiting) => Purge(n, gone, waiting)
    case Data(dst, source) => Resolve(n, dst, source)
    case SayHello => SendHello(n)
    case ForgetIds(ids) => PurgeIds(n, ids)
  }

  ghost predicate StepBy(net: Net, net': Net, i: Addr, ev: Event) {
    && i in net.nodes && TableOk(net.nodes[i]) && Enabled(net, i, ev)
    && var out := Handle(net.nodes[i], ev);
       net' == Net(net.nodes[i := out.node], net.msgs + set m | m in out.sent)
  }

  ghost predicate Step(net: Net, net': Net) {
    exists i, ev :: StepBy(net, net', i, ev)
  }

  ghost predicate Init(net: Net) {
    net.msgs == {} && forall i :: i in net.nodes ==> net.nodes[i] == InitNode(i, net.nodes[i].cfg)
  }

  ghost predicate Run(nets: seq<Net>) {
    |nets| > 0 && Init(nets[0]) && forall k :: 0 <= k < |nets| - 1 ==> Step(nets[k], nets[k + 1])
  }

  lemma HandleSound(n: Node, ev: Event)
    requires NodeOk(n) && (ev.Deliver? ==> MsgOk(ev.m))
    ensures Sound(n, Handle(n, ev), if ev.Deliver? then {ev.m} else {})
  {
    match ev
    case Deliver(m) =>
      match m {
        case Rreq(_, _, _, _, _, _, _, _) => RecvRequestSound(n, m);
        case Rrep(_, _, _, _, _, _, _, _) => RecvReplySound(n, m, m);
        case Rerr(_, _) => RecvErrorSound(n, m);
        case Hello(_, _) => RecvHelloSound(n, m);
      }
    case Lost(nb) => NeighborLostSound(n, nb);
    case Expire(gone, waiting) => PurgeAllSound(n, n.order, gone, waiting);
    case Data(dst, source) => ResolveSound(n, dst, source);
    case SayHello =>
      SameTableSound(n, n);
      SendOneSound(n, Hello(n.id, n.seqno));
    case ForgetIds(ids) => SameTableSound(n, PurgeIds(n, ids).node);
  }

  lemma StepSound(net: Net, net': Net, i: Addr, ev: Event)
    requires Inv(net) && StepBy(net, net', i, ev)
    ensures Sound(net.nodes[i], Handle(net.nodes[i], ev), net.msgs)
  {
    HandleSound(net.nodes[i], ev);
    hide Sound;
    SoundWiden(net.nodes[i], Handle(net.nodes[i], ev), if ev.Deliver? then {ev.m} else {}, net.msgs);
  }

  // ----- the invariant is inductive

  lemma MovesKeepsVouching(n: Node, n': Node, o: Offer)
    requires Moves(n, n') && Vouches(n, o)
    ensures Vouches(n', o)
  {
    assert Evolves(EntryOf(n, o.dst), EntryOf(n', o.dst));
  }

  /** An offer vouched for before the step and one that is current after it agree. */
  lemma OffersAgree(n: Node, n': Node, o1: Offer, o2: Offer)
    requires Moves(n, n') && Vouches(n, o1) && Current(n', o2)
    requires SameSubject(o1, o2)
    ensures o1 == o2
  {
    assert Evolves(EntryOf(n, o1.dst), EntryOf(n', o1.dst));
  }

  /** An offer in flight after a step is an old one, or a current one of the node
      that took the step. */
  lemma OfferAfter(net: Net, net': Net, i: Addr, ev: Event, o: Offer)
    requires Inv(net) && StepBy(net, net', i, ev) && Offered(net'.msgs, o)
    ensures (Offered(net.msgs, o) && OfferHolds(net, o)) || (o.from == i && Current(net'.nodes[i], o))
  {
    StepSound(net, net', i, ev);
    var m :| m in net'.msgs && IsOffer(m, o);
    if m !in net.msgs {
      var out := Handle(net.nodes[i], ev);
      var k :| 0 <= k < |out.sent| && out.sent[k] == m;
      assert net.nodes[i].id == i;
    } else {
      assert Offered(net.msgs, o);
    }
  }

  lemma StepKeepsMsgs(net: Net, net': Net, i: Addr, ev: Event)
    requires Inv(net) && StepBy(net, net', i, ev)
    ensures MsgsOk(net')
  {
    StepSound(net, net', i, ev);
    var out := Handle(net.nodes[i], ev);
    forall m | m in net'.msgs ensures MsgOk(m) {
      if m !in net.msgs {
        var k :| 0 <= k < |out.sent| && out.sent[k] == m;
      }
    }
    forall o | Offered(net'.msgs, o) ensures OfferHolds(net', o) {
      OfferAfter(net, net', i, ev, o);
      if Offered(net.msgs, o) && OfferHolds(net, o) && o.from == i {
        MovesKeepsVouching(net.nodes[i], net'.nodes[i], o);
      }
    }
  }

  lemma StepKeepsOneHopCount(net: Net, net': Net, i: Addr, ev: Event)
    requires Inv(net) && StepBy(net, net', i, ev)
    ensures OneHopCount(net'.msgs)
  {
    StepSound(net, net', i, ev);
    var n, n' := net.nodes[i], net'.nodes[i];
    assert Moves(n, n');
    assert OneHopCount(net.msgs);
    forall o1, o2 | Offered(net'.msgs, o1) && Offered(net'.msgs, o2) && SameSubject(o1, o2)
      ensures o1 == o2
    {
      OfferAfter(net, net', i, ev, o1);
      OfferAfter(net, net', i, ev, o2);
      hide Moves, Sound, Inv, StepBy;
      if Offered(net.msgs, o1) && OfferHolds(net, o1) {
        if !Offered(net.msgs, o2) { OffersAgree(n, n', o1, o2); }
      } else if Offered(net.msgs, o2) && OfferHolds(net, o2) {
        OffersAgree(n, n', o2, o1);
      }
    }
  }

  lemma StepKeepsPaths(net: Net, net': Net, i: Addr, ev: Event)
    requires Inv(net) && StepBy(net, net', i, ev)
    ensures PathsOffered(net')
  {
    StepSound(net, net', i, ev);
    var n, n' := net.nodes[i], net'.nodes[i];
    assert PathsHeard(n, n', net.msgs) && PathsOffered(net);
    assert net.msgs <= net'.msgs;
    forall j, d, p | j in net'.nodes && p in EntryOf(net'.nodes[j], d).paths
      ensures PathOffered(net'.msgs, d, EntryOf(net'.nodes[j], d).seqno, p)
    {
      var s := EntryOf(net'.nodes[j], d).seqno;
      if j == i && !(p in EntryOf(n, d).paths && s == EntryOf(n, d).seqno) {
        assert PathOffered(net.msgs, d, s, p);
      } else {
        assert PathOffered(net.msgs, d, EntryOf(net.nodes[j], d).seqno, p);
      }
      OfferedWiden(net.msgs, net'.msgs, Offer(p.nexthop, d, s, p.hops - 1));
    }
  }

  lemma StepKeepsNodes(net: Net, net': Net, i: Addr, ev: Event)
    requires Inv(net) && StepBy(net, net', i, ev)
    ensures NodesOk(net')
  {
    hide Handle, NodeOk, Moves, PathsHeard, SendsOk, MsgsOk, OneHopCount, PathsOffered;
    StepSound(net, net', i, ev);
    StaysItself(net.nodes[i], net'.nodes[i]);
  }

  lemma StaysItself(n: Node, n': Node)
    requires Moves(n, n')
    ensures n'.id == n.id
  {
  }

  lemma StepKeepsInv(net: Net, net': Net, i: Addr, ev: Event)
    requires Inv(net) && StepBy(net, net', i, ev)
    ensures Inv(net')
  {
    StepKeepsNodes(net, net', i, ev);
    StepKeepsMsgs(net, net', i, ev);
    StepKeepsOneHopCount(net, net', i, ev);
    StepKeepsPaths(net, net', i, ev);
    hide NodesOk, MsgsOk, OneHopCount, PathsOffered;
  }

  /** A run of more than one state is a shorter run and one more step. */
  lemma RunUnfolds(nets: seq<Net>)
    requires Run(nets) && |nets| > 1
    ensures var p := |nets| - 2;
      Run(nets[..p + 1]) && nets[..p + 1][|nets[..p + 1]| - 1] == nets[p] && Step(nets[p], nets[p + 1])
  {
    var p := |nets| - 2;
    assert Step(nets[p], nets[p + 1]);
    var init := nets[..p + 1];
    forall k | 0 <= k < |init| - 1 ensures Step(init[k], init[k + 1]) {
      assert Step(nets[k], nets[k + 1]);
    }
  }

  lemma InitInv(net: Net)
    requires Init(net)
    ensures Inv(net)
  {
  }

  lemma {:induction false} RunKeepsInv(nets: seq<Net>)
    requires Run(nets)
    ensures Inv(nets[|nets| - 1])
  {
    if |nets| == 1 {
      InitInv(nets[0]);
    } else {
      var k := |nets| - 2;
      RunUnfolds(nets);
      RunKeepsInv(nets[..k + 1]);
      var i, ev :| StepBy(nets[k], nets[k + 1], i, ev);
      hide Inv;
      StepKeepsInv(nets[k], nets[k + 1], i, ev);
    }
  }
}
