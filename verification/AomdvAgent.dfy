/** The AOMDV routing agent as an object whose handlers update the entries of the
    routing table, the own sequence number and the caches in place.  Each
    handler is proved to do what AomdvSpec says; the assertions of the source
    are repeated where the source makes them. */
module AomdvAgent {
  import opened Freshness
  import opened AomdvSpec
  import opened AomdvEntries
  import opened AomdvNetwork
  import opened AomdvRtable
  import opened AomdvTheorems

  lemma KeepsNodeOk(n: Node, ev: Event)
    requires NodeOk(n) && (ev.Deliver? ==> MsgOk(ev.m))
    ensures NodeOk(Handle(n, ev).node)
  {
    HandleSound(n, ev);
  }

  /** What a request does to the table once its id is cached. */
  function WeighRequest(n: Node, m: Msg): (Node, Verdict)
    requires m.Rreq?
  {
    var n1 := EnsureEntry(n, m.src);
    var (e, v) := OfferReverse(n1.rt[m.src], m.srcSeqno, ReversePath(n, m), n.cfg, m.dst == n.id);
    (n1.(rt := n1.rt[m.src := e]), v)
  }

  lemma ReverseRouteShape(n: Node, m: Msg)
    requires m.Rreq?
    ensures ReverseRoute(n, m) == WeighRequest(Remember(n, (m.src, m.bid)), m)
    ensures Remember(n, (m.src, m.bid)).rt == n.rt
    ensures m.src in ReverseRoute(n, m).0.rt
  {
    hide OfferReverse;
  }

  /** What a node does with a request that was not dropped. */
  function Serve(n: Node, m: Msg, usable: bool, kill: bool): Outcome
    requires m.Rreq? && m.src in n.rt
  {
    if m.dst == n.id then AnswerAsDestination(n, m)
    else if CanAnswer(n, m) then AnswerFromTable(n, m, usable)
    else if kill then Outcome(n, [])
    else RelayRequest(n, m)
  }

  /** recvRequest in two parts. */
  lemma RecvRequestShape(n: Node, m: Msg)
    requires NodeOk(n) && MsgOk(m) && m.Rreq? && m.src != n.id
    ensures var (n1, v) := ReverseRoute(n, m);
      && NodeOk(n1) && m.src in n1.rt
      && AomdvSpec.RecvRequest(n, m) ==
        if v == Dropped then Outcome(n1, []) else Serve(n1, m, v.usable, (m.src, m.bid) in n.seen)
    ensures NodeOk(AomdvSpec.RecvRequest(n, m).node)
  {
    ReverseRouteSound(n, m);
    RecvRequestSound(n, m);
    ReverseRouteShape(n, m);
    hide ReverseRoute, NodeOk, AnswerAsDestination, AnswerFromTable, RelayRequest, CanAnswer;
  }

  /** recvReply in two parts. */
  lemma RecvReplyShape(n: Node, m: Msg)
    requires NodeOk(n) && m.Rrep? && m.dst != n.id
    ensures var (n2, dropped) := WeighReply(n, m);
      m.dst in n2.rt && AomdvSpec.RecvReply(n, m) ==
        if dropped || m.ipdst == n.id || !CanRelayReply(n2, m) then Outcome(n2, []) else RelayReply(n2, m)
  {
    hide NodeOk, OfferForward, RelayReply, CanRelayReply;
  }

  lemma RecvReplyIs(n: Node, m: Msg)
    requires NodeOk(n) && m.Rrep?
    ensures Handle(n, Deliver(m)) == AomdvSpec.RecvReply(n, m)
    ensures m.dst == n.id ==> AomdvSpec.RecvReply(n, m) == Outcome(n, [])
  {
  }

  /** The entry that a route is advertised from. */
  function Advertised(e: Entry, answering: bool): Entry {
    var a := Advertise(e);
    if answering then a.(error := true) else a
  }

  lemma ApplyErrorKeepsOk(n: Node, from: Addr, item: (Addr, nat))
    requires NodeOk(n) && DeadSeqno(item.1)
    ensures NodeOk(ApplyError(n, from, item).0)
  {
    ApplyErrorSound(n, from, item);
  }

  lemma PurgeOneKeepsOk(n: Node, d: Addr, gone: map<Addr, set<Addr>>, waiting: set<Addr>)
    requires NodeOk(n) && d in n.rt
    ensures NodeOk(PurgeOne(n, d, gone, waiting).node)
  {
    PurgeOneSound(n, d, gone, waiting);
  }

  lemma EntryCounts(n: Node, d: Addr)
    requires NodeOk(n) && d in n.rt
    ensures n.rt[d].numPaths == |n.rt[d].paths|
  {
    EntryOfOk(n, d);
  }

  /** The state of the loop of handle_link_failure over the entries of `n`. */
  ghost predicate Failing(n: Node, nb: Addr, i: nat, rt: map<Addr, Entry>, re: seq<(Addr, nat)>) {
    && i <= |n.order|
    && rt.Keys == n.rt.Keys
    && (forall d :: d in rt ==> rt[d] == if d in n.order[..i] then FailEntry(n.rt[d], nb) else n.rt[d])
    && re == Broken(n.rt, n.order[..i], nb)
  }

  lemma FailingStarts(n: Node, nb: Addr)
    ensures Failing(n, nb, 0, n.rt, [])
  {
  }

  lemma OrderAt(n: Node, i: nat)
    requires NodeOk(n) && i < |n.order|
    ensures n.order[i] in n.rt && n.order[i] !in n.order[..i] && EntryOk(n.rt[n.order[i]], n.cfg)
    ensures n.order[..i + 1] == n.order[..i] + [n.order[i]] && n.order[..i + 1][..i] == n.order[..i]
  {
  }

  lemma FailingAt(n: Node, nb: Addr, i: nat, rt: map<Addr, Entry>, re: seq<(Addr, nat)>)
    requires NodeOk(n) && i < |n.order| && Failing(n, nb, i, rt, re)
    ensures n.order[i] in rt && EntryOk(rt[n.order[i]], n.cfg)
    ensures var d := n.order[i];
      Failing(n, nb, i + 1, rt[d := FailEntry(rt[d], nb)], re + BrokenItem(rt[d], d, nb))
  {
    hide FailEntry, BrokenItem, NodeOk, EntryOk;
    OrderAt(n, i);
  }

  lemma FailTableOk(n: Node, nb: Addr)
    requires NodeOk(n)
    ensures n.order[..|n.order|] == n.order && forall d :: d in n.rt ==> d in n.order
    ensures NodeOk(n.(rt := FailTable(n.rt, nb)))
  {
    forall d | d in n.rt ensures EntryOk(FailEntry(n.rt[d], nb), n.cfg) {
      FailEntryOk(n.rt[d], nb, n.cfg);
    }
    hide FailEntry, EntryOk;
  }

  lemma FailingEnds(n: Node, nb: Addr, rt: map<Addr, Entry>, re: seq<(Addr, nat)>)
    requires NodeOk(n) && Failing(n, nb, |n.order|, rt, re)
    ensures LinkFailure(n, nb) == Outcome(n.(rt := rt), AsError(n.id, re))
    ensures NodeOk(n.(rt := rt))
  {
    hide FailEntry, EntryOk, NodeOk, Broken;
    FailTableOk(n, nb);
    forall d | d in rt ensures rt[d] == FailEntry(n.rt[d], nb) {
    }
    assert rt == FailTable(n.rt, nb);
  }

  /** The state of the loop of rt_purge over the entries of `n`. */
  ghost predicate Purging(n: Node, gone: map<Addr, set<Addr>>, waiting: set<Addr>, i: nat, out: Outcome) {
    && TableOk(n) && i <= |n.order|
    && out == PurgeAll(n, n.order[..i], gone, waiting)
  }

  lemma PurgingStarts(n: Node, gone: map<Addr, set<Addr>>, waiting: set<Addr>)
    requires NodeOk(n)
    ensures Purging(n, gone, waiting, 0, Outcome(n, []))
  {
  }

  lemma PurgingAt(n: Node, gone: map<Addr, set<Addr>>, waiting: set<Addr>, i: nat, out: Outcome)
    requires Purging(n, gone, waiting, i, out) && i < |n.order|
    ensures out.node.order == n.order && n.order[i] in out.node.rt
    ensures var o := PurgeOne(out.node, n.order[i], gone, waiting);
      Purging(n, gone, waiting, i + 1, Outcome(o.node, out.sent + o.sent))
  {
    hide PurgeOne;
    assert n.order[..i + 1][..i] == n.order[..i];
    assert n.order[i] in n.order;
  }

  lemma PurgingEnds(n: Node, gone: map<Addr, set<Addr>>, waiting: set<Addr>, out: Outcome)
    requires Purging(n, gone, waiting, |n.order|, out)
    ensures TableOk(n) && out == Purge(n, gone, waiting)
  {
    assert n.order[..|n.order|] == n.order;
  }

  class Agent {
    const id: Addr
    const cfg: Config
    var seqno: nat
    var bid: nat
    var order: seq<Addr>
    var rt: map<Addr, RtEntry>
    var seen: map<(Addr, nat), nat>
    var nbs: set<Addr>
    /** The entry objects, and what they hold. */
    ghost var entries: set<RtEntry>
    ghost var table: map<Addr, Entry>

    ghost function State(): Node
      reads this
    {
      Node(id, cfg, seqno, bid, order, table, seen, nbs)
    }

    /** `table` is what the entry objects hold; no two destinations share one. */
    ghost predicate Mirror()
      reads this`rt, this`table, this`entries, entries
    {
      && rt.Keys == table.Keys
      && (forall d :: d in rt ==> rt[d] in entries && rt[d].Value() == table[d])
      && (forall a, b :: a in rt && b in rt && a != b ==> rt[a] != rt[b])
    }

    ghost predicate Valid()
      reads this, entries
    {
      Mirror() && NodeOk(State())
    }

    /** `table` is right but for the entry for `d`, which has been changed. */
    ghost predicate MirrorBut(d: Addr)
      reads this`rt, this`table, this`entries, entries
    {
      && rt.Keys == table.Keys
      && (forall x :: x in rt ==> rt[x] in entries && (x != d ==> rt[x].Value() == table[x]))
      && (forall a, b :: a in rt && b in rt && a != b ==> rt[a] != rt[b])
    }

    lemma MirrorAt(d: Addr)
      requires Mirror()
      ensures rt.Keys == table.Keys
      ensures d in rt ==> rt[d] in entries && rt[d].Value() == table[d]
    {
    }

    /** Changing the entry object of `d` changes no other entry. */
    twostate lemma OthersStay(d: Addr)
      requires old(Mirror()) && rt == old(rt) && table == old(table) && entries == old(entries) && d in rt
      requires forall e :: e in entries && e != rt[d] ==> unchanged(e)
      ensures MirrorBut(d)
    {
      forall x | x in rt && x != d ensures rt[x].Value() == table[x] {
        assert rt[x] in entries && rt[x] != rt[d];
      }
    }

    /** Notes the new value of the entry for `d`. */
    ghost method Note(d: Addr)
      requires d in rt && MirrorBut(d)
      modifies this`table
      ensures Mirror() && table == old(table)[d := rt[d].Value()]
    {
      table := table[d := rt[d].Value()];
    }

    constructor (id: Addr, cfg: Config)
      ensures Valid() && State() == InitNode(id, cfg)
    {
      this.id, this.cfg := id, cfg;
      seqno, bid := 2, 1;
      order, rt, seen, nbs := [], map[], map[], {};
      entries, table := {}, map[];
    }

    // ----- routing table helpers

    method RtAdd(d: Addr)
      requires Mirror()
      modifies this`order, this`rt, this`entries, this`table
      ensures Mirror() && State() == EnsureEntry(old(State()), d)
      ensures d in rt && fresh(entries - old(entries))
    {
      if d !in rt {
        var e := new RtEntry();
        order := [d] + order;
        rt := rt[d := e];
        entries, table := entries + {e}, table[d := FRESH_ENTRY];
      }
    }

    method RtDown(e: RtEntry)
      modifies e
      ensures e.Value() == TakeDown(old(e.Value()))
    {
      if e.flags == Down {
        return;
      }
      e.flags := Down;
      e.advertised := Inf;
      e.PathDeleteAll();
    }

    /** "route advertisement": fix the advertised hop count if it is not fixed. */
    method FixAdvertised(e: RtEntry)
      modifies e
      ensures e.Value() == Advertise(old(e.Value()))
    {
      if e.advertised == Inf {
        e.advertised := e.PathGetMaxHopcount();
      }
    }

    method StartOver(e: RtEntry, s: nat, p: Path)
      modifies e
      ensures e.Value() == Restart(old(e.Value()), s, p)
    {
      e.seqno := s;
      e.advertised := Inf;
      e.PathDeleteAll();
      e.flags := Up;
      e.PathInsert(p);
    }

    // ----- sending

    method SendRequest(d: Addr) returns (sent: seq<Msg>)
      requires Valid() && d in rt
      modifies this`bid, this`seqno
      ensures Outcome(State(), sent) == AomdvSpec.SendRequest(old(State()), d)
      ensures Valid()
    {
      if rt[d].flags == Up {
        return [];
      }
      var b := bid;
      bid := bid + 1;
      seqno := seqno + 2;
      assert seqno % 2 == 0;
      sent := [Rreq(id, 0, b, d, rt[d].seqno, id, seqno, 0)];
    }

    // ----- requests

    /** The part of recvRequest that caches the id and creates or updates the reverse path. */
    method PutReversePath(m: Msg) returns (dropped: bool, usable: bool)
      requires Valid() && m.Rreq? && MsgOk(m) && Agrees(State(), m)
      modifies this`seen, this`order, this`rt, this`entries, this`table, entries
      ensures (State(), if dropped then Dropped else Kept(usable)) == ReverseRoute(old(State()), m)
      ensures Mirror() && m.src in rt && fresh(entries - old(entries))
    {
      hide Mirror, NodeOk, EntryOk, AgreesWith, WeighRequest, ReverseRoute, Remember;
      EntryOfOk(State(), m.src);
      ReverseRouteShape(State(), m);
      CacheId(m.src, m.bid);
      dropped, usable := UpdateReverse(m);
    }

    method UpdateReverse(m: Msg) returns (dropped: bool, usable: bool)
      requires Mirror() && m.Rreq? && MsgOk(m) && EntryOk(EntryOf(State(), m.src), cfg)
      requires AgreesWith(EntryOf(State(), m.src), m.sender, m.srcSeqno, m.hops)
      modifies this`order, this`rt, this`entries, this`table, entries
      ensures (State(), if dropped then Dropped else Kept(usable)) == WeighRequest(old(State()), m)
      ensures Mirror() && m.src in rt && fresh(entries - old(entries))
    {
      hide EntryOk, OfferReverse, AgreesWith, Mirror, MirrorBut;
      RtAdd(m.src);
      MirrorAt(m.src);
      var rt0 := rt[m.src];
      label L:
      dropped, usable := ReversePathInto(rt0, m, if m.hops == 0 then id else m.firstHop);
      OthersStay@L(m.src);
      Note(m.src);
      assert State() == WeighRequest(old(State()), m).0;
    }

    method CacheId(src: Addr, b: nat)
      modifies this`seen
      ensures State() == Remember(old(State()), (src, b))
    {
      if (src, b) !in seen {
        seen := seen[(src, b) := 0];
      }
    }

    /** The case analysis of recvRequest on the entry for the source. */
    method ReversePathInto(rt0: RtEntry, m: Msg, firstHop: Addr) returns (dropped: bool, usable: bool)
      requires m.Rreq? && MsgOk(m) && EntryOk(rt0.Value(), cfg) && AgreesWith(rt0.Value(), m.sender, m.srcSeqno, m.hops)
      modifies rt0
      ensures (rt0.Value(), if dropped then Dropped else Kept(usable))
           == OfferReverse(old(rt0.Value()), m.srcSeqno, Path(m.sender, m.hops + 1, firstHop), cfg, m.dst == id)
    {
      dropped, usable := false, false;
      if rt0.seqno < m.srcSeqno {
        StartOver(rt0, m.srcSeqno, Path(m.sender, m.hops + 1, firstHop));
        usable := true;
      } else if rt0.seqno == m.srcSeqno && Fewer(Fin(m.hops), rt0.advertised) {
        assert rt0.flags == Up;
        var k := rt0.DisjointPathLookup(m.sender, firstHop);
        if k < |rt0.paths| {
          assert rt0.paths[k].hops == m.hops + 1;
          usable := true;
        } else {
          var disjoint := rt0.NewDisjointPath(m.sender, firstHop);
          if disjoint {
            dropped, usable := AlternatePathInto(rt0, m, firstHop);
          } else {
            k := rt0.PathLookupLasthop(firstHop);
            if m.dst == id && (k == |rt0.paths| || m.hops + 1 > rt0.paths[k].hops) {
              dropped := true;
            }
          }
        }
      } else {
        dropped := true;
      }
    }

    /** A new disjoint reverse path is inserted if there is room and it is not too long. */
    method AlternatePathInto(rt0: RtEntry, m: Msg, firstHop: Addr) returns (dropped: bool, usable: bool)
      requires m.Rreq?
      modifies rt0
      ensures var p := Path(m.sender, m.hops + 1, firstHop);
        && rt0.Value() == TryAdd(old(rt0.Value()), p, cfg)
        && (dropped <==> !SimilarLength(rt0.paths, p.hops, cfg))
        && (!dropped ==> (usable <==> rt0.Value() != old(rt0.Value())))
    {
      usable := false;
      var shortest := rt0.PathGetMinHopcount();
      if rt0.numPaths < cfg.maxPaths && m.hops + 1 - shortest <= cfg.lenDiff {
        rt0.PathInsert(Path(m.sender, m.hops + 1, firstHop));
        usable := true;
      }
      shortest := rt0.PathGetMinHopcount();
      dropped := m.hops + 1 - shortest > cfg.lenDiff;
    }

    method RecvRequest(m: Msg) returns (sent: seq<Msg>)
      requires Valid() && m.Rreq? && MsgOk(m) && Agrees(State(), m)
      modifies this, entries
      ensures Outcome(State(), sent) == AomdvSpec.RecvRequest(old(State()), m)
      ensures Valid() && fresh(entries - old(entries))
    {
      hide ReverseRoute, NodeOk, Serve, Mirror, Agrees, MsgOk;
      sent := [];
      if m.src == id {
        return;
      }
      RecvRequestShape(State(), m);
      var kill := (m.src, m.bid) in seen;
      var dropped, usable := PutReversePath(m);
      if !dropped {
        MirrorAt(m.src);
        sent := ServeRequest(m, usable, kill);
      }
    }

    /** The end of recvRequest: answer, answer from the table, or propagate. */
    method ServeRequest(m: Msg, usable: bool, kill: bool) returns (sent: seq<Msg>)
      requires Valid() && m.Rreq? && m.src in rt && m.src in table
      modifies this`seqno, this`seen, this`table, entries
      ensures Outcome(State(), sent) == Serve(old(State()), m, usable, kill)
      ensures Mirror()
    {
      hide NodeOk, AnswerAsDestination, AnswerFromTable, RelayRequest, Mirror;
      MirrorAt(m.dst);
      sent := [];
      if m.dst == id {
        sent := ReplyAsDestination(m);
      } else if m.dst in rt && rt[m.dst].flags == Up && rt[m.dst].seqno >= m.dstSeqno {
        sent := ReplyFromTable(m, usable);
      } else if !kill {
        sent := Propagate(m);
      }
    }

    method ReplyAsDestination(m: Msg) returns (sent: seq<Msg>)
      requires m.Rreq?
      modifies this`seqno
      ensures Outcome(State(), sent) == AnswerAsDestination(old(State()), m)
    {
      if seqno < m.dstSeqno {
        seqno := m.dstSeqno + 1;
      }
      if seqno % 2 == 1 {
        seqno := seqno + 1;
      }
      sent := [Rrep(id, 0, id, seqno, m.src, m.sender, m.bid, m.sender)];
    }

    /** Fixes the advertised hop count of the entry for `d`; `answering` notes in addition
        that others use the route. */
    method AdvertiseRoute(d: Addr, answering: bool)
      requires Mirror() && d in rt && d in table
      modifies this`table, entries
      ensures Mirror()
      ensures table == old(table)[d := Advertised(old(table)[d], answering)]
    {
      hide Mirror, MirrorBut, Advertise;
      MirrorAt(d);
      var e := rt[d];
      FixAdvertised(e);
      if answering {
        e.error := true;
      }
      OthersStay(d);
      Note(d);
    }

    /** Passing a request on, with the advertised hop count of the reverse route. */
    method Propagate(m: Msg) returns (sent: seq<Msg>)
      requires Mirror() && m.Rreq? && m.src in rt
      modifies this`table, entries
      ensures Outcome(State(), sent) == RelayRequest(old(State()), m)
      ensures Mirror()
    {
      hide Mirror, MirrorBut, Advertise, HopsOf, FirstLast;
      MirrorAt(m.dst);
      MirrorAt(m.src);
      var s := m.dstSeqno;
      if m.dst in rt {
        s := Max(rt[m.dst].seqno, s);
      }
      var rt0 := rt[m.src];
      AdvertiseRoute(m.src, false);
      MirrorAt(m.src);
      var first := rt0.PathFindLasthop();
      sent := [Rreq(id, HopsOf(rt0.advertised), m.bid, m.dst, s, m.src, m.srcSeqno, first)];
    }

    /** The answer of an intermediate node, at most once per broadcast id. */
    method ReplyFromTable(m: Msg, usable: bool) returns (sent: seq<Msg>)
      requires Valid() && m.Rreq? && m.dst in rt && rt[m.dst].flags == Up
      modifies this`seen, this`table, entries
      ensures Outcome(State(), sent) == AnswerFromTable(old(State()), m, usable)
      ensures Mirror()
    {
      hide Mirror, MirrorBut, NodeOk, Advertise, HopsOf, FirstLast;
      EntryOfOk(State(), m.dst);
      MirrorAt(m.dst);
      var e := rt[m.dst];
      assert e.seqno % 2 == 0;
      sent := [];
      var key := (m.src, m.bid);
      if usable && key in seen && seen[key] == 0 {
        seen := seen[key := 1];
        AdvertiseRoute(m.dst, true);
        MirrorAt(m.dst);
        var first := e.PathFindLasthop();
        sent := [Rrep(id, HopsOf(e.advertised), m.dst, e.seqno, m.src, m.sender, m.bid, first)];
      }
    }

    // ----- replies and hellos

    method PutForwardPath(m: Msg) returns (dropped: bool)
      requires Valid() && m.Rrep? && MsgOk(m) && Agrees(State(), m)
      modifies this`order, this`rt, this`entries, this`table, entries
      ensures (State(), dropped) == WeighReply(old(State()), m)
      ensures Mirror() && m.dst in rt && fresh(entries - old(entries))
    {
      hide NodeOk, EntryOk, OfferForward, AgreesWith, Mirror, WeighReply;
      EntryOfOk(State(), m.dst);
      dropped := UpdateForward(m);
    }

    method UpdateForward(m: Msg) returns (dropped: bool)
      requires Mirror() && m.Rrep? && MsgOk(m) && EntryOk(EntryOf(State(), m.dst), cfg)
      requires AgreesWith(EntryOf(State(), m.dst), m.sender, m.dstSeqno, m.hops)
      modifies this`order, this`rt, this`entries, this`table, entries
      ensures (State(), dropped) == WeighReply(old(State()), m)
      ensures Mirror() && m.dst in rt && fresh(entries - old(entries))
    {
      hide EntryOk, OfferForward, AgreesWith, Mirror, MirrorBut;
      RtAdd(m.dst);
      MirrorAt(m.dst);
      var e := rt[m.dst];
      label L:
      dropped := ForwardPathInto(e, m);
      OthersStay@L(m.dst);
      Note(m.dst);
      assert State() == WeighReply(old(State()), m).0;
    }

    /** The case analysis of recvReply on the entry for the destination. */
    method ForwardPathInto(e: RtEntry, m: Msg) returns (dropped: bool)
      requires m.Rrep? && MsgOk(m) && EntryOk(e.Value(), cfg) && AgreesWith(e.Value(), m.sender, m.dstSeqno, m.hops)
      modifies e
      ensures (e.Value(), dropped)
           == OfferForward(old(e.Value()), m.dstSeqno, Path(m.sender, m.hops + 1, m.firstHop), cfg)
    {
      dropped := false;
      if e.seqno < m.dstSeqno {
        StartOver(e, m.dstSeqno, Path(m.sender, m.hops + 1, m.firstHop));
      } else if e.seqno == m.dstSeqno && Fewer(Fin(m.hops), e.advertised) {
        assert e.flags == Up;
        var k := e.DisjointPathLookup(m.sender, m.firstHop);
        if k < |e.paths| {
          assert e.paths[k].hops == m.hops + 1;
        } else {
          var disjoint := e.NewDisjointPath(m.sender, m.firstHop);
          var shortest := e.PathGetMinHopcount();
          if disjoint && e.numPaths < cfg.maxPaths && m.hops + 1 - shortest <= cfg.lenDiff {
            e.PathInsert(Path(m.sender, m.hops + 1, m.firstHop));
          } else {
            dropped := true;
          }
        }
      } else {
        dropped := true;
      }
    }

    method RecvReply(m: Msg) returns (sent: seq<Msg>)
      requires Valid() && m.Rrep? && MsgOk(m) && Agrees(State(), m)
      modifies this, entries
      ensures Outcome(State(), sent) == AomdvSpec.RecvReply(old(State()), m)
      ensures Valid() && fresh(entries - old(entries))
    {
      hide WeighReply, NodeOk, RelayReply, Handle, Mirror, Agrees, MsgOk;
      KeepsNodeOk(State(), Deliver(m));
      sent := [];
      RecvReplyIs(State(), m);
      if m.dst == id {
        return;
      }
      RecvReplyShape(State(), m);
      var dropped := PutForwardPath(m);
      MirrorAt(m.ipdst);
      if dropped || m.ipdst == id {
        return;
      }
      var key := (m.ipdst, m.bid);
      if m.ipdst !in rt || rt[m.ipdst].flags != Up || key !in seen || seen[key] != 0 {
        return;
      }
      sent := ForwardReply(m);
    }

    /** Passing a reply on over the first reverse path, with the own advertised
        hop count. */
    method ForwardReply(m: Msg) returns (sent: seq<Msg>)
      requires Mirror() && m.Rrep? && m.dst in rt && CanRelayReply(State(), m)
      modifies this`seen, this`table, entries
      ensures Outcome(State(), sent) == RelayReply(old(State()), m)
      ensures Mirror()
    {
      hide Mirror, MirrorBut, Advertise, HopsOf, FirstLast;
      MirrorAt(m.ipdst);
      MirrorAt(m.dst);
      seen := seen[(m.ipdst, m.bid) := 1];
      var back := rt[m.ipdst].paths;
      var e := rt[m.dst];
      AdvertiseRoute(m.dst, true);
      MirrorAt(m.dst);
      var first := e.PathFindLasthop();
      sent := [Rrep(id, HopsOf(e.advertised), m.dst, m.dstSeqno, m.ipdst, if back == [] then 0 else back[0].nexthop,
                    m.bid, first)];
    }

    /** A new neighbour is entered; then the hello is a reply of its sender about itself. */
    method RecvHello(m: Msg) returns (sent: seq<Msg>)
      requires Valid() && m.Hello? && MsgOk(m) && Agrees(State(), m)
      modifies this, entries
      ensures Outcome(State(), sent) == AomdvSpec.RecvHello(old(State()), m)
      ensures Valid() && fresh(entries - old(entries))
    {
      if m.sender !in nbs {
        nbs := nbs + {m.sender};
      }
      assert nbs == old(nbs) + {m.sender};
      sent := RecvReply(Rrep(m.sender, 0, m.sender, m.seqno, id, id, 0, id));
    }

    // ----- errors, neighbour loss, expiry

    /** One unreachable destination of a received error, on its entry. */
    method LosePath(e: RtEntry, from: Addr, s: nat) returns (reported: bool)
      requires EntryOk(e.Value(), cfg) && ErrorApplies(e.Value(), from, s)
      modifies e
      ensures e.Value() == HearError(old(e.Value()), from, s)
      ensures reported <==> e.flags == Down && old(e.error)
    {
      assert e.seqno % 2 == 0;
      reported := false;
      DropPathOk(e.Value(), from, cfg);
      e.PathDelete(from);
      e.heard := Max(e.heard, s);
      var empty := e.PathEmpty();
      if empty {
        e.seqno := e.heard;
        RtDown(e);
        if e.error {
          reported := true;
          e.error := false;
        }
      }
    }

    /** The same on the table. */
    method LosePathTo(d: Addr, from: Addr, s: nat) returns (out: seq<(Addr, nat)>)
      requires Mirror() && d in rt && d in table && EntryOk(table[d], cfg) && ErrorApplies(table[d], from, s)
      modifies this`table, entries
      ensures Mirror() && table == old(table)[d := HearError(old(table)[d], from, s)]
      ensures out == if table[d].flags == Down && old(table)[d].error then [(d, table[d].seqno)] else []
    {
      hide HearError, EntryOk, ErrorApplies, Mirror, MirrorBut;
      MirrorAt(d);
      var e := rt[d];
      var reported := LosePath(e, from, s);
      out := if reported then [(d, e.seqno)] else [];
      OthersStay(d);
      Note(d);
    }

    /** The body of the loop of recvError, for one unreachable destination. */
    method UnreachableDst(from: Addr, d: Addr, s: nat) returns (out: seq<(Addr, nat)>)
      requires Valid() && DeadSeqno(s)
      modifies this`table, entries
      ensures (State(), out) == ApplyError(old(State()), from, (d, s))
      ensures Valid()
    {
      hide NodeOk, HearError, EntryOk, Mirror;
      ApplyErrorKeepsOk(State(), from, (d, s));
      EntryOfOk(State(), d);
      MirrorAt(d);
      out := [];
      if d in rt {
        var k := rt[d].PathLookup(from);
        if rt[d].flags == Up && k < |rt[d].paths| && rt[d].seqno <= s {
          out := LosePathTo(d, from, s);
        }
      }
    }

    method RecvError(m: Msg) returns (sent: seq<Msg>)
      requires Valid() && m.Rerr? && MsgOk(m)
      modifies this`table, entries
      ensures Outcome(State(), sent) == AomdvSpec.RecvError(old(State()), m)
      ensures Valid()
    {
      hide NodeOk, ApplyError, Mirror;
      ghost var start := State();
      var nre: seq<(Addr, nat)> := [];
      var items := m.unreachable;
      for i := 0 to |items|
        invariant (State(), nre) == ApplyErrors(start, m.sender, items[..i])
        invariant Valid()
      {
        assert items[..i + 1][..i] == items[..i];
        var out := UnreachableDst(m.sender, items[i].0, items[i].1);
        nre := nre + out;
      }
      assert items[..|items|] == items;
      sent := if |nre| > 0 then [Rerr(id, nre)] else [];
    }

    /** The body of the loop of handle_link_failure, for one table entry. */
    method FailOne(e: RtEntry, d: Addr, nb: Addr) returns (out: seq<(Addr, nat)>)
      requires EntryOk(e.Value(), cfg)
      modifies e
      ensures e.Value() == FailEntry(old(e.Value()), nb)
      ensures out == BrokenItem(old(e.Value()), d, nb)
    {
      out := [];
      var k := e.PathLookup(nb);
      if e.flags == Up && k < |e.paths| {
        assert e.seqno % 2 == 0;
        DropPathOk(e.Value(), nb, cfg);
        e.PathDelete(nb);
        var empty := e.PathEmpty();
        if empty {
          e.seqno := e.seqno + 1;
          e.seqno := Max(e.seqno, e.heard);
          if e.error {
            out := [(d, e.seqno)];
            e.error := false;
          }
          RtDown(e);
        }
      }
    }

    method HandleLinkFailure(nb: Addr) returns (sent: seq<Msg>)
      requires Valid()
      modifies this`table, entries
      ensures Outcome(State(), sent) == LinkFailure(old(State()), nb)
      ensures Valid()
    {
      hide NodeOk, Failing, FailEntry, BrokenItem, EntryOk, Mirror, MirrorBut;
      ghost var before := State();
      FailingStarts(before, nb);
      var re: seq<(Addr, nat)> := [];
      for i := 0 to |order|
        invariant Mirror() && Failing(before, nb, i, table, re)
      {
        FailingAt(before, nb, i, table, re);
        MirrorAt(order[i]);
        var e := rt[order[i]];
        label L:
        var out := FailOne(e, order[i], nb);
        OthersStay@L(order[i]);
        Note(order[i]);
        re := re + out;
      }
      FailingEnds(before, nb, table, re);
      assert State() == before.(rt := table);
      sent := if |re| > 0 then [Rerr(id, re)] else [];
    }

    method NbDelete(nb: Addr) returns (sent: seq<Msg>)
      requires Valid()
      modifies this, entries
      ensures Outcome(State(), sent) == NeighborLost(old(State()), nb)
      ensures Valid()
    {
      seqno := seqno + 2;
      assert seqno % 2 == 0;
      nbs := nbs - {nb};
      sent := HandleLinkFailure(nb);
    }

    /** Taking the expired paths out of a live entry, and the entry down with the
        last of them. */
    method PurgePaths(e: RtEntry, gone: set<Addr>)
      requires e.flags == Up && e.numPaths == |e.paths|
      modifies e
      ensures e.Value() == ExpireEntry(old(e.Value()), gone)
    {
      e.PathPurge(gone);
      var empty := e.PathEmpty();
      if empty {
        e.seqno := e.seqno + 1;
        e.seqno := Max(e.seqno, e.heard);
        if e.seqno % 2 == 0 {
          e.seqno := e.seqno + 1;
        }
        RtDown(e);
      }
    }

    /** The body of the loop of rt_purge, for one table entry. */
    method PurgeEntry(d: Addr, gone: map<Addr, set<Addr>>, waiting: set<Addr>) returns (sent: seq<Msg>)
      requires Valid() && d in rt
      modifies this`bid, this`seqno, this`table, entries
      ensures Outcome(State(), sent) == PurgeOne(old(State()), d, gone, waiting)
      ensures Valid()
    {
      hide ExpireEntry, NodeOk, Mirror, MirrorBut;
      MirrorAt(d);
      PurgeOneKeepsOk(State(), d, gone, waiting);
      EntryCounts(State(), d);
      var e := rt[d];
      sent := [];
      if e.flags == Up {
        PurgePaths(e, if d in gone then gone[d] else {});
        OthersStay(d);
        Note(d);
      } else if d in waiting {
        sent := SendRequest(d);
      }
    }

    /** `gone` gives the next hops of the paths that are past their expiry time,
        `waiting` the destinations with buffered packets that may be asked for. */
    method RtPurge(gone: map<Addr, set<Addr>>, waiting: set<Addr>) returns (sent: seq<Msg>)
      requires Valid()
      modifies this`bid, this`seqno, this`table, entries
      ensures Outcome(State(), sent) == Purge(old(State()), gone, waiting)
      ensures Valid()
    {
      hide NodeOk, Mirror, PurgeOne, Purging, Purge;
      ghost var start := State();
      PurgingStarts(start, gone, waiting);
      var ds := order;
      sent := [];
      for i := 0 to |ds|
        invariant Valid() && ds == start.order
        invariant Purging(start, gone, waiting, i, Outcome(State(), sent))
      {
        PurgingAt(start, gone, waiting, i, Outcome(State(), sent));
        MirrorAt(ds[i]);
        var out := PurgeEntry(ds[i], gone, waiting);
        sent := sent + out;
      }
      PurgingEnds(start, gone, waiting, Outcome(State(), sent));
    }

    method RtResolve(d: Addr, source: Addr) returns (sent: seq<Msg>)
      requires Valid()
      modifies this, entries
      ensures Outcome(State(), sent) == Resolve(old(State()), d, source)
      ensures Valid() && fresh(entries - old(entries))
    {
      hide NodeOk, Mirror, EnsureEntry, Resolve, ResolveEntry;
      ResolveShape(State(), d, source);
      RtAdd(d);
      MirrorAt(d);
      sent := ResolveAt(d, source);
    }

    /** Using the entry for `d` for a data packet from `source`. */
    method ResolveAt(d: Addr, source: Addr) returns (sent: seq<Msg>)
      requires Valid() && d in rt && d in table
      modifies this`bid, this`seqno, this`table, entries
      ensures Outcome(State(), sent) == ResolveEntry(old(State()), d, source)
      ensures Mirror()
    {
      hide NodeOk, Mirror, MirrorBut, AomdvSpec.SendRequest;
      MirrorAt(d);
      sent := [];
      var e := rt[d];
      if e.flags == Up {
        if source != id {
          e.error := true;
        }
        OthersStay(d);
        Note(d);
      } else if source == id {
        sent := SendRequest(d);
      } else {
        assert e.flags == Down;
        sent := [Rerr(id, [(d, e.seqno)])];
      }
    }
  }

  function ResolveEntry(n: Node, d: Addr, source: Addr): Outcome
    requires d in n.rt
  {
    var e := n.rt[d];
    if e.flags == Up then Outcome(n.(rt := n.rt[d := e.(error := e.error || source != n.id)]), [])
    else if source == n.id then AomdvSpec.SendRequest(n, d)
    else Outcome(n, [Rerr(n.id, [(d, e.seqno)])])
  }

  lemma ResolveShape(n: Node, d: Addr, source: Addr)
    requires NodeOk(n)
    ensures NodeOk(EnsureEntry(n, d)) && d in EnsureEntry(n, d).rt
    ensures Resolve(n, d, source) == ResolveEntry(EnsureEntry(n, d), d, source)
    ensures NodeOk(Resolve(n, d, source).node)
  {
    EnsureEntrySound(n, d);
    ResolveSound(n, d, source);
  }
}
