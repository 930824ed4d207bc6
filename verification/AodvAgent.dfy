/** The AODV routing agent in the form of the source: an object whose handlers
    update the routing table, the own sequence number and the caches in place.
    Each handler is proved to do what AodvSpec says, and the assertions of the
    source are repeated where the source makes them. */
module AodvAgent {
  import opened Freshness
  import opened AodvSpec
  import opened AodvNetwork

  lemma KeepsNodeOk(n: Node, m: Msg)
    requires NodeOk(n) && MsgOk(m) && (m.Rreq? || m.Rrep?)
    ensures NodeOk(Handle(n, Deliver(m)).node)
  {
    HandleSound(n, Deliver(m));
  }

  /** The state of the loop of handle_link_failure over the entries of `n`:
      `rt` after the first `i` entries, `re` the error collected so far. */
  ghost predicate Failing(n: Node, nb: Addr, i: nat, rt: map<Addr, Entry>, re: seq<(Addr, nat)>) {
    && i <= |n.order|
    && rt.Keys == n.rt.Keys
    && (forall d :: d in rt ==> rt[d] == if d in n.order[..i] then FailEntry(n.rt[d], nb) else n.rt[d])
    && re == Broken(n.rt, n.order[..i], nb)
  }

  lemma FailingStarts(n: Node, nb: Addr)
    ensures Failing(n, nb, 0, n.rt, [])
  {
  }

  lemma BrokenNext(n: Node, nb: Addr, i: nat)
    requires i < |n.order| && n.order[i] in n.rt
    ensures Broken(n.rt, n.order[..i + 1], nb) == Broken(n.rt, n.order[..i], nb)
         + if Uses(n.rt[n.order[i]], nb) then [(n.order[i], n.rt[n.order[i]].seqno + 1)] else []
  {
    assert n.order[..i + 1][..i] == n.order[..i];
  }

  lemma FailingAt(n: Node, nb: Addr, i: nat, rt: map<Addr, Entry>, re: seq<(Addr, nat)>)
    requires NodeOk(n) && i < |n.order| && Failing(n, nb, i, rt, re)
    ensures n.order[i] in rt && EntryOk(rt[n.order[i]]) && n.order[i] in n.rt && rt[n.order[i]] == n.rt[n.order[i]]
    ensures var d := n.order[i];
      Failing(n, nb, i + 1, rt[d := FailEntry(rt[d], nb)],
              re + if Uses(rt[d], nb) then [(d, rt[d].seqno + 1)] else [])
  {
    hide FailEntry, EntryOk, Broken, Uses;
    BrokenNext(n, nb, i);
    PrefixNext(n.order, i);
    assert EntryOk(n.rt[n.order[i]]);
  }

  lemma PrefixNext(order: seq<Addr>, i: nat)
    requires i < |order| && forall j, k :: 0 <= j < k < |order| ==> order[j] != order[k]
    ensures order[i] !in order[..i]
    ensures forall d :: d in order[..i + 1] <==> d in order[..i] || d == order[i]
  {
    assert order[..i + 1] == order[..i] + [order[i]];
  }

  lemma FailingEnds(n: Node, nb: Addr, rt: map<Addr, Entry>, re: seq<(Addr, nat)>)
    requires NodeOk(n) && Failing(n, nb, |n.order|, rt, re)
    ensures TableOk(n) && LinkFailure(n, nb) == Outcome(n.(rt := rt), AsError(n.id, re))
    ensures NodeOk(n.(rt := rt))
  {
    assert n.order[..|n.order|] == n.order;
    assert rt == FailTable(n.rt, nb);
    forall d | d in n.rt ensures EntryOk(FailEntry(n.rt[d], nb)) {
      FailEntryOk(n.rt[d], nb);
    }
  }

  /** One more round of the loop of rt_purge. */
  lemma PurgeNext(n: Node, i: nat, expired: set<Addr>, waiting: set<Addr>)
    requires NodeOk(n) && i < |n.order|
    ensures (forall d :: d in n.order[..i + 1] ==> d in n.rt) && n.order[i] in n.rt
    ensures var o1 := PurgeAll(n, n.order[..i], expired, waiting);
      var o2 := PurgeOne(o1.node, n.order[i], expired, waiting);
      PurgeAll(n, n.order[..i + 1], expired, waiting) == Outcome(o2.node, o1.sent + o2.sent)
  {
    assert n.order[..i + 1][..i] == n.order[..i];
  }

  lemma PurgeEnds(n: Node, expired: set<Addr>, waiting: set<Addr>)
    requires NodeOk(n)
    ensures TableOk(n) && n.order[..|n.order|] == n.order
    ensures PurgeAll(n, [], expired, waiting) == Outcome(n, [])
  {
  }

  // ----- routes under repair while the items of an error are applied

  /** From `n` to `n'` the same routes are under repair, and they did not change. */
  ghost predicate RepairsStay(n: Node, n': Node) {
    forall d :: Repairing(n, d) || Repairing(n', d) ==> Repairing(n, d) && Repairing(n', d) && n'.rt[d] == n.rt[d]
  }

  predicate Repairing(n: Node, d: Addr) {
    d in n.rt && n.rt[d].flags == InRepair
  }

  lemma SameRepairsMet(n: Node, n': Node, from: Addr, item: (Addr, nat))
    requires RepairsStay(n, n')
    ensures ErrorMeetsRepair(n, from, item) <==> ErrorMeetsRepair(n', from, item)
  {
    assert Repairing(n, item.0) ==> n'.rt[item.0] == n.rt[item.0];
    assert Repairing(n', item.0) ==> n'.rt[item.0] == n.rt[item.0];
  }

  lemma AppliedKeepsRepairs(n: Node, n': Node, from: Addr, item: (Addr, nat))
    requires RepairsStay(n, n') && !ErrorMeetsRepair(n', from, item)
    ensures RepairsStay(n, ApplyError(n', from, item).0)
  {
    var n2 := ApplyError(n', from, item).0;
    forall d | Repairing(n, d) || Repairing(n2, d)
      ensures Repairing(n, d) && Repairing(n2, d) && n2.rt[d] == n.rt[d]
    {
      assert d != item.0 && d in n2.rt ==> n2.rt[d] == n'.rt[d];
      assert Repairing(n, d) || Repairing(n', d);
    }
  }

  class Agent {
    const id: Addr
    var seqno: nat
    var bid: nat
    var order: seq<Addr>
    var rt: map<Addr, Entry>
    var seen: set<(Addr, nat)>
    var nbs: set<Addr>

    function State(): Node
      reads this
    {
      Node(id, seqno, bid, order, rt, seen, nbs)
    }

    ghost predicate Valid()
      reads this
    {
      NodeOk(State())
    }

    constructor (id: Addr)
      ensures Valid() && State() == InitNode(id)
    {
      this.id := id;
      seqno, bid := 2, 1;
      order, rt, seen, nbs := [], map[], {}, {};
    }

    lemma EntryIsOk(d: Addr)
      requires Valid() && d in rt
      ensures EntryOk(rt[d])
    {
    }

    // ----- routing table helpers

    method RtAdd(d: Addr)
      modifies this`order, this`rt
      ensures State() == EnsureEntry(old(State()), d)
    {
      if d !in rt {
        order := [d] + order;
        rt := rt[d := FRESH_ENTRY];
      }
    }

    method RtUpdate(d: Addr, s: nat, hops: nat, nexthop: Addr)
      requires d in rt
      modifies this`rt
      ensures rt == old(rt)[d := Update(old(rt)[d], s, hops, nexthop)]
    {
      var e := rt[d];
      e := e.(seqno := s);
      e := e.(hops := Fin(hops));
      e := e.(flags := Up);
      e := e.(nexthop := nexthop);
      rt := rt[d := e];
    }

    method RtDown(d: Addr)
      requires d in rt
      modifies this`rt
      ensures rt == old(rt)[d := TakeDown(old(rt)[d])]
    {
      var e := rt[d];
      if e.flags == Down {
        return;
      }
      e := e.(hops := Inf);
      e := e.(flags := Down);
      e := e.(nexthop := 0);
      rt := rt[d := e];
    }

    method PcInsert(d: Addr, p: Addr)
      requires d in rt
      modifies this`rt
      ensures State() == AddPrecursor(old(State()), d, p)
    {
      if p in rt[d].precursors {
        assert rt[d].precursors + {p} == rt[d].precursors;
        assert rt == rt[d := rt[d].(precursors := rt[d].precursors + {p})];
      } else {
        rt := rt[d := rt[d].(precursors := rt[d].precursors + {p})];
      }
    }

    // ----- sending

    method SendRequest(d: Addr) returns (sent: seq<Msg>)
      requires Valid() && d in rt
      modifies this`bid, this`seqno
      ensures Outcome(State(), sent) == AodvSpec.SendRequest(old(State()), d)
      ensures Valid()
    {
      if rt[d].flags == Up {
        assert rt[d].hops != Inf;
        return [];
      }
      var b := bid;
      bid := bid + 1;
      seqno := seqno + 2;
      assert seqno % 2 == 0;
      sent := [Rreq(id, 1, b, d, rt[d].seqno, id, seqno)];
    }

    // ----- receiving

    /** The first part of recvRequest: cache the id, then enter or refresh the
        route back to the source of the request. */
    method PutReverseRoute(m: Msg)
      requires m.Rreq?
      modifies this`seen, this`order, this`rt
      ensures State() == ReverseRoute(old(State()), m) && m.src in rt
    {
      seen := seen + {(m.src, m.bid)};
      RtAdd(m.src);
      var rt0 := rt[m.src];
      if m.srcSeqno > rt0.seqno || (m.srcSeqno == rt0.seqno && Fewer(Fin(m.hops), rt0.hops)) {
        RtUpdate(m.src, m.srcSeqno, m.hops, m.sender);
        assert rt[m.src].flags == Up;
      }
    }

    method RecvRequest(m: Msg) returns (sent: seq<Msg>)
      requires Valid() && m.Rreq? && MsgOk(m)
      modifies this
      ensures Outcome(State(), sent) == AodvSpec.RecvRequest(old(State()), m)
      ensures Valid()
    {
      hide ReverseRoute, NodeOk;
      KeepsNodeOk(State(), m);
      if m.src == id {
        return [];
      }
      if (m.src, m.bid) in seen {
        return [];
      }
      PutReverseRoute(m);
      var back := rt[m.src].nexthop;
      if m.dst == id {
        seqno := Max(seqno, m.dstSeqno) + 1;
        if seqno % 2 == 1 {
          seqno := seqno + 1;
        }
        sent := [Rrep(id, 1, id, seqno, m.src, back)];
      } else if m.dst in rt && rt[m.dst].hops != Inf && rt[m.dst].seqno >= m.dstSeqno {
        var fwd := rt[m.dst];
        sent := [Rrep(id, fwd.hops.n + 1, m.dst, fwd.seqno, m.src, back)];
        PcInsert(m.dst, back);
        PcInsert(m.src, fwd.nexthop);
      } else {
        var s := m.dstSeqno;
        if m.dst in rt {
          s := Max(rt[m.dst].seqno, s);
        }
        sent := [Rreq(id, m.hops + 1, m.bid, m.dst, s, m.src, m.srcSeqno)];
      }
    }

    /** `ok` is false when an assertion of the source fails. */
    method RecvReply(m: Msg) returns (ok: bool, sent: seq<Msg>)
      requires Valid() && m.Rrep? && MsgOk(m)
      modifies this
      ensures ok <==> !old(ReplyMeetsRepair(State(), m))
      ensures ok ==> Outcome(State(), sent) == AodvSpec.RecvReply(old(State()), m) && Valid()
    {
      hide NodeOk;
      KeepsNodeOk(State(), m);
      if m.ipdst in rt {
        EntryIsOk(m.ipdst);
      }
      ok := true;
      RtAdd(m.dst);
      var suppress := false;
      var e := rt[m.dst];
      if e.seqno < m.dstSeqno || (e.seqno == m.dstSeqno && Fewer(Fin(m.hops), e.hops)) {
        RtUpdate(m.dst, m.dstSeqno, m.hops, m.sender);
        assert rt[m.dst].hops != Inf ==> rt[m.dst].flags == Up;
      } else {
        suppress := true;
      }
      sent := [];
      if m.ipdst == id || suppress {
        return;
      }
      if m.ipdst in rt && rt[m.ipdst].hops != Inf {
        if rt[m.ipdst].flags != Up {
          return false, [];
        }
        var back := rt[m.ipdst].nexthop;
        sent := [Rrep(id, m.hops + 1, m.dst, m.dstSeqno, m.ipdst, back)];
        PcInsert(m.dst, back);
      }
    }

    /** The body of the loop of recvError, for one unreachable destination. */
    method UnreachableDst(from: Addr, d: Addr, s: nat) returns (ok: bool, out: seq<(Addr, nat)>)
      requires Valid() && DeadSeqno(s)
      modifies this`rt
      ensures ok <==> !old(ErrorMeetsRepair(State(), from, (d, s)))
      ensures ok ==> (State(), out) == ApplyError(old(State()), from, (d, s)) && Valid()
    {
      ApplyErrorSound(State(), from, (d, s));
      hide NodeOk;
      ok, out := true, [];
      if d in rt && rt[d].hops != Inf && rt[d].nexthop == from && rt[d].seqno <= s {
        EntryIsOk(d);
        if rt[d].flags != Up {
          return false, [];
        }
        assert rt[d].seqno % 2 == 0;
        rt := rt[d := rt[d].(seqno := s)];
        RtDown(d);
        if rt[d].precursors != {} {
          out := [(d, rt[d].seqno)];
        }
        rt := rt[d := rt[d].(precursors := {})];
        assert rt == old(rt)[d := rt[d]];
      }
    }

    method RecvError(m: Msg) returns (ok: bool, sent: seq<Msg>)
      requires Valid() && m.Rerr? && MsgOk(m)
      modifies this`rt
      ensures ok <==> forall k :: 0 <= k < |m.unreachable| ==> !old(ErrorMeetsRepair(State(), m.sender, m.unreachable[k]))
      ensures ok ==> Outcome(State(), sent) == AodvSpec.RecvError(old(State()), m) && Valid()
    {
      ghost var start := State();
      hide NodeOk, ErrorMeetsRepair, ApplyError;
      ok := true;
      var nre: seq<(Addr, nat)> := [];
      var items := m.unreachable;
      for i := 0 to |items|
        invariant (State(), nre) == ApplyErrors(start, m.sender, items[..i])
        invariant Valid() && RepairsStay(start, State())
        invariant forall k :: 0 <= k < i ==> !ErrorMeetsRepair(start, m.sender, items[k])
      {
        assert items[..i + 1][..i] == items[..i];
        SameRepairsMet(start, State(), m.sender, items[i]);
        ghost var before := State();
        var fine, out := UnreachableDst(m.sender, items[i].0, items[i].1);
        if !fine {
          return false, [];
        }
        AppliedKeepsRepairs(start, before, m.sender, items[i]);
        nre := nre + out;
      }
      assert items[..|items|] == items;
      sent := if |nre| > 0 then [Rerr(id, nre)] else [];
    }

    // ----- neighbours and expiry

    /** The body of the loop of handle_link_failure, for one table entry. */
    method FailOne(d: Addr, nb: Addr) returns (ok: bool, out: seq<(Addr, nat)>)
      requires d in rt && EntryOk(rt[d])
      modifies this`rt
      ensures ok <==> !(old(rt)[d].flags == InRepair && old(rt)[d].nexthop == nb)
      ensures ok ==> rt == old(rt)[d := FailEntry(old(rt)[d], nb)] && EntryOk(rt[d])
      ensures ok ==> out == if Uses(old(rt)[d], nb) then [(d, old(rt)[d].seqno + 1)] else []
    {
      ok, out := true, [];
      if rt[d].hops != Inf && rt[d].nexthop == nb {
        if rt[d].flags != Up {
          return false, [];
        }
        assert rt[d].seqno % 2 == 0;
        rt := rt[d := rt[d].(seqno := rt[d].seqno + 1)];
        out := [(d, rt[d].seqno)];
        RtDown(d);
      }
      rt := rt[d := rt[d].(precursors := rt[d].precursors - {nb})];
    }

    method HandleLinkFailure(nb: Addr) returns (ok: bool, sent: seq<Msg>)
      requires Valid()
      modifies this`rt
      ensures ok <==> !old(LossMeetsRepair(State(), nb))
      ensures ok ==> Outcome(State(), sent) == LinkFailure(old(State()), nb) && Valid()
    {
      hide NodeOk, Failing, FailEntry, Uses, EntryOk;
      ghost var before := State();
      FailingStarts(before, nb);
      ok := true;
      var re: seq<(Addr, nat)> := [];
      for i := 0 to |order|
        invariant Failing(before, nb, i, rt, re)
        invariant forall k :: 0 <= k < i && order[k] in before.rt ==>
          !(before.rt[order[k]].flags == InRepair && before.rt[order[k]].nexthop == nb)
      {
        FailingAt(before, nb, i, rt, re);
        var fine, out := FailOne(order[i], nb);
        if !fine {
          return false, [];
        }
        re := re + out;
      }
      FailingEnds(before, nb, rt, re);
      assert State() == before.(rt := rt);
      sent := if |re| > 0 then [Rerr(id, re)] else [];
    }

    method NbDelete(nb: Addr) returns (ok: bool, sent: seq<Msg>)
      requires Valid()
      modifies this
      ensures ok <==> !old(LossMeetsRepair(State(), nb))
      ensures ok ==> Outcome(State(), sent) == NeighborLost(old(State()), nb) && Valid()
    {
      seqno := seqno + 2;
      assert seqno % 2 == 0;
      nbs := nbs - {nb};
      ok, sent := HandleLinkFailure(nb);
    }

    /** The body of the loop of rt_purge, for one table entry. */
    method PurgeEntry(d: Addr, expired: set<Addr>, waiting: set<Addr>) returns (sent: seq<Msg>)
      requires Valid() && d in rt
      modifies this
      ensures Outcome(State(), sent) == PurgeOne(old(State()), d, expired, waiting)
      ensures Valid()
    {
      hide NodeOk;
      PurgeOneSound(State(), d, expired, waiting);
      EntryIsOk(d);
      sent := [];
      if rt[d].flags == Up && d in expired {
        assert rt[d].hops != Inf;
        rt := rt[d := rt[d].(seqno := rt[d].seqno + 1)];
        assert rt[d].seqno % 2 == 1;
        RtDown(d);
      } else if rt[d].flags != Up && d in waiting {
        sent := SendRequest(d);
      }
    }

    /** `expired` holds the destinations whose entries are past their expiry time,
        `waiting` those with buffered packets that may be asked for now. */
    method RtPurge(expired: set<Addr>, waiting: set<Addr>) returns (sent: seq<Msg>)
      requires Valid()
      modifies this
      ensures Outcome(State(), sent) == Purge(old(State()), expired, waiting)
      ensures Valid()
    {
      ghost var start := State();
      PurgeEnds(start, expired, waiting);
      hide NodeOk, TableOk, PurgeOne, PurgeAll;
      var ds := order;
      sent := [];
      for i := 0 to |ds|
        invariant Valid()
        invariant rt.Keys == start.rt.Keys
        invariant Outcome(State(), sent) == PurgeAll(start, ds[..i], expired, waiting)
      {
        PurgeNext(start, i, expired, waiting);
        var out := PurgeEntry(ds[i], expired, waiting);
        sent := sent + out;
      }
    }

    method RtResolve(d: Addr, source: Addr) returns (sent: seq<Msg>)
      requires Valid()
      modifies this
      ensures Outcome(State(), sent) == Resolve(old(State()), d, source)
      ensures Valid()
    {
      RtAdd(d);
      sent := [];
      if rt[d].flags == Up {
        assert rt[d].hops != Inf;
      } else if source == id {
        sent := SendRequest(d);
      } else if rt[d].flags == InRepair {
        return;
      } else {
        assert rt[d].flags == Down;
        sent := [Rerr(id, [(d, rt[d].seqno)])];
      }
    }

    // ----- local repair

    method LocalRtRepair(d: Addr) returns (sent: seq<Msg>)
      requires Valid() && d in rt && rt[d].hops != Inf
      modifies this
      ensures Outcome(State(), sent) == StartRepair(old(State()), d)
      ensures Valid()
    {
      StartRepairSound(State(), d);
      assert EntryOk(rt[d]);
      rt := rt[d := rt[d].(flags := InRepair)];
      sent := SendRequest(d);
    }

    /** rt_ll_failed.  Giving the neighbour up asserts that the routes over it are up. */
    method RtLlFailed(d: Addr, nb: Addr, forwards: nat) returns (ok: bool, sent: seq<Msg>)
      requires Valid()
      modifies this
      ensures ok <==> !old(d in rt && !(rt[d].hops.Fin? && forwards > rt[d].hops.n) && LossMeetsRepair(State(), nb))
      ensures ok ==> Outcome(State(), sent) == LinkLayerFailed(old(State()), d, nb, forwards) && Valid()
    {
      ok, sent := true, [];
      if d !in rt {
        return;
      }
      if rt[d].hops.Fin? && forwards > rt[d].hops.n {
        sent := LocalRtRepair(d);
      } else {
        ok, sent := NbDelete(nb);
      }
    }

    /** LocalRepairTimer: the agent stays well formed exactly if the timer finds nothing
        under repair. */
    method RepairTimeout(d: Addr)
      requires Valid()
      modifies this`rt
      ensures Outcome(State(), []) == RepairTimer(old(State()), d)
      ensures Valid() <==> old(TimerIsHarmless(State(), d))
    {
      assert d in rt ==> EntryOk(rt[d]);
      if d in rt && rt[d].flags != Up {
        RtDown(d);
      }
      assert d in rt && old(rt[d].flags) == InRepair ==> !EntryOk(rt[d]);
      assert old(TimerIsHarmless(State(), d)) ==> rt == old(rt);
    }

    method RecvHello(m: Msg)
      requires Valid() && m.Hello?
      modifies this`nbs, this`seqno
      ensures Outcome(State(), []) == AodvSpec.RecvHello(old(State()), m)
      ensures Valid()
    {
      if m.sender !in nbs {
        nbs := nbs + {m.sender};
        seqno := seqno + 2;
        assert seqno % 2 == 0;
      }
    }
  }
}
