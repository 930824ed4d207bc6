/** Invariants of a single AOMDV route entry, and what each operation on an
    entry keeps. */
module AomdvEntries {
  import opened Freshness
  import opened AomdvSpec

  /** Pairwise distinct next hops and pairwise distinct last hops. */
  ghost predicate Disjoint(ps: seq<Path>) {
    forall i, j :: 0 <= i < j < |ps| ==> ps[i].nexthop != ps[j].nexthop && ps[i].lasthop != ps[j].lasthop
  }

  /** Every stored path is at least one hop long and no longer than advertised. */
  ghost predicate Bounded(ps: seq<Path>, adv: Hops) {
    forall k :: 0 <= k < |ps| ==> ps[k].hops >= 1 && (adv.Fin? ==> ps[k].hops <= adv.n)
  }

  function PathLimit(cfg: Config): nat {
    if cfg.maxPaths >= 1 then cfg.maxPaths else 1
  }

  ghost predicate PathsOk(e: Entry, cfg: Config) {
    && e.numPaths == |e.paths| <= PathLimit(cfg)
    && Disjoint(e.paths)
    && Bounded(e.paths, e.advertised)
    && DeadSeqno(e.heard)
  }

  ghost predicate EntryOk(e: Entry, cfg: Config) {
    && PathsOk(e, cfg)
    && (e.advertised.Fin? ==> e.advertised.n >= 1)
    && (match e.flags
        case Up => LiveSeqno(e.seqno) && e.paths != []
        case Down => DeadSeqno(e.seqno) && e.paths == [] && e.advertised.Inf?)
  }

  /** The sequence number rises, or the advertised hop count stays once it is set. */
  ghost predicate Evolves(e: Entry, e': Entry) {
    e.seqno < e'.seqno || (e.seqno == e'.seqno && (e.advertised.Inf? || e'.advertised == e.advertised))
  }

  /** The paths of `e'` are old ones of the same generation, or the offered `p`. */
  ghost predicate PathsFrom(e: Entry, e': Entry, seqno: nat, p: Path) {
    forall q :: q in e'.paths ==> (q in e.paths && e'.seqno == e.seqno) || (q == p && e'.seqno == seqno)
  }

  ghost predicate OnlyOldPaths(e: Entry, e': Entry) {
    forall q :: q in e'.paths ==> q in e.paths && e'.seqno == e.seqno
  }

  // ----- lists of paths

  /** The first path in front of others that come after it. */
  lemma DisjointFrom(ps: seq<Path>, t: seq<Path>)
    requires ps != [] && Disjoint(ps) && Disjoint(t) && forall q :: q in t ==> q in ps[1..]
    ensures Disjoint([ps[0]] + t)
  {
    var r := [ps[0]] + t;
    forall j | 0 < j < |r| ensures r[0].nexthop != r[j].nexthop && r[0].lasthop != r[j].lasthop {
      assert r[j] == t[j - 1] && r[j] in t;
      assert r[j] in ps[1..];
    }
  }

  lemma HasNexthopFirst(ps: seq<Path>, nh: Addr)
    requires ps != []
    ensures HasNexthop(ps, nh) <==> ps[0].nexthop == nh || HasNexthop(ps[1..], nh)
  {
    if k :| 0 <= k < |ps| && ps[k].nexthop == nh {
      assert k > 0 ==> ps[1..][k - 1].nexthop == nh;
    }
    if k :| 0 <= k < |ps| - 1 && ps[1..][k].nexthop == nh {
      assert ps[k + 1].nexthop == nh;
    }
  }

  lemma {:induction false} WithoutNexthopMembers(ps: seq<Path>, nh: Addr)
    ensures var r := WithoutNexthop(ps, nh);
      && (forall q :: q in r ==> q in ps)
      && |r| == (if HasNexthop(ps, nh) then |ps| - 1 else |ps|)
  {
    if ps != [] {
      hide HasNexthop;
      HasNexthopFirst(ps, nh);
      WithoutNexthopMembers(ps[1..], nh);
    }
  }

  lemma {:induction false} WithoutNexthopDisjoint(ps: seq<Path>, nh: Addr)
    requires Disjoint(ps)
    ensures Disjoint(WithoutNexthop(ps, nh)) && !HasNexthop(WithoutNexthop(ps, nh), nh)
  {
    if ps == [] {
    } else if ps[0].nexthop == nh {
      assert Disjoint(ps[1..]);
    } else {
      var t := WithoutNexthop(ps[1..], nh);
      assert Disjoint(ps[1..]);
      WithoutNexthopDisjoint(ps[1..], nh);
      WithoutNexthopMembers(ps[1..], nh);
      DisjointFrom(ps, t);
      HasNexthopFirst([ps[0]] + t, nh);
      assert ([ps[0]] + t)[1..] == t;
    }
  }

  lemma WithoutNexthopKeeps(ps: seq<Path>, nh: Addr)
    ensures var r := WithoutNexthop(ps, nh);
      && (forall q :: q in r ==> q in ps)
      && |r| == (if HasNexthop(ps, nh) then |ps| - 1 else |ps|)
      && (Disjoint(ps) ==> Disjoint(r) && !HasNexthop(r, nh))
  {
    WithoutNexthopMembers(ps, nh);
    if Disjoint(ps) {
      WithoutNexthopDisjoint(ps, nh);
    }
  }

  lemma {:induction false} WithoutAllMembers(ps: seq<Path>, gone: set<Addr>)
    ensures var r := WithoutAll(ps, gone);
      |r| <= |ps| && forall q :: q in r <==> q in ps && q.nexthop !in gone
  {
    if ps != [] {
      WithoutAllMembers(ps[1..], gone);
      assert ps == [ps[0]] + ps[1..];
    }
  }

  lemma {:induction false} WithoutAllDisjoint(ps: seq<Path>, gone: set<Addr>)
    requires Disjoint(ps)
    ensures Disjoint(WithoutAll(ps, gone))
  {
    if ps != [] {
      assert Disjoint(ps[1..]);
      WithoutAllDisjoint(ps[1..], gone);
      WithoutAllMembers(ps[1..], gone);
      hide WithoutAll;
      DisjointFrom(ps, WithoutAll(ps[1..], gone));
      WithoutAllFirst(ps, gone);
    }
  }

  lemma WithoutAllFirst(ps: seq<Path>, gone: set<Addr>)
    requires ps != []
    ensures WithoutAll(ps, gone) == WithoutAll(ps[1..], gone)
         || WithoutAll(ps, gone) == [ps[0]] + WithoutAll(ps[1..], gone)
  {
  }

  lemma WithoutAllKeeps(ps: seq<Path>, gone: set<Addr>)
    ensures var r := WithoutAll(ps, gone);
      && |r| <= |ps|
      && (forall q :: q in r <==> q in ps && q.nexthop !in gone)
      && (Disjoint(ps) ==> Disjoint(r))
  {
    WithoutAllMembers(ps, gone);
    if Disjoint(ps) {
      WithoutAllDisjoint(ps, gone);
    }
  }

  lemma {:induction false} LongestHopsBounds(ps: seq<Path>)
    ensures forall k :: 0 <= k < |ps| ==> ps[k].hops <= LongestHops(ps)
    ensures LongestHops(ps) > 0 ==> exists k :: 0 <= k < |ps| && ps[k].hops == LongestHops(ps)
  {
    if ps != [] {
      var init := ps[..|ps| - 1];
      LongestHopsBounds(init);
      forall k | 0 <= k < |ps| ensures ps[k].hops <= LongestHops(ps) {
        if k < |init| { assert init[k] == ps[k]; }
      }
      if LongestHops(ps) != ps[|ps| - 1].hops {
        var k :| 0 <= k < |init| && init[k].hops == LongestHops(init);
        assert ps[k].hops == LongestHops(ps);
      }
    }
  }

  // ----- operations on an entry

  lemma AddPathOk(e: Entry, p: Path, cfg: Config)
    requires EntryOk(e, cfg) && e.flags == Up && p.hops >= 1
    requires e.advertised.Fin? ==> p.hops <= e.advertised.n
    requires NewDisjoint(e.paths, p.nexthop, p.lasthop) && |e.paths| < PathLimit(cfg)
    ensures EntryOk(AddPath(e, p), cfg) && Evolves(e, AddPath(e, p))
    ensures PathsFrom(e, AddPath(e, p), e.seqno, p)
  {
  }

  lemma RestartOk(e: Entry, seqno: nat, p: Path, cfg: Config)
    requires EntryOk(e, cfg) && LiveSeqno(seqno) && e.seqno < seqno && p.hops >= 1
    ensures var e' := Restart(e, seqno, p);
      EntryOk(e', cfg) && Evolves(e, e') && PathsFrom(e, e', seqno, p) && e'.flags == Up && e'.seqno == seqno
  {
  }

  /** An entry whose number equals the live one of an offer is up. */
  lemma SameNumberIsUp(e: Entry, seqno: nat, cfg: Config)
    requires EntryOk(e, cfg) && LiveSeqno(seqno) && e.seqno == seqno
    ensures e.flags == Up
  {
  }

  lemma OfferReverseOk(e: Entry, seqno: nat, p: Path, cfg: Config, forMe: bool)
    requires EntryOk(e, cfg) && LiveSeqno(seqno) && p.hops >= 1
    ensures var (e', v) := OfferReverse(e, seqno, p, cfg, forMe);
      && EntryOk(e', cfg) && Evolves(e, e') && PathsFrom(e, e', seqno, p)
      && (v.Kept? ==> e'.flags == Up && e'.seqno == seqno)
  {
    if e.seqno < seqno {
      RestartOk(e, seqno, p, cfg);
    } else if e.seqno == seqno {
      SameNumberIsUp(e, seqno, cfg);
      if Refines(e, seqno, p.hops - 1) && NewDisjoint(e.paths, p.nexthop, p.lasthop) && e.numPaths < cfg.maxPaths {
        AddPathOk(e, p, cfg);
      }
      hide EntryOk;
    }
  }

  lemma OfferForwardOk(e: Entry, seqno: nat, p: Path, cfg: Config)
    requires EntryOk(e, cfg) && LiveSeqno(seqno) && p.hops >= 1
    ensures var (e', dropped) := OfferForward(e, seqno, p, cfg);
      && EntryOk(e', cfg) && Evolves(e, e') && PathsFrom(e, e', seqno, p)
      && (!dropped ==> e'.flags == Up && e'.seqno == seqno)
  {
    if e.seqno < seqno {
      RestartOk(e, seqno, p, cfg);
    } else if e.seqno == seqno {
      SameNumberIsUp(e, seqno, cfg);
      if Refines(e, seqno, p.hops - 1) && NewDisjoint(e.paths, p.nexthop, p.lasthop) && e.numPaths < cfg.maxPaths {
        AddPathOk(e, p, cfg);
      }
      hide EntryOk;
    }
  }

  lemma AdvertiseOk(e: Entry, cfg: Config)
    requires EntryOk(e, cfg) && e.flags == Up
    ensures var e' := Advertise(e);
      && EntryOk(e', cfg) && Evolves(e, e') && OnlyOldPaths(e, e')
      && e'.advertised.Fin? && e'.advertised.n >= 1 && e'.seqno == e.seqno && e'.flags == Up
  {
    LongestHopsBounds(e.paths);
    assert e.paths[0].hops >= 1;
  }

  lemma SetErrorOk(e: Entry, cfg: Config, b: bool)
    requires EntryOk(e, cfg)
    ensures EntryOk(e.(error := b), cfg) && Evolves(e, e.(error := b)) && OnlyOldPaths(e, e.(error := b))
  {
  }

  /** Losing a path over `nh` from an entry that has one. */
  lemma DropPathOk(e: Entry, nh: Addr, cfg: Config)
    requires PathsOk(e, cfg) && HasNexthop(e.paths, nh)
    ensures var e' := DropPath(e, nh);
      && PathsOk(e', cfg) && !HasNexthop(e'.paths, nh) && (forall q :: q in e'.paths ==> q in e.paths)
      && |e'.paths| == |e.paths| - 1 && e'.seqno == e.seqno && e'.advertised == e.advertised && e'.flags == e.flags
      && e'.heard == e.heard
  {
    WithoutNexthopKeeps(e.paths, nh);
    var r := WithoutNexthop(e.paths, nh);
    forall k | 0 <= k < |r| ensures r[k].hops >= 1 && (e.advertised.Fin? ==> r[k].hops <= e.advertised.n) {
      assert r[k] in r;
    }
  }

  /** A live entry taken down with a higher dead number. */
  lemma TakeDownOk(e: Entry, s: nat, e0: Entry, cfg: Config)
    requires PathsOk(e, cfg) && e.flags == Up && DeadSeqno(s) && e0.seqno < s
    ensures var e' := TakeDown(e.(seqno := s));
      EntryOk(e', cfg) && Evolves(e0, e') && OnlyOldPaths(e0, e') && e'.flags == Down && e'.seqno == s
  {
  }

  lemma HearErrorOk(e: Entry, from: Addr, s: nat, cfg: Config)
    requires EntryOk(e, cfg) && DeadSeqno(s) && ErrorApplies(e, from, s)
    ensures var e' := HearError(e, from, s);
      && EntryOk(e', cfg) && Evolves(e, e') && OnlyOldPaths(e, e')
      && (e'.flags == Down ==> e.seqno < e'.seqno)
  {
    DropPathOk(e, from, cfg);
    var e1 := DropPath(e, from);
    var e2 := e1.(heard := Max(e1.heard, s));
    assert PathsOk(e2, cfg);
    assert s % 2 == 1 && e.seqno < s;
    if e2.paths == [] {
      TakeDownOk(e2, e2.heard, e, cfg);
      SetErrorOk(TakeDown(e2.(seqno := e2.heard)), cfg, false);
    }
  }

  lemma FailEntryOk(e: Entry, nb: Addr, cfg: Config)
    requires EntryOk(e, cfg)
    ensures var e' := FailEntry(e, nb);
      && EntryOk(e', cfg) && Evolves(e, e') && OnlyOldPaths(e, e')
      && (e.flags == Up ==> !HasNexthop(e'.paths, nb))
      && (e.flags == Up && e'.flags == Down ==> e.seqno < e'.seqno)
  {
    if Uses(e, nb) {
      DropPathOk(e, nb, cfg);
      var e1 := DropPath(e, nb);
      if e1.paths == [] {
        var e2 := e1.(error := false);
        assert PathsOk(e2, cfg);
        TakeDownOk(e2, Max(e1.seqno + 1, e1.heard), e, cfg);
      }
    }
  }

  lemma ExpireEntryOk(e: Entry, gone: set<Addr>, cfg: Config)
    requires EntryOk(e, cfg)
    ensures var e' := ExpireEntry(e, gone);
      && EntryOk(e', cfg) && Evolves(e, e') && OnlyOldPaths(e, e')
      && (e.flags == Up && e'.flags == Down ==> e.seqno < e'.seqno)
  {
    if e.flags == Up {
      WithoutAllKeeps(e.paths, gone);
      var ps := WithoutAll(e.paths, gone);
      var e1 := e.(paths := ps, numPaths := e.numPaths - (|e.paths| - |ps|));
      forall k | 0 <= k < |ps| ensures ps[k].hops >= 1 && (e.advertised.Fin? ==> ps[k].hops <= e.advertised.n) {
        assert ps[k] in ps;
      }
      assert PathsOk(e1, cfg);
      if ps == [] {
        TakeDownOk(e1, Max(e1.seqno + 1, e1.heard), e, cfg);
      }
    }
  }
}
