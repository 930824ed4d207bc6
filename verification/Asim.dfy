/** The bottleneck rate allocation of asim in the form of the source: arrays of
    link and flow fields, updated in loops, proved to compute the weighted
    max-min fair rates. */
module Asim {
  import opened LinkLoads
  import opened MaxMinFairness

  // ----- moving single flows

  /** State `s` after the flows of `fs` that were not scaled have been divided by
      `g` on account of link `b`. */
  function RoundOver(c: Problem, s: State, fs: seq<nat>, b: nat, g: real): State
    requires Shaped(c, s) && g > 0.0
  {
    var n := |c.adj|;
    State(seq(n, i requires 0 <= i < n => if i in fs && !s.scaled[i] then Over(s.rate[i], g) else s.rate[i]),
          seq(n, i requires 0 <= i < n => s.scaled[i] || i in fs),
          seq(n, i requires 0 <= i < n => if i in fs && !s.scaled[i] then g else s.ratio[i]),
          seq(n, i requires 0 <= i < n => if i in fs && !s.scaled[i] then b else s.link[i]))
  }

  function MoveOne(s: State, t: nat, b: nat, g: real): State
    requires t < |s.rate| == |s.scaled| == |s.ratio| == |s.link| && g > 0.0
  {
    State(s.rate[t := Over(s.rate[t], g)], s.scaled[t := true], s.ratio[t := g], s.link[t := b])
  }

  lemma RoundOverNone(c: Problem, s: State, b: nat, g: real)
    requires Shaped(c, s) && g > 0.0
    ensures RoundOver(c, s, [], b, g) == s
  {
    var r := RoundOver(c, s, [], b, g);
    assert r.rate == s.rate && r.scaled == s.scaled && r.ratio == s.ratio && r.link == s.link;
  }

  lemma RoundOverNext(c: Problem, s: State, fs: seq<nat>, t: nat, b: nat, g: real)
    requires Shaped(c, s) && g > 0.0 && t < |c.adj|
    ensures var r := RoundOver(c, s, fs, b, g);
      RoundOver(c, s, fs + [t], b, g) == if r.scaled[t] then r else MoveOne(r, t, b, g)
  {
    hide Over;
    var r, r' := RoundOver(c, s, fs, b, g), RoundOver(c, s, fs + [t], b, g);
    var m := if r.scaled[t] then r else MoveOne(r, t, b, g);
    assert r'.rate == m.rate;
    assert r'.scaled == m.scaled;
    assert r'.ratio == m.ratio;
    assert r'.link == m.link;
  }

  lemma RoundOverAll(c: Problem, s: State, fs: seq<nat>, b: nat, g: real)
    requires Shaped(c, s) && g > 0.0
    requires forall i :: 0 <= i < |c.adj| ==> (i in fs <==> b in c.adj[i])
    ensures RoundOver(c, s, fs, b, g) == Round(c, s, b, g)
  {
    hide Over;
    var r, r' := RoundOver(c, s, fs, b, g), Round(c, s, b, g);
    assert r.rate == r'.rate;
    assert r.scaled == r'.scaled;
    assert r.ratio == r'.ratio;
    assert r.link == r'.link;
  }

  /** What moving one flow does to demand and residual capacity. */
  lemma MoveOneLoads(c: Problem, s: State, t: nat, b: nat, g: real, l: nat)
    requires ProblemOk(c) && Shaped(c, s) && t < |c.adj| && !s.scaled[t] && g > 0.0 && l < |c.cap|
    ensures var s' := MoveOne(s, t, b, g);
      && Demand(c, s', l) == Demand(c, s, l) - On(c.adj[t], l, s.rate[t])
      && Residual(c, s', l) == Residual(c, s, l) - On(c.adj[t], l, s'.rate[t])
  {
    hide Over;
    var s' := MoveOne(s, t, b, g);
    var pending, settled := Pending(s.rate, s.scaled), Settled(s.rate, s.scaled);
    assert Pending(s'.rate, s'.scaled) == pending[t := 0.0];
    assert Settled(s'.rate, s'.scaled) == settled[t := s'.rate[t]];
    LoadUpdate(c.adj, pending, t, 0.0, l);
    LoadUpdate(c.adj, settled, t, s'.rate[t], l);
    OnZero(c.adj[t], l);
  }

  /** A settled rate stays positive. */
  lemma RatesArePositive(c: Problem, s: State)
    requires ProblemOk(c) && Accounted(c, s)
    ensures forall i :: 0 <= i < |s.rate| && Long(c, i) ==> s.rate[i] > 0.0
  {
    forall i | 0 <= i < |s.rate| && Long(c, i) ensures s.rate[i] > 0.0 {
      if s.scaled[i] {
        assert s.ratio[i] * s.rate[i] == c.offered[i];
        SignOfFactor(s.ratio[i], s.rate[i]);
      }
    }
  }

  function Unscaled(s: State): set<nat> {
    set i: nat | i < |s.scaled| && !s.scaled[i]
  }

  lemma RoundScalesSome(c: Problem, s: State, b: nat, g: real)
    requires ProblemOk(c) && Accounted(c, s) && Selected(c, s, b, g)
    ensures Unscaled(Round(c, s, b, g)) < Unscaled(s)
  {
    SelectedIsUsed(c, s, b, g);
    var s' := Round(c, s, b, g);
    var i :| 0 <= i < |c.adj| && Moves(c, s, b, i);
    assert i in Unscaled(s) && i !in Unscaled(s');
  }

  class Allocator {
    const adj: seq<seq<nat>>
    const short: seq<bool>
    const mu: seq<real>
    var theflows: seq<seq<nat>>
    const rate: array<real>
    const scaled: array<bool>
    const uc: array<real>
    const utput: array<real>

    ghost predicate Valid()
      reads this
    {
      && |adj| == |short| == rate.Length == scaled.Length
      && |mu| == uc.Length == utput.Length
      && rate != uc && rate != utput && uc != utput
      && (forall i, l :: 0 <= i < |adj| && l in adj[i] ==> l < |mu|)
    }

    /** The flows of every link, as GetInputs stores them. */
    ghost predicate Indexed()
      reads this
      requires Valid()
    {
      && |theflows| == |mu|
      && (forall b, i :: 0 <= b < |mu| && 0 <= i < |adj| ==> (i in theflows[b] <==> b in adj[i]))
      && (forall b, i :: 0 <= b < |mu| && i in theflows[b] ==> i < |adj|)
    }

    constructor (adj: seq<seq<nat>>, short: seq<bool>, mu: seq<real>, p: seq<real>)
      requires |adj| == |short| == |p| && forall i, l :: 0 <= i < |adj| && l in adj[i] ==> l < |mu|
      ensures Valid() && Indexed()
      ensures this.adj == adj && this.short == short && this.mu == mu && rate[..] == p
      ensures fresh(rate) && fresh(scaled) && fresh(uc) && fresh(utput)
    {
      this.adj, this.short, this.mu := adj, short, mu;
      rate := new real[|adj|](i requires 0 <= i < |p| => p[i]);
      scaled := new bool[|adj|](_ => false);
      uc := new real[|mu|](_ => 0.0);
      utput := new real[|mu|](_ => 0.0);
      theflows := [];
      new;
      StoreFlows();
    }

    /** The end of GetInputs: for every link, the flows whose route crosses it. */
    method StoreFlows()
      requires Valid()
      modifies this`theflows
      ensures Indexed()
    {
      theflows := [];
      for b := 0 to |mu|
        invariant |theflows| == b
        invariant forall l, i :: 0 <= l < b && 0 <= i < |adj| ==> (i in theflows[l] <==> l in adj[i])
        invariant forall l, i :: 0 <= l < b && i in theflows[l] ==> i < |adj|
      {
        var fs: seq<nat> := [];
        for j := 0 to |adj|
          invariant forall i :: 0 <= i < j ==> (i in fs <==> b in adj[i])
          invariant forall i :: i in fs ==> i < j
        {
          ghost var before := fs;
          for k := 0 to |adj[j]|
            invariant forall i :: i != j ==> (i in fs <==> i in before)
            invariant j in fs <==> b in adj[j][..k]
          {
            if adj[j][k] == b {
              fs := fs + [j];
            }
          }
          assert adj[j][..|adj[j]|] == adj[j];
        }
        theflows := theflows + [fs];
      }
    }

    // ----- the problem and how the arrays represent a state of it

    function Capacity(): (r: seq<real>)
      ensures |r| == |mu| && forall l :: 0 <= l < |mu| ==> r[l] == 1.05 * mu[l]
    {
      seq(|mu|, l requires 0 <= l < |mu| => mu[l] * 1.05)
    }

    ghost function TheProblem(offered: seq<real>): Problem {
      Problem(adj, Capacity(), offered, short)
    }

    ghost predicate Tracks(c: Problem, s: State)
      reads this, rate, scaled, uc, utput
    {
      && Valid() && c.adj == adj && c.short == short && |c.cap| == |mu| && Shaped(c, s)
      && rate[..] == s.rate && scaled[..] == s.scaled
      && (forall l :: 0 <= l < |mu| ==> uc[l] == Residual(c, s, l) && utput[l] == Demand(c, s, l))
    }

    /** The two loops at the start of newupdate. */
    method InitLinks()
      requires Valid() && ProblemOk(TheProblem(rate[..]))
      modifies scaled, uc, utput
      ensures Tracks(TheProblem(rate[..]), StartState(TheProblem(rate[..])))
    {
      ghost var c := TheProblem(rate[..]);
      ghost var s0 := StartState(c);
      for i := 0 to |mu|
        invariant forall l :: 0 <= l < i ==> uc[l] == c.cap[l] && utput[l] == 0.0
      {
        uc[i] := mu[i] * 1.05;
        utput[i] := 0.0;
      }
      ghost var pending, settled := Pending(s0.rate, s0.scaled), Settled(s0.rate, s0.scaled);
      assert forall l :: Load(adj[..0], settled[..0], l) == Load(adj[..0], pending[..0], l) == 0.0;
      hide Load, On;
      for i := 0 to |adj|
        invariant forall k :: 0 <= k < i ==> scaled[k] == short[k]
        invariant forall l :: 0 <= l < |mu| ==>
          uc[l] == c.cap[l] - Load(adj[..i], settled[..i], l) && utput[l] == Load(adj[..i], pending[..i], l)
      {
        scaled[i] := short[i];
        AddFlow(i, pending, settled);
        LoadOfNext(adj, pending, i);
        LoadOfNext(adj, settled, i);
      }
      assert adj[..|adj|] == adj && pending[..|adj|] == pending && settled[..|adj|] == settled;
      assert scaled[..] == short;
    }

    /** The inner loop over the links of flow `i` in the initialisation. */
    method AddFlow(i: nat, ghost pending: seq<real>, ghost settled: seq<real>)
      requires Valid() && i < |adj|
      requires |pending| == |settled| == |adj|
      requires pending[i] == if short[i] then 0.0 else rate[i]
      requires settled[i] == if short[i] then rate[i] else 0.0
      modifies uc, utput
      ensures forall l :: 0 <= l < |mu| ==>
        uc[l] == old(uc[l]) - On(adj[i], l, settled[i]) && utput[l] == old(utput[l]) + On(adj[i], l, pending[i])
    {
      for j := 0 to |adj[i]|
        invariant forall l :: 0 <= l < |mu| ==>
          uc[l] == old(uc[l]) - On(adj[i][..j], l, settled[i]) && utput[l] == old(utput[l]) + On(adj[i][..j], l, pending[i])
      {
        assert adj[i][..j + 1][..j] == adj[i][..j];
        var l := adj[i][j];
        assert l in adj[i];
        if short[i] {
          uc[l] := uc[l] - rate[i];
        } else {
          utput[l] := utput[l] + rate[i];
        }
      }
      assert adj[i][..|adj[i]|] == adj[i];
    }

    /** `bneck` is the first of the links with the largest positive ratio of demand to
        residual capacity, and that ratio is `maxgamma`; -1 and 0 if no ratio is positive. */
    ghost predicate Largest(bneck: int, maxgamma: real)
      requires Valid() && -1 <= bneck < |mu|
      reads this, uc, utput
    {
      && (forall l :: 0 <= l < |mu| && uc[l] != 0.0 ==> utput[l] / uc[l] <= maxgamma)
      && (if bneck == -1 then maxgamma == 0.0
          else uc[bneck] != 0.0 && maxgamma == utput[bneck] / uc[bneck] > 0.0)
      && (forall l :: 0 <= l < bneck && uc[l] != 0.0 ==> utput[l] / uc[l] < maxgamma)
    }

    /** The loop that looks for the link with the largest ratio. */
    method FindBottleneck() returns (bneck: int, maxgamma: real)
      requires Valid()
      ensures -1 <= bneck < |mu|
      ensures Largest(bneck, maxgamma)
    {
      bneck, maxgamma := -1, 0.0;
      for i := 0 to |mu|
        invariant -1 <= bneck < i && (bneck == -1 ==> maxgamma == 0.0)
        invariant bneck >= 0 ==> uc[bneck] != 0.0 && maxgamma == utput[bneck] / uc[bneck] > 0.0
        invariant forall l :: 0 <= l < i && uc[l] != 0.0 ==> utput[l] / uc[l] <= maxgamma
        invariant forall l :: 0 <= l < bneck && uc[l] != 0.0 ==> utput[l] / uc[l] < maxgamma
      {
        if uc[i] != 0.0 {
          var t := utput[i] / uc[i];
          if t > maxgamma {
            bneck, maxgamma := i, t;
          }
        }
      }
    }

    /** The part of the main loop that divides one flow. */
    method ScaleFlow(t: nat, maxgamma: real, ghost c: Problem, ghost s: State, ghost b: nat)
      requires ProblemOk(c) && Tracks(c, s) && t < |adj| && !s.scaled[t] && maxgamma > 0.0
      modifies rate, scaled, uc, utput
      ensures Tracks(c, MoveOne(s, t, b, maxgamma))
    {
      ghost var p := rate[t];
      rate[t] := rate[t] / maxgamma;
      scaled[t] := true;
      assert rate[t] == Over(p, maxgamma);
      ProductIs(p, rate[t], maxgamma);
      var back := rate[t] * maxgamma;
      assert back == p;
      TakeOffLinks(t, rate[t], back);
      ghost var s' := MoveOne(s, t, b, maxgamma);
      assert rate[..] == s'.rate && scaled[..] == s'.scaled;
      hide Over, Residual, Demand, Product;
      forall l | 0 <= l < |mu| ensures uc[l] == Residual(c, s', l) && utput[l] == Demand(c, s', l) {
        MoveOneLoads(c, s, t, b, maxgamma, l);
      }
    }

    /** The innermost loop: the links of flow `t` lose capacity and demand. */
    method TakeOffLinks(t: nat, capacity: real, demand: real)
      requires Valid() && t < |adj|
      modifies uc, utput
      ensures forall l :: 0 <= l < |mu| ==>
        uc[l] == old(uc[l]) - On(adj[t], l, capacity) && utput[l] == old(utput[l]) - On(adj[t], l, demand)
    {
      for j := 0 to |adj[t]|
        invariant forall l :: 0 <= l < |mu| ==>
          uc[l] == old(uc[l]) - On(adj[t][..j], l, capacity) && utput[l] == old(utput[l]) - On(adj[t][..j], l, demand)
      {
        assert adj[t][..j + 1][..j] == adj[t][..j];
        var l := adj[t][j];
        assert l in adj[t];
        uc[l] := uc[l] - capacity;
        utput[l] := utput[l] - demand;
      }
      assert adj[t][..|adj[t]|] == adj[t];
    }

    /** One round: all flows of the bottleneck that are not scaled yet. */
    method ScaleLink(bneck: nat, maxgamma: real, ghost c: Problem, ghost s: State)
      requires ProblemOk(c) && Tracks(c, s) && Indexed() && bneck < |mu| && maxgamma > 0.0
      requires forall i :: 0 <= i < |short| && short[i] ==> s.scaled[i]
      modifies rate, scaled, uc, utput
      ensures Tracks(c, Round(c, s, bneck, maxgamma))
    {
      var fs := theflows[bneck];
      RoundOverNone(c, s, bneck, maxgamma);
      for i := 0 to |fs|
        invariant Tracks(c, RoundOver(c, s, fs[..i], bneck, maxgamma))
      {
        var t := fs[i];
        assert t in theflows[bneck];
        ghost var r := RoundOver(c, s, fs[..i], bneck, maxgamma);
        RoundOverNext(c, s, fs[..i], t, bneck, maxgamma);
        assert fs[..i] + [t] == fs[..i + 1];
        assert r.scaled[t] == scaled[..][t];
        assert short[t] ==> r.scaled[t];
        if !short[t] && !scaled[t] {
          ScaleFlow(t, maxgamma, c, r, bneck);
        }
      }
      assert fs[..|fs|] == fs;
      RoundOverAll(c, s, fs, bneck, maxgamma);
    }

    /** The body of the main loop: the flows of the bottleneck, then its capacity
        set to 0, which it already is. */
    method RoundOnce(bneck: nat, maxgamma: real, ghost c: Problem, ghost s: State)
      requires ProblemOk(c) && Tracks(c, s) && Indexed() && Accounted(c, s)
      requires bneck < |mu| && Selected(c, s, bneck, maxgamma)
      modifies rate, scaled, uc, utput
      ensures Tracks(c, Round(c, s, bneck, maxgamma))
    {
      BottleneckIsFull(c, s, bneck, maxgamma);
      ScaleLink(bneck, maxgamma, c, s);
      assert uc[bneck] == 0.0;
      uc[bneck] := 0.0;
    }

    /** The bottleneck found in the arrays is the one the state prescribes. */
    lemma FoundIsSelected(c: Problem, s: State, bneck: int, maxgamma: real)
      requires Tracks(c, s) && -1 <= bneck < |mu| && Largest(bneck, maxgamma)
      ensures bneck >= 0 ==> Selected(c, s, bneck, maxgamma) && First(c, s, bneck, maxgamma)
      ensures bneck == -1 ==> Finished(c, s) && NoneLeft(c, s)
    {
      hide Residual, Demand;
      forall l | 0 <= l < |mu| && uc[l] > 0.0 ensures utput[l] <= maxgamma * uc[l] {
        RatioBounds(utput[l], uc[l], maxgamma);
      }
      if bneck >= 0 {
        assert utput[bneck] / uc[bneck] * uc[bneck] == utput[bneck];
      }
    }

    /** The main loop of newupdate. */
    method RunRounds(ghost c: Problem, ghost s0: State) returns (ghost s: State, ghost rounds: seq<State>)
      requires ProblemOk(c) && Tracks(c, s0) && Indexed() && Accounted(c, s0)
      modifies rate, scaled, uc, utput
      ensures Tracks(c, s) && Accounted(c, s) && Finished(c, s)
      ensures Inv(c, s0) ==> Inv(c, s)
      ensures WaterFills(c, s0, rounds) && rounds[|rounds| - 1] == s && NoneLeft(c, s)
    {
      hide ProblemOk, Accounted, Inv, Selected, Finished, Round, First, NoneLeft, WaterFills;
      s, rounds := s0, [s0];
      WaterStarts(c, s0);
      var bneck, maxgamma := FindBottleneck();
      FoundIsSelected(c, s, bneck, maxgamma);
      while bneck != -1
        invariant -1 <= bneck < |mu|
        invariant Tracks(c, s) && Accounted(c, s) && Indexed()
        invariant Inv(c, s0) ==> Inv(c, s)
        invariant bneck >= 0 ==> Selected(c, s, bneck, maxgamma) && First(c, s, bneck, maxgamma)
        invariant bneck == -1 ==> Finished(c, s) && NoneLeft(c, s)
        invariant |rounds| > 0 && rounds[|rounds| - 1] == s && WaterFills(c, s0, rounds)
        decreases Unscaled(s)
      {
        SelectedIsPositive(c, s, bneck, maxgamma);
        RoundScalesSome(c, s, bneck, maxgamma);
        RoundAccounted(c, s, bneck, maxgamma);
        if Inv(c, s) {
          RoundInv(c, s, bneck, maxgamma);
        }
        RoundOnce(bneck, maxgamma, c, s);
        WaterFillsOn(c, s0, rounds, bneck, maxgamma);
        s := Round(c, s, bneck, maxgamma);
        rounds := rounds + [s];
        bneck, maxgamma := FindBottleneck();
        FoundIsSelected(c, s, bneck, maxgamma);
      }
    }

    /** newupdate without the final update of the link rates.  With room for the
        long flows at the start the rates are weighted max-min fair; they are
        feasible exactly if there was room. */
    method NewUpdate() returns (ghost rounds: seq<State>)
      requires Valid() && Indexed() && ProblemOk(TheProblem(rate[..]))
      modifies rate, scaled, uc, utput
      ensures RoomAtStart(TheProblem(old(rate[..]))) ==>
        && MaxMinFair(TheProblem(old(rate[..])), rate[..])
        && forall i :: 0 <= i < |adj| && !short[i] ==>
             scaled[i] && Bottlenecked(TheProblem(old(rate[..])), rate[..], i)
      ensures Feasible(TheProblem(old(rate[..])), rate[..]) <==> RoomAtStart(TheProblem(old(rate[..])))
      // with or without room: from round to round the first link with the largest ratio
      ensures WaterFills(TheProblem(old(rate[..])), StartState(TheProblem(old(rate[..]))), rounds)
      ensures var end := rounds[|rounds| - 1];
        NoneLeft(TheProblem(old(rate[..])), end) && rate[..] == end.rate && scaled[..] == end.scaled
    {
      ghost var c := TheProblem(rate[..]);
      InitLinks();
      StartInv(c);
      ghost var s;
      s, rounds := RunRounds(c, StartState(c));
      assert rate[..] == s.rate && scaled[..] == s.scaled;
      hide ProblemOk, Accounted, Inv, Finished, MaxMinFair, Bottlenecked, RoomAtStart, Feasible, WaterFills, NoneLeft;
      EndOfLoop(c, s);
      forall i | 0 <= i < |adj| && !short[i] && RoomAtStart(c)
        ensures scaled[i] && Bottlenecked(c, rate[..], i)
      {
        assert Long(c, i) && scaled[i] == scaled[..][i];
      }
    }
  }

  // ----- the rounds, whatever the capacities

  /** Link `b` is the first with the largest ratio `g` of demand to residual capacity. */
  ghost predicate First(c: Problem, s: State, b: nat, g: real) {
    && Shaped(c, s) && b < |c.cap| && Residual(c, s, b) != 0.0 && g == Demand(c, s, b) / Residual(c, s, b) > 0.0
    && (forall l :: 0 <= l < |c.cap| && Residual(c, s, l) != 0.0 ==> Demand(c, s, l) / Residual(c, s, l) <= g)
    && (forall l :: 0 <= l < b && Residual(c, s, l) != 0.0 ==> Demand(c, s, l) / Residual(c, s, l) < g)
  }

  ghost predicate NoneLeft(c: Problem, s: State) {
    Shaped(c, s) && forall l :: 0 <= l < |c.cap| && Residual(c, s, l) != 0.0 ==> Demand(c, s, l) / Residual(c, s, l) <= 0.0
  }

  ghost predicate OneRound(c: Problem, s: State, s': State) {
    exists b, g :: First(c, s, b, g) && s' == Round(c, s, b, g)
  }

  /** Every state of `rounds` is one round on from the one before, starting at `s0`. */
  ghost predicate WaterFills(c: Problem, s0: State, rounds: seq<State>) {
    |rounds| > 0 && rounds[0] == s0 && forall k :: 0 <= k < |rounds| - 1 ==> OneRound(c, rounds[k], rounds[k + 1])
  }

  lemma WaterStarts(c: Problem, s0: State)
    ensures WaterFills(c, s0, [s0])
  {
  }

  lemma WaterFillsOn(c: Problem, s0: State, rounds: seq<State>, b: nat, g: real)
    requires WaterFills(c, s0, rounds) && First(c, rounds[|rounds| - 1], b, g)
    ensures WaterFills(c, s0, rounds + [Round(c, rounds[|rounds| - 1], b, g)])
  {
    hide Round;
    var s' := Round(c, rounds[|rounds| - 1], b, g);
    var more := rounds + [s'];
    assert OneRound(c, rounds[|rounds| - 1], s');
    forall k | 0 <= k < |more| - 1 ensures OneRound(c, more[k], more[k + 1]) {
      if k < |rounds| - 1 {
        assert OneRound(c, rounds[k], rounds[k + 1]);
      }
    }
  }

  /** What the end of the loop means. */
  lemma EndOfLoop(c: Problem, s: State)
    requires ProblemOk(c) && Accounted(c, s) && Finished(c, s) && (RoomAtStart(c) ==> Inv(c, s))
    ensures RoomAtStart(c) ==> MaxMinFair(c, s.rate)
    ensures RoomAtStart(c) ==> forall i :: 0 <= i < |c.adj| && Long(c, i) ==> s.scaled[i] && Bottlenecked(c, s.rate, i)
    ensures Feasible(c, s.rate) <==> RoomAtStart(c)
  {
    RatesArePositive(c, s);
    if RoomAtStart(c) {
      FinishedIsFair(c, s);
      FinishedIsFeasible(c, s);
    } else if Feasible(c, s.rate) {
      NoRoomNoFeasibleRates(c, s.rate);
    }
  }

  lemma SelectedIsPositive(c: Problem, s: State, b: nat, g: real)
    requires Shaped(c, s) && Selected(c, s, b, g)
    ensures g > 0.0
  {
  }

  lemma RatioBounds(u: real, r: real, g: real)
    requires r > 0.0 && u / r <= g
    ensures u <= g * r
  {
    var t := u / r;
    assert t * r == u;
    SignOfFactor(r, g - t);
    assert r * (g - t) == g * r - t * r;
  }

  lemma ProductIs(x: real, r: real, g: real)
    requires Product(x, r, g)
    ensures r * g == x
  {
  }
}
