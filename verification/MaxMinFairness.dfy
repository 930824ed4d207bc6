/** Weighted max-min fairness, and the mathematics of the water-filling loop of
    asim: what one round of it does to an allocation, and why the allocation at
    the end is max-min fair. */
module MaxMinFairness {
  import opened LinkLoads

  /** The routes of the flows, the capacity of the links, the offered rates, and
      which flows are short; short flows are never scaled. */
  datatype Problem = Problem(adj: seq<seq<nat>>, cap: seq<real>, offered: seq<real>, short: seq<bool>)

  ghost predicate ProblemOk(c: Problem) {
    && |c.offered| == |c.short| == |c.adj|
    && (forall i :: 0 <= i < |c.adj| ==> c.adj[i] != [])
    && (forall i, l :: 0 <= i < |c.adj| && l in c.adj[i] ==> l < |c.cap|)
    && (forall i :: 0 <= i < |c.adj| && !c.short[i] ==> c.offered[i] > 0.0)
  }

  predicate Long(c: Problem, i: nat)
    requires |c.short| == |c.adj| && i < |c.adj|
  {
    !c.short[i]
  }

  /** Link `l` lies on the route of a long flow. */
  predicate UsedLink(c: Problem, l: nat)
    requires |c.short| == |c.adj|
  {
    exists i :: 0 <= i < |c.adj| && Long(c, i) && l in c.adj[i]
  }

  // ----- what fairness means

  /** Rates that leave short flows alone and overload no link of a long flow. */
  ghost predicate Feasible(c: Problem, x: seq<real>)
    requires ProblemOk(c)
  {
    && |x| == |c.adj|
    && (forall i :: 0 <= i < |x| && !Long(c, i) ==> x[i] == c.offered[i])
    && (forall l :: 0 <= l < |c.cap| && UsedLink(c, l) ==> Load(c.adj, x, l) <= c.cap[l])
  }

  /** The ratio of allocated to offered rate of `j` is at most the one of `i`. */
  predicate RatioAtMost(c: Problem, x: seq<real>, j: nat, i: nat)
    requires |c.offered| == |x| && j < |x| && i < |x|
  {
    x[j] * c.offered[i] <= x[i] * c.offered[j]
  }

  /** Link `l` of `i` is saturated, and no other long flow on it has a larger ratio. */
  ghost predicate BottleneckAt(c: Problem, x: seq<real>, i: nat, l: nat)
    requires ProblemOk(c) && |x| == |c.adj| && i < |x|
  {
    l in c.adj[i] && Load(c.adj, x, l) == c.cap[l]
    && forall j :: 0 <= j < |x| && Long(c, j) && l in c.adj[j] ==> RatioAtMost(c, x, j, i)
  }

  ghost predicate Bottlenecked(c: Problem, x: seq<real>, i: nat)
    requires ProblemOk(c) && |x| == |c.adj| && i < |x|
  {
    exists l :: BottleneckAt(c, x, i, l)
  }

  /** Weighted max-min fairness: nobody can get more in any feasible allocation
      without some long flow of no larger ratio getting less. */
  ghost predicate MaxMinFair(c: Problem, x: seq<real>)
    requires ProblemOk(c)
  {
    && Feasible(c, x)
    && forall y, i :: Feasible(c, y) && 0 <= i < |x| && Long(c, i) && y[i] > x[i] ==>
         exists j :: 0 <= j < |x| && Long(c, j) && y[j] < x[j] && RatioAtMost(c, x, j, i)
  }

  /** If a flow across a link gets more without more load on the link, another
      flow across it gets less. */
  lemma SomeoneLoses(c: Problem, x: seq<real>, y: seq<real>, l: nat, i: nat)
    requires |x| == |y| == |c.adj| && i < |x| && l in c.adj[i] && x[i] < y[i]
    requires Load(c.adj, y, l) <= Load(c.adj, x, l)
    ensures exists j :: 0 <= j < |x| && l in c.adj[j] && y[j] < x[j]
  {
    if forall j :: 0 <= j < |x| && l in c.adj[j] ==> x[j] <= y[j] {
      LoadMonotone(c.adj, x, y, l);
      assert false;
    }
  }

  /** If a bottlenecked flow gets more in a feasible allocation, a flow on its bottleneck
      of no larger ratio gets less. */
  lemma BottleneckProtects(c: Problem, x: seq<real>, y: seq<real>, i: nat, l: nat)
    requires ProblemOk(c) && Feasible(c, x) && Feasible(c, y) && i < |x| && Long(c, i) && x[i] < y[i]
    requires BottleneckAt(c, x, i, l)
    ensures exists j :: 0 <= j < |x| && Long(c, j) && y[j] < x[j] && RatioAtMost(c, x, j, i)
  {
    hide Load, RatioAtMost;
    assert UsedLink(c, l);
    SomeoneLoses(c, x, y, l, i);
    var j :| 0 <= j < |x| && l in c.adj[j] && y[j] < x[j];
    assert Long(c, j);
  }

  lemma BottleneckedIsFair(c: Problem, x: seq<real>)
    requires ProblemOk(c) && Feasible(c, x)
    requires forall i :: 0 <= i < |x| && Long(c, i) ==> Bottlenecked(c, x, i)
    ensures MaxMinFair(c, x)
  {
    hide Load, RatioAtMost, UsedLink, BottleneckAt;
    forall y, i | Feasible(c, y) && 0 <= i < |x| && Long(c, i) && y[i] > x[i]
      ensures exists j :: 0 <= j < |x| && Long(c, j) && y[j] < x[j] && RatioAtMost(c, x, j, i)
    {
      assert Bottlenecked(c, x, i);
      var l :| BottleneckAt(c, x, i, l);
      BottleneckProtects(c, x, y, i, l);
    }
  }

  /** `x` divided by a positive ratio. */
  function Over(x: real, g: real): (r: real)
    requires g > 0.0
    ensures Product(x, r, g)
    ensures (x > 0.0 ==> r > 0.0) && (x == 0.0 ==> r == 0.0)
  {
    x / g
  }

  // ----- the state of the loop

  /** Rates and flags of the flows; for a scaled long flow the ratio it was divided
      by and the bottleneck link that decided it. */
  datatype State = State(rate: seq<real>, scaled: seq<bool>, ratio: seq<real>, link: seq<nat>)

  ghost predicate Shaped(c: Problem, s: State) {
    |s.rate| == |s.scaled| == |s.ratio| == |s.link| == |c.adj|
  }

  /** The rates of the flows not scaled yet, 0 for the others. */
  function Pending(rate: seq<real>, scaled: seq<bool>): seq<real>
    requires |rate| == |scaled|
  {
    seq(|rate|, i requires 0 <= i < |rate| => if scaled[i] then 0.0 else rate[i])
  }

  /** The rates of the flows that are settled, 0 for the others. */
  function Settled(rate: seq<real>, scaled: seq<bool>): seq<real>
    requires |rate| == |scaled|
  {
    seq(|rate|, i requires 0 <= i < |rate| => if scaled[i] then rate[i] else 0.0)
  }

  /** `utput` of a link: the load of the flows not scaled yet. */
  function Demand(c: Problem, s: State, l: nat): real
    requires Shaped(c, s)
  {
    Load(c.adj, Pending(s.rate, s.scaled), l)
  }

  /** `uc` of a link: the capacity that settled flows leave. */
  function Residual(c: Problem, s: State, l: nat): real
    requires Shaped(c, s) && l < |c.cap|
  {
    c.cap[l] - Load(c.adj, Settled(s.rate, s.scaled), l)
  }

  /** Every rate is accounted for: short flows are settled from the start, flows
      not scaled yet still have their offered rate, scaled long flows have it
      divided by their ratio. */
  ghost predicate Accounted(c: Problem, s: State)
    requires ProblemOk(c)
  {
    && Shaped(c, s)
    && (forall i :: 0 <= i < |s.rate| ==>
          (c.short[i] || !s.scaled[i] ==> s.rate[i] == c.offered[i]) && (c.short[i] ==> s.scaled[i]))
    && (forall i :: 0 <= i < |s.rate| && Long(c, i) && s.scaled[i] ==>
          s.ratio[i] > 0.0 && Product(c.offered[i], s.rate[i], s.ratio[i]))
  }

  /** The bottleneck link of every scaled long flow is saturated, and all long
      flows across it were scaled by a ratio at least as large. */
  ghost predicate Decided(c: Problem, s: State)
    requires ProblemOk(c) && Shaped(c, s)
  {
    forall i :: 0 <= i < |s.rate| && Long(c, i) && s.scaled[i] ==>
      && s.link[i] in c.adj[i] && Residual(c, s, s.link[i]) == 0.0
      && forall j :: 0 <= j < |s.rate| && Long(c, j) && s.link[i] in c.adj[j] ==> s.scaled[j] && s.ratio[j] >= s.ratio[i]
  }

  /** The link is not overdrawn, if full it has no demand left, and the demand on it
      stays below every ratio used so far. */
  ghost predicate BoundedOn(c: Problem, s: State, l: nat)
    requires ProblemOk(c) && Shaped(c, s) && l < |c.cap|
  {
    && Residual(c, s, l) >= 0.0
    && (Residual(c, s, l) == 0.0 ==> Demand(c, s, l) == 0.0)
    && forall i :: 0 <= i < |s.rate| && Long(c, i) && s.scaled[i] ==> Demand(c, s, l) <= s.ratio[i] * Residual(c, s, l)
  }

  ghost predicate Bounded(c: Problem, s: State)
    requires ProblemOk(c) && Shaped(c, s)
  {
    forall l :: 0 <= l < |c.cap| && UsedLink(c, l) ==> BoundedOn(c, s, l)
  }

  ghost predicate Inv(c: Problem, s: State)
    requires ProblemOk(c)
  {
    Accounted(c, s) && Decided(c, s) && Bounded(c, s)
  }

  // ----- the start

  /** The capacity left after the short flows is positive on every link that a
      long flow uses. */
  ghost predicate RoomAtStart(c: Problem)
    requires ProblemOk(c)
  {
    forall l :: 0 <= l < |c.cap| && UsedLink(c, l) ==> Load(c.adj, Settled(c.offered, c.short), l) < c.cap[l]
  }

  function StartState(c: Problem): State
    requires ProblemOk(c)
  {
    State(c.offered, c.short, seq(|c.adj|, _ => 0.0), seq(|c.adj|, _ => 0))
  }

  lemma StartInv(c: Problem)
    requires ProblemOk(c)
    ensures Accounted(c, StartState(c))
    ensures RoomAtStart(c) ==> Inv(c, StartState(c))
  {
  }

  // ----- one round

  /** Link `b` has the positive ratio `g` of demand to residual capacity, and no link
      with residual capacity has a larger one. */
  ghost predicate Selected(c: Problem, s: State, b: nat, g: real)
    requires Shaped(c, s)
  {
    && b < |c.cap| && Residual(c, s, b) != 0.0 && g > 0.0
    && g * Residual(c, s, b) == Demand(c, s, b)
    && forall l :: 0 <= l < |c.cap| && Residual(c, s, l) > 0.0 ==> Demand(c, s, l) <= g * Residual(c, s, l)
  }

  predicate Moves(c: Problem, s: State, b: nat, i: nat)
    requires Shaped(c, s) && i < |c.adj|
  {
    b in c.adj[i] && !s.scaled[i]
  }

  /** All flows across `b` that are not scaled yet are divided by `g`. */
  function Round(c: Problem, s: State, b: nat, g: real): State
    requires Shaped(c, s) && g > 0.0
  {
    var n := |c.adj|;
    State(seq(n, i requires 0 <= i < n => if Moves(c, s, b, i) then Over(s.rate[i], g) else s.rate[i]),
          seq(n, i requires 0 <= i < n => s.scaled[i] || b in c.adj[i]),
          seq(n, i requires 0 <= i < n => if Moves(c, s, b, i) then g else s.ratio[i]),
          seq(n, i requires 0 <= i < n => if Moves(c, s, b, i) then b else s.link[i]))
  }

  /** The demand that a round settles. */
  function Moved(c: Problem, s: State, b: nat): seq<real>
    requires Shaped(c, s)
  {
    seq(|c.adj|, i requires 0 <= i < |c.adj| => if Moves(c, s, b, i) then s.rate[i] else 0.0)
  }

  /** The moved load, divided by the ratio. */
  function Shrunk(c: Problem, s: State, b: nat, g: real): seq<real>
    requires Shaped(c, s) && g > 0.0
  {
    seq(|c.adj|, i requires 0 <= i < |c.adj| => Over(Moved(c, s, b)[i], g))
  }

  lemma ShrunkTimesRatio(c: Problem, s: State, b: nat, g: real, l: nat)
    requires Shaped(c, s) && g > 0.0
    ensures Product(Load(c.adj, Moved(c, s, b), l), Load(c.adj, Shrunk(c, s, b, g), l), g)
  {
    hide Over, Product;
    LoadScaled(c.adj, Shrunk(c, s, b, g), Moved(c, s, b), g, l);
  }

  lemma RoundDemand(c: Problem, s: State, b: nat, g: real, l: nat)
    requires Shaped(c, s) && g > 0.0
    ensures Demand(c, s, l) == Demand(c, Round(c, s, b, g), l) + Load(c.adj, Moved(c, s, b), l)
  {
    var s' := Round(c, s, b, g);
    var u, v, w := Pending(s'.rate, s'.scaled), Moved(c, s, b), Pending(s.rate, s.scaled);
    assert forall i :: 0 <= i < |w| ==> w[i] == u[i] + v[i];
    LoadSum(c.adj, u, v, w, l);
  }

  lemma RoundSettled(c: Problem, s: State, b: nat, g: real, l: nat)
    requires Shaped(c, s) && g > 0.0
    ensures var s' := Round(c, s, b, g);
      Load(c.adj, Settled(s'.rate, s'.scaled), l)
      == Load(c.adj, Settled(s.rate, s.scaled), l) + Load(c.adj, Shrunk(c, s, b, g), l)
  {
    var s' := Round(c, s, b, g);
    var u, v, w := Settled(s.rate, s.scaled), Shrunk(c, s, b, g), Settled(s'.rate, s'.scaled);
    hide Over, Product;
    LoadSum(c.adj, u, v, w, l);
  }

  /** A round takes the moved load off the demand, and the moved load divided by
      the ratio off the residual capacity. */
  lemma RoundLoads(c: Problem, s: State, b: nat, g: real, l: nat)
    requires Shaped(c, s) && g > 0.0 && l < |c.cap|
    ensures var s' := Round(c, s, b, g);
      && Demand(c, s', l) == Demand(c, s, l) - Load(c.adj, Moved(c, s, b), l)
      && Product(Load(c.adj, Moved(c, s, b), l), Residual(c, s, l) - Residual(c, s', l), g)
  {
    RoundDemand(c, s, b, g, l);
    RoundSettled(c, s, b, g, l);
    ShrunkTimesRatio(c, s, b, g, l);
    hide Round, Moved, Shrunk, Load, Settled, Demand, Product;
  }

  /** The sign of a product with a positive factor. */
  lemma SignOfFactor(g: real, r: real)
    requires g > 0.0
    ensures (g * r > 0.0 <==> r > 0.0) && (g * r == 0.0 <==> r == 0.0)
  {
    if r > 0.0 {
      assert g * r > 0.0;
    } else if r < 0.0 {
      assert g * r < 0.0;
    }
  }

  /** Moved load: between 0 and the demand, all of it on the bottleneck itself. */
  lemma MovedBounds(c: Problem, s: State, b: nat, l: nat)
    requires ProblemOk(c) && Accounted(c, s)
    ensures 0.0 <= Load(c.adj, Moved(c, s, b), l) <= Demand(c, s, l)
    ensures l == b ==> Load(c.adj, Moved(c, s, b), l) == Demand(c, s, l)
  {
    var moved, pending := Moved(c, s, b), Pending(s.rate, s.scaled);
    assert NonNegative(moved);
    LoadNonNegative(c.adj, moved, l);
    LoadMonotone(c.adj, moved, pending, l);
    if l == b {
      LoadMonotone(c.adj, pending, moved, l);
    }
  }

  lemma DemandNonNegative(c: Problem, s: State, l: nat)
    requires ProblemOk(c) && Accounted(c, s)
    ensures Demand(c, s, l) >= 0.0
    ensures Demand(c, s, l) > 0.0 <==> exists i :: 0 <= i < |c.adj| && !s.scaled[i] && l in c.adj[i]
  {
    var pending := Pending(s.rate, s.scaled);
    assert NonNegative(pending);
    LoadNonNegative(c.adj, pending, l);
    if i :| 0 <= i < |c.adj| && !s.scaled[i] && l in c.adj[i] {
      assert pending[i] > 0.0;
    }
  }

  lemma RoundAccounted(c: Problem, s: State, b: nat, g: real)
    requires ProblemOk(c) && Accounted(c, s) && g > 0.0
    ensures Accounted(c, Round(c, s, b, g))
  {
  }

  /** The new residual and demand of a link whose demand was at most `g` times its
      residual: real arithmetic only. */
  lemma StillBelow(res: real, dem: real, res': real, dem': real, moved: real, g: real, h: real)
    requires g > 0.0 && h >= g && res >= 0.0 && dem <= g * res && 0.0 <= moved <= dem
    requires dem' == dem - moved && Product(moved, res - res', g)
    ensures res' >= 0.0 && dem' <= g * res' && dem' <= h * res' && dem' >= 0.0
    ensures res' == 0.0 ==> dem' == 0.0
  {
    assert g * res' == g * res - moved;
    assert g * res' >= dem' >= 0.0;
    SignOfFactor(g, res');
    assert (h - g) * res' >= 0.0;
    assert h * res' == g * res' + (h - g) * res';
  }

  /** On the links of long flows, `g` bounds the demand of a selected round. */
  lemma SelectedBounds(c: Problem, s: State, b: nat, g: real, l: nat)
    requires ProblemOk(c) && Inv(c, s) && Selected(c, s, b, g) && l < |c.cap| && UsedLink(c, l)
    ensures Shaped(c, s) && Accounted(c, s) && g > 0.0
    ensures Residual(c, s, l) >= 0.0 && Demand(c, s, l) <= g * Residual(c, s, l)
  {
    assert Residual(c, s, l) >= 0.0;
  }

  /** The selected link carries a flow that is not scaled yet, so it is used; the
      ratio of the round is at most every earlier one. */
  lemma SelectedIsUsed(c: Problem, s: State, b: nat, g: real)
    requires ProblemOk(c) && Accounted(c, s) && Selected(c, s, b, g)
    ensures exists i :: 0 <= i < |c.adj| && Moves(c, s, b, i)
    ensures UsedLink(c, b)
    ensures Bounded(c, s) ==>
      Residual(c, s, b) > 0.0 && forall i :: 0 <= i < |s.rate| && Long(c, i) && s.scaled[i] ==> g <= s.ratio[i]
  {
    DemandNonNegative(c, s, b);
    SignOfFactor(g, Residual(c, s, b));
    var i :| 0 <= i < |c.adj| && !s.scaled[i] && b in c.adj[i];
    assert Moves(c, s, b, i) && Long(c, i);
    if Bounded(c, s) {
      var r := Residual(c, s, b);
      assert BoundedOn(c, s, b);
      forall k | 0 <= k < |s.rate| && Long(c, k) && s.scaled[k] ensures g <= s.ratio[k] {
        assert g * r <= s.ratio[k] * r;
        CancelRight(g, s.ratio[k], r);
      }
    }
  }

  lemma CancelRight(x: real, y: real, r: real)
    requires r > 0.0 && x * r <= y * r
    ensures x <= y
  {
    assert r * (y - x) == y * r - x * r;
    SignOfFactor(r, y - x);
  }

  lemma RoundBoundsLink(c: Problem, s: State, b: nat, g: real, l: nat, h: real)
    requires ProblemOk(c) && Inv(c, s) && Selected(c, s, b, g) && l < |c.cap| && UsedLink(c, l) && h >= g
    ensures var s' := Round(c, s, b, g);
      && Residual(c, s', l) >= 0.0 && (Residual(c, s', l) == 0.0 ==> Demand(c, s', l) == 0.0)
      && Demand(c, s', l) <= h * Residual(c, s', l)
  {
    hide Inv, Accounted, Selected, Residual, Demand, UsedLink, Load, Product;
    SelectedBounds(c, s, b, g, l);
    RoundLoads(c, s, b, g, l);
    MovedBounds(c, s, b, l);
    var s' := Round(c, s, b, g);
    hide Round;
    StillBelow(Residual(c, s, l), Demand(c, s, l), Residual(c, s', l), Demand(c, s', l), Load(c.adj, Moved(c, s, b), l), g, h);
  }

  lemma RatiosAfterRound(c: Problem, s: State, b: nat, g: real)
    requires ProblemOk(c) && Inv(c, s) && Selected(c, s, b, g)
    ensures var s' := Round(c, s, b, g);
      forall i :: 0 <= i < |s'.rate| && Long(c, i) && s'.scaled[i] ==> s'.ratio[i] >= g
  {
    SelectedIsUsed(c, s, b, g);
  }

  lemma RoundBoundedOn(c: Problem, s: State, b: nat, g: real, l: nat)
    requires ProblemOk(c) && Inv(c, s) && Selected(c, s, b, g) && l < |c.cap| && UsedLink(c, l)
    ensures BoundedOn(c, Round(c, s, b, g), l)
  {
    RatiosAfterRound(c, s, b, g);
    RoundBoundsLink(c, s, b, g, l, g);
    var s' := Round(c, s, b, g);
    hide Inv, Selected, Round, Residual, Demand, UsedLink, ProblemOk;
    forall i | 0 <= i < |s'.rate| && Long(c, i) && s'.scaled[i]
      ensures Demand(c, s', l) <= s'.ratio[i] * Residual(c, s', l)
    {
      RoundBoundsLink(c, s, b, g, l, s'.ratio[i]);
    }
  }

  lemma RoundBounded(c: Problem, s: State, b: nat, g: real)
    requires ProblemOk(c) && Inv(c, s) && Selected(c, s, b, g)
    ensures Bounded(c, Round(c, s, b, g))
  {
    assert Shaped(c, Round(c, s, b, g));
    hide BoundedOn, Round;
    forall l | 0 <= l < |c.cap| && UsedLink(c, l) ensures BoundedOn(c, Round(c, s, b, g), l) {
      RoundBoundedOn(c, s, b, g, l);
    }
  }

  /** The bottleneck is full after its round, exactly. */
  lemma BottleneckIsFull(c: Problem, s: State, b: nat, g: real)
    requires ProblemOk(c) && Accounted(c, s) && Selected(c, s, b, g)
    ensures Residual(c, Round(c, s, b, g), b) == 0.0
  {
    RoundLoads(c, s, b, g, b);
    MovedBounds(c, s, b, b);
    var r := Residual(c, Round(c, s, b, g), b);
    assert (Residual(c, s, b) - r) * g == g * Residual(c, s, b) - g * r;
    SignOfFactor(g, r);
  }

  /** A link without demand is not touched by a round. */
  lemma NoDemandNoChange(c: Problem, s: State, b: nat, g: real, l: nat)
    requires ProblemOk(c) && Accounted(c, s) && g > 0.0 && l < |c.cap| && Demand(c, s, l) == 0.0
    ensures Residual(c, Round(c, s, b, g), l) == Residual(c, s, l)
  {
    RoundLoads(c, s, b, g, l);
    MovedBounds(c, s, b, l);
    var x := Residual(c, s, l) - Residual(c, Round(c, s, b, g), l);
    assert g * x == x * g;
    SignOfFactor(g, x);
  }

  lemma RoundDecided(c: Problem, s: State, b: nat, g: real)
    requires ProblemOk(c) && Inv(c, s) && Selected(c, s, b, g)
    ensures Decided(c, Round(c, s, b, g))
  {
    var s' := Round(c, s, b, g);
    SelectedIsUsed(c, s, b, g);
    BottleneckIsFull(c, s, b, g);
    forall i | 0 <= i < |s'.rate| && Long(c, i) && s'.scaled[i]
      ensures s'.link[i] in c.adj[i] && Residual(c, s', s'.link[i]) == 0.0
      ensures forall j :: 0 <= j < |s'.rate| && Long(c, j) && s'.link[i] in c.adj[j] ==>
        s'.scaled[j] && s'.ratio[j] >= s'.ratio[i]
    {
      if !Moves(c, s, b, i) {
        assert s.scaled[i];
        assert UsedLink(c, s.link[i]);
        NoDemandNoChange(c, s, b, g, s.link[i]);
      }
    }
  }

  /** A round keeps the invariant. */
  lemma RoundInv(c: Problem, s: State, b: nat, g: real)
    requires ProblemOk(c) && Inv(c, s) && Selected(c, s, b, g)
    ensures Inv(c, Round(c, s, b, g))
  {
    RoundAccounted(c, s, b, g);
    RoundBounded(c, s, b, g);
    RoundDecided(c, s, b, g);
  }

  /** The bottleneck ratio never rises from one round to the next. */
  lemma RatioNeverRises(c: Problem, s: State, b: nat, g: real, b': nat, g': real)
    requires ProblemOk(c) && Inv(c, s) && Selected(c, s, b, g) && Selected(c, Round(c, s, b, g), b', g')
    ensures g' <= g
  {
    var s' := Round(c, s, b, g);
    RoundInv(c, s, b, g);
    SelectedIsUsed(c, s, b, g);
    SelectedIsUsed(c, s', b', g');
    var i :| 0 <= i < |c.adj| && Moves(c, s, b, i);
    assert Long(c, i) && s'.scaled[i] && s'.ratio[i] == g;
  }

  // ----- the end

  /** No link with residual capacity has demand. */
  ghost predicate Finished(c: Problem, s: State)
    requires Shaped(c, s)
  {
    forall l :: 0 <= l < |c.cap| && Residual(c, s, l) > 0.0 ==> Demand(c, s, l) <= 0.0
  }

  lemma AllScaledAtEnd(c: Problem, s: State)
    requires ProblemOk(c) && Inv(c, s) && Finished(c, s)
    ensures forall i :: 0 <= i < |s.scaled| ==> s.scaled[i]
  {
    forall i | 0 <= i < |s.scaled| ensures s.scaled[i] {
      if !s.scaled[i] {
        var l := c.adj[i][0];
        assert Long(c, i) && l in c.adj[i];
        assert UsedLink(c, l);
        DemandNonNegative(c, s, l);
      }
    }
  }

  lemma RatiosOrderRates(xi: real, xj: real, ri: real, rj: real, oi: real, oj: real)
    requires ri > 0.0 && rj >= ri && Product(oi, xi, ri) && Product(oj, xj, rj) && oi > 0.0 && oj > 0.0
    ensures xj * oi <= xi * oj
  {
    assert ri * xi == xi * ri && rj * xj == xj * rj;
    SignOfFactor(ri, xi);
    SignOfFactor(rj, xj);
    var p := xi * xj;
    SignOfFactor(xi, xj);
    assert xj * oi == p * ri;
    assert xi * oj == p * rj;
    assert p * (rj - ri) >= 0.0;
  }

  lemma FinishedIsFeasible(c: Problem, s: State)
    requires ProblemOk(c) && Inv(c, s) && Finished(c, s)
    ensures (forall i :: 0 <= i < |s.scaled| ==> s.scaled[i]) && Settled(s.rate, s.scaled) == s.rate
    ensures Feasible(c, s.rate)
  {
    AllScaledAtEnd(c, s);
    assert Settled(s.rate, s.scaled) == s.rate;
    forall l | 0 <= l < |c.cap| && UsedLink(c, l) ensures Load(c.adj, s.rate, l) <= c.cap[l] {
      assert Residual(c, s, l) >= 0.0;
    }
  }

  /** Of two scaled long flows the one divided by the larger ratio got the smaller
      share of what it offered. */
  lemma LargerRatioSmallerShare(c: Problem, s: State, j: nat, i: nat)
    requires ProblemOk(c) && Accounted(c, s) && i < |s.rate| && j < |s.rate|
    requires Long(c, i) && Long(c, j) && s.scaled[i] && s.scaled[j] && s.ratio[j] >= s.ratio[i]
    ensures RatioAtMost(c, s.rate, j, i)
  {
    RatiosOrderRates(s.rate[i], s.rate[j], s.ratio[i], s.ratio[j], c.offered[i], c.offered[j]);
  }

  lemma FinishedIsBottlenecked(c: Problem, s: State, i: nat)
    requires ProblemOk(c) && Inv(c, s) && Finished(c, s) && i < |s.rate| && Long(c, i)
    ensures Bottlenecked(c, s.rate, i)
  {
    FinishedIsFeasible(c, s);
    var l := s.link[i];
    hide Bounded, Finished, Load, Feasible, Product, RatioAtMost, Accounted, Settled;
    assert l in c.adj[i] && Residual(c, s, l) == 0.0;
    forall j | 0 <= j < |s.rate| && Long(c, j) && l in c.adj[j] ensures RatioAtMost(c, s.rate, j, i) {
      LargerRatioSmallerShare(c, s, j, i);
    }
    assert BottleneckAt(c, s.rate, i, l);
  }

  /** When the loop ends the rates are feasible and every long flow is bottlenecked:
      the allocation is weighted max-min fair. */
  lemma FinishedIsFair(c: Problem, s: State)
    requires ProblemOk(c) && Inv(c, s) && Finished(c, s)
    ensures forall i :: 0 <= i < |s.rate| && Long(c, i) ==> s.scaled[i] && Bottlenecked(c, s.rate, i)
    ensures MaxMinFair(c, s.rate)
  {
    FinishedIsFeasible(c, s);
    hide Bottlenecked, MaxMinFair, Feasible;
    forall i | 0 <= i < |s.rate| && Long(c, i) ensures Bottlenecked(c, s.rate, i) {
      FinishedIsBottlenecked(c, s, i);
    }
    BottleneckedIsFair(c, s.rate);
  }

  /** Without room for the long flows on some link they use, no positive rates for
      them are feasible, whatever the loop does. */
  lemma NoRoomNoFeasibleRates(c: Problem, x: seq<real>)
    requires ProblemOk(c) && Feasible(c, x)
    requires forall i :: 0 <= i < |x| && Long(c, i) ==> x[i] > 0.0
    ensures RoomAtStart(c)
  {
    var start := Settled(c.offered, c.short);
    forall l | 0 <= l < |c.cap| && UsedLink(c, l) ensures Load(c.adj, start, l) < c.cap[l] {
      var i :| 0 <= i < |c.adj| && Long(c, i) && l in c.adj[i];
      LoadMonotone(c.adj, start, x, l);
      assert start[i] < x[i];
    }
  }

  /** A link that a short flow fills on its own, shared with a long flow. */
  function Overbooked(cap: real, p: real, q: real): Problem {
    Problem([[0], [0]], [cap], [p, q], [true, false])
  }

  /** Without room the code gives no feasible rates: it ends before the first round,
      and the long flow keeps its offered rate on a full link. */
  lemma OverbookedStaysInfeasible(cap: real, p: real, q: real)
    requires p >= cap && q > 0.0
    ensures var c := Overbooked(cap, p, q);
      && ProblemOk(c) && !RoomAtStart(c)
      && Finished(c, StartState(c)) && !StartState(c).scaled[1] && !Feasible(c, StartState(c).rate)
  {
    var c := Overbooked(cap, p, q);
    var s := StartState(c);
    assert 0 in c.adj[1] && Long(c, 1) && UsedLink(c, 0);
    LoadOfTwo(c.offered);
    LoadOfTwo(Settled(c.offered, c.short));
    hide Load;
    assert Load(c.adj, s.rate, 0) == p + q > c.cap[0];
    assert Residual(c, s, 0) == cap - p;
  }

  lemma OnItsOnlyLink(x: real)
    ensures On([0], 0, x) == x
  {
    assert [0][..0] == [];
  }

  lemma LoadOfTwo(x: seq<real>)
    requires |x| == 2
    ensures Load([[0], [0]], x, 0) == x[0] + x[1]
  {
    assert [[0], [0]][..1] == [[0]] && [[0]][..0] == [];
    OnItsOnlyLink(x[0]);
    OnItsOnlyLink(x[1]);
    assert Load([[0]], x[..1], 0) == x[0];
  }

  // ----- there is only one fair allocation

  predicate Differs(c: Problem, x: seq<real>, y: seq<real>, i: nat)
    requires |c.short| == |c.adj| == |x| == |y|
  {
    i < |x| && Long(c, i) && x[i] != y[i]
  }

  /** The smaller of the two ratios of allocated to offered rate. */
  function Lower(c: Problem, x: seq<real>, y: seq<real>, i: nat): real
    requires |c.offered| == |x| == |y| && i < |x| && c.offered[i] > 0.0
  {
    (if x[i] < y[i] then x[i] else y[i]) / c.offered[i]
  }

  /** Among the first `n` flows that differ, one with the smallest lower ratio. */
  lemma {:induction false} LowestDifference(c: Problem, x: seq<real>, y: seq<real>, n: nat) returns (i: nat)
    requires ProblemOk(c) && |x| == |y| == |c.adj| && n <= |x|
    requires exists j :: 0 <= j < n && Differs(c, x, y, j)
    ensures i < n && Differs(c, x, y, i)
    ensures forall j :: 0 <= j < n && Differs(c, x, y, j) ==> Lower(c, x, y, i) <= Lower(c, x, y, j)
  {
    hide Lower;
    if exists j :: 0 <= j < n - 1 && Differs(c, x, y, j) {
      i := LowestDifference(c, x, y, n - 1);
      if Differs(c, x, y, n - 1) && Lower(c, x, y, n - 1) < Lower(c, x, y, i) {
        i := n - 1;
      }
    } else {
      i := n - 1;
    }
  }

  /** Where the first of two fair allocations is lower there is a lower difference. */
  lemma FairGoesLower(c: Problem, x: seq<real>, y: seq<real>, i: nat) returns (j: nat)
    requires ProblemOk(c) && MaxMinFair(c, x) && MaxMinFair(c, y) && |x| == |y| == |c.adj|
    requires Differs(c, x, y, i) && x[i] < y[i]
    ensures j < |x| && Differs(c, x, y, j) && Lower(c, x, y, j) < Lower(c, x, y, i)
  {
    hide Lower;
    j := SomeoneLower(c, x, y, i);
    LowerRatio(c, x, y, j, i);
  }

  lemma SomeoneLower(c: Problem, x: seq<real>, y: seq<real>, i: nat) returns (j: nat)
    requires ProblemOk(c) && MaxMinFair(c, x) && MaxMinFair(c, y) && |x| == |y| == |c.adj|
    requires i < |x| && Long(c, i) && x[i] < y[i]
    ensures j < |x| && Long(c, j) && y[j] < x[j] && RatioAtMost(c, x, j, i)
  {
    hide Feasible, RatioAtMost;
    j :| 0 <= j < |x| && Long(c, j) && y[j] < x[j] && RatioAtMost(c, x, j, i);
  }

  lemma LowerRatio(c: Problem, x: seq<real>, y: seq<real>, j: nat, i: nat)
    requires |c.offered| == |x| == |y| && i < |x| && j < |x| && c.offered[i] > 0.0 && c.offered[j] > 0.0
    requires x[i] < y[i] && y[j] < x[j] && RatioAtMost(c, x, j, i)
    ensures Lower(c, x, y, j) < Lower(c, x, y, i)
  {
    QuotientsCompare(y[j], x[j], c.offered[j], x[i], c.offered[i]);
  }

  lemma QuotientsCompare(low: real, high: real, o: real, r: real, p: real)
    requires o > 0.0 && p > 0.0 && low < high && high * p <= r * o
    ensures low / o < r / p
  {
    var a, b, d := low / o, high / o, r / p;
    assert a * o == low && b * o == high && d * p == r;
    SignOfFactor(o, b - a);
    assert o * (b - a) == b * o - a * o;
    assert (o * p) * (d - b) == (d * p) * o - (b * o) * p;
    SignOfFactor(o, p);
    SignOfFactor(o * p, d - b);
  }

  /** The weighted max-min fair rates are unique, so what the loop computes is the only
      fair allocation. */
  lemma FairIsUnique(c: Problem, x: seq<real>, y: seq<real>)
    requires ProblemOk(c) && MaxMinFair(c, x) && MaxMinFair(c, y)
    ensures x == y
  {
    forall i | 0 <= i < |x| ensures x[i] == y[i] {
      if Differs(c, x, y, i) {
        NothingDiffers(c, x, y, i);
        assert false;
      }
    }
  }

  lemma NothingDiffers(c: Problem, x: seq<real>, y: seq<real>, i: nat)
    requires ProblemOk(c) && MaxMinFair(c, x) && MaxMinFair(c, y) && |x| == |y| == |c.adj|
    ensures !Differs(c, x, y, i)
  {
    hide Lower, MaxMinFair;
    if Differs(c, x, y, i) {
      assert exists j :: 0 <= j < |x| && Differs(c, x, y, j);
      var low := LowestDifference(c, x, y, |x|);
      var j := GoesLower(c, x, y, low);
    }
  }

  /** Whichever of two fair allocations is lower, there is a lower difference. */
  lemma GoesLower(c: Problem, x: seq<real>, y: seq<real>, i: nat) returns (j: nat)
    requires ProblemOk(c) && MaxMinFair(c, x) && MaxMinFair(c, y) && |x| == |y| == |c.adj| && Differs(c, x, y, i)
    ensures j < |x| && Differs(c, x, y, j) && c.offered[j] > 0.0 && c.offered[i] > 0.0
    ensures Lower(c, x, y, j) < Lower(c, x, y, i)
  {
    hide Lower, MaxMinFair;
    LowerIsSymmetric(c, x, y);
    if x[i] < y[i] {
      j := FairGoesLower(c, x, y, i);
    } else {
      j := FairGoesLower(c, y, x, i);
    }
  }

  lemma LowerIsSymmetric(c: Problem, x: seq<real>, y: seq<real>)
    requires ProblemOk(c) && |x| == |y| == |c.adj|
    ensures forall j :: 0 <= j < |x| ==> (Differs(c, x, y, j) <==> Differs(c, y, x, j))
    ensures forall j :: 0 <= j < |x| && Long(c, j) ==> Lower(c, x, y, j) == Lower(c, y, x, j)
  {
  }
}
