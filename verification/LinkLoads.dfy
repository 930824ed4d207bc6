/** Flows with a rate and a route put load on links; arithmetic is over `real`. */
module LinkLoads {

  /** The load that a flow of rate `x` with this route puts on link `l`: `x` for
      every time the route crosses `l`. */
  function On(route: seq<nat>, l: nat, x: real): real {
    if route == [] then 0.0
    else On(route[..|route| - 1], l, x) + if route[|route| - 1] == l then x else 0.0
  }

  /** The load of all flows on link `l`. */
  function Load(adj: seq<seq<nat>>, w: seq<real>, l: nat): real
    requires |w| == |adj|
  {
    if adj == [] then 0.0
    else
      var n := |adj| - 1;
      Load(adj[..n], w[..n], l) + On(adj[n], l, w[n])
  }

  /** One flow more. */
  lemma LoadOfNext(adj: seq<seq<nat>>, w: seq<real>, n: nat)
    requires |w| == |adj| && n < |adj|
    ensures forall l :: Load(adj[..n + 1], w[..n + 1], l) == Load(adj[..n], w[..n], l) + On(adj[n], l, w[n])
  {
    assert adj[..n + 1][..n] == adj[..n] && w[..n + 1][..n] == w[..n];
  }

  ghost predicate NonNegative(w: seq<real>) {
    forall i :: 0 <= i < |w| ==> w[i] >= 0.0
  }

  lemma {:induction false} OnZero(route: seq<nat>, l: nat)
    ensures On(route, l, 0.0) == 0.0
  {
    if route != [] {
      OnZero(route[..|route| - 1], l);
    }
  }

  lemma {:induction false} OnSum(route: seq<nat>, l: nat, x: real, y: real)
    ensures On(route, l, x) + On(route, l, y) == On(route, l, x + y)
  {
    if route != [] {
      OnSum(route[..|route| - 1], l, x, y);
    }
  }

  /** `y` is `x` times `g`. */
  predicate Product(y: real, x: real, g: real) {
    y == x * g
  }

  lemma ProductSum(y1: real, x1: real, y2: real, x2: real, g: real)
    requires Product(y1, x1, g) && Product(y2, x2, g)
    ensures Product(y1 + y2, x1 + x2, g)
  {
  }

  lemma {:induction false} OnScaled(route: seq<nat>, l: nat, x: real, y: real, g: real)
    requires Product(y, x, g)
    ensures Product(On(route, l, y), On(route, l, x), g)
  {
    hide Product;
    ProductZero(g);
    if route != [] {
      var init, hit := route[..|route| - 1], route[|route| - 1] == l;
      OnScaled(init, l, x, y, g);
      ProductSum(On(init, l, y), On(init, l, x), if hit then y else 0.0, if hit then x else 0.0, g);
    }
  }

  lemma ProductZero(g: real)
    ensures Product(0.0, 0.0, g)
  {
  }

  lemma {:induction false} OnMonotone(route: seq<nat>, l: nat, x: real, y: real)
    requires x <= y
    ensures On(route, l, x) <= On(route, l, y)
    ensures l in route && x < y ==> On(route, l, x) < On(route, l, y)
    ensures l !in route ==> On(route, l, x) == 0.0
  {
    if route != [] {
      OnMonotone(route[..|route| - 1], l, x, y);
      assert route == route[..|route| - 1] + [route[|route| - 1]];
    }
  }

  lemma {:induction false} LoadZero(adj: seq<seq<nat>>, w: seq<real>, l: nat)
    requires |w| == |adj| && forall i :: 0 <= i < |w| ==> w[i] == 0.0
    ensures Load(adj, w, l) == 0.0
  {
    if adj != [] {
      var n := |adj| - 1;
      LoadZero(adj[..n], w[..n], l);
      OnZero(adj[n], l);
    }
  }

  lemma {:induction false} LoadSum(adj: seq<seq<nat>>, u: seq<real>, v: seq<real>, w: seq<real>, l: nat)
    requires |u| == |v| == |w| == |adj| && forall i :: 0 <= i < |w| ==> w[i] == u[i] + v[i]
    ensures Load(adj, w, l) == Load(adj, u, l) + Load(adj, v, l)
  {
    if adj != [] {
      var n := |adj| - 1;
      LoadSum(adj[..n], u[..n], v[..n], w[..n], l);
      OnSum(adj[n], l, u[n], v[n]);
    }
  }

  lemma {:induction false} LoadScaled(adj: seq<seq<nat>>, u: seq<real>, w: seq<real>, g: real, l: nat)
    requires |u| == |w| == |adj| && forall i :: 0 <= i < |w| ==> Product(w[i], u[i], g)
    ensures Product(Load(adj, w, l), Load(adj, u, l), g)
  {
    hide Product;
    ProductZero(g);
    if adj != [] {
      var n := |adj| - 1;
      LoadScaled(adj[..n], u[..n], w[..n], g, l);
      OnScaled(adj[n], l, u[n], w[n], g);
      ProductSum(Load(adj[..n], w[..n], l), Load(adj[..n], u[..n], l), On(adj[n], l, w[n]), On(adj[n], l, u[n]), g);
    }
  }

  /** Pointwise larger rates load a link at least as much, and strictly more if
      some flow across the link is strictly larger. */
  lemma {:induction false} LoadMonotone(adj: seq<seq<nat>>, u: seq<real>, w: seq<real>, l: nat)
    requires |u| == |w| == |adj| && forall i :: 0 <= i < |w| && l in adj[i] ==> u[i] <= w[i]
    ensures Load(adj, u, l) <= Load(adj, w, l)
    ensures (exists i :: 0 <= i < |w| && l in adj[i] && u[i] < w[i]) ==> Load(adj, u, l) < Load(adj, w, l)
  {
    if adj != [] {
      var n := |adj| - 1;
      LoadMonotone(adj[..n], u[..n], w[..n], l);
      OnCompare(adj[n], l, u[n], w[n]);
      if i :| 0 <= i < |w| && l in adj[i] && u[i] < w[i] {
        if i < n {
          assert l in adj[..n][i] && u[..n][i] < w[..n][i];
        }
      }
    }
  }

  lemma OnCompare(route: seq<nat>, l: nat, x: real, y: real)
    requires l in route ==> x <= y
    ensures On(route, l, x) <= On(route, l, y)
    ensures l in route && x < y ==> On(route, l, x) < On(route, l, y)
  {
    if x <= y {
      OnMonotone(route, l, x, y);
    } else {
      OnMonotone(route, l, y, x);
      OnMonotone(route, l, x, x);
    }
  }

  lemma LoadNonNegative(adj: seq<seq<nat>>, w: seq<real>, l: nat)
    requires |w| == |adj| && NonNegative(w)
    ensures Load(adj, w, l) >= 0.0
    ensures (exists i :: 0 <= i < |w| && l in adj[i] && w[i] > 0.0) ==> Load(adj, w, l) > 0.0
    ensures (forall i :: 0 <= i < |w| && l in adj[i] ==> w[i] == 0.0) ==> Load(adj, w, l) == 0.0
  {
    var zero := seq(|adj|, _ => 0.0);
    LoadZero(adj, zero, l);
    LoadMonotone(adj, zero, w, l);
    if i :| 0 <= i < |w| && l in adj[i] && w[i] > 0.0 {
      assert zero[i] < w[i];
    }
    if forall i :: 0 <= i < |w| && l in adj[i] ==> w[i] == 0.0 {
      LoadMonotone(adj, w, zero, l);
    }
  }

  /** Changing the rate of one flow. */
  lemma {:induction false} LoadUpdate(adj: seq<seq<nat>>, w: seq<real>, t: nat, x: real, l: nat)
    requires |w| == |adj| && t < |adj|
    ensures Load(adj, w[t := x], l) == Load(adj, w, l) - On(adj[t], l, w[t]) + On(adj[t], l, x)
  {
    var n := |adj| - 1;
    if t == n {
      assert w[t := x][..n] == w[..n];
    } else {
      assert w[t := x][..n] == w[..n][t := x];
      LoadUpdate(adj[..n], w[..n], t, x, l);
    }
  }
}
