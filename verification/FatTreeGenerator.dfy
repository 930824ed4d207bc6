/** The generator's counter-driven loops over its node and link lists. */
module FatTreeGenerator {
  import opened FatTree

  function HostList(n: nat): (s: seq<Node>)
    ensures |s| == n && forall i :: 0 <= i < n ==> s[i] == Host(i)
  {
    seq(n, i requires 0 <= i => Host(i))
  }

  function EdgeList(n: nat): (s: seq<Node>)
    ensures |s| == n && forall i :: 0 <= i < n ==> s[i] == Edge(i)
  {
    seq(n, i requires 0 <= i => Edge(i))
  }

  function AggList(n: nat): (s: seq<Node>)
    ensures |s| == n && forall i :: 0 <= i < n ==> s[i] == Agg(i)
  {
    seq(n, i requires 0 <= i => Agg(i))
  }

  function CoreList(n: nat): (s: seq<Node>)
    ensures |s| == n && forall i :: 0 <= i < n ==> s[i] == Core(i)
  {
    seq(n, i requires 0 <= i => Core(i))
  }

  /** The sizes as the generator computes them from k. */
  lemma SizesFromK(k: nat)
    requires k % 2 == 0
    ensures k * k * k / 4 == Hosts(k / 2)
    ensures k / 2 * k == Switches(k / 2) && k / 2 * (k / 2) == Cores(k / 2)
    ensures k > 0 ==> Cores(k / 2) / (k / 2) == k / 2
  {
    var h := k / 2;
    assert k == 2 * h;
    assert k * k * k == 4 * (2 * h * h * h);
    if k > 0 {
      GroupIs(h, h * h, h);
    }
  }

  lemma GroupStep(h: nat, i: nat)
    requires h > 0
    ensures Group(h, i + 1) == Group(h, i) + if (i + 1) % h == 0 then 1 else 0
    ensures Group(h, 0) == 0
  {
    var q, r := i / h, i % h;
    assert i == h * q + r;
    GroupIs(h, 0, 0);
    GroupIs(h, i + 1, if r + 1 == h then q + 1 else q);
    FirstNext(h, q);
    Remainder(h, q, r + 1);
  }

  lemma Remainder(h: nat, q: nat, r: nat)
    requires 0 < r <= h
    ensures (h * q + r) % h == 0 <==> r == h
  {
    var n := h * q + r;
    var d, m := n / h, n % h;
    assert n == h * d + m && 0 <= m < h;
    FirstNext(h, q);
    GroupIs(h, n, if r == h then q + 1 else q);
  }

  /** `g` is the `p`-th group of `size` nodes. */
  predicate IsPod(nodes: seq<Node>, size: nat, p: nat, g: seq<Node>) {
    var b := First(size, p);
    b + size <= |nodes| && g == nodes[b..b + size]
  }

  /** Cuts a list into groups of `size`. */
  method Split(nodes: seq<Node>, size: nat) returns (groups: seq<seq<Node>>)
    requires size > 0
    ensures |groups| == Group(size, |nodes|)
    ensures forall p :: 0 <= p < |groups| ==> IsPod(nodes, size, p, groups[p])
  {
    groups := [];
    var tmp: seq<Node> := [];
    var count := 0;
    hide First, Group, IsPod;
    FirstNext(size, 0);
    while count < |nodes|
      invariant 0 <= count <= |nodes| && |tmp| < size
      invariant count == First(size, |groups|) + |tmp| && tmp == nodes[First(size, |groups|)..count]
      invariant forall p :: 0 <= p < |groups| ==> IsPod(nodes, size, p, groups[p])
    {
      tmp := tmp + [nodes[count]];
      count := count + 1;
      FullAt(size, |groups|, |tmp|);
      if count % size == 0 {
        FirstNext(size, |groups|);
        WholePod(nodes, size, |groups|, tmp);
        groups := groups + [tmp];
        tmp := [];
      }
    }
    GroupIs(size, count, |groups|);
  }

  lemma WholePod(nodes: seq<Node>, size: nat, p: nat, g: seq<Node>)
    requires First(size, p) + size <= |nodes| && g == nodes[First(size, p)..First(size, p) + size]
    ensures IsPod(nodes, size, p, g)
  {
  }

  lemma EdgePod(n: nat, size: nat, p: nat, g: seq<Node>)
    requires IsPod(EdgeList(n), size, p, g)
    ensures |g| == size && forall i :: 0 <= i < size ==> g[i] == Edge(First(size, p) + i)
  {
  }

  lemma AggPod(n: nat, size: nat, p: nat, g: seq<Node>)
    requires IsPod(AggList(n), size, p, g)
    ensures |g| == size && forall i :: 0 <= i < size ==> g[i] == Agg(First(size, p) + i)
  {
  }

  lemma FullAt(h: nat, q: nat, r: nat)
    requires 0 < r <= h
    ensures (First(h, q) + r) % h == 0 <==> r == h
  {
    Remainder(h, q, r);
  }

  class Generator {
    const k: nat
    var endHosts: seq<Node>
    var edgeSwitchs: seq<Node>
    var aggregatorSwitchs: seq<Node>
    var coreSwitches: seq<Node>
    var endHostToEdgeSwitchLinks: seq<Link>
    var edgeSwitchToAggregatorLinks: seq<Link>
    var aggregatorSwitchToCoreSwitchLinks: seq<Link>

    ghost predicate NodesMade()
      reads this
    {
      && k % 2 == 0 && k >= 2
      && endHosts == HostList(Hosts(k / 2))
      && edgeSwitchs == EdgeList(Switches(k / 2))
      && aggregatorSwitchs == AggList(Switches(k / 2))
      && coreSwitches == CoreList(Cores(k / 2))
    }

    constructor (k: nat)
      requires k % 2 == 0 && k >= 2
      ensures this.k == k && NodesMade()
      ensures endHostToEdgeSwitchLinks == edgeSwitchToAggregatorLinks == aggregatorSwitchToCoreSwitchLinks == []
    {
      this.k := k;
      endHosts, edgeSwitchs, aggregatorSwitchs, coreSwitches := [], [], [], [];
      endHostToEdgeSwitchLinks, edgeSwitchToAggregatorLinks, aggregatorSwitchToCoreSwitchLinks := [], [], [];
      new;
      SizesFromK(k);
      hide Hosts, Switches, Cores;
      GenerateNodes();
    }

    method GenerateNodes()
      requires k % 2 == 0 && k >= 2
      requires endHosts == edgeSwitchs == aggregatorSwitchs == coreSwitches == []
      modifies `endHosts, `edgeSwitchs, `aggregatorSwitchs, `coreSwitches
      ensures NodesMade()
    {
      SizesFromK(k);
      hide Hosts, Switches, Cores;
      for i := 0 to k * k * k / 4
        invariant endHosts == HostList(i) && edgeSwitchs == aggregatorSwitchs == coreSwitches == []
      {
        endHosts := endHosts + [Host(i)];
      }
      for i := 0 to k / 2 * k
        invariant edgeSwitchs == EdgeList(i) && aggregatorSwitchs == coreSwitches == []
        invariant endHosts == HostList(Hosts(k / 2))
      {
        edgeSwitchs := edgeSwitchs + [Edge(i)];
      }
      for i := 0 to k / 2 * k
        invariant aggregatorSwitchs == AggList(i) && coreSwitches == []
        invariant endHosts == HostList(Hosts(k / 2)) && edgeSwitchs == EdgeList(Switches(k / 2))
      {
        aggregatorSwitchs := aggregatorSwitchs + [Agg(i)];
      }
      for i := 0 to k / 2 * (k / 2)
        invariant coreSwitches == CoreList(i) && aggregatorSwitchs == AggList(Switches(k / 2))
        invariant endHosts == HostList(Hosts(k / 2)) && edgeSwitchs == EdgeList(Switches(k / 2))
      {
        coreSwitches := coreSwitches + [Core(i)];
      }
    }

    method GenerateEndHostToEdgesSwitchLinks()
      requires NodesMade() && endHostToEdgeSwitchLinks == []
      modifies `endHostToEdgeSwitchLinks
      ensures endHostToEdgeSwitchLinks == HostLinks(k / 2, Hosts(k / 2))
    {
      var perPod := k / 2;
      var count := 1;
      var edgeSwitchIndex := 0;
      hide Group, Hosts, Switches, First;
      GroupStep(perPod, 0);
      Sizes(perPod);
      for i := 0 to |endHosts|
        invariant count == i + 1 && edgeSwitchIndex == Group(perPod, i)
        invariant endHostToEdgeSwitchLinks == HostLinks(perPod, i)
      {
        GroupBelow(perPod, i, Switches(perPod));
        endHostToEdgeSwitchLinks := endHostToEdgeSwitchLinks + [Link(endHosts[i], edgeSwitchs[edgeSwitchIndex])];
        GroupStep(perPod, i);
        if count % perPod == 0 {
          edgeSwitchIndex := edgeSwitchIndex + 1;
        }
        count := count + 1;
      }
    }

    method GenerateEdgesSwitchToAggregatorLinks()
      requires NodesMade() && edgeSwitchToAggregatorLinks == []
      modifies `edgeSwitchToAggregatorLinks
      ensures edgeSwitchToAggregatorLinks == PodLinks(k / 2, k)
    {
      hide Group, First, IsPod, PodRows;
      var h := k / 2;
      var podEdges := Split(edgeSwitchs, h);
      var podAggs := Split(aggregatorSwitchs, h);
      hide Group, Switches, First, IsPod, PodRows, EdgeList, AggList;
      Sizes(h);
      GroupIs(h, Switches(h), k);
      for p := 0 to |podAggs|
        invariant edgeSwitchToAggregatorLinks == PodLinks(h, p)
      {
        EdgePod(Switches(h), h, p, podEdges[p]);
        AggPod(Switches(h), h, p, podAggs[p]);
        LinkPod(podEdges[p], podAggs[p], First(h, p));
      }
    }

    /** The two inner loops, for one pod. */
    method LinkPod(edges: seq<Node>, aggs: seq<Node>, ghost b: nat)
      requires |edges| == |aggs|
      requires forall i :: 0 <= i < |edges| ==> edges[i] == Edge(b + i) && aggs[i] == Agg(b + i)
      modifies `edgeSwitchToAggregatorLinks
      ensures edgeSwitchToAggregatorLinks
           == old(edgeSwitchToAggregatorLinks) + PodRows(|edges|, b, |edges|)
    {
      hide EdgeRow;
      for x := 0 to |edges|
        invariant edgeSwitchToAggregatorLinks == old(edgeSwitchToAggregatorLinks) + PodRows(|edges|, b, x)
      {
        LinkEdge(edges[x], aggs, b + x, b);
      }
    }

    /** The innermost loop, for one edge switch. */
    method LinkEdge(edge: Node, aggs: seq<Node>, ghost e: nat, ghost b: nat)
      requires edge == Edge(e) && forall i :: 0 <= i < |aggs| ==> aggs[i] == Agg(b + i)
      modifies `edgeSwitchToAggregatorLinks
      ensures edgeSwitchToAggregatorLinks == old(edgeSwitchToAggregatorLinks) + EdgeRow(e, b, |aggs|)
    {
      for y := 0 to |aggs|
        invariant edgeSwitchToAggregatorLinks == old(edgeSwitchToAggregatorLinks) + EdgeRow(e, b, y)
      {
        edgeSwitchToAggregatorLinks := edgeSwitchToAggregatorLinks + [Link(edge, aggs[y])];
      }
    }

    method GenerateAggregatorSwitchToCoreSwitchLinks()
      requires NodesMade() && aggregatorSwitchToCoreSwitchLinks == []
      modifies `aggregatorSwitchToCoreSwitchLinks
      ensures aggregatorSwitchToCoreSwitchLinks == CoreLinks(k / 2, k)
    {
      hide Group, First, IsPod, CoreRow;
      var h := k / 2;
      var podAggs := Split(aggregatorSwitchs, h);
      SizesFromK(k);
      hide Group, Switches, First, Cores, IsPod, CoreRow, AggList;
      Sizes(h);
      GroupIs(h, Switches(h), k);
      for p := 0 to |podAggs|
        invariant aggregatorSwitchToCoreSwitchLinks == CoreLinks(h, p)
      {
        AggPod(Switches(h), h, p, podAggs[p]);
        LinkCores(podAggs[p], First(h, p));
      }
    }

    /** The inner loop, for one pod. */
    method LinkCores(aggs: seq<Node>, ghost b: nat)
      requires NodesMade() && |aggs| == k / 2
      requires forall i :: 0 <= i < |aggs| ==> aggs[i] == Agg(b + i)
      modifies `aggregatorSwitchToCoreSwitchLinks
      ensures aggregatorSwitchToCoreSwitchLinks
           == old(aggregatorSwitchToCoreSwitchLinks) + CoreRow(k / 2, b, Cores(k / 2))
    {
      SizesFromK(k);
      var per := |coreSwitches| / |aggs|;
      hide Group, Switches, First, Cores;
      Sizes(per);
      GroupStep(per, 0);
      var coreSwitchIndex, podCount := 0, 0;
      while coreSwitchIndex < |coreSwitches|
        invariant 0 <= coreSwitchIndex <= |coreSwitches| && podCount == Group(per, coreSwitchIndex)
        invariant aggregatorSwitchToCoreSwitchLinks
               == old(aggregatorSwitchToCoreSwitchLinks) + CoreRow(per, b, coreSwitchIndex)
      {
        GroupBelow(per, coreSwitchIndex, per);
        aggregatorSwitchToCoreSwitchLinks :=
          aggregatorSwitchToCoreSwitchLinks + [Link(aggs[podCount], coreSwitches[coreSwitchIndex])];
        GroupStep(per, coreSwitchIndex);
        coreSwitchIndex := coreSwitchIndex + 1;
        if coreSwitchIndex % per == 0 {
          podCount := podCount + 1;
        }
      }
    }
  }
}
