/** The k-ary fat tree, for k == 2 * h: hosts under edge switches, pods of edge and
    aggregation switches, and core switches above them. */
module FatTree {

  datatype Node = Host(i: nat) | Edge(i: nat) | Agg(i: nat) | Core(i: nat)
  datatype Link = Link(start: Node, end: Node)

  function Cores(h: nat): nat {
    h * h
  }

  /** The edge switches, and likewise the aggregation switches. */
  function Switches(h: nat): nat {
    2 * h * h
  }

  function Hosts(h: nat): nat {
    2 * h * h * h
  }

  /** The first switch of pod `p`. */
  function First(h: nat, p: nat): nat {
    h * p
  }

  /** The pod of switch `i`; also the switch that the `i`-th item of a level belongs to. */
  function Group(h: nat, i: nat): nat
    requires h > 0
  {
    i / h
  }

  // ----- the links, in the order in which they are generated

  /** The links of the first `n` hosts. */
  function HostLinks(h: nat, n: nat): seq<Link>
    requires h > 0
  {
    if n == 0 then [] else HostLinks(h, n - 1) + [Link(Host(n - 1), Edge(Group(h, n - 1)))]
  }

  /** The links from edge switch `e` to the first `n` aggregation switches from `b` on. */
  function EdgeRow(e: nat, b: nat, n: nat): seq<Link> {
    if n == 0 then [] else EdgeRow(e, b, n - 1) + [Link(Edge(e), Agg(b + n - 1))]
  }

  /** The links of the first `n` edge switches of the pod that starts at `b`. */
  function PodRows(h: nat, b: nat, n: nat): seq<Link> {
    if n == 0 then [] else PodRows(h, b, n - 1) + EdgeRow(b + n - 1, b, h)
  }

  /** The links inside the first `p` pods. */
  function PodLinks(h: nat, p: nat): seq<Link> {
    if p == 0 then [] else PodLinks(h, p - 1) + PodRows(h, First(h, p - 1), h)
  }

  /** The links from the pod that starts at `b` to the first `n` core switches. */
  function CoreRow(h: nat, b: nat, n: nat): seq<Link>
    requires h > 0
  {
    if n == 0 then [] else CoreRow(h, b, n - 1) + [Link(Agg(b + Group(h, n - 1)), Core(n - 1))]
  }

  /** The core links of the first `p` pods. */
  function CoreLinks(h: nat, p: nat): seq<Link>
    requires h > 0
  {
    if p == 0 then [] else CoreLinks(h, p - 1) + CoreRow(h, First(h, p - 1), Cores(h))
  }

  function AllLinks(h: nat): seq<Link>
    requires h > 0
  {
    HostLinks(h, Hosts(h)) + PodLinks(h, 2 * h) + CoreLinks(h, 2 * h)
  }

  // ----- degrees

  function Touches(l: Link, v: Node): nat {
    if l.start == v || l.end == v then 1 else 0
  }

  /** How many links `v` is an end of. */
  function Degree(links: seq<Link>, v: Node): nat {
    if links == [] then 0 else Degree(links[..|links| - 1], v) + Touches(links[|links| - 1], v)
  }

  lemma {:induction false} DegreeAppend(a: seq<Link>, b: seq<Link>, v: Node)
    ensures Degree(a + b, v) == Degree(a, v) + Degree(b, v)
  {
    if b == [] {
      assert a + b == a;
    } else {
      DegreeAppend(a, b[..|b| - 1], v);
      assert (a + b)[..|a + b| - 1] == a + b[..|b| - 1];
    }
  }

  lemma DegreeMore(a: seq<Link>, l: Link, v: Node)
    ensures Degree(a + [l], v) == Degree(a, v) + Touches(l, v)
  {
    assert (a + [l])[..|a|] == a;
  }

  /** How many members of group `e` are below `n`. */
  function Share(h: nat, e: nat, n: nat): (s: nat)
    ensures s <= h
  {
    if n <= First(h, e) then 0 else if n - First(h, e) >= h then h else n - First(h, e)
  }

  /** The members of group `q`. */
  lemma GroupIs(h: nat, n: nat, q: nat)
    requires h > 0
    ensures Group(h, n) == q <==> First(h, q) <= n < First(h, q) + h
  {
    OwnGroup(h, n);
    var d := Group(h, n);
    hide First, Group;
    FirstNext(h, d);
    FirstNext(h, q);
    if d < q {
      FirstGrows(h, d + 1, q);
    } else if q < d {
      FirstGrows(h, q + 1, d);
    }
  }

  lemma OwnGroup(h: nat, n: nat)
    requires h > 0
    ensures First(h, Group(h, n)) <= n < First(h, Group(h, n)) + h
  {
  }

  lemma FirstGrows(h: nat, a: nat, b: nat)
    requires a <= b
    ensures First(h, a) <= First(h, b)
  {
    assert h * b == h * a + h * (b - a);
  }

  lemma FirstNext(h: nat, p: nat)
    ensures First(h, p + 1) == First(h, p) + h
    ensures First(h, 0) == 0
  {
  }

  lemma Sizes(h: nat)
    ensures First(h, h) == Cores(h) && First(h, 2 * h) == Switches(h) && First(h, Switches(h)) == Hosts(h)
  {
    assert h * (2 * h * h) == 2 * h * h * h;
  }

  lemma GroupBelow(h: nat, n: nat, q: nat)
    requires h > 0
    ensures Group(h, n) < q <==> n < First(h, q)
  {
    hide First, Group;
    GroupIs(h, n, Group(h, n));
    FirstNext(h, Group(h, n));
    if Group(h, n) < q {
      FirstGrows(h, Group(h, n) + 1, q);
    } else {
      FirstGrows(h, q, Group(h, n));
    }
  }

  lemma ShareGrows(h: nat, e: nat, n: nat)
    requires h > 0
    ensures Share(h, e, n + 1) == Share(h, e, n) + if Group(h, n) == e then 1 else 0
  {
    hide First, Group;
    GroupIs(h, n, e);
  }

  lemma ShareOfNone(h: nat, e: nat)
    ensures Share(h, e, 0) == 0
  {
  }

  lemma HostStep(h: nat, n: nat, v: Node)
    requires h > 0
    ensures Degree(HostLinks(h, 0), v) == 0
    ensures n > 0 ==> Degree(HostLinks(h, n), v) == Degree(HostLinks(h, n - 1), v)
                      + if v == Host(n - 1) || v == Edge(Group(h, n - 1)) then 1 else 0
  {
    hide Group;
    if n > 0 {
      DegreeMore(HostLinks(h, n - 1), Link(Host(n - 1), Edge(Group(h, n - 1))), v);
    }
  }

  lemma {:induction false} HostDegrees(h: nat, n: nat, v: Node)
    requires h > 0
    ensures Degree(HostLinks(h, n), v) ==
      match v
      case Host(i) => if i < n then 1 else 0
      case Edge(e) => Share(h, e, n)
      case _ => 0
  {
    hide Group, Degree, HostLinks, Share;
    HostStep(h, n, v);
    if v.Edge? {
      ShareOfNone(h, v.i);
    }
    if n > 0 {
      HostDegrees(h, n - 1, v);
      if v.Edge? {
        ShareGrows(h, v.i, n - 1);
      }
    }
  }

  lemma {:induction false} RowDegrees(e: nat, b: nat, n: nat, v: Node)
    ensures Degree(EdgeRow(e, b, n), v) ==
      match v
      case Edge(i) => if i == e then n else 0
      case Agg(a) => if b <= a < b + n then 1 else 0
      case _ => 0
  {
    if n > 0 {
      RowDegrees(e, b, n - 1, v);
      DegreeMore(EdgeRow(e, b, n - 1), Link(Edge(e), Agg(b + n - 1)), v);
    }
  }

  lemma PodStep(h: nat, b: nat, n: nat, v: Node)
    ensures Degree(PodRows(h, b, 0), v) == 0
    ensures n > 0 ==> Degree(PodRows(h, b, n), v)
                      == Degree(PodRows(h, b, n - 1), v) + Degree(EdgeRow(b + n - 1, b, h), v)
  {
    hide EdgeRow;
    if n > 0 {
      DegreeAppend(PodRows(h, b, n - 1), EdgeRow(b + n - 1, b, h), v);
    }
  }

  lemma {:induction false} PodDegrees(h: nat, b: nat, n: nat, v: Node)
    ensures Degree(PodRows(h, b, n), v) ==
      match v
      case Edge(i) => if b <= i < b + n then h else 0
      case Agg(a) => if b <= a < b + h then n else 0
      case _ => 0
  {
    hide EdgeRow, Degree, PodRows;
    PodStep(h, b, n, v);
    if n > 0 {
      PodDegrees(h, b, n - 1, v);
      RowDegrees(b + n - 1, b, h, v);
    }
  }

  lemma PodsStep(h: nat, p: nat, v: Node)
    ensures Degree(PodLinks(h, 0), v) == 0
    ensures p > 0 ==> Degree(PodLinks(h, p), v)
                      == Degree(PodLinks(h, p - 1), v) + Degree(PodRows(h, First(h, p - 1), h), v)
  {
    hide First, PodRows;
    if p > 0 {
      DegreeAppend(PodLinks(h, p - 1), PodRows(h, First(h, p - 1), h), v);
    }
  }

  lemma {:induction false} PodsDegrees(h: nat, p: nat, v: Node)
    requires h > 0
    ensures Degree(PodLinks(h, p), v) ==
      match v
      case Edge(i) => if i < First(h, p) then h else 0
      case Agg(a) => if a < First(h, p) then h else 0
      case _ => 0
  {
    hide *;
    PodsStep(h, p, v);
    FirstNext(h, p);
    if p > 0 {
      PodsDegrees(h, p - 1, v);
      PodDegrees(h, First(h, p - 1), h, v);
      FirstNext(h, p - 1);
    }
  }

  lemma CoreRowStep(h: nat, b: nat, n: nat, v: Node)
    requires h > 0
    ensures Degree(CoreRow(h, b, 0), v) == 0
    ensures n > 0 ==> Degree(CoreRow(h, b, n), v) == Degree(CoreRow(h, b, n - 1), v)
                      + if v == Agg(b + Group(h, n - 1)) || v == Core(n - 1) then 1 else 0
  {
    hide Group;
    if n > 0 {
      DegreeMore(CoreRow(h, b, n - 1), Link(Agg(b + Group(h, n - 1)), Core(n - 1)), v);
    }
  }

  lemma {:induction false} CoreRowDegrees(h: nat, b: nat, n: nat, v: Node)
    requires h > 0
    ensures Degree(CoreRow(h, b, n), v) ==
      match v
      case Core(c) => if c < n then 1 else 0
      case Agg(a) => if a >= b then Share(h, a - b, n) else 0
      case _ => 0
  {
    hide Group, Degree, CoreRow, Share;
    CoreRowStep(h, b, n, v);
    if v.Agg? && v.i >= b {
      ShareOfNone(h, v.i - b);
    }
    if n > 0 {
      CoreRowDegrees(h, b, n - 1, v);
      if v.Agg? && v.i >= b {
        ShareGrows(h, v.i - b, n - 1);
      }
    }
  }

  /** Each of the first `n` groups is full. */
  lemma FullShare(h: nat, e: nat, n: nat)
    ensures Share(h, e, First(h, n)) == if e < n then h else 0
  {
    hide First;
    FirstNext(h, e);
    if e < n {
      FirstGrows(h, e + 1, n);
    } else {
      FirstGrows(h, n, e);
    }
  }

  lemma {:induction false} CoresDegrees(h: nat, p: nat, v: Node)
    requires h > 0
    ensures Degree(CoreLinks(h, p), v) ==
      match v
      case Core(c) => if c < Cores(h) then p else 0
      case Agg(a) => if a < First(h, p) then h else 0
      case _ => 0
  {
    FirstNext(h, p);
    assert p == 0 ==> Degree(CoreLinks(h, p), v) == 0;
    hide First, Group, Cores, CoreRow, Share, Degree;
    if p > 0 {
      CoresDegrees(h, p - 1, v);
      CoreRowDegrees(h, First(h, p - 1), Cores(h), v);
      DegreeAppend(CoreLinks(h, p - 1), CoreRow(h, First(h, p - 1), Cores(h)), v);
      FirstNext(h, p - 1);
      Sizes(h);
      if v.Agg? && v.i >= First(h, p - 1) {
        FullShare(h, v.i - First(h, p - 1), h);
      }
    }
  }

  /** Every host has one link; every edge, aggregation and core switch has exactly k. */
  lemma DegreesAreK(h: nat, v: Node)
    requires h > 0
    ensures Degree(AllLinks(h), v) ==
      match v
      case Host(i) => if i < Hosts(h) then 1 else 0
      case Edge(i) => if i < Switches(h) then 2 * h else 0
      case Agg(i) => if i < Switches(h) then 2 * h else 0
      case Core(i) => if i < Cores(h) then 2 * h else 0
  {
    hide First, Hosts, Switches, Cores, HostLinks, PodLinks, CoreLinks, Share;
    DegreeAppend(HostLinks(h, Hosts(h)) + PodLinks(h, 2 * h), CoreLinks(h, 2 * h), v);
    DegreeAppend(HostLinks(h, Hosts(h)), PodLinks(h, 2 * h), v);
    HostDegrees(h, Hosts(h), v);
    PodsDegrees(h, 2 * h, v);
    CoresDegrees(h, 2 * h, v);
    Sizes(h);
    if v.Edge? {
      FullShare(h, v.i, Switches(h));
    }
  }

  // ----- which links there are

  lemma InBoth(a: seq<Link>, b: seq<Link>, l: Link)
    ensures l in a + b <==> l in a || l in b
  {
  }

  predicate IsHostLink(h: nat, n: nat, l: Link)
    requires h > 0
  {
    l.start.Host? && l.start.i < n && l.end == Edge(Group(h, l.start.i))
  }

  /** An edge and an aggregation switch are linked exactly when they are in one pod. */
  predicate IsPodLink(h: nat, p: nat, l: Link)
    requires h > 0
  {
    l.start.Edge? && l.end.Agg? && Group(h, l.start.i) == Group(h, l.end.i) < p
  }

  /** A core switch is linked to the aggregation switch of its row in each pod. */
  predicate IsCoreLink(h: nat, p: nat, l: Link)
    requires h > 0
  {
    && l.start.Agg? && l.end.Core? && l.end.i < Cores(h) && Group(h, l.start.i) < p
    && l.start.i == First(h, Group(h, l.start.i)) + Group(h, l.end.i)
  }

  lemma {:induction false} HostLinkIff(h: nat, n: nat, l: Link)
    requires h > 0
    ensures l in HostLinks(h, n) <==> IsHostLink(h, n, l)
  {
    hide Group;
    if n > 0 {
      HostLinkIff(h, n - 1, l);
      InBoth(HostLinks(h, n - 1), [Link(Host(n - 1), Edge(Group(h, n - 1)))], l);
    }
  }

  lemma {:induction false} RowIff(e: nat, b: nat, n: nat, l: Link)
    ensures l in EdgeRow(e, b, n) <==> l.start == Edge(e) && l.end.Agg? && b <= l.end.i < b + n
  {
    if n > 0 {
      RowIff(e, b, n - 1, l);
      InBoth(EdgeRow(e, b, n - 1), [Link(Edge(e), Agg(b + n - 1))], l);
    }
  }

  lemma {:induction false} PodRowsIff(h: nat, b: nat, n: nat, l: Link)
    ensures l in PodRows(h, b, n) <==>
      l.start.Edge? && l.end.Agg? && b <= l.start.i < b + n && b <= l.end.i < b + h
  {
    hide EdgeRow;
    if n > 0 {
      PodRowsIff(h, b, n - 1, l);
      RowIff(b + n - 1, b, h, l);
      InBoth(PodRows(h, b, n - 1), EdgeRow(b + n - 1, b, h), l);
    }
  }

  lemma {:induction false} PodLinkIff(h: nat, p: nat, l: Link)
    requires h > 0
    ensures l in PodLinks(h, p) <==> IsPodLink(h, p, l)
  {
    hide First, Group, PodRows;
    if p > 0 {
      PodLinkIff(h, p - 1, l);
      PodRowsIff(h, First(h, p - 1), h, l);
      InBoth(PodLinks(h, p - 1), PodRows(h, First(h, p - 1), h), l);
      GroupIs(h, l.start.i, p - 1);
      GroupIs(h, l.end.i, p - 1);
    }
  }

  lemma {:induction false} CoreRowIff(h: nat, b: nat, n: nat, l: Link)
    requires h > 0
    ensures l in CoreRow(h, b, n) <==> l.end.Core? && l.end.i < n && l.start == Agg(b + Group(h, l.end.i))
  {
    hide Group;
    if n > 0 {
      CoreRowIff(h, b, n - 1, l);
      InBoth(CoreRow(h, b, n - 1), [Link(Agg(b + Group(h, n - 1)), Core(n - 1))], l);
    }
  }

  lemma {:induction false} CoreLinkIff(h: nat, p: nat, l: Link)
    requires h > 0
    ensures l in CoreLinks(h, p) <==> IsCoreLink(h, p, l)
  {
    hide First, Group, Cores, CoreRow;
    if p > 0 {
      CoreLinkIff(h, p - 1, l);
      CoreRowIff(h, First(h, p - 1), Cores(h), l);
      InBoth(CoreLinks(h, p - 1), CoreRow(h, First(h, p - 1), Cores(h)), l);
      Sizes(h);
      GroupBelow(h, l.end.i, h);
      GroupIs(h, l.start.i, p - 1);
    }
  }

  /** Exactly which links the whole tree has. */
  lemma LinkIff(h: nat, l: Link)
    requires h > 0
    ensures l in AllLinks(h) <==>
      IsHostLink(h, Hosts(h), l) || IsPodLink(h, 2 * h, l) || IsCoreLink(h, 2 * h, l)
  {
    hide Hosts, HostLinks, PodLinks, CoreLinks, IsHostLink, IsPodLink, IsCoreLink;
    InBoth(HostLinks(h, Hosts(h)) + PodLinks(h, 2 * h), CoreLinks(h, 2 * h), l);
    InBoth(HostLinks(h, Hosts(h)), PodLinks(h, 2 * h), l);
    HostLinkIff(h, Hosts(h), l);
    PodLinkIff(h, 2 * h, l);
    CoreLinkIff(h, 2 * h, l);
  }

  /** Each core switch is linked to exactly one aggregation switch of every pod. */
  lemma OneAggPerPod(h: nat, c: nat, p: nat, a: nat)
    requires h > 0 && c < Cores(h) && p < 2 * h
    ensures Link(Agg(a), Core(c)) in AllLinks(h) && Group(h, a) == p <==> a == First(h, p) + Group(h, c)
  {
    hide First, Group, Cores, AllLinks, Hosts;
    LinkIff(h, Link(Agg(a), Core(c)));
    Sizes(h);
    GroupBelow(h, c, h);
    GroupIs(h, First(h, p) + Group(h, c), p);
  }

  // ----- paths

  /** Up from host `a` to a core switch and down to host `b`. */
  datatype Path = Path(up: nat, upAgg: nat, core: nat, downAgg: nat, down: nat)

  ghost predicate Joins(h: nat, p: Path, a: nat, b: nat)
    requires h > 0
  {
    var links := AllLinks(h);
    && Link(Host(a), Edge(p.up)) in links
    && Link(Edge(p.up), Agg(p.upAgg)) in links
    && Link(Agg(p.upAgg), Core(p.core)) in links
    && Link(Agg(p.downAgg), Core(p.core)) in links
    && Link(Edge(p.down), Agg(p.downAgg)) in links
    && Link(Host(b), Edge(p.down)) in links
  }

  /** The pod of a host. */
  function Pod(h: nat, host: nat): nat
    requires h > 0
  {
    Group(h, Group(h, host))
  }

  /** The path between two hosts through core switch `c`. */
  function Via(h: nat, a: nat, b: nat, c: nat): Path
    requires h > 0
  {
    Path(Group(h, a), First(h, Pod(h, a)) + Group(h, c), c, First(h, Pod(h, b)) + Group(h, c), Group(h, b))
  }

  /** The up-down paths between two hosts are one per core switch. */
  lemma OnePathPerCore(h: nat, a: nat, b: nat, p: Path)
    requires h > 0 && a < Hosts(h) && b < Hosts(h)
    ensures Joins(h, p, a, b) <==> p.core < Cores(h) && p == Via(h, a, b, p.core)
  {
    hide First, Group, Hosts, Switches, Cores, AllLinks;
    LinkIff(h, Link(Host(a), Edge(p.up)));
    LinkIff(h, Link(Edge(p.up), Agg(p.upAgg)));
    LinkIff(h, Link(Agg(p.upAgg), Core(p.core)));
    LinkIff(h, Link(Agg(p.downAgg), Core(p.core)));
    LinkIff(h, Link(Edge(p.down), Agg(p.downAgg)));
    LinkIff(h, Link(Host(b), Edge(p.down)));
    PodIs(h, a, p.core);
    PodIs(h, b, p.core);
  }

  lemma PodIs(h: nat, a: nat, c: nat)
    requires h > 0 && a < Hosts(h)
    ensures Pod(h, a) < 2 * h
    ensures c < Cores(h) ==> Group(h, First(h, Pod(h, a)) + Group(h, c)) == Pod(h, a)
  {
    hide First, Group, Hosts, Switches, Cores;
    Sizes(h);
    GroupBelow(h, a, Switches(h));
    GroupBelow(h, Group(h, a), 2 * h);
    GroupBelow(h, c, h);
    GroupIs(h, First(h, Pod(h, a)) + Group(h, c), Pod(h, a));
  }

  ghost function PathsVia(h: nat, a: nat, b: nat, n: nat): set<Path>
    requires h > 0
  {
    set c | 0 <= c < n :: Via(h, a, b, c)
  }

  lemma {:induction false} OnePathEach(h: nat, a: nat, b: nat, n: nat)
    requires h > 0
    ensures |PathsVia(h, a, b, n)| == n
  {
    if n > 0 {
      OnePathEach(h, a, b, n - 1);
      assert PathsVia(h, a, b, n) == PathsVia(h, a, b, n - 1) + {Via(h, a, b, n - 1)};
    }
  }

  /** Between any two hosts there are exactly (k/2)^2 up-down paths, one through each
      core switch; for hosts of different pods the two ends use different switches. */
  lemma PathsBetweenPods(h: nat, a: nat, b: nat)
    requires h > 0 && a < Hosts(h) && b < Hosts(h)
    ensures forall p :: p in PathsVia(h, a, b, Cores(h)) <==> Joins(h, p, a, b)
    ensures |PathsVia(h, a, b, Cores(h))| == Cores(h)
    ensures Pod(h, a) != Pod(h, b) ==>
      forall p :: Joins(h, p, a, b) ==> p.upAgg != p.downAgg && p.up != p.down
  {
    hide First, Group, Hosts, Switches, Cores, Joins;
    OnePathEach(h, a, b, Cores(h));
    forall p ensures p in PathsVia(h, a, b, Cores(h)) <==> Joins(h, p, a, b) {
      OnePathPerCore(h, a, b, p);
    }
    if Pod(h, a) != Pod(h, b) {
      forall p | Joins(h, p, a, b) ensures p.upAgg != p.downAgg && p.up != p.down {
        OnePathPerCore(h, a, b, p);
        PodIs(h, a, p.core);
        PodIs(h, b, p.core);
      }
    }
  }
}
