/** An AOMDV route entry and its path list, with the loops of aomdv_rtable.cc,
    proved against the functions that the handlers are specified with. */
module AomdvRtable {
  import opened Freshness
  import opened AomdvSpec

  // ----- what the list functions mean

  /** Removing the first path over `nh`: everything else stays, in order. */
  lemma {:induction false} WithoutNexthopAt(ps: seq<Path>, nh: Addr, k: nat)
    requires k < |ps| && ps[k].nexthop == nh && forall j :: 0 <= j < k ==> ps[j].nexthop != nh
    ensures WithoutNexthop(ps, nh) == ps[..k] + ps[k + 1..]
  {
    if k > 0 {
      WithoutNexthopAt(ps[1..], nh, k - 1);
      assert ps[..k] == [ps[0]] + ps[1..][..k - 1];
      assert ps[k + 1..] == ps[1..][k..];
    } else {
      assert ps[..0] + ps[1..] == ps[1..];
    }
  }

  lemma {:induction false} WithoutAllSplit(a: seq<Path>, b: seq<Path>, gone: set<Addr>)
    ensures WithoutAll(a + b, gone) == WithoutAll(a, gone) + WithoutAll(b, gone)
  {
    if a == [] {
      assert a + b == b;
    } else {
      assert (a + b)[1..] == a[1..] + b;
      WithoutAllSplit(a[1..], b, gone);
    }
  }

  lemma {:induction false} WithoutAllNoop(ps: seq<Path>, gone: set<Addr>)
    requires forall k :: 0 <= k < |ps| ==> ps[k].nexthop !in gone
    ensures WithoutAll(ps, gone) == ps
  {
    if ps != [] {
      WithoutAllNoop(ps[1..], gone);
    }
  }

  /** Cutting one expired path out does not change what is left in the end. */
  lemma WithoutAllCut(ps: seq<Path>, k: nat, gone: set<Addr>)
    requires k < |ps| && ps[k].nexthop in gone
    ensures WithoutAll(ps[..k] + ps[k + 1..], gone) == WithoutAll(ps, gone)
  {
    WithoutAllSplit(ps[..k], ps[k + 1..], gone);
    WithoutAllSplit(ps[..k], [ps[k]] + ps[k + 1..], gone);
    WithoutAllSplit([ps[k]], ps[k + 1..], gone);
    assert ps == ps[..k] + ([ps[k]] + ps[k + 1..]);
  }

  /** The minimum is reached by some path and is no larger than any, as long as
      hop counts stay below the starting value 255. */
  lemma {:induction false} MinHopsIsMinimum(ps: seq<Path>)
    ensures MinHops(ps) <= MAX_HOPS && forall k :: 0 <= k < |ps| ==> MinHops(ps) <= ps[k].hops
    ensures MinHops(ps) < MAX_HOPS ==> exists k :: 0 <= k < |ps| && ps[k].hops == MinHops(ps)
  {
    if ps != [] {
      var init := ps[..|ps| - 1];
      MinHopsIsMinimum(init);
      forall k | 0 <= k < |ps| ensures MinHops(ps) <= ps[k].hops {
        if k < |init| { assert init[k] == ps[k]; }
      }
      if MinHops(ps) == MinHops(init) && MinHops(ps) < MAX_HOPS {
        var k :| 0 <= k < |init| && init[k].hops == MinHops(init);
        assert ps[k].hops == MinHops(ps);
      }
    }
  }

  class RtEntry {
    var seqno: nat
    var advertised: Hops
    var paths: seq<Path>
    var numPaths: int
    var heard: nat
    var error: bool
    var flags: Flags

    function Value(): Entry
      reads this
    {
      Entry(seqno, advertised, paths, numPaths, heard, error, flags)
    }

    constructor ()
      ensures Value() == FRESH_ENTRY
    {
      seqno, advertised, paths, numPaths, heard, error, flags := 0, Inf, [], 0, 0, false, Down;
    }

    method PathInsert(p: Path)
      modifies this
      ensures Value() == AddPath(old(Value()), p)
    {
      paths := paths + [p];
      numPaths := numPaths + 1;
    }

    method PathLookup(nh: Addr) returns (k: nat)
      ensures k <= |paths|
      ensures k < |paths| ==> paths[k].nexthop == nh
      ensures forall j :: 0 <= j < k ==> paths[j].nexthop != nh
      ensures k < |paths| <==> HasNexthop(paths, nh)
    {
      k := 0;
      while k < |paths| && paths[k].nexthop != nh
        invariant k <= |paths|
        invariant forall j :: 0 <= j < k ==> paths[j].nexthop != nh
      {
        k := k + 1;
      }
    }

    method DisjointPathLookup(nh: Addr, lh: Addr) returns (k: nat)
      ensures k <= |paths|
      ensures k < |paths| ==> paths[k].nexthop == nh && paths[k].lasthop == lh
      ensures k < |paths| <==> HasPath(paths, nh, lh)
    {
      k := 0;
      while k < |paths| && !(paths[k].nexthop == nh && paths[k].lasthop == lh)
        invariant k <= |paths|
        invariant forall j :: 0 <= j < k ==> !(paths[j].nexthop == nh && paths[j].lasthop == lh)
      {
        k := k + 1;
      }
    }

    method NewDisjointPath(nh: Addr, lh: Addr) returns (b: bool)
      ensures b == NewDisjoint(paths, nh, lh)
    {
      for k := 0 to |paths|
        invariant forall j :: 0 <= j < k ==> paths[j].nexthop != nh && paths[j].lasthop != lh
      {
        if paths[k].nexthop == nh || paths[k].lasthop == lh {
          return false;
        }
      }
      return true;
    }

    method PathLookupLasthop(lh: Addr) returns (k: nat)
      ensures k == FirstLasthop(paths, lh)
    {
      k := 0;
      while k < |paths| && paths[k].lasthop != lh
        invariant k <= |paths|
        invariant forall j :: 0 <= j < k ==> paths[j].lasthop != lh
      {
        k := k + 1;
      }
      FirstLasthopIs(paths, lh, k);
    }

    method PathDelete(nh: Addr)
      modifies this
      ensures Value() == DropPath(old(Value()), nh)
    {
      var k := PathLookup(nh);
      if k < |paths| {
        WithoutNexthopAt(paths, nh, k);
        paths := paths[..k] + paths[k + 1..];
        numPaths := numPaths - 1;
      }
    }

    method PathDeleteAll()
      modifies this
      ensures Value() == old(Value()).(paths := [], numPaths := 0)
    {
      while paths != []
        invariant Value() == old(Value()).(paths := paths)
        decreases |paths|
      {
        paths := paths[1..];
      }
      numPaths := 0;
    }

    method PathEmpty() returns (b: bool)
      requires numPaths == |paths|
      ensures b == (paths == [])
    {
      if paths != [] {
        assert numPaths > 0;
        return false;
      } else {
        assert numPaths == 0;
        return true;
      }
    }

    /** The first path; 0 stands for the last hop of no path. */
    method PathFindLasthop() returns (lh: Addr)
      ensures lh == FirstLast(Value())
    {
      lh := if paths == [] then 0 else paths[0].lasthop;
    }

    method PathGetMaxHopcount() returns (h: Hops)
      ensures h == MaxHops(paths)
    {
      var m := 0;
      for k := 0 to |paths|
        invariant m == LongestHops(paths[..k])
      {
        assert paths[..k + 1][..k] == paths[..k];
        if paths[k].hops > m {
          m := paths[k].hops;
        }
      }
      assert paths[..|paths|] == paths;
      h := if m == 0 then Inf else Fin(m);
    }

    method PathGetMinHopcount() returns (m: nat)
      ensures m == MinHops(paths)
    {
      m := MAX_HOPS;
      for k := 0 to |paths|
        invariant m == MinHops(paths[..k])
      {
        assert paths[..k + 1][..k] == paths[..k];
        if paths[k].hops < m {
          m := paths[k].hops;
        }
      }
      assert paths[..|paths|] == paths;
    }

    /** Scans for an expired path, cuts it out, and starts over. */
    method PathPurge(gone: set<Addr>)
      modifies this
      ensures paths == WithoutAll(old(paths), gone)
      ensures Value() == old(Value()).(paths := paths, numPaths := old(numPaths) - (|old(paths)| - |paths|))
    {
      var again := true;
      while again
        invariant WithoutAll(paths, gone) == WithoutAll(old(paths), gone)
        invariant Value() == old(Value()).(paths := paths, numPaths := old(numPaths) - (|old(paths)| - |paths|))
        invariant !again ==> forall k :: 0 <= k < |paths| ==> paths[k].nexthop !in gone
        decreases |paths|, again
      {
        again := false;
        var k := 0;
        while k < |paths| && paths[k].nexthop !in gone
          invariant k <= |paths|
          invariant forall j :: 0 <= j < k ==> paths[j].nexthop !in gone
        {
          k := k + 1;
        }
        if k < |paths| {
          again := true;
          WithoutAllCut(paths, k, gone);
          paths := paths[..k] + paths[k + 1..];
          numPaths := numPaths - 1;
        }
      }
      WithoutAllNoop(paths, gone);
    }
  }

  lemma {:induction false} FirstLasthopIs(ps: seq<Path>, lh: Addr, k: nat)
    requires k <= |ps| && (k < |ps| ==> ps[k].lasthop == lh)
    requires forall j :: 0 <= j < k ==> ps[j].lasthop != lh
    ensures FirstLasthop(ps, lh) == k
  {
    if k > 0 {
      FirstLasthopIs(ps[1..], lh, k - 1);
    }
  }
}
