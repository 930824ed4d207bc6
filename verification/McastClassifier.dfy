/** The multicast classifier's two hash tables of linked entries. */
module McastClassifier {
  import opened Options
  import opened McastIndex

  class HashNode {
    const src: nat
    const dst: nat
    const slot: int
    const next: HashNode?
    var iif: int

    constructor (src: nat, dst: nat, slot: int, iif: int, next: HashNode?)
      ensures Value() == Entry(src, dst, slot, iif) && this.next == next
    {
      this.src, this.dst, this.slot, this.iif, this.next := src, dst, slot, iif, next;
    }

    function Value(): Entry
      reads this
    {
      Entry(src, dst, slot, iif)
    }
  }

  /** `p` starts the chain of `ns`, which holds `es`. */
  ghost predicate Chain(p: HashNode?, ns: seq<HashNode>, es: seq<Entry>)
    reads ns
  {
    && |ns| == |es|
    && p == (if ns == [] then null else ns[0])
    && (forall i, j :: 0 <= i < j < |ns| ==> ns[i] != ns[j])
    && forall i :: 0 <= i < |ns| ==> Link(ns, es, i)
  }

  ghost predicate Link(ns: seq<HashNode>, es: seq<Entry>, i: nat)
    requires i < |ns| == |es|
    reads ns
  {
    ns[i].next == (if i + 1 < |ns| then ns[i + 1] else null) && ns[i].Value() == es[i]
  }

  /** The part of a chain that never changes: everything but the interfaces. */
  ghost predicate Strung(p: HashNode?, ns: seq<HashNode>, es: seq<Entry>) {
    && |ns| == |es|
    && p == (if ns == [] then null else ns[0])
    && (forall i, j :: 0 <= i < j < |ns| ==> ns[i] != ns[j])
    && forall i :: 0 <= i < |ns| ==> Placed(ns, es, i)
  }

  ghost predicate Placed(ns: seq<HashNode>, es: seq<Entry>, i: nat)
    requires i < |ns| == |es|
  {
    && ns[i].next == (if i + 1 < |ns| then ns[i + 1] else null)
    && ns[i].src == es[i].src && ns[i].dst == es[i].dst && ns[i].slot == es[i].slot
  }

  ghost predicate IfacesAre(ns: seq<HashNode>, es: seq<Entry>)
    reads ns
  {
    |ns| == |es| && forall i :: 0 <= i < |ns| ==> ns[i].iif == es[i].iif
  }

  lemma ChainIsStrung(p: HashNode?, ns: seq<HashNode>, es: seq<Entry>)
    requires Chain(p, ns, es)
    ensures Strung(p, ns, es) && IfacesAre(ns, es)
  {
    forall i | 0 <= i < |ns| ensures Placed(ns, es, i) && ns[i].iif == es[i].iif {
      assert Link(ns, es, i);
    }
  }

  class HashTable {
    const table: array<HashNode?>
    ghost var chains: seq<seq<HashNode>>
    ghost var nodes: set<HashNode>
    /** Every entry in the table, newest first. */
    ghost var entries: seq<Entry>

    ghost predicate Valid()
      reads this, table, nodes
    {
      && table.Length == HASHSIZE == |chains|
      && forall h :: 0 <= h < HASHSIZE ==> BucketOk(h)
    }

    ghost predicate BucketOk(h: nat)
      requires h < table.Length == |chains|
      reads this, table, nodes
    {
      && (forall i :: 0 <= i < |chains[h]| ==> chains[h][i] in nodes)
      && Chain(table[h], chains[h], Bucket(entries, h))
    }

    constructor ()
      ensures Valid() && entries == [] && nodes == {} && fresh(table)
    {
      table := new HashNode?[HASHSIZE](i => null);
      chains := seq(HASHSIZE, i => []);
      nodes, entries := {}, [];
    }

    /** Walks and drops every chain. */
    method Clear()
      requires Valid()
      modifies this, table
      ensures Valid() && entries == [] && nodes == {}
    {
      for i := 0 to HASHSIZE
        invariant Valid()
      {
        assert BucketOk(i);
        var p := table[i];
        ghost var k := 0;
        while p != null
          invariant Valid() && 0 <= k <= |chains[i]|
          invariant p == if k < |chains[i]| then chains[i][k] else null
          decreases |chains[i]| - k
        {
          assert BucketOk(i) && Link(chains[i], Bucket(entries, i), k);
          p := p.next;
          k := k + 1;
        }
      }
      for i := 0 to HASHSIZE
        invariant forall j :: 0 <= j < i ==> table[j] == null
      {
        table[i] := null;
      }
      chains, nodes, entries := seq(HASHSIZE, i => []), {}, [];
    }

    method Set(src: nat, dst: nat, slot: int, iface: int)
      requires Valid()
      modifies this, table
      ensures Valid() && entries == [Entry(src, dst, slot, iface)] + old(entries)
      ensures fresh(nodes - old(nodes)) && old(nodes) <= nodes
    {
      var h := HashOf(src, dst);
      var p := new HashNode(src, dst, slot, iface, table[h]);
      table[h] := p;
      ghost var all := [Entry(src, dst, slot, iface)] + entries;
      ghost var was := entries;
      assert all[1..] == was;
      chains, nodes, entries := chains[h := [p] + chains[h]], nodes + {p}, all;
      forall g | 0 <= g < HASHSIZE ensures BucketOk(g) {
        assert old(BucketOk(g));
        BucketHead(all, g);
        if g == h {
          Pushed(p, old(chains[h]), Bucket(was, h), Bucket(all, h));
        }
      }
    }

    method HashOf(src: nat, dst: nat) returns (h: nat)
      ensures h == Hash(src, dst)
    {
      var s := Xor(src, dst);
      s := Xor(s, s / 0x1_0000);
      s := Xor(s, s / 0x100);
      h := s % 0x100;
    }

    method Lookup(src: nat, dst: nat, iface: int) returns (p: HashNode?, ghost k: nat)
      requires Valid()
      ensures var h := Hash(src, dst);
        && k == Position(Bucket(entries, h), src, dst, iface) <= |chains[h]|
        && p == if k < |chains[h]| then chains[h][k] else null
      ensures McastIndex.Lookup(entries, src, dst, iface) == Found(p)
    {
      var h := HashOf(src, dst);
      p, k := table[h], 0;
      ghost var ns, es := chains[h], Bucket(entries, h);
      assert BucketOk(h);
      while p != null
        invariant k <= |ns| == |es| && p == if k < |ns| then ns[k] else null
        invariant forall i :: 0 <= i < k ==> !Matches(es[i], src, dst, iface)
        decreases |ns| - k
      {
        assert Link(ns, es, k);
        if p.src == src && p.dst == dst {
          if p.iif == iface || iface == ANY_IFACE {
            break;
          }
        }
        p := p.next;
        k := k + 1;
      }
      assert k < |ns| ==> Link(ns, es, k);
      PositionIs(es, src, dst, iface, k);
      PositionFinds(es, src, dst, iface, iface);
      BucketAnswers(entries, src, dst, iface);
    }

    /** The search of the shared-tree table looks at the group only. */
    method LookupStar(dst: nat, iface: int) returns (p: HashNode?, ghost k: nat)
      requires Valid() && Shared(entries)
      ensures var h := Hash(0, dst);
        && k == Position(Bucket(entries, h), 0, dst, iface) <= |chains[h]|
        && p == if k < |chains[h]| then chains[h][k] else null
      ensures LookupGroup(entries, dst, iface) == Found(p)
    {
      var h := HashOf(0, dst);
      p, k := table[h], 0;
      ghost var ns, es := chains[h], Bucket(entries, h);
      assert BucketOk(h);
      BucketShared(entries, h);
      while p != null
        invariant k <= |ns| == |es| && p == if k < |ns| then ns[k] else null
        invariant forall i :: 0 <= i < k ==> !Matches(es[i], 0, dst, iface)
        decreases |ns| - k
      {
        assert Link(ns, es, k);
        if p.dst == dst && (iface == ANY_IFACE || p.iif == iface) {
          break;
        }
        p := p.next;
        k := k + 1;
      }
      assert k < |ns| ==> Link(ns, es, k);
      PositionIs(es, 0, dst, iface, k);
      PositionFinds(es, 0, dst, iface, iface);
      BucketAnswers(entries, 0, dst, iface);
      GroupIsSourceZero(entries, dst, iface);
    }

    method ChangeIface(src: nat, dst: nat, oldIface: int, newIface: int)
      requires Valid()
      modifies this`entries, nodes`iif
      ensures Valid() && entries == McastIndex.ChangeIface(old(entries), src, dst, oldIface, newIface)
    {
      var p, k := Lookup(src, dst, oldIface);
      Edit(p, k, src, dst, oldIface, newIface);
    }

    method ChangeIfaceStar(dst: nat, oldIface: int, newIface: int)
      requires Valid() && Shared(entries)
      modifies this`entries, nodes`iif
      ensures Valid() && Shared(entries)
      ensures entries == McastIndex.ChangeIface(old(entries), 0, dst, oldIface, newIface)
    {
      var p, k := LookupStar(dst, oldIface);
      Edit(p, k, 0, dst, oldIface, newIface);
      ChangeKeepsShared(old(entries), dst, oldIface, newIface);
    }

    /** Gives the found entry `p` its new interface. */
    method Edit(p: HashNode?, ghost k: nat, ghost src: nat, ghost dst: nat, ghost oldIface: int, newIface: int)
      requires Valid()
      requires var h := Hash(src, dst);
        && k == Position(Bucket(entries, h), src, dst, oldIface) <= |chains[h]|
        && p == if k < |chains[h]| then chains[h][k] else null
      modifies this`entries, nodes`iif
      ensures Valid() && entries == McastIndex.ChangeIface(old(entries), src, dst, oldIface, newIface)
    {
      hide Hash, Position, McastIndex.ChangeIface, Bucket, Chain;
      ghost var h := Hash(src, dst);
      ghost var was := entries;
      assert p == null || p in nodes by {
        assert BucketOk(h);
      }
      EditedNode(p, k, h, src, dst, oldIface, newIface);
      AllStrung();
      if p != null {
        p.iif := newIface;
      }
      entries := McastIndex.ChangeIface(was, src, dst, oldIface, newIface);
      forall g | 0 <= g < HASHSIZE ensures BucketOk(g) {
        BucketChanges(was, src, dst, oldIface, newIface, g);
        EditedChain(table[g], chains[g], Bucket(was, g), Bucket(entries, g));
      }
    }

    lemma AllStrung()
      requires Valid()
      ensures forall g :: 0 <= g < HASHSIZE ==> Strung(table[g], chains[g], Bucket(entries, g))
      ensures forall g :: 0 <= g < HASHSIZE ==> IfacesAre(chains[g], Bucket(entries, g))
      ensures forall g, i :: 0 <= g < HASHSIZE && 0 <= i < |chains[g]| ==> chains[g][i] in nodes
    {
      hide Strung, IfacesAre, Bucket;
      forall g | 0 <= g < HASHSIZE
        ensures Strung(table[g], chains[g], Bucket(entries, g)) && IfacesAre(chains[g], Bucket(entries, g))
        ensures forall i :: 0 <= i < |chains[g]| ==> chains[g][i] in nodes
      {
        assert BucketOk(g);
        ChainIsStrung(table[g], chains[g], Bucket(entries, g));
      }
    }

    /** The found node is in its own bucket's chain only. */
    lemma EditedNode(p: HashNode?, k: nat, h: nat, src: nat, dst: nat, oldIface: int, newIface: int)
      requires Valid() && h == Hash(src, dst)
      requires k == Position(Bucket(entries, h), src, dst, oldIface) <= |chains[h]|
      requires p == if k < |chains[h]| then chains[h][k] else null
      ensures var es := Bucket(entries, h);
        && |es| == |chains[h]|
        && McastIndex.ChangeIface(es, src, dst, oldIface, newIface)
           == if p != null then es[k := es[k].(iif := newIface)] else es
      ensures p != null ==> forall g :: 0 <= g < HASHSIZE && g != h ==> p !in chains[g]
    {
      assert BucketOk(h);
      PositionFinds(Bucket(entries, h), src, dst, oldIface, newIface);
      if p != null {
        HashesTo(h);
        forall g | 0 <= g < HASHSIZE && g != h ensures p !in chains[g] {
          HashesTo(g);
        }
      }
    }

    lemma HashesTo(g: nat)
      requires Valid() && g < HASHSIZE
      ensures forall i :: 0 <= i < |chains[g]| ==> Hash(chains[g][i].src, chains[g][i].dst) == g
    {
      assert BucketOk(g);
      forall i | 0 <= i < |chains[g]| ensures Hash(chains[g][i].src, chains[g][i].dst) == g {
        assert Link(chains[g], Bucket(entries, g), i);
      }
    }
  }

  /** A chain whose nodes got new interfaces. */
  lemma EditedChain(p: HashNode?, ns: seq<HashNode>, es: seq<Entry>, now: seq<Entry>)
    requires Strung(p, ns, es) && |now| == |es|
    requires forall i :: 0 <= i < |ns| ==> now[i] == es[i].(iif := ns[i].iif)
    ensures Chain(p, ns, now)
  {
    forall i | 0 <= i < |ns| ensures Link(ns, now, i) {
      assert Placed(ns, es, i);
    }
  }

  /** A new node in front of a chain. */
  lemma Pushed(p: HashNode, ns: seq<HashNode>, es: seq<Entry>, all: seq<Entry>)
    requires Chain(p.next, ns, es) && p !in ns && all == [p.Value()] + es
    ensures Chain(p, [p] + ns, all)
  {
    forall i | 0 <= i < |[p] + ns| ensures Link([p] + ns, all, i) {
      if i > 0 {
        assert Link(ns, es, i - 1);
      }
    }
  }

  lemma BucketShared(es: seq<Entry>, h: nat)
    requires Shared(es)
    ensures Shared(Bucket(es, h))
  {
    if es != [] {
      BucketShared(es[1..], h);
    }
  }

  lemma {:induction false} PositionIs(es: seq<Entry>, src: nat, dst: nat, iface: int, k: nat)
    requires k <= |es| && (k < |es| ==> Matches(es[k], src, dst, iface))
    requires forall i :: 0 <= i < k ==> !Matches(es[i], src, dst, iface)
    ensures Position(es, src, dst, iface) == k
  {
  }

  function Found(p: HashNode?): Option<Entry>
    reads if p == null then {} else {p}
  {
    if p == null then None else Some(p.Value())
  }

  class MCastClassifier {
    const ht: HashTable
    const star: HashTable

    ghost predicate Valid()
      reads this, ht, star, ht.table, star.table, ht.nodes, star.nodes
    {
      && ht != star && ht.table != star.table && ht.nodes !! star.nodes
      && ht.Valid() && star.Valid() && Shared(star.entries)
    }

    constructor ()
      ensures Valid() && ht.entries == [] && star.entries == []
    {
      ht := new HashTable();
      star := new HashTable();
    }

    method ClearAll()
      requires Valid()
      modifies ht, star, ht.table, star.table
      ensures Valid() && ht.entries == [] && star.entries == []
    {
      ht.Clear();
      star.Clear();
    }

    /** set-hash: shared-tree entries are stored with source 0. */
    method SetHash(shared: bool, src: nat, dst: nat, slot: int, iface: int)
      requires Valid()
      modifies ht, star, ht.table, star.table
      ensures Valid()
      ensures ht.entries == (if shared then [] else [Entry(src, dst, slot, iface)]) + old(ht.entries)
      ensures star.entries == (if shared then [Entry(0, dst, slot, iface)] else []) + old(star.entries)
    {
      if shared {
        star.Set(0, dst, slot, iface);
      } else {
        ht.Set(src, dst, slot, iface);
      }
    }

    /** change-iface. */
    method ChangeIface(shared: bool, src: nat, dst: nat, oldIface: int, newIface: int)
      requires Valid()
      modifies ht`entries, star`entries, ht.nodes`iif, star.nodes`iif
      ensures Valid()
      ensures ht.entries == if shared then old(ht.entries)
        else McastIndex.ChangeIface(old(ht.entries), src, dst, oldIface, newIface)
      ensures star.entries == if shared then McastIndex.ChangeIface(old(star.entries), 0, dst, oldIface, newIface)
        else old(star.entries)
    {
      if shared {
        star.ChangeIfaceStar(dst, oldIface, newIface);
      } else {
        ht.ChangeIface(src, dst, oldIface, newIface);
      }
    }

    /** The slot for a packet; misses and wrong interfaces are answered by the caller. */
    method Classify(src: nat, dst: nat, iface: int) returns (v: Verdict)
      requires Valid()
      ensures v == McastIndex.Classify(ht.entries, star.entries, src, dst, iface)
    {
      var p, k := ht.Lookup(src, dst, iface);
      if p == null {
        p, k := star.LookupStar(dst, iface);
      }
      if p == null {
        p, k := ht.Lookup(src, dst, ANY_IFACE);
        if p == null {
          p, k := star.LookupStar(dst, ANY_IFACE);
        }
        if p == null {
          return CacheMiss;
        }
        if p.iif == ANY_IFACE {
          return Slot(p.slot);
        }
        return WrongIface;
      }
      return Slot(p.slot);
    }
  }
}
