/** The classifier's growing slot table and the multipath forwarder on it. */
module SlotTable {
  import opened Slots

  class Classifier {
    var slot: array<nat>
    var nslot: nat
    var maxslot: int
    const nsize: nat

    ghost predicate Valid()
      reads this
    {
      slot.Length == nslot && -1 <= maxslot < nslot
    }

    /** `maxslot` is right. */
    ghost predicate Sound()
      reads this, slot
    {
      Valid() && IsLargest(slot[..], maxslot)
    }

    constructor (nsize: nat)
      ensures Sound() && nslot == 0 && fresh(slot) && this.nsize == nsize
    {
      slot := new nat[0];
      nslot, maxslot, this.nsize := 0, -1, nsize;
    }

    /** Grows the table beyond slot `s` by doubling. */
    method Alloc(s: nat)
      requires Valid()
      modifies this
      ensures Valid() && s < nslot && old(nslot) <= nslot && maxslot == old(maxslot) && fresh(slot)
      ensures forall i :: 0 <= i < nslot ==> slot[i] == if i < old(nslot) then old(slot[i]) else 0
      ensures old(nslot) > 0 ==> exists k: nat :: nslot == Doubled(old(nslot), k)
    {
      var n := nslot;
      ghost var k := 0;
      if n == 0 {
        nslot := if nsize != 0 then nsize else 32;
      }
      ghost var base := nslot;
      while nslot <= s
        invariant nslot == Doubled(base, k) && 0 < base <= nslot
        invariant slot == old(slot) && maxslot == old(maxslot)
        decreases s - nslot
      {
        nslot := nslot * 2;
        k := k + 1;
      }
      ghost var grown := nslot;
      var table := new nat[nslot](i => 0);
      for i := 0 to n
        invariant nslot == grown && maxslot == old(maxslot)
        invariant table.Length == nslot && n <= nslot && slot == old(slot) && slot.Length == n
        invariant forall j :: 0 <= j < nslot ==> table[j] == if j < i then slot[j] else 0
      {
        table[i] := slot[i];
      }
      slot := table;
    }

    method Install(s: nat, p: nat)
      requires Valid()
      modifies this, slot
      ensures Valid() && s < nslot && old(nslot) <= nslot && (slot == old(slot) || fresh(slot))
      ensures forall i :: 0 <= i < nslot ==>
        slot[i] == if i == s then p else if i < old(nslot) then old(slot[i]) else 0
      ensures maxslot == if s >= old(maxslot) then s else old(maxslot)
      ensures old(Sound()) && p != 0 ==> Sound()
    {
      if s >= nslot {
        Alloc(s);
      }
      slot[s] := p;
      if s >= maxslot {
        maxslot := s;
      }
      if old(Sound()) && p != 0 {
        InstallKeepsLargest(old(slot[..]), old(maxslot), slot[..], s, p);
      }
    }

    method Clear(s: nat)
      requires Valid() && s < nslot
      modifies this, slot
      ensures Valid() && nslot == old(nslot) && slot == old(slot) && slot[..] == old(slot[..])[s := 0]
      ensures maxslot == if s == old(maxslot) then LargestBelow(slot[..], s) else old(maxslot)
      ensures old(Sound()) ==> Sound()
    {
      slot[s] := 0;
      if s == maxslot {
        maxslot := maxslot - 1;
        while maxslot >= 0 && slot[maxslot] == 0
          invariant -1 <= maxslot < s < nslot == slot.Length && nslot == old(nslot) && slot == old(slot)
          invariant slot[..] == old(slot[..])[s := 0]
          invariant LargestBelow(slot[..], maxslot + 1) == LargestBelow(slot[..], s)
        {
          maxslot := maxslot - 1;
        }
      }
      if old(Sound()) {
        ClearKeepsLargest(old(slot[..]), old(maxslot), s);
      }
    }

    /** The first slot that is empty or holds the null agent; a new one if there is none. */
    method GetNxt(nullagent: nat) returns (i: nat)
      requires Valid()
      modifies this
      ensures Valid() && i < nslot && maxslot == old(maxslot)
      ensures i < old(nslot) ==> slot == old(slot) && nslot == old(nslot)
      ensures i < old(nslot) ==> slot[i] == 0 || slot[i] == nullagent
      ensures forall j :: 0 <= j < i && j < old(nslot) ==> old(slot[j]) != 0 && old(slot[j]) != nullagent
      ensures i >= old(nslot) ==> i == old(nslot) && slot[i] == 0 && fresh(slot)
      ensures forall j :: 0 <= j < old(nslot) ==> slot[j] == old(slot[j])
    {
      i := 0;
      while i < nslot
        invariant i <= nslot && unchanged(this)
        invariant forall j :: 0 <= j < i ==> slot[j] != 0 && slot[j] != nullagent
      {
        if slot[i] == 0 || slot[i] == nullagent {
          return;
        }
        i := i + 1;
      }
      Alloc(nslot);
    }

    method InstallNext(p: nat) returns (s: nat)
      requires Valid()
      modifies this, slot
      ensures Valid() && s == old(maxslot) + 1 == maxslot && slot[s] == p && s < nslot
      ensures old(nslot) <= nslot && forall i :: 0 <= i < old(nslot) && i != s ==> slot[i] == old(slot[i])
      ensures old(Sound()) && p != 0 ==> Sound()
    {
      s := maxslot + 1;
      Install(s, p);
    }
  }

  /** `n` doubled `k` times. */
  function Doubled(n: nat, k: nat): nat {
    if k == 0 then n else 2 * Doubled(n, k - 1)
  }

  lemma InstallKeepsLargest(t: Table, m: int, u: Table, s: nat, p: nat)
    requires IsLargest(t, m) && p != 0 && s < |u| && |t| <= |u|
    requires forall i :: 0 <= i < |u| ==> u[i] == if i == s then p else if i < |t| then t[i] else 0
    ensures IsLargest(u, if s >= m then s else m)
  {
    assert m >= 0 ==> Filled(t, m);
    forall i | (if s >= m then s else m) < i < |u| ensures !Filled(u, i) {
      assert !Filled(t, i);
    }
  }

  lemma ClearKeepsLargest(t: Table, m: int, s: nat)
    requires IsLargest(t, m) && s < |t|
    ensures IsLargest(t[s := 0], if s == m then LargestBelow(t[s := 0], s) else m)
  {
    var u := t[s := 0];
    assert m >= 0 ==> Filled(t, m);
    forall i | m < i < |u| ensures !Filled(u, i) {
      assert !Filled(t, i);
    }
  }

  class MultiPathForwarder {
    const table: Classifier
    var ns: nat
    const perflow: bool
    const checkPathId: bool

    constructor (table: Classifier, perflow: bool, checkPathId: bool)
      ensures this.table == table && this.perflow == perflow && this.checkPathId == checkPathId && ns == 0
    {
      this.table, this.perflow, this.checkPathId := table, perflow, checkPathId;
      ns := 0;
    }

    /** The index of a key in the hash table. */
    static method HashString(bytes: seq<int>) returns (result: int)
      ensures result == Number(bytes) % WORD
    {
      result := 0;
      for i := 0 to |bytes|
        invariant result == Hash(bytes[..i])
      {
        assert bytes[..i + 1][..i] == bytes[..i];
        result := (result + (result * 8 + bytes[i])) % WORD;
      }
      assert bytes[..|bytes|] == bytes;
      HashIsNumber(bytes);
    }

    /** The slot for a packet with hash key `key` and priority `prio`. */
    method Classify(key: seq<int>, prio: int) returns (cl: nat)
      requires table.Sound() && table.maxslot >= 0 && ns < table.nslot
      modifies this
      ensures Filled(table.slot[..], cl)
      ensures !perflow && !checkPathId ==>
        cl == Pick(table.slot[..], table.maxslot, old(ns)) && ns == Advance(cl, table.maxslot)
      ensures perflow || checkPathId ==>
        cl == HashedPick(table.slot[..], table.maxslot, key, prio, checkPathId) && ns == old(ns)
      // in both modes the first filled slot from where the search starts
      ensures var start := SearchFrom(old(ns), table.maxslot, perflow || checkPathId,
                                      Number(key) + if checkPathId then prio else 0);
        start <= cl <= table.maxslot && forall i :: start <= i < cl ==> !Filled(table.slot[..], i)
    {
      PicksFirst(table.slot[..], table.maxslot, key, prio, checkPathId, ns);
      var m := table.maxslot + 1;
      if perflow || checkPathId {
        var ms := HashString(key);
        HashIsNumber(key);
        if checkPathId {
          ms := (ms + prio) % WORD;
        }
        ms := ms % m;
        var after;
        cl, after := Search(ms);
      } else {
        cl, ns := Search(ns);
      }
    }

    /** The loop both modes share, from pointer `from`. */
    method Search(from: nat) returns (cl: nat, next: nat)
      requires table.Sound() && table.maxslot >= 0 && from < table.nslot
      ensures cl == Pick(table.slot[..], table.maxslot, from)
      ensures next == Advance(cl, table.maxslot)
    {
      ghost var t := table.slot[..];
      ghost var m := table.maxslot;
      cl := from;
      next := (from + 1) % (table.maxslot + 1);
      NextIs(from, m);
      while table.slot[cl] == 0 && next != from
        invariant cl < table.nslot
        invariant if cl > m then cl == from else Start(from, m) <= cl <= m
        invariant next == if cl > m then Start(from, m) else Advance(cl, m)
        invariant cl <= m ==> forall i :: Start(from, m) <= i < cl ==> !Filled(t, i)
        decreases if cl > m then m + 2 else m + 1 - cl
      {
        cl := next;
        next := (next + 1) % (table.maxslot + 1);
        NextIs(cl, m);
      }
      assert cl <= m && t[cl] == table.slot[cl] && Filled(t, cl) by {
        assert Filled(t, m) && (Filled(t, cl) <==> table.slot[cl] != 0);
      }
      FirstFilledIs(t, Start(from, m), m, cl);
    }
  }

  /** In round robin the search starts at the pointer, wrapped after one step if it was left
      beyond the last slot; for a hashed packet at the hash modulo the number of slots. */
  function SearchFrom(ns: nat, m: nat, hashed: bool, number: int): (s: nat)
    ensures s <= m
  {
    if hashed then number % 0x1_0000_0000 % (m + 1)
    else if ns <= m then ns else (ns + 1) % (m + 1)
  }

  lemma PicksFirst(t: Table, m: nat, key: seq<int>, prio: int, checkPathId: bool, ns: nat)
    requires m < |t| && Filled(t, m)
    ensures var s := SearchFrom(ns, m, false, 0);
      s <= Pick(t, m, ns) <= m && forall i :: s <= i < Pick(t, m, ns) ==> !Filled(t, i)
    ensures var s, cl := SearchFrom(ns, m, true, Number(key) + if checkPathId then prio else 0),
                         HashedPick(t, m, key, prio, checkPathId);
      s <= cl <= m && forall i :: s <= i < cl ==> !Filled(t, i)
  {
    HashIsNumber(key);
    SumRemainder(Number(key), prio);
    hide Number, Hash;
  }

  /** Adding before or after the remainder is taken makes no difference to it. */
  lemma SumRemainder(x: int, y: int)
    ensures (x % WORD + y) % WORD == (x + y) % WORD
  {
    SameRemainder(x % WORD + y, x / WORD);
    assert x == WORD * (x / WORD) + x % WORD;
  }

  lemma NextIs(cl: nat, m: nat)
    ensures (cl + 1) % (m + 1) == if cl > m then Start(cl, m) else Advance(cl, m)
  {
  }

  lemma {:induction false} FirstFilledIs(t: Table, i: nat, m: nat, j: nat)
    requires i <= j <= m < |t| && Filled(t, j)
    requires forall k :: i <= k < j ==> !Filled(t, k)
    ensures FirstFilled(t, i, m) == j
  {
  }
}
