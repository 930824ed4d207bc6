/** Slot tables and the round robin over their filled slots, on values. */
module Slots {

  /** A slot holds an object, or 0 when it is empty. */
  type Table = seq<nat>

  predicate Filled(t: Table, i: int) {
    0 <= i < |t| && t[i] != 0
  }

  /** The largest filled slot below `n`; -1 if there is none. */
  function LargestBelow(t: Table, n: nat): (m: int)
    ensures -1 <= m < n && (m >= 0 ==> Filled(t, m))
    ensures forall i :: m < i < n ==> !Filled(t, i)
  {
    if n == 0 then -1 else if Filled(t, n - 1) then n - 1 else LargestBelow(t, n - 1)
  }

  /** What `maxslot` should be. */
  ghost predicate IsLargest(t: Table, m: int) {
    -1 <= m < |t| && (m >= 0 ==> Filled(t, m)) && forall i :: m < i < |t| ==> !Filled(t, i)
  }

  /** The first filled slot from `i` up to `m`; `m + 1` if there is none. */
  function FirstFilled(t: Table, i: nat, m: nat): (j: nat)
    requires i <= m + 1 <= |t|
    ensures i <= j <= m + 1 && (j <= m ==> Filled(t, j))
    ensures forall k :: i <= k < j ==> !Filled(t, k)
    decreases m + 1 - i
  {
    if i == m + 1 || Filled(t, i) then i else FirstFilled(t, i + 1, m)
  }

  // ----- round robin

  /** Where the search starts: a pointer left beyond the last slot wraps after one step. */
  function Start(ns: nat, m: nat): (s: nat)
    ensures s <= m
  {
    if ns <= m then ns else (ns + 1) % (m + 1)
  }

  function Advance(cl: nat, m: nat): (ns: nat)
    requires cl <= m
    ensures ns <= m
  {
    if cl == m then 0 else cl + 1
  }

  /** The slot a call returns when the pointer is at `ns` and `m` is the largest filled slot. */
  function Pick(t: Table, m: nat, ns: nat): (cl: nat)
    requires m < |t| && Filled(t, m)
    ensures cl <= m && Filled(t, cl)
  {
    FirstFilled(t, Start(ns, m), m)
  }

  /** The pointer after `n` calls, and how often they returned `slot`. */
  function PointerAfter(t: Table, m: nat, ns: nat, n: nat): nat
    requires m < |t| && Filled(t, m)
  {
    if n == 0 then ns else Advance(Pick(t, m, PointerAfter(t, m, ns, n - 1)), m)
  }

  function Uses(t: Table, m: nat, ns: nat, n: nat, slot: nat): nat
    requires m < |t| && Filled(t, m)
  {
    if n == 0 then 0
    else Uses(t, m, ns, n - 1, slot) + if Pick(t, m, PointerAfter(t, m, ns, n - 1)) == slot then 1 else 0
  }

  /** 1 for the slots a pointer at `ns` has passed. */
  function Passed(slot: nat, ns: nat): int {
    if slot < ns then 1 else 0
  }

  /** After `n` calls every filled slot was used once a round, give or take where the
      pointer was at the start and is now. */
  lemma {:induction false} UsesInRounds(t: Table, m: nat, ns: nat, n: nat) returns (rounds: nat)
    requires IsLargest(t, m) && ns <= m
    ensures PointerAfter(t, m, ns, n) <= m
    ensures forall f :: Filled(t, f) ==>
      Uses(t, m, ns, n, f) == rounds + Passed(f, PointerAfter(t, m, ns, n)) - Passed(f, ns)
  {
    if n == 0 {
      rounds := 0;
    } else {
      rounds := UsesInRounds(t, m, ns, n - 1);
      if Pick(t, m, PointerAfter(t, m, ns, n - 1)) == m {
        rounds := rounds + 1;
      }
    }
  }

  lemma PickWraps(t: Table, m: nat, ns: nat)
    requires m < |t| && Filled(t, m)
    ensures Pick(t, m, Start(ns, m)) == Pick(t, m, ns)
  {
    assert Start(Start(ns, m), m) == Start(ns, m);
  }

  /** A pointer beyond the last slot behaves as the slot it wraps to. */
  lemma {:induction false} PointerWraps(t: Table, m: nat, ns: nat, n: nat)
    requires m < |t| && Filled(t, m)
    ensures PointerAfter(t, m, Start(ns, m), n) == if n == 0 then Start(ns, m) else PointerAfter(t, m, ns, n)
  {
    hide Start, Advance, Pick;
    if n > 0 {
      PickWraps(t, m, ns);
      PointerWraps(t, m, ns, n - 1);
    }
  }

  lemma {:induction false} UsesWrap(t: Table, m: nat, ns: nat, n: nat, slot: nat)
    requires m < |t| && Filled(t, m)
    ensures Uses(t, m, ns, n, slot) == Uses(t, m, Start(ns, m), n, slot)
  {
    hide Start, Pick, PointerAfter;
    if n > 0 {
      UsesWrap(t, m, ns, n - 1, slot);
      SamePick(t, m, ns, n - 1);
    }
  }

  lemma SamePick(t: Table, m: nat, ns: nat, n: nat)
    requires m < |t| && Filled(t, m)
    ensures Pick(t, m, PointerAfter(t, m, Start(ns, m), n)) == Pick(t, m, PointerAfter(t, m, ns, n))
  {
    hide Start, Pick, Advance;
    PickWraps(t, m, ns);
    PointerWraps(t, m, ns, n);
  }

  /** Over any run of calls on a fixed table two filled slots are used equally often, up to one. */
  lemma RoundRobinIsFair(t: Table, m: nat, ns: nat, n: nat, a: nat, b: nat)
    requires IsLargest(t, m) && Filled(t, a) && Filled(t, b)
    ensures -1 <= Uses(t, m, ns, n, a) - Uses(t, m, ns, n, b) <= 1
  {
    UsesWrap(t, m, ns, n, a);
    UsesWrap(t, m, ns, n, b);
    var rounds := UsesInRounds(t, m, Start(ns, m), n);
  }

  // ----- hashing

  const WORD: int := 0x1_0000_0000

  /** The hash as it is computed, on 32 bits. */
  function Hash(bytes: seq<int>): (h: int)
    ensures 0 <= h < WORD
  {
    if bytes == [] then 0 else (9 * Hash(bytes[..|bytes| - 1]) + bytes[|bytes| - 1]) % WORD
  }

  /** The bytes as digits of a number in base 9. */
  function Number(bytes: seq<int>): int {
    if bytes == [] then 0 else 9 * Number(bytes[..|bytes| - 1]) + bytes[|bytes| - 1]
  }

  lemma {:induction false} HashIsNumber(bytes: seq<int>)
    ensures Hash(bytes) == Number(bytes) % WORD
  {
    if bytes != [] {
      var n, h := Number(bytes[..|bytes| - 1]), Hash(bytes[..|bytes| - 1]);
      HashIsNumber(bytes[..|bytes| - 1]);
      var d := n / WORD;
      assert n == WORD * d + h;
      SameRemainder(9 * h + bytes[|bytes| - 1], 9 * d);
    }
  }

  lemma SameRemainder(x: int, d: int)
    ensures (x + WORD * d) % WORD == x % WORD
  {
    var q, r := x / WORD, x % WORD;
    assert x + WORD * d == WORD * (q + d) + r;
    RemainderIs(x + WORD * d, q + d, r);
  }

  lemma RemainderIs(x: int, q: int, r: int)
    requires x == WORD * q + r && 0 <= r < WORD
    ensures x % WORD == r
  {
    var y := x / WORD;
    assert x == WORD * y + x % WORD;
  }

  /** The slot a hashed packet takes. */
  function HashedPick(t: Table, m: nat, key: seq<int>, prio: int, checkPathId: bool): (cl: nat)
    requires m < |t| && Filled(t, m)
    ensures cl <= m && Filled(t, cl)
  {
    var h := if checkPathId then (Hash(key) + prio) % WORD else Hash(key);
    Pick(t, m, h % (m + 1))
  }
}
