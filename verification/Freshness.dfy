/** The order on route information that AODV and AOMDV share: a destination
    sequence number first, a hop count second.  A larger sequence number wins;
    under equal sequence numbers fewer hops win. */
module Freshness {

  type Addr = nat

  /** A hop count, with the "no route" value (255 in the source) kept apart. */
  datatype Hops = Fin(n: nat) | Inf

  predicate Fewer(a: Hops, b: Hops) {
    a.Fin? && (b.Inf? || a.n < b.n)
  }

  datatype Rank = Rank(seqno: nat, hops: Hops)

  const NO_INFO := Rank(0, Inf)

  /** `a` is strictly fresher than `b`. */
  predicate Better(a: Rank, b: Rank) {
    b.seqno < a.seqno || (a.seqno == b.seqno && Fewer(a.hops, b.hops))
  }

  predicate AtLeast(a: Rank, b: Rank) {
    a == b || Better(a, b)
  }

  function Max(a: nat, b: nat): nat {
    if a < b then b else a
  }

  /** The discipline of the code: a live route has an even, non-zero sequence
      number; a dead one has number 0 (never heard of) or an odd one. */
  predicate LiveSeqno(s: nat) {
    s >= 2 && s % 2 == 0
  }

  predicate DeadSeqno(s: nat) {
    s == 0 || s % 2 == 1
  }

  lemma BetterIsTransitive(a: Rank, b: Rank, c: Rank)
    requires AtLeast(a, b) && Better(b, c)
    ensures Better(a, c)
  {
  }

  lemma BetterIsIrreflexive(a: Rank)
    ensures !Better(a, a)
  {
  }

  /** A walk along which every hop reaches strictly fresher information never
      visits a node twice. */
  lemma {:induction false} ClimbingWalkIsSimple(walk: seq<Addr>, rank: Addr -> Rank, i: nat, j: nat)
    requires i < j < |walk|
    requires forall k :: 0 <= k < j ==> Better(rank(walk[k + 1]), rank(walk[k]))
    ensures Better(rank(walk[j]), rank(walk[i])) && walk[i] != walk[j]
    decreases j
  {
    assert Better(rank(walk[j - 1 + 1]), rank(walk[j - 1]));
    if i + 1 < j {
      ClimbingWalkIsSimple(walk, rank, i, j - 1);
      BetterIsTransitive(rank(walk[j]), rank(walk[j - 1]), rank(walk[i]));
    }
    BetterIsIrreflexive(rank(walk[i]));
  }
}
