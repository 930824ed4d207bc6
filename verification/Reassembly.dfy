/** TCP reassembly (SEGMENT ARRIVES, section 3.9 of RFC 793): out-of-order
    segments wait in a queue until the hole before them is filled. */
module Reassembly {

  /** A header flag word, as the set of the bits that are on. */
  type Flags = set<nat>

  /** Sequence numbers from `start` up to, not including, `end`. */
  datatype Seg = Seg(start: int, end: int, flags: Flags)

  /** The queue, the next sequence number expected, and the returned flags. */
  datatype Result = Result(segs: seq<Seg>, next: int, flags: Flags)

  // ----- what the code does

  /** The first segment that starts at or after `end`; the length if none does. */
  function After(segs: seq<Seg>, end: int): (k: nat)
    ensures k <= |segs| && (k < |segs| ==> end <= segs[k].start)
    ensures forall j :: 0 <= j < k ==> segs[j].start < end
  {
    if segs == [] then 0 else if end <= segs[0].start then 0 else 1 + After(segs[1..], end)
  }

  /** Where a new segment goes: at the end if the last one ends before it, else
      before the first segment that starts after it. */
  function Place(segs: seq<Seg>, start: int, end: int): (k: nat)
    ensures k <= |segs|
  {
    if segs != [] && segs[|segs| - 1].end <= start then |segs| else After(segs, end)
  }

  function InsertAt<T>(segs: seq<T>, k: nat, s: T): (r: seq<T>)
    requires k <= |segs|
    ensures |r| == |segs| + 1
    ensures forall i :: 0 <= i < |r| ==> r[i] == if i < k then segs[i] else if i == k then s else segs[i - 1]
  {
    segs[..k] + [s] + segs[k..]
  }

  function Insert(segs: seq<Seg>, s: Seg): seq<Seg> {
    InsertAt(segs, Place(segs, s.start, s.end), s)
  }

  /** Takes segments off the front until a gap follows. */
  function DrainFront(segs: seq<Seg>, next: int, flags: Flags): Result {
    if segs == [] then Result([], next, flags)
    else
      var f := flags + segs[0].flags;
      if |segs| > 1 && segs[0].end < segs[1].start then Result(segs[1..], segs[0].end, f)
      else DrainFront(segs[1..], segs[0].end, f)
  }

  function Drain(segs: seq<Seg>, next: int): Result {
    if segs != [] && segs[0].start > next then Result(segs, next, {}) else DrainFront(segs, next, {})
  }

  function Add(segs: seq<Seg>, next: int, s: Seg): Result {
    Drain(Insert(segs, s), next)
  }

  // ----- what it is for

  predicate SameRange(a: Seg, b: Seg) {
    a.start == b.start && a.end == b.end
  }

  /** Two segments in order: one before the other, or copies of the same range. */
  predicate Follows(a: Seg, b: Seg) {
    a.end <= b.start || SameRange(a, b)
  }

  predicate Compatible(a: Seg, b: Seg) {
    Follows(a, b) || Follows(b, a)
  }

  ghost predicate Sorted(segs: seq<Seg>) {
    forall i, j :: 0 <= i < j < |segs| ==> Follows(segs[i], segs[j])
  }

  ghost predicate NonEmpty(segs: seq<Seg>) {
    forall i :: 0 <= i < |segs| ==> segs[i].start < segs[i].end
  }

  /** The queue between two calls: sorted, and everything is beyond a hole. */
  ghost predicate QueueOk(segs: seq<Seg>, next: int) {
    Sorted(segs) && NonEmpty(segs) && forall i :: 0 <= i < |segs| ==> next < segs[i].start
  }

  /** What the caller guarantees of a new segment. */
  ghost predicate Acceptable(segs: seq<Seg>, next: int, s: Seg) {
    s.start < s.end && next <= s.start && forall i :: 0 <= i < |segs| ==> Compatible(segs[i], s)
  }

  predicate In(s: Seg, x: int) {
    s.start <= x < s.end
  }

  ghost predicate Covered(segs: seq<Seg>, x: int) {
    exists i :: 0 <= i < |segs| && In(segs[i], x)
  }

  function AllFlags(segs: seq<Seg>): Flags {
    if segs == [] then {} else AllFlags(segs[..|segs| - 1]) + segs[|segs| - 1].flags
  }

  // ----- insertion

  lemma InsertKeepsSorted(segs: seq<Seg>, s: Seg)
    requires Sorted(segs) && NonEmpty(segs) && s.start < s.end
    requires forall i :: 0 <= i < |segs| ==> Compatible(segs[i], s)
    ensures Sorted(Insert(segs, s)) && NonEmpty(Insert(segs, s))
  {
    var k := Place(segs, s.start, s.end);
    forall i | 0 <= i < k ensures Follows(segs[i], s) {
      assert Compatible(segs[i], s);
      if k == |segs| && segs[|segs| - 1].end <= s.start {
        assert i == |segs| - 1 || Follows(segs[i], segs[|segs| - 1]);
      }
    }
    forall j | k <= j < |segs| ensures Follows(s, segs[j]) {
      assert j == k || Follows(segs[k], segs[j]);
    }
    var r := Insert(segs, s);
    forall i, j | 0 <= i < j < |r| ensures Follows(r[i], r[j]) {
      if i < k {
        assert r[i] == segs[i];
        assert r[j] == if j < k then segs[j] else if j == k then s else segs[j - 1];
      } else {
        assert r[j] == segs[j - 1];
        assert r[i] == if i == k then s else segs[i - 1];
      }
    }
  }

  /** The new queue holds the old segments and the new one, nothing else. */
  lemma InsertContents(segs: seq<Seg>, s: Seg)
    ensures multiset(Insert(segs, s)) == multiset(segs) + multiset{s}
    ensures |Insert(segs, s)| == |segs| + 1
  {
    var k := Place(segs, s.start, s.end);
    assert segs == segs[..k] + segs[k..];
  }

  lemma InsertCovers(segs: seq<Seg>, s: Seg, x: int)
    ensures Covered(Insert(segs, s), x) <==> Covered(segs, x) || In(s, x)
  {
    hide In;
    var k := Place(segs, s.start, s.end);
    var r := Insert(segs, s);
    assert forall i :: 0 <= i < k ==> r[i] == segs[i];
    assert r[k] == s;
    assert forall i :: k <= i < |segs| ==> r[i + 1] == segs[i];
    if i :| 0 <= i < |segs| && In(segs[i], x) {
      assert r[if i < k then i else i + 1] == segs[i];
    }
    if i :| 0 <= i < |r| && In(r[i], x) {
      assert i == k || r[i] == segs[if i < k then i else i - 1];
    }
  }

  // ----- draining

  lemma {:induction false} AllFlagsFront(segs: seq<Seg>)
    requires segs != []
    ensures AllFlags(segs) == segs[0].flags + AllFlags(segs[1..])
  {
    var init := segs[..|segs| - 1];
    if |segs| > 1 {
      AllFlagsFront(init);
      assert init[1..] == segs[1..][..|segs| - 2];
    }
  }

  /** How many segments are taken off the front. */
  function DrainCount(segs: seq<Seg>): (k: nat)
    ensures k <= |segs| && (segs != [] ==> k >= 1)
    ensures k < |segs| ==> segs[k - 1].end < segs[k].start
    ensures forall i :: 0 < i < k ==> segs[i].start <= segs[i - 1].end
  {
    if segs == [] then 0
    else if |segs| > 1 && segs[0].end < segs[1].start then 1
    else
      var j := DrainCount(segs[1..]);
      assert forall i :: 0 < i < j + 1 ==> segs[1..][i - 1] == segs[i];
      1 + j
  }

  lemma DrainFrontNone(next: int, flags: Flags)
    ensures DrainFront([], next, flags) == Result([], next, flags) && AllFlags([]) == {}
  {
  }

  /** One turn of the draining loop. */
  lemma DrainFrontStep(segs: seq<Seg>, next: int, flags: Flags)
    requires segs != []
    ensures DrainFront(segs, next, flags)
         == if |segs| > 1 && segs[0].end < segs[1].start
            then Result(segs[1..], segs[0].end, flags + segs[0].flags)
            else DrainFront(segs[1..], segs[0].end, flags + segs[0].flags)
  {
  }

  lemma DrainCountStep(segs: seq<Seg>)
    requires segs != []
    ensures DrainCount(segs) == if |segs| > 1 && segs[0].end < segs[1].start then 1 else 1 + DrainCount(segs[1..])
  {
  }

  lemma FrontFlags(segs: seq<Seg>, k: nat)
    requires 1 <= k <= |segs|
    ensures AllFlags(segs[..k]) == segs[0].flags + AllFlags(segs[1..][..k - 1])
    ensures AllFlags([]) == {}
  {
    AllFlagsFront(segs[..k]);
    assert segs[..k][1..] == segs[1..][..k - 1];
  }

  lemma {:induction false} DrainFrontIs(segs: seq<Seg>, next: int, flags: Flags)
    ensures var k := DrainCount(segs);
      DrainFront(segs, next, flags)
      == Result(segs[k..], if k == 0 then next else segs[k - 1].end, flags + AllFlags(segs[..k]))
  {
    hide DrainFront, DrainCount, AllFlags;
    if segs == [] {
      DrainFrontNone(next, flags);
    } else {
      var k, f := DrainCount(segs), segs[0].flags;
      DrainFrontStep(segs, next, flags);
      DrainCountStep(segs);
      FrontFlags(segs, k);
      if |segs| > 1 && segs[0].end < segs[1].start {
        assert segs[1..][..0] == [];
      } else {
        var rest := AllFlags(segs[1..][..k - 1]);
        DrainFrontIs(segs[1..], segs[0].end, flags + f);
        assert segs[1..][k - 1..] == segs[k..];
        assert flags + f + rest == flags + (f + rest);
      }
    }
  }

  /** Segments without a gap between neighbours cover everything from the start of
      the first to the end of the last. */
  lemma {:induction false} ChainCovers(segs: seq<Seg>, k: nat, x: int)
    requires 1 <= k <= |segs| && forall i :: 0 < i < k ==> segs[i].start <= segs[i - 1].end
    requires segs[0].start <= x < segs[k - 1].end
    ensures Covered(segs[..k], x)
  {
    if k == 1 || segs[k - 2].end <= x {
      assert In(segs[..k][k - 1], x);
    } else {
      ChainCovers(segs, k - 1, x);
      var i :| 0 <= i < k - 1 && In(segs[..k - 1][i], x);
      assert In(segs[..k][i], x);
    }
  }

  /** How many segments `Drain` removes. */
  function Removed(segs: seq<Seg>, next: int): (k: nat)
    ensures k <= |segs|
  {
    if segs != [] && segs[0].start > next then 0 else DrainCount(segs)
  }

  /** In a sorted queue the segments before position `k` end by `next` and those
      after it start beyond `next`, if that is so for the neighbours. */
  lemma GapSplits(segs: seq<Seg>, k: nat, next: int)
    requires Sorted(segs) && NonEmpty(segs) && k <= |segs|
    requires k > 0 ==> segs[k - 1].end == next
    requires k < |segs| ==> next < segs[k].start
    ensures forall i :: 0 <= i < k ==> segs[i].end <= next
    ensures forall i :: k <= i < |segs| ==> next < segs[i].start
  {
    forall i | k <= i < |segs| ensures next < segs[i].start {
      assert i == k || Follows(segs[k], segs[i]);
    }
    forall i | 0 <= i < k ensures segs[i].end <= next {
      assert i == k - 1 || Follows(segs[i], segs[k - 1]);
    }
  }

  lemma DrainIs(segs: seq<Seg>, next: int)
    requires Sorted(segs) && NonEmpty(segs)
    requires forall i :: 0 <= i < |segs| ==> next <= segs[i].start
    ensures var k, r := Removed(segs, next), Drain(segs, next);
      && r.segs == segs[k..] && r.flags == AllFlags(segs[..k]) && next <= r.next
      && (forall x :: next <= x < r.next ==> Covered(segs[..k], x))
      && (forall i :: 0 <= i < k ==> segs[i].end <= r.next)
      && (forall i :: k <= i < |segs| ==> r.next < segs[i].start)
  {
    var k, r := Removed(segs, next), Drain(segs, next);
    DrainFrontIs(segs, next, {});
    assert {} + AllFlags(segs[..k]) == AllFlags(segs[..k]);
    assert r == Result(segs[k..], if k == 0 then next else segs[k - 1].end, AllFlags(segs[..k]));
    hide Drain, DrainFront, AllFlags, DrainCount;
    GapSplits(segs, k, r.next);
    forall x | next <= x < r.next ensures Covered(segs[..k], x) {
      ChainCovers(segs, k, x);
    }
  }

  // ----- main results

  /** What adding a segment achieves: the queue is again sorted and beyond a hole;
      the expected number moves to exactly the first one not received; exactly the
      segments beyond it stay; the flags of the others are returned. */
  lemma AddIsCorrect(segs: seq<Seg>, next: int, s: Seg)
    requires QueueOk(segs, next) && Acceptable(segs, next, s)
    ensures var r := Add(segs, next, s);
      && QueueOk(r.segs, r.next)
      && next <= r.next
      && (forall x :: next <= x < r.next ==> Covered(segs + [s], x))
      && !Covered(segs + [s], r.next)
      && (forall x :: x >= r.next ==> (Covered(r.segs, x) <==> Covered(segs + [s], x)))
    ensures var all, r := Insert(segs, s), Add(segs, next, s);
      exists k :: 0 <= k <= |all| && r.segs == all[k..] && r.flags == AllFlags(all[..k])
        && (forall i :: 0 <= i < k ==> all[i].end <= r.next)
        && (forall i :: k <= i < |all| ==> r.next < all[i].start)
  {
    var all, r := Insert(segs, s), Add(segs, next, s);
    InsertKeepsSorted(segs, s);
    InsertStarts(segs, next, s);
    DrainIs(all, next);
    var k := Removed(all, next);
    hide Insert, Drain, AllFlags, Removed, Covered;
    RestIsOk(all, k, r.next);
    forall x ensures Covered(all, x) <==> Covered(segs + [s], x) {
      InsertCovers(segs, s, x);
      AppendCovers(segs, s, x);
    }
    forall x | next <= x < r.next ensures Covered(all, x) {
      PrefixCovers(all, k, x);
    }
    forall x | x >= r.next ensures Covered(r.segs, x) <==> Covered(all, x) {
      SuffixCovers(all, k, r.next, x);
    }
    assert !Covered(r.segs, r.next);
  }

  /** What stays in the queue is sorted and beyond the hole. */
  lemma RestIsOk(all: seq<Seg>, k: nat, next: int)
    requires Sorted(all) && NonEmpty(all) && k <= |all|
    requires forall i :: k <= i < |all| ==> next < all[i].start
    ensures QueueOk(all[k..], next) && !Covered(all[k..], next)
  {
    var rest := all[k..];
    forall i, j | 0 <= i < j < |rest| ensures Follows(rest[i], rest[j]) {
      assert rest[i] == all[i + k] && rest[j] == all[j + k];
    }
  }

  lemma PrefixCovers(all: seq<Seg>, k: nat, x: int)
    requires k <= |all| && Covered(all[..k], x)
    ensures Covered(all, x)
  {
    var i :| 0 <= i < k && In(all[..k][i], x);
    assert In(all[i], x);
  }

  lemma SuffixCovers(all: seq<Seg>, k: nat, next: int, x: int)
    requires k <= |all| && next <= x && forall i :: 0 <= i < k ==> all[i].end <= next
    ensures Covered(all[k..], x) <==> Covered(all, x)
  {
    if i :| 0 <= i < |all| && In(all[i], x) {
      assert In(all[k..][i - k], x);
    }
    if i :| 0 <= i < |all| - k && In(all[k..][i], x) {
      assert In(all[i + k], x);
    }
  }

  lemma InsertStarts(segs: seq<Seg>, next: int, s: Seg)
    requires QueueOk(segs, next) && next <= s.start
    ensures forall i :: 0 <= i < |Insert(segs, s)| ==> next <= Insert(segs, s)[i].start
  {
  }

  lemma AppendCovers(segs: seq<Seg>, s: Seg, x: int)
    ensures Covered(segs + [s], x) <==> Covered(segs, x) || In(s, x)
  {
    hide In;
    var r := segs + [s];
    if i :| 0 <= i < |segs| && In(segs[i], x) {
      assert r[i] == segs[i];
    }
    if In(s, x) {
      assert r[|segs|] == s;
    }
  }

  /** A whole run of the queue from an empty start at `start`. */
  function AddAll(start: int, arrived: seq<Seg>): Result {
    if arrived == [] then Result([], start, {})
    else
      var r := AddAll(start, arrived[..|arrived| - 1]);
      Add(r.segs, r.next, arrived[|arrived| - 1])
  }

  ghost predicate AllAcceptable(start: int, arrived: seq<Seg>) {
    arrived != [] ==>
      var r := AddAll(start, arrived[..|arrived| - 1]);
      AllAcceptable(start, arrived[..|arrived| - 1]) && Acceptable(r.segs, r.next, arrived[|arrived| - 1])
  }

  /** Exactly which segments the queue survives: after a nonempty segment at or after
      the expected number the queue is sorted and beyond a hole again if and only if
      the segment overlaps none of the queued ones, or only copies of itself. */
  lemma QueueSurvivesIff(segs: seq<Seg>, next: int, s: Seg)
    requires QueueOk(segs, next) && s.start < s.end && next <= s.start
    ensures var r := Add(segs, next, s);
      QueueOk(r.segs, r.next) <==> Acceptable(segs, next, s)
  {
    if Acceptable(segs, next, s) {
      AddIsCorrect(segs, next, s);
    } else {
      var i :| 0 <= i < |segs| && !Compatible(segs[i], s);
      OverlapStays(segs, next, s, i);
    }
  }

  /** An overlapping segment lands behind the one it overlaps: nothing is drained and
      both stay, out of order. */
  lemma OverlapStays(segs: seq<Seg>, next: int, s: Seg, i: nat)
    requires QueueOk(segs, next) && s.start < s.end && next <= s.start
    requires i < |segs| && !Compatible(segs[i], s)
    ensures !Sorted(Add(segs, next, s).segs) && Add(segs, next, s) == Result(Insert(segs, s), next, {})
  {
    var k := Place(segs, s.start, s.end);
    assert i < |segs| - 1 ==> Follows(segs[i], segs[|segs| - 1]);
    assert k == After(segs, s.end);
    assert forall j :: 0 <= j < i ==> Follows(segs[j], segs[i]);
    var r := Insert(segs, s);
    assert r[i] == segs[i] && r[k] == s && r[0] == segs[0];
    assert !Follows(r[i], r[k]);
  }

  /** What such a queue can do next: the expected number falls back behind bytes that
      have arrived. */
  lemma OverlapBreaksReassembly()
    ensures var a, b, c := Seg(20, 30, {}), Seg(10, 25, {}), Seg(0, 20, {});
      var q1 := Add([], 0, a);
      var q2 := Add(q1.segs, q1.next, b);
      var q3 := Add(q2.segs, q2.next, c);
      !Acceptable(q1.segs, q1.next, b) && q3.next == 25 && Covered([a, b, c], 25) && q3.segs == []
  {
    var a, b, c := Seg(20, 30, {}), Seg(10, 25, {}), Seg(0, 20, {});
    hide Insert, DrainFront;
    InsertWhere([], a, 0);
    InsertWhere([a], b, 1);
    InsertWhere([a, b], c, 0);
    assert Insert([], a) == [a] && Insert([a], b) == [a, b] && Insert([a, b], c) == [c, a, b];
    assert !Compatible(a, b);
    DrainsThree(c, a, b, 0);
    assert In([a, b, c][0], 25);
  }

  lemma InsertWhere(segs: seq<Seg>, s: Seg, k: nat)
    requires k <= |segs| && (segs != [] ==> s.start < segs[|segs| - 1].end)
    requires (k < |segs| ==> s.end <= segs[k].start) && forall j :: 0 <= j < k ==> segs[j].start < s.end
    ensures Insert(segs, s) == segs[..k] + [s] + segs[k..]
  {
    var a := After(segs, s.end);
    assert a >= k && a <= k;
  }

  /** Three segments without a gap are drained, wherever each of them ends. */
  lemma DrainsThree(a: Seg, b: Seg, c: Seg, next: int)
    requires a.end >= b.start && b.end >= c.start
    ensures DrainFront([a, b, c], next, {}) == Result([], c.end, a.flags + b.flags + c.flags)
  {
    hide DrainFront;
    DrainFrontStep([a, b, c], next, {});
    DrainFrontStep([b, c], a.end, {} + a.flags);
    DrainFrontStep([c], b.end, {} + a.flags + b.flags);
    DrainFrontNone(c.end, {} + a.flags + b.flags + c.flags);
    assert [a, b, c][1..] == [b, c] && [b, c][1..] == [c] && [c][1..] == [];
  }

  /** `r.next` is exactly the end of the contiguous prefix, from `start`, of what
      has arrived, and the queue of `r` covers exactly what is beyond. */
  ghost predicate EndsPrefix(start: int, arrived: seq<Seg>, r: Result) {
    && start <= r.next
    && (forall x :: start <= x < r.next ==> Covered(arrived, x))
    && !Covered(arrived, r.next)
    && (forall x :: x >= r.next ==> (Covered(r.segs, x) <==> Covered(arrived, x)))
  }

  lemma PrefixGrows(start: int, before: seq<Seg>, s: Seg, q: Result, r: Result)
    requires EndsPrefix(start, before, q) && q.next <= r.next
    requires forall x :: q.next <= x < r.next ==> Covered(q.segs + [s], x)
    requires !Covered(q.segs + [s], r.next)
    requires forall x :: x >= r.next ==> (Covered(r.segs, x) <==> Covered(q.segs + [s], x))
    ensures EndsPrefix(start, before + [s], r)
  {
    hide Covered, In;
    forall x ensures Covered(before + [s], x) <==> Covered(before, x) || In(s, x) {
      AppendCovers(before, s, x);
    }
    forall x ensures Covered(q.segs + [s], x) <==> Covered(q.segs, x) || In(s, x) {
      AppendCovers(q.segs, s, x);
    }
    forall x | start <= x < r.next ensures Covered(before + [s], x) {
      if q.next <= x {
        assert Covered(q.segs + [s], x);
      }
    }
  }

  /** Over any run the expected number is exactly the end of the contiguous prefix
      of everything that ever arrived, and the queue holds exactly what is beyond. */
  lemma {:induction false} NextIsContiguousPrefix(start: int, arrived: seq<Seg>)
    requires AllAcceptable(start, arrived)
    ensures QueueOk(AddAll(start, arrived).segs, AddAll(start, arrived).next)
    ensures EndsPrefix(start, arrived, AddAll(start, arrived))
  {
    if arrived != [] {
      var before, s := arrived[..|arrived| - 1], arrived[|arrived| - 1];
      NextIsContiguousPrefix(start, before);
      var q := AddAll(start, before);
      assert arrived == before + [s] && AddAll(start, arrived) == Add(q.segs, q.next, s);
      hide Covered, Acceptable, QueueOk, EndsPrefix, Add, AddAll;
      AddIsCorrect(q.segs, q.next, s);
      PrefixGrows(start, before, s, q, Add(q.segs, q.next, s));
    }
  }

  /** Every segment is nonempty and starts at or after the expected number. */
  ghost predicate AllAhead(start: int, arrived: seq<Seg>) {
    arrived != [] ==>
      var r := AddAll(start, arrived[..|arrived| - 1]);
      var s := arrived[|arrived| - 1];
      AllAhead(start, arrived[..|arrived| - 1]) && s.start < s.end && r.next <= s.start
  }

  /** After every call the queue is sorted and beyond a hole. */
  ghost predicate AlwaysOk(start: int, arrived: seq<Seg>) {
    && QueueOk(AddAll(start, arrived).segs, AddAll(start, arrived).next)
    && (arrived != [] ==> AlwaysOk(start, arrived[..|arrived| - 1]))
  }

  /** Over any run the queue stays in order exactly as long as the arriving segments are
      disjoint from or identical to the queued ones. */
  lemma {:induction false} RunSurvivesIff(start: int, arrived: seq<Seg>)
    requires AllAhead(start, arrived)
    ensures AlwaysOk(start, arrived) <==> AllAcceptable(start, arrived)
  {
    if arrived != [] {
      var before, s := arrived[..|arrived| - 1], arrived[|arrived| - 1];
      RunSurvivesIff(start, before);
      var q := AddAll(start, before);
      assert AddAll(start, arrived) == Add(q.segs, q.next, s);
      hide QueueOk, Add, Acceptable;
      if AlwaysOk(start, before) {
        QueueSurvivesIff(q.segs, q.next, s);
      }
    } else {
      assert QueueOk(AddAll(start, arrived).segs, AddAll(start, arrived).next);
    }
  }
}
