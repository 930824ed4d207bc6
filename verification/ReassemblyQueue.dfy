/** The reassembly queue as a doubly linked list that is spliced in place. */
module ReassemblyQueue {
  import opened Reassembly

  class SegInfo {
    var next: SegInfo?
    var prev: SegInfo?
    const startseq: int
    const endseq: int
    const flags: Flags

    constructor (startseq: int, endseq: int, flags: Flags)
      ensures Value() == Seg(startseq, endseq, flags)
      ensures next == null && prev == null
    {
      this.startseq, this.endseq, this.flags := startseq, endseq, flags;
      next, prev := null, null;
    }

    function Value(): Seg {
      Seg(startseq, endseq, flags)
    }
  }

  ghost function Values(nodes: seq<SegInfo>): (s: seq<Seg>)
    ensures |s| == |nodes| && forall i :: 0 <= i < |s| ==> s[i] == nodes[i].Value()
  {
    seq(|nodes|, i requires 0 <= i < |nodes| => nodes[i].Value())
  }

  ghost predicate Distinct(nodes: seq<SegInfo>) {
    forall i, j :: 0 <= i < j < |nodes| ==> nodes[i] != nodes[j]
  }

  /** The node at `i` points to the one after it and the one before it. */
  ghost predicate LinkedAt(nodes: seq<SegInfo>, i: nat)
    requires i < |nodes|
    reads nodes
  {
    && nodes[i].next == (if i + 1 < |nodes| then nodes[i + 1] else null)
    && nodes[i].prev == (if i > 0 then nodes[i - 1] else null)
  }

  ghost predicate Linked(nodes: seq<SegInfo>)
    reads nodes
  {
    forall i :: 0 <= i < |nodes| ==> LinkedAt(nodes, i)
  }

  class Queue {
    var head: SegInfo?
    var tail: SegInfo?
    var rcvNxt: int
    ghost var nodes: seq<SegInfo>

    /** `head` to `tail` is a well-formed doubly linked list of `nodes`. */
    ghost predicate Valid()
      reads this, nodes
    {
      && Distinct(nodes) && Linked(nodes)
      && head == (if nodes == [] then null else nodes[0])
      && tail == (if nodes == [] then null else nodes[|nodes| - 1])
    }

    ghost function Repr(): set<SegInfo>
      reads this`nodes
    {
      set n | n in nodes
    }

    ghost function Contents(): seq<Seg>
      reads this`nodes
    {
      Values(nodes)
    }

    constructor (rcvNxt: int)
      ensures Valid() && Contents() == [] && this.rcvNxt == rcvNxt
    {
      head, tail := null, null;
      this.rcvNxt := rcvNxt;
      nodes := [];
    }

    /** Drops every segment; the expected number stays. */
    method Clear()
      requires Valid()
      modifies this
      ensures Valid() && Contents() == [] && rcvNxt == old(rcvNxt)
    {
      var p := head;
      ghost var i := 0;
      while p != null
        invariant Valid() && nodes == old(nodes) && rcvNxt == old(rcvNxt)
        invariant 0 <= i <= |nodes| && p == if i < |nodes| then nodes[i] else null
        decreases |nodes| - i
      {
        assert LinkedAt(nodes, i);
        p := p.next;
        i := i + 1;
      }
      head, tail := null, null;
      nodes := [];
    }

    /** The segment after which a new one goes, and its position. */
    method FindPlace(start: int, end: int) returns (p: SegInfo?, ghost k: nat)
      requires Valid() && head != null
      ensures k == Place(Contents(), start, end) <= |nodes|
      ensures p == if Place(Contents(), start, end) > 0 then nodes[Place(Contents(), start, end) - 1] else null
    {
      if tail.endseq <= start {
        return tail, |nodes|;
      }
      var q := head;
      k := 0;
      while q != null && end > q.startseq
        invariant k <= |nodes| && q == if k < |nodes| then nodes[k] else null
        invariant forall j :: 0 <= j < k ==> Contents()[j].start < end
        decreases |nodes| - k
      {
        assert LinkedAt(nodes, k);
        q := q.next;
        k := k + 1;
      }
      AfterIs(Contents(), end, k);
      if q == null {
        p := tail;
      } else {
        assert LinkedAt(nodes, k);
        p := q.prev;
      }
    }

    method SpliceHead(n: SegInfo)
      requires Valid() && n !in nodes && head != null
      modifies this`head, this`nodes, Repr()`prev, n`next, n`prev
      ensures Valid() && nodes == [n] + old(nodes) && Repr() == old(Repr()) + {n}
    {
      n.next := head;
      n.prev := null;
      head.prev := n;
      head := n;
      ghost var was := nodes;
      nodes := [n] + was;
      forall i | 0 <= i < |nodes| ensures LinkedAt(nodes, i) {
        assert i > 0 ==> old(LinkedAt(was, i - 1));
      }
    }

    method SpliceAfter(n: SegInfo, p: SegInfo, ghost k: nat)
      requires Valid() && n !in nodes && k < |nodes| && p == nodes[k]
      modifies this`tail, this`nodes, Repr()`next, Repr()`prev, n`next, n`prev
      ensures Valid() && nodes == InsertAt(old(nodes), k + 1, n)
    {
      hide Distinct;
      ghost var was := nodes;
      assert LinkedAt(was, k);
      DistinctAfter(was, k, n);
      n.next := p.next;
      if p.next != null {
        p.next.prev := n;
      }
      p.next := n;
      n.prev := p;
      if p == tail {
        tail := n;
      }
      nodes := InsertAt(was, k + 1, n);
      forall i | 0 <= i < |nodes| ensures LinkedAt(nodes, i) {
        if i != k + 1 {
          assert old(LinkedAt(was, if i <= k then i else i - 1));
        }
      }
      assert Linked(nodes) && Distinct(nodes);
      assert head == nodes[0] && tail == nodes[|nodes| - 1];
    }

    method InsertFirst(n: SegInfo)
      requires Valid() && head == null && n.next == null && n.prev == null
      modifies this`head, this`tail, this`nodes
      ensures Valid() && nodes == [n] && Contents() == Insert(old(Contents()), n.Value())
    {
      head, tail := n, n;
      nodes := [n];
      assert Contents() == [n.Value()];
    }

    method Splice(n: SegInfo, p: SegInfo?, ghost k: nat)
      requires Valid() && n !in nodes && head != null
      requires k <= |nodes| && p == if k > 0 then nodes[k - 1] else null
      modifies this`head, this`tail, this`nodes, Repr()`next, Repr()`prev, n`next, n`prev
      ensures Valid() && nodes == InsertAt(old(nodes), k, n) && Repr() == old(Repr()) + {n}
    {
      hide Distinct, Linked;
      if p == null {
        SpliceHead(n);
        assert nodes == InsertAt(old(nodes), 0, n);
      } else {
        SpliceAfter(n, p, k - 1);
        InsertAtMembers(old(nodes), k, n);
      }
    }

    /** Puts a new segment where it belongs. */
    method InsertSegment(start: int, end: int, flags: Flags)
      requires Valid()
      modifies this`head, this`tail, this`nodes, Repr()`next, Repr()`prev
      ensures Valid() && Contents() == Insert(old(Contents()), Seg(start, end, flags))
      ensures head != null && fresh(Repr() - old(Repr()))
    {
      hide Linked, Distinct, Insert, Place, InsertAt;
      var n := new SegInfo(start, end, flags);
      if head == null {
        InsertFirst(n);
      } else {
        hide Repr;
        var p, k := FindPlace(start, end);
        Splice(n, p, k);
        InsertedValues(old(nodes), n, k);
      }
    }

    /** Takes `q`, the node at `k`, out of the list; `q` keeps its own pointers. */
    method Unlink(q: SegInfo, ghost k: nat)
      requires Valid() && k < |nodes| && q == nodes[k]
      modifies this`head, this`tail, this`nodes, Repr()`next, Repr()`prev
      ensures Valid() && nodes == old(nodes)[..k] + old(nodes)[k + 1..]
      ensures q.next == (if k < |nodes| then nodes[k] else null) && Repr() <= old(Repr())
    {
      hide Distinct;
      ghost var was := nodes;
      assert LinkedAt(was, k);
      DistinctWithout(was, k);
      if q.prev != null {
        q.prev.next := q.next;
      } else {
        head := q.next;
      }
      if q.next != null {
        q.next.prev := q.prev;
      } else {
        tail := q.prev;
      }
      nodes := was[..k] + was[k + 1..];
      forall i | 0 <= i < |nodes| ensures LinkedAt(nodes, i) {
        assert old(LinkedAt(was, if i < k then i else i + 1));
      }
    }

    /** Unlinks the front of the list. */
    method UnlinkFront(q: SegInfo)
      requires Valid() && q == head
      modifies this`head, this`tail, this`nodes, Repr()`next, Repr()`prev
      ensures Valid() && Repr() <= old(Repr()) && q.next == head
      ensures Contents() == old(Contents())[1..]
    {
      hide Linked, Distinct, Repr, Values;
      ghost var was := nodes;
      ValuesTail(was);
      Unlink(q, 0);
      assert nodes == was[1..];
    }

    /** The loop that takes in-order segments off the front. */
    method DrainQueue() returns (tiflags: Flags)
      requires Valid() && head != null
      modifies this`head, this`tail, this`nodes, this`rcvNxt, Repr()`next, Repr()`prev
      ensures Valid()
      ensures Result(Contents(), rcvNxt, tiflags) == DrainFront(old(Contents()), old(rcvNxt), {})
    {
      hide DrainFront, Linked, Distinct, Values, Repr;
      tiflags := {};
      var p := head;
      ghost var goal := DrainFront(Contents(), rcvNxt, {});
      while p != null
        invariant Valid() && p == head
        invariant Repr() <= old(Repr())
        invariant DrainFront(Contents(), rcvNxt, tiflags) == goal
        decreases |nodes|
      {
        DrainFrontStep(Contents(), rcvNxt, tiflags);
        rcvNxt := p.endseq;
        tiflags := tiflags + p.flags;
        var q := p;
        UnlinkFront(q);
        if q.next != null && q.endseq < q.next.startseq {
          return;
        }
        p := q.next;
      }
      DrainFrontNone(rcvNxt, tiflags);
    }

    /** add: insert the segment, then deliver what is in order.  The packet carries
        `size - hlen` bytes from `seqno` on. */
    method Add(seqno: int, size: int, hlen: int, tiflags: Flags) returns (flags: Flags)
      requires Valid()
      modifies this, Repr()
      ensures Valid()
      ensures Result(Contents(), rcvNxt, flags)
           == Reassembly.Add(old(Contents()), old(rcvNxt), Seg(seqno, seqno + size - hlen, tiflags))
    {
      hide Linked, Distinct, Insert, DrainFront;
      InsertSegment(seqno, seqno + size - hlen, tiflags);
      if head.startseq > rcvNxt {
        return {};
      }
      flags := DrainQueue();
    }
  }

  lemma ValuesTail(nodes: seq<SegInfo>)
    ensures nodes != [] ==> Values(nodes[1..]) == Values(nodes)[1..]
  {
  }

  lemma DistinctAfter(nodes: seq<SegInfo>, k: nat, n: SegInfo)
    requires Distinct(nodes) && n !in nodes && k < |nodes|
    ensures Distinct(InsertAt(nodes, k + 1, n))
    ensures forall i :: 0 <= i < |nodes| ==> (nodes[i] == nodes[k] <==> i == k)
    ensures k + 1 < |nodes| ==> forall i :: 0 <= i < |nodes| ==> (nodes[i] == nodes[k + 1] <==> i == k + 1)
  {
  }

  lemma DistinctWithout(nodes: seq<SegInfo>, k: nat)
    requires Distinct(nodes) && k < |nodes|
    ensures Distinct(nodes[..k] + nodes[k + 1..])
    ensures k > 0 ==> forall i :: 0 <= i < |nodes| ==> (nodes[i] == nodes[k - 1] <==> i == k - 1)
    ensures k + 1 < |nodes| ==> forall i :: 0 <= i < |nodes| ==> (nodes[i] == nodes[k + 1] <==> i == k + 1)
    ensures forall i :: 0 <= i < |nodes| ==> (nodes[i] == nodes[k] <==> i == k)
  {
  }

  lemma InsertAtMembers(nodes: seq<SegInfo>, k: nat, n: SegInfo)
    requires k <= |nodes|
    ensures (set m | m in InsertAt(nodes, k, n)) == (set m | m in nodes) + {n}
  {
    var r := InsertAt(nodes, k, n);
    assert r == nodes[..k] + [n] + nodes[k..] && nodes == nodes[..k] + nodes[k..];
  }

  lemma InsertedValues(nodes: seq<SegInfo>, n: SegInfo, k: nat)
    requires k == Place(Values(nodes), n.startseq, n.endseq)
    ensures Values(InsertAt(nodes, k, n)) == Insert(Values(nodes), n.Value())
  {
    assert forall i :: 0 <= i <= |nodes| ==>
      Values(InsertAt(nodes, k, n))[i] == InsertAt(Values(nodes), k, n.Value())[i];
  }

  lemma {:induction false} AfterIs(segs: seq<Seg>, end: int, k: nat)
    requires k <= |segs| && (k < |segs| ==> end <= segs[k].start)
    requires forall j :: 0 <= j < k ==> segs[j].start < end
    ensures After(segs, end) == k
  {
    if k > 0 {
      AfterIs(segs[1..], end, k - 1);
    }
  }
}
