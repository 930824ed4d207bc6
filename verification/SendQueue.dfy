/** The send buffer as the singly linked list of packets it is kept in. */
module SendQueue {
  import opened SendBuffer

  class Packet {
    const id: nat
    const dst: int
    var ts: real
    var next: Packet?

    constructor (id: nat, dst: int)
      ensures this.id == id && this.dst == dst
    {
      this.id, this.dst := id, dst;
      ts, next := 0.0, null;
    }

    function Value(): Entry
      reads this`ts
    {
      Entry(id, dst, ts)
    }
  }

  function Handed(p: Packet?, fate: Fate): Taken
    reads if p == null then {} else {p}
  {
    if p == null then Nothing else Took(p.Value(), fate)
  }

  ghost predicate Distinct(nodes: seq<Packet>) {
    forall i, j :: 0 <= i < j < |nodes| ==> nodes[i] != nodes[j]
  }

  /** The node at `i` points to the next one and holds the `i`-th entry. */
  ghost predicate HoldsAt(nodes: seq<Packet>, q: seq<Entry>, i: nat)
    requires i < |nodes| == |q|
    reads nodes
  {
    nodes[i].next == (if i + 1 < |nodes| then nodes[i + 1] else null) && nodes[i].Value() == q[i]
  }

  ghost predicate Holds(nodes: seq<Packet>, q: seq<Entry>)
    reads nodes
  {
    |nodes| == |q| && forall i :: 0 <= i < |nodes| ==> HoldsAt(nodes, q, i)
  }

  class RQueue {
    var head: Packet?
    var tail: Packet?
    var len: nat
    ghost var nodes: seq<Packet>
    ghost var contents: seq<Entry>

    ghost predicate Valid()
      reads this, nodes
    {
      && Distinct(nodes) && Holds(nodes, contents)
      && head == (if nodes == [] then null else nodes[0])
      && tail == (if nodes == [] then null else nodes[|nodes| - 1])
      && len == |nodes| <= LIMIT
    }

    ghost function Repr(): set<Packet>
      reads this
    {
      set n | n in nodes
    }

    constructor ()
      ensures Valid() && contents == []
    {
      head, tail, len := null, null, 0;
      nodes, contents := [], [];
    }

    /** The two asserts of the self-check never fail. */
    method VerifyQueue() returns (ok: bool)
      requires Valid()
      ensures ok
    {
      var prev: Packet? := null;
      var cnt := 0;
      var p := head;
      while p != null
        invariant 0 <= cnt <= |nodes|
        invariant p == if cnt < |nodes| then nodes[cnt] else null
        invariant prev == if cnt > 0 then nodes[cnt - 1] else null
        decreases |nodes| - cnt
      {
        assert HoldsAt(nodes, contents, cnt);
        cnt := cnt + 1;
        prev := p;
        p := p.next;
      }
      ok := cnt == len && prev == tail;
    }

    method RemoveHead() returns (p: Packet?)
      requires Valid()
      modifies this
      ensures Valid() && Repr() <= old(Repr()) && (p == null || p in old(Repr()))
      ensures (p == null) == (old(contents) == [])
      ensures p == null ==> contents == []
      ensures p != null ==> p.Value() == old(contents)[0] && contents == old(contents)[1..]
    {
      p := head;
      if p != null {
        assert HoldsAt(nodes, contents, 0);
      }
      if head == tail {
        head, tail := null, null;
      } else {
        head := head.next;
      }
      if p != null {
        len := len - 1;
        ghost var was, had := nodes, contents;
        nodes, contents := was[1..], had[1..];
        forall i | 0 <= i < |nodes| ensures HoldsAt(nodes, contents, i) {
          assert old(HoldsAt(was, had, i + 1));
        }
      }
    }

    /** Unlinks the packet after `prev`, or the head. */
    method Unlink(p: Packet, prev: Packet?, ghost k: nat)
      requires Valid() && k < |nodes| && p == nodes[k]
      requires prev == if k > 0 then nodes[k - 1] else null
      modifies this, Repr()`next
      ensures Valid() && contents == RemoveAt(old(contents), k) && Repr() <= old(Repr())
    {
      ghost var was, had := nodes, contents;
      if p == head {
        var q := RemoveHead();
        assert k == 0;
      } else {
        assert HoldsAt(nodes, contents, k);
        if p == tail {
          prev.next := null;
          tail := prev;
        } else {
          prev.next := p.next;
        }
        len := len - 1;
        nodes, contents := was[..k] + was[k + 1..], RemoveAt(had, k);
        forall i | 0 <= i < |nodes| ensures HoldsAt(nodes, contents, i) {
          assert old(HoldsAt(was, had, if i < k then i else i + 1));
        }
      }
    }

    method FindPacketWithDst(dst: int) returns (p: Packet?, prev: Packet?, ghost k: nat)
      requires Valid()
      ensures k == IndexOf(contents, dst) && |nodes| == |contents|
      ensures p == if IndexOf(contents, dst) < |nodes| then nodes[IndexOf(contents, dst)] else null
      ensures p != null ==> p.Value() == contents[k] && prev == if k > 0 then nodes[k - 1] else null
    {
      p, prev, k := head, null, 0;
      while p != null
        invariant 0 <= k <= |nodes| && p == (if k < |nodes| then nodes[k] else null)
        invariant prev == if k > 0 then nodes[k - 1] else null
        invariant forall i :: 0 <= i < k ==> contents[i].dst != dst
        decreases |nodes| - k
      {
        assert HoldsAt(nodes, contents, k);
        if p.dst == dst {
          break;
        }
        prev := p;
        p := p.next;
        k := k + 1;
      }
      IndexIs(contents, dst, k);
    }

    method Find(dst: int) returns (found: bool)
      requires Valid()
      ensures found <==> exists e :: e in contents && e.dst == dst
    {
      var p, prev, k := FindPacketWithDst(dst);
      found := p != null;
      if found {
        assert contents[k] in contents;
      }
    }

    method FindAgedPacket(now: real) returns (found: bool, p: Packet?, prev: Packet?, ghost k: nat)
      requires Valid()
      ensures |nodes| == |contents|
      ensures found ==> k < |nodes| && p == nodes[k] && Old(contents[k], now)
      ensures found ==> prev == (if k > 0 then nodes[k - 1] else null) && forall i :: 0 <= i < k ==> !Old(contents[i], now)
      ensures !found ==> forall i :: 0 <= i < |nodes| ==> !Old(contents[i], now)
    {
      p, prev, k := head, null, 0;
      while p != null
        invariant 0 <= k <= |nodes| && p == (if k < |nodes| then nodes[k] else null)
        invariant prev == if k > 0 then nodes[k - 1] else null
        invariant forall i :: 0 <= i < k ==> !Old(contents[i], now)
        decreases |nodes| - k
      {
        assert HoldsAt(nodes, contents, k);
        if p.ts < now {
          return true, p, prev, k;
        }
        prev := p;
        p := p.next;
        k := k + 1;
      }
      found := false;
    }

    /** Scans for an aged packet again and again until there is none. */
    method Purge(now: real)
      requires Valid()
      modifies this, Repr()`next
      ensures Valid() && Repr() <= old(Repr())
      ensures contents == Live(old(contents), now)
    {
      hide Valid, Repr, Live, Old;
      var found, p, prev, k := FindAgedPacket(now);
      while found
        invariant Valid() && Repr() <= old(Repr())
        invariant Live(contents, now) == Live(old(contents), now)
        invariant found ==> 0 <= k < |nodes| == |contents| && p == nodes[k] && Old(contents[k], now)
        invariant found ==> prev == if k > 0 then nodes[k - 1] else null
        invariant !found ==> forall i :: 0 <= i < |contents| ==> !Old(contents[i], now)
        decreases |contents|, found
      {
        AgedGoes(contents, k, now);
        Unlink(p, prev, k);
        var ok := VerifyQueue();
        assert ok;
        found, p, prev, k := FindAgedPacket(now);
      }
      NoneAged(contents, now);
    }

    method Append(p: Packet)
      requires Valid() && p !in Repr() && p.next == null && |contents| < LIMIT
      modifies this, Repr()`next
      ensures Valid() && contents == old(contents) + [p.Value()] && Repr() == old(Repr()) + {p}
    {
      if head == null {
        head, tail := p, p;
      } else {
        assert HoldsAt(nodes, contents, |nodes| - 1);
        tail.next := p;
        tail := p;
      }
      len := len + 1;
      ghost var was, had := nodes, contents;
      nodes, contents := was + [p], had + [p.Value()];
      forall i | 0 <= i < |nodes| ensures HoldsAt(nodes, contents, i) {
        if i < |was| {
          assert old(HoldsAt(was, had, i));
        }
      }
    }

    /** Appends `p`; a full buffer drops its head, and `full` says for which reason. */
    method Enque(p: Packet, now: real) returns (dropped: Packet?, full: bool)
      requires Valid() && p !in Repr()
      modifies this, Repr()`next, p
      ensures Valid() && Repr() <= old(Repr()) + {p} && dropped != p
      ensures Outcome(contents, Handed(dropped, Evicted(full)))
           == SendBuffer.Enque(old(contents), Entry(p.id, p.dst, now + TIMEOUT), now)
    {
      Purge(now);
      Stamp(p, now);
      dropped, full := null, false;
      hide Repr, Live;
      if len == LIMIT {
        dropped := RemoveHead();
        full := dropped.ts > now;
      }
      hide Valid;
      Append(p);
      var ok := VerifyQueue();
      assert ok;
    }

    /** Prepares `p`, which is in no queue, for the end of this one. */
    method Stamp(p: Packet, now: real)
      requires Valid() && p !in Repr()
      modifies p
      ensures Valid() && p.next == null && p.ts == now + TIMEOUT
    {
      p.next := null;
      p.ts := now + TIMEOUT;
      assert forall i :: 0 <= i < |nodes| ==> old(HoldsAt(nodes, contents, i)) && nodes[i] in Repr();
    }

    method Deque(now: real) returns (p: Packet?)
      requires Valid()
      modifies this, Repr()`next
      ensures Valid() && Repr() <= old(Repr())
      ensures Outcome(contents, Handed(p, Dequeued)) == SendBuffer.Deque(old(contents), now)
    {
      hide Valid, Repr, Live;
      Purge(now);
      p := RemoveHead();
      var ok := VerifyQueue();
      assert ok;
    }

    method DequeDst(dst: int, now: real) returns (p: Packet?)
      requires Valid()
      modifies this, Repr()`next
      ensures Valid() && Repr() <= old(Repr())
      ensures Outcome(contents, Handed(p, Dequeued)) == SendBuffer.DequeDst(old(contents), dst, now)
    {
      hide Valid, Repr, Live, IndexOf;
      Purge(now);
      var q, prev, k := FindPacketWithDst(dst);
      if q == null {
        return null;
      }
      Unlink(q, prev, k);
      var ok := VerifyQueue();
      assert ok;
      p := q;
    }
  }

  /** Removing an aged packet does not change what the purge leaves. */
  lemma {:induction false} AgedGoes(q: seq<Entry>, k: nat, now: real)
    requires k < |q| && Old(q[k], now)
    ensures Live(RemoveAt(q, k), now) == Live(q, now)
  {
    if k == 0 {
      assert RemoveAt(q, 0) == q[1..];
    } else {
      AgedGoes(q[1..], k - 1, now);
      assert RemoveAt(q, k)[1..] == RemoveAt(q[1..], k - 1);
    }
  }
}
