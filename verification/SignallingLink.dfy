/** One link of the reservation protocol: the per-link accountant (Param_ADC) and
    the table of pending decisions (SALink). */
module SignallingLink {
  import opened Options

  /** NFLOWS of the source. */
  const SLOTS: nat := 500

  datatype Kind = Request | Accept | Reject | Confirm | Teardown

  datatype Packet = Packet(kind: Kind, flow: int, rate: real, decision: bool)

  /** `resv` is the reserved rate, `cap` utilization times bandwidth, `pending` the
      flow ids of the slots, -1 for a free one, `admitted` the flow counter. */
  datatype Link = Link(resv: real, cap: real, pending: seq<int>, admitted: int)

  function InitLink(cap: real): Link {
    Link(0.0, cap, seq(SLOTS, _ => -1), -1)
  }

  /** The first slot that holds `id`, or the number of slots. */
  function Lookup(pending: seq<int>, id: int): (j: nat)
    ensures j <= |pending| && (j < |pending| ==> pending[j] == id)
    ensures forall k :: 0 <= k < j ==> pending[k] != id
  {
    if pending == [] then 0 else if pending[0] == id then 0 else 1 + Lookup(pending[1..], id)
  }

  /** What the link does to its state and to a passing packet; nothing when the
      process ends because no slot is free. */
  function Recv(l: Link, p: Packet): Option<(Link, Packet)> {
    match p.kind
    case Request =>
      if l.resv + p.rate <= l.cap then
        var j := Lookup(l.pending, -1);
        if j == |l.pending| then None
        else Some((l.(resv := l.resv + p.rate, pending := l.pending[j := p.flow], admitted := l.admitted + 1), p))
      else Some((l, p.(decision := false)))
    case Accept => Some((l, p))
    case Reject => Some((l, p))
    case Confirm =>
      var j := Lookup(l.pending, p.flow);
      if j == |l.pending| then Some((l, p))
      else
        var l1 := if p.decision then l else l.(resv := l.resv - p.rate, admitted := l.admitted - 1);
        Some((l1.(pending := l.pending[j := -1]), p))
    case Teardown => Some((l.(resv := l.resv - p.rate, admitted := l.admitted - 1), p))
  }

  lemma {:induction false} LookupIs(pending: seq<int>, id: int, j: nat)
    requires j <= |pending| && (j < |pending| ==> pending[j] == id)
    requires forall k :: 0 <= k < j ==> pending[k] != id
    ensures Lookup(pending, id) == j
  {
    if j > 0 {
      LookupIs(pending[1..], id, j - 1);
    }
  }
}
