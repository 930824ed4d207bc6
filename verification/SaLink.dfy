/** Param_ADC and SALink as objects whose methods update their fields. */
module SaLink {
  import opened Options
  import opened SignallingLink

  /** The rate-based admission controller: one accumulated rate. */
  class ParamAdc {
    var resvRate: real
    const limit: real

    constructor (limit: real)
      ensures resvRate == 0.0 && this.limit == limit
    {
      resvRate, this.limit := 0.0, limit;
    }

    method AdmitFlow(r: real) returns (ok: bool)
      modifies this
      ensures ok <==> old(resvRate) + r <= limit
      ensures resvRate == if ok then old(resvRate) + r else old(resvRate)
    {
      if resvRate + r <= limit {
        resvRate := resvRate + r;
        return true;
      }
      return false;
    }

    method RejAction(p: real)
      modifies this
      ensures resvRate == old(resvRate) - p
    {
      resvRate := resvRate - p;
    }

    method TeardownAction(p: real)
      modifies this
      ensures resvRate == old(resvRate) - p
    {
      resvRate := resvRate - p;
    }
  }

  class SaLink {
    const adc: ParamAdc
    const pending: array<int>
    var numfl: int

    function State(): Link
      reads this, adc, pending
    {
      Link(adc.resvRate, adc.limit, pending[..], numfl)
    }

    constructor (limit: real)
      ensures State() == InitLink(limit) && fresh(adc) && fresh(pending)
    {
      adc := new ParamAdc(limit);
      pending := new int[SLOTS](_ => -1);
      numfl := -1;
      new;
      assert pending[..] == seq(SLOTS, _ => -1);
    }

    method Find(id: int) returns (j: nat)
      ensures j == Lookup(pending[..], id)
    {
      j := 0;
      while j < pending.Length && pending[j] != id
        invariant j <= pending.Length
        invariant forall k :: 0 <= k < j ==> pending[k] != id
      {
        j := j + 1;
      }
      LookupIs(pending[..], id, j);
    }

    /** `r` is the packet sent on; None when the process ends for lack of slots. */
    method Recv(p: Packet) returns (r: Option<Packet>)
      modifies this, adc, pending
      ensures r.None? <==> SignallingLink.Recv(old(State()), p).None?
      ensures r.Some? ==> SignallingLink.Recv(old(State()), p) == Some((State(), r.value))
    {
      var q := p;
      match p.kind {
        case Request =>
          var decide := adc.AdmitFlow(p.rate);
          q := q.(decision := q.decision && decide);
          if decide {
            var j := Find(-1);
            if j == pending.Length {
              return None;
            }
            pending[j] := p.flow;
            numfl := numfl + 1;
          }
        case Accept =>
        case Reject =>
        case Confirm =>
          var j := Find(p.flow);
          if j < pending.Length {
            if !p.decision {
              adc.RejAction(p.rate);
              numfl := numfl - 1;
            }
            pending[j] := -1;
          }
        case Teardown =>
          adc.TeardownAction(p.rate);
          numfl := numfl - 1;
      }
      return Some(q);
    }
  }
}
