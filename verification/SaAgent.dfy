/** The source side of the reservation protocol as an object. */
module SaAgent {
  import opened Options
  import opened SignallingLink
  import opened Reservation

  class Source {
    const flow: nat
    const rate: real
    var running: bool

    constructor (flow: nat, rate: real)
      ensures this.flow == flow && this.rate == rate && !running
    {
      this.flow, this.rate, running := flow, rate, false;
    }

    method SendReq(ghost fs: seq<Flow>) returns (p: Packet)
      requires flow < |fs| && fs[flow].rate == rate
      ensures Going(p, 0) == Start(fs, flow)
    {
      p := Packet(Request, flow, rate, true);
    }

    /** An echoed decision is turned around; traffic starts if it was granted. */
    method Recv(p: Packet) returns (out: Option<Packet>)
      modifies this`running
      ensures p.kind == Accept || p.kind == Reject ==> out == Some(TurnAround(p))
      ensures p.kind != Accept && p.kind != Reject ==> out == None
      ensures running == p.decision
    {
      out := None;
      if p.kind == Accept || p.kind == Reject {
        out := Some(p.(kind := Confirm));
      }
      if p.decision {
        running := true;
      } else {
        running := false;
      }
    }

    method StopFlow(ghost fs: seq<Flow>) returns (p: Packet)
      requires flow < |fs| && fs[flow].rate == rate
      modifies this`running
      ensures Going(p, 0) == Stop(fs, flow) && !running
    {
      p := Packet(Teardown, flow, rate, true);
      if running {
        running := false;
      }
    }
  }
}
