/** The two-phase reservation protocol: flows with paths over shared links send
    REQUEST, get the decision echoed, send CONFIRM, and TEARDOWN when they stop, which
    may be right behind the CONFIRM; after that they may start again.  Packets of
    different flows interleave in any order, those of one flow stay in order. */
module Reservation {
  import opened SignallingLink

  /** A flow: the links it crosses, in order, and its rate. */
  datatype Flow = Flow(path: seq<nat>, rate: real)

  /** Where the signalling of a flow is: a packet on its way down the path with
      `hop` links behind it, a granted confirmation with a teardown following it, which
      has `behind` links behind it, or the echoed decision on its way back. */
  datatype Phase =
    | Idle
    | Going(pkt: Packet, hop: nat)
    | Closing(pkt: Packet, hop: nat, behind: nat)
    | Returning(pkt: Packet)
    | Established
    | Refused
    | Done

  /** `granted` records on which links of the path the request was admitted. */
  datatype FlowState = FlowState(phase: Phase, granted: set<nat>)

  datatype System = System(links: seq<Link>, flows: seq<FlowState>)

  ghost predicate FlowsOk(fs: seq<Flow>, links: nat) {
    forall f :: 0 <= f < |fs| ==>
      && fs[f].rate >= 0.0
      && (forall k :: 0 <= k < |fs[f].path| ==> fs[f].path[k] < links)
      && (forall j, k :: 0 <= j < k < |fs[f].path| ==> fs[f].path[j] != fs[f].path[k])
  }

  // ----- steps

  /** start: the source sends a request that so far is granted. */
  function Start(fs: seq<Flow>, f: nat): Phase
    requires f < |fs|
  {
    Going(Packet(Request, f, fs[f].rate, true), 0)
  }

  /** The receiver echoes the decision of a request. */
  function Echo(p: Packet): Packet {
    p.(kind := if p.decision then Accept else Reject)
  }

  /** The source turns an echoed decision around into a confirmation. */
  function TurnAround(p: Packet): Packet {
    p.(kind := Confirm)
  }

  function Teardown(fs: seq<Flow>, f: nat): Packet
    requires f < |fs|
  {
    Packet(Kind.Teardown, f, fs[f].rate, true)
  }

  /** stop of an accepted flow. */
  function Stop(fs: seq<Flow>, f: nat): Phase
    requires f < |fs|
  {
    Going(Teardown(fs, f), 0)
  }

  /** A packet that has crossed the whole path. */
  function Arrive(p: Packet): Phase {
    match p.kind
    case Request => Returning(Echo(p))
    case Accept => Returning(p)
    case Reject => Returning(p)
    case Confirm => if p.decision then Established else Refused
    case Teardown => Done
  }

  /** Steps of a flow that involve no link. */
  predicate StepLocal(fs: seq<Flow>, ph: Phase, f: nat, ph': Phase)
    requires f < |fs|
  {
    || (ph.Idle? && ph' == Start(fs, f))
    || (ph.Going? && ph.hop == |fs[f].path| && ph' == Arrive(ph.pkt))
    || (ph.Returning? && ph' == Going(TurnAround(ph.pkt), 0))
    || (ph.Established? && ph' == Stop(fs, f))
    // the source stops while its granted confirmation is still on the way
    || (ph.Going? && ph.pkt.kind == Confirm && ph.pkt.decision && ph' == Closing(ph.pkt, ph.hop, 0))
    || (ph.Closing? && ph.hop == |fs[f].path| && ph' == Going(Teardown(fs, f), ph.behind))
  }

  /** A flow that is over may start again. */
  predicate Restarts(fs: seq<Flow>, st: FlowState, f: nat, st': FlowState)
    requires f < |fs|
  {
    (st.phase.Done? || st.phase.Refused?) && st' == FlowState(Start(fs, f), {})
  }

  ghost predicate LocalStep(fs: seq<Flow>, s: System, s': System, f: nat) {
    && f < |fs| == |s.flows|
    && s'.links == s.links
    && exists st' :: s'.flows == s.flows[f := st']
         && (Restarts(fs, s.flows[f], f, st')
             || (st'.granted == s.flows[f].granted && StepLocal(fs, s.flows[f].phase, f, st'.phase)))
  }

  /** The link lets a request in. */
  predicate Admits(l: Link, p: Packet) {
    p.kind == Request && l.resv + p.rate <= l.cap
  }

  /** The flow has a packet for the next link: its first one, or the teardown that
      follows the confirmation and does not overtake it. */
  predicate CanMove(path: seq<nat>, ph: Phase, tail: bool) {
    if tail then ph.Closing? && ph.behind < ph.hop <= |path| else (ph.Going? || ph.Closing?) && ph.hop < |path|
  }

  function Moving(flow: Flow, f: nat, ph: Phase, tail: bool): Packet
    requires CanMove(flow.path, ph, tail)
  {
    if tail then Packet(Kind.Teardown, f, flow.rate, true) else ph.pkt
  }

  /** The position on the path of the link that handles it. */
  function Position(path: seq<nat>, ph: Phase, tail: bool): (k: nat)
    requires CanMove(path, ph, tail)
    ensures k < |path|
  {
    if tail then ph.behind else ph.hop
  }

  function Moved(path: seq<nat>, ph: Phase, tail: bool, p: Packet): Phase
    requires CanMove(path, ph, tail)
  {
    if tail then Closing(ph.pkt, ph.hop, ph.behind + 1)
    else if ph.Going? then Going(p, ph.hop + 1) else Closing(p, ph.hop + 1, ph.behind)
  }

  /** The state of a flow after link `link`, number `l`, has handled its packet. */
  function AfterHop(flow: Flow, f: nat, link: Link, l: nat, st: FlowState, tail: bool): FlowState
    requires CanMove(flow.path, st.phase, tail) && Recv(link, Moving(flow, f, st.phase, tail)).Some?
  {
    var p := Moving(flow, f, st.phase, tail);
    FlowState(Moved(flow.path, st.phase, tail, Recv(link, p).value.1),
              if Admits(link, p) then st.granted + {l} else st.granted)
  }

  /** The next link on the path handles a packet of flow `f`. */
  ghost predicate HopStep(fs: seq<Flow>, s: System, s': System, f: nat, tail: bool) {
    && f < |fs| == |s.flows| && CanMove(fs[f].path, s.flows[f].phase, tail)
    && var st := s.flows[f];
       var l := fs[f].path[Position(fs[f].path, st.phase, tail)];
       && l < |s.links| && Recv(s.links[l], Moving(fs[f], f, st.phase, tail)).Some?
       && s'.links == s.links[l := Recv(s.links[l], Moving(fs[f], f, st.phase, tail)).value.0]
       && s'.flows == s.flows[f := AfterHop(fs[f], f, s.links[l], l, st, tail)]
  }

  ghost predicate Step(fs: seq<Flow>, s: System, s': System) {
    exists f, tail :: LocalStep(fs, s, s', f) || HopStep(fs, s, s', f, tail)
  }

  ghost predicate Init(fs: seq<Flow>, s: System) {
    && (forall l :: 0 <= l < |s.links| ==> s.links[l].cap >= 0.0 && s.links[l] == InitLink(s.links[l].cap))
    && |s.flows| == |fs|
    && (forall f :: 0 <= f < |fs| ==> s.flows[f] == FlowState(Idle, {}))
  }

  ghost predicate Run(fs: seq<Flow>, ss: seq<System>) {
    |ss| > 0 && Init(fs, ss[0]) && forall k :: 0 <= k < |ss| - 1 ==> Step(fs, ss[k], ss[k + 1])
  }

  // ----- what a flow holds where

  /** Link `l` is among the first `k` links of the path. */
  predicate Passed(path: seq<nat>, k: nat, l: nat)
    requires k <= |path|
  {
    l in path[..k]
  }

  ghost predicate AllGranted(path: seq<nat>, k: nat, granted: set<nat>)
    requires k <= |path|
  {
    forall j :: 0 <= j < k ==> path[j] in granted
  }

  ghost predicate FlowOk(flow: Flow, f: nat, st: FlowState) {
    && (forall l :: l in st.granted ==> l in flow.path)
    && (match st.phase
        case Idle => st.granted == {}
        case Going(pkt, hop) =>
          && hop <= |flow.path| && pkt.flow == f && pkt.rate == flow.rate
          && (match pkt.kind
              case Request =>
                && (forall l :: l in st.granted ==> Passed(flow.path, hop, l))
                && (pkt.decision <==> AllGranted(flow.path, hop, st.granted))
              case Confirm => pkt.decision <==> AllGranted(flow.path, |flow.path|, st.granted)
              case Teardown => AllGranted(flow.path, |flow.path|, st.granted)
              case Accept => false
              case Reject => false)
        case Closing(pkt, hop, behind) =>
          && behind <= hop <= |flow.path| && pkt == Packet(Confirm, f, flow.rate, true)
          && AllGranted(flow.path, |flow.path|, st.granted)
        case Returning(pkt) =>
          && pkt.flow == f && pkt.rate == flow.rate
          && (pkt.decision <==> AllGranted(flow.path, |flow.path|, st.granted))
        case Established => AllGranted(flow.path, |flow.path|, st.granted)
        case Refused => !AllGranted(flow.path, |flow.path|, st.granted)
        case Done => true)
  }

  /** The flow's rate is reserved on link `l`. */
  ghost predicate Holds(flow: Flow, f: nat, st: FlowState, l: nat)
    requires FlowOk(flow, f, st)
  {
    l in st.granted && match st.phase
    case Idle => false
    case Going(pkt, hop) =>
      (match pkt.kind
       case Request => true
       case Confirm => pkt.decision || !Passed(flow.path, hop, l)
       case Teardown => !Passed(flow.path, hop, l)
       case Accept => false
       case Reject => false)
    case Closing(_, _, behind) => !Passed(flow.path, behind, l)
    case Returning(_) => true
    case Established => true
    case Refused => false
    case Done => false
  }

  /** The flow occupies a slot of link `l` until its confirmation passes. */
  ghost predicate Pends(flow: Flow, f: nat, st: FlowState, l: nat)
    requires FlowOk(flow, f, st)
  {
    l in st.granted && match st.phase
    case Going(pkt, hop) =>
      (match pkt.kind
       case Request => true
       case Confirm => !Passed(flow.path, hop, l)
       case Teardown => false
       case Accept => false
       case Reject => false)
    case Closing(_, hop, _) => !Passed(flow.path, hop, l)
    case Returning(_) => true
    case Idle => false
    case Established => false
    case Refused => false
    case Done => false
  }

  ghost predicate AllFlowsOk(fs: seq<Flow>, sts: seq<FlowState>) {
    |sts| == |fs| && forall f :: 0 <= f < |fs| ==> FlowOk(fs[f], f, sts[f])
  }

  function Sum(xs: seq<real>): real {
    if xs == [] then 0.0 else Sum(xs[..|xs| - 1]) + xs[|xs| - 1]
  }

  /** The rates reserved on link `l`, flow by flow, 0 for flows that hold nothing. */
  ghost function HeldRates(fs: seq<Flow>, sts: seq<FlowState>, l: nat): seq<real>
    requires AllFlowsOk(fs, sts)
  {
    seq(|fs|, f requires 0 <= f < |fs| => if Holds(fs[f], f, sts[f], l) then fs[f].rate else 0.0)
  }

  ghost function HeldCounts(fs: seq<Flow>, sts: seq<FlowState>, l: nat): seq<real>
    requires AllFlowsOk(fs, sts)
  {
    seq(|fs|, f requires 0 <= f < |fs| => if Holds(fs[f], f, sts[f], l) then 1.0 else 0.0)
  }

  /** The table of pending decisions: every id at most once. */
  ghost predicate SlotsOk(pending: seq<int>) {
    forall i, j :: 0 <= i < j < |pending| && pending[i] == pending[j] ==> pending[i] == -1
  }

  /** The accountant agrees with the flows: reserved rate, counter and slots. */
  ghost predicate LinkOk(fs: seq<Flow>, sts: seq<FlowState>, link: Link, l: nat)
    requires AllFlowsOk(fs, sts)
  {
    && link.resv == Sum(HeldRates(fs, sts, l))
    && link.resv <= link.cap
    && link.admitted as real == Sum(HeldCounts(fs, sts, l)) - 1.0
    && SlotsOk(link.pending)
    && (forall f :: 0 <= f < |fs| ==> (f in link.pending <==> Pends(fs[f], f, sts[f], l)))
  }

  ghost predicate Inv(fs: seq<Flow>, s: System) {
    && FlowsOk(fs, |s.links|) && AllFlowsOk(fs, s.flows)
    && forall l :: 0 <= l < |s.links| ==> LinkOk(fs, s.flows, s.links[l], l)
  }

  // ----- sums

  lemma {:induction false} SumUpdate(xs: seq<real>, i: nat, x: real)
    requires i < |xs|
    ensures Sum(xs[i := x]) == Sum(xs) - xs[i] + x
  {
    var n := |xs| - 1;
    if i == n {
      assert xs[i := x][..n] == xs[..n];
    } else {
      assert xs[i := x][..n] == xs[..n][i := x];
      SumUpdate(xs[..n], i, x);
    }
  }

  lemma {:induction false} SumZero(xs: seq<real>)
    requires forall i :: 0 <= i < |xs| ==> xs[i] == 0.0
    ensures Sum(xs) == 0.0
  {
    if xs != [] {
      SumZero(xs[..|xs| - 1]);
    }
  }

  // ----- steps of one flow

  lemma PassedNext(path: seq<nat>, k: nat, l: nat)
    requires k < |path|
    ensures Passed(path, k + 1, l) <==> Passed(path, k, l) || l == path[k]
  {
    assert path[..k + 1] == path[..k] + [path[k]];
  }

  lemma PassedAll(path: seq<nat>, l: nat)
    ensures Passed(path, |path|, l) <==> l in path
  {
    assert path[..|path|] == path;
  }

  lemma NotPassedYet(path: seq<nat>, k: nat)
    requires k < |path| && forall i, j :: 0 <= i < j < |path| ==> path[i] != path[j]
    ensures !Passed(path, k, path[k])
  {
  }

  /** A step without a link changes nothing that any link accounts for. */
  lemma LocalStepOk(fs: seq<Flow>, f: nat, st: FlowState, ph': Phase)
    requires f < |fs| && FlowOk(fs[f], f, st) && StepLocal(fs, st.phase, f, ph')
    ensures FlowOk(fs[f], f, st.(phase := ph'))
    ensures forall l :: Holds(fs[f], f, st.(phase := ph'), l) <==> Holds(fs[f], f, st, l)
    ensures forall l :: Pends(fs[f], f, st.(phase := ph'), l) <==> Pends(fs[f], f, st, l)
  {
    forall l ensures Passed(fs[f].path, |fs[f].path|, l) <==> l in fs[f].path {
      PassedAll(fs[f].path, l);
    }
    assert forall l :: !Passed(fs[f].path, 0, l);
  }

  lemma RestartOk(fs: seq<Flow>, f: nat, st: FlowState, st': FlowState)
    requires f < |fs| && FlowOk(fs[f], f, st) && Restarts(fs, st, f, st')
    ensures FlowOk(fs[f], f, st')
    ensures forall l :: Holds(fs[f], f, st', l) <==> Holds(fs[f], f, st, l)
    ensures forall l :: Pends(fs[f], f, st', l) <==> Pends(fs[f], f, st, l)
  {
  }

  lemma HopFlowOk(flow: Flow, f: nat, st: FlowState, link: Link, tail: bool)
    requires FlowOk(flow, f, st) && CanMove(flow.path, st.phase, tail)
    requires Recv(link, Moving(flow, f, st.phase, tail)).Some?
    requires forall i, j :: 0 <= i < j < |flow.path| ==> flow.path[i] != flow.path[j]
    ensures var l := flow.path[Position(flow.path, st.phase, tail)];
      var st' := AfterHop(flow, f, link, l, st, tail);
      && FlowOk(flow, f, st')
      && (forall x :: x != l ==> (Holds(flow, f, st', x) <==> Holds(flow, f, st, x)))
      && (forall x :: x != l ==> (Pends(flow, f, st', x) <==> Pends(flow, f, st, x)))
  {
    var k := Position(flow.path, st.phase, tail);
    forall x ensures Passed(flow.path, k + 1, x) <==> Passed(flow.path, k, x) || x == flow.path[k] {
      PassedNext(flow.path, k, x);
    }
    NotPassedYet(flow.path, k);
    forall j | 0 <= j < k ensures flow.path[j] != flow.path[k] {
    }
    hide Passed, SLOTS;
  }

  /** What a packet does at the link that handles it. */
  lemma HopAtLink(flow: Flow, f: nat, st: FlowState, link: Link, tail: bool)
    requires FlowOk(flow, f, st) && CanMove(flow.path, st.phase, tail)
    requires Recv(link, Moving(flow, f, st.phase, tail)).Some?
    requires SlotsOk(link.pending) && flow.rate >= 0.0 && link.resv <= link.cap
    requires forall i, j :: 0 <= i < j < |flow.path| ==> flow.path[i] != flow.path[j]
    requires f in link.pending <==> Pends(flow, f, st, flow.path[Position(flow.path, st.phase, tail)])
    ensures var l := flow.path[Position(flow.path, st.phase, tail)];
      var st' := AfterHop(flow, f, link, l, st, tail);
      var link' := Recv(link, Moving(flow, f, st.phase, tail)).value.0;
      && FlowOk(flow, f, st')
      && link'.resv - link.resv == (if Holds(flow, f, st', l) then flow.rate else 0.0) - (if Holds(flow, f, st, l) then flow.rate else 0.0)
      && link'.admitted - link.admitted == (if Holds(flow, f, st', l) then 1 else 0) - (if Holds(flow, f, st, l) then 1 else 0)
      && link'.resv <= link'.cap && link'.cap == link.cap
      && SlotsOk(link'.pending)
      && (f in link'.pending <==> Pends(flow, f, st', l))
      && (forall g: int :: g != f && g != -1 ==> (g in link'.pending <==> g in link.pending))
  {
    HopFlowOk(flow, f, st, link, tail);
    var k := Position(flow.path, st.phase, tail);
    var l := flow.path[k];
    PassedNext(flow.path, k, l);
    NotPassedYet(flow.path, k);
    if st.phase.Closing? {
      PassedMore(flow.path, st.phase.behind, st.phase.hop, l);
      if tail {
        PassedMore(flow.path, k + 1, st.phase.hop, l);
      }
    }
    SlotTaken(link.pending, f);
    SlotFreed(link.pending, f);
    hide FlowOk, SlotsOk, Lookup;
  }

  lemma PassedMore(path: seq<nat>, j: nat, k: nat, l: nat)
    requires j <= k <= |path|
    ensures Passed(path, j, l) ==> Passed(path, k, l)
  {
    assert path[..j] == path[..k][..j];
  }

  /** Putting an id that is not there into the first free slot. */
  lemma SlotTaken(pending: seq<int>, f: nat)
    requires SlotsOk(pending)
    ensures var j := Lookup(pending, -1);
      j < |pending| ==>
        && (f !in pending ==> SlotsOk(pending[j := f])) && f in pending[j := f]
        && (forall g: int :: g != f && g != -1 ==> (g in pending[j := f] <==> g in pending))
  {
    var j := Lookup(pending, -1);
    if j < |pending| {
      var after := pending[j := f];
      assert after[j] == f;
      forall g: int | g != f && g != -1 ensures g in after <==> g in pending {
        if i :| 0 <= i < |pending| && pending[i] == g {
          assert after[i] == g;
        }
      }
    }
  }

  /** Freeing the slot of an id. */
  lemma SlotFreed(pending: seq<int>, f: nat)
    requires SlotsOk(pending)
    ensures var j := Lookup(pending, f);
      && (j < |pending| <==> f in pending)
      && (j < |pending| ==>
            && SlotsOk(pending[j := -1]) && f !in pending[j := -1]
            && (forall g: int :: g != f && g != -1 ==> (g in pending[j := -1] <==> g in pending)))
  {
    var j := Lookup(pending, f);
    if j < |pending| {
      var after := pending[j := -1];
      forall g: int | g != f && g != -1 ensures g in after <==> g in pending {
        if i :| 0 <= i < |pending| && pending[i] == g {
          assert after[i] == g;
        }
      }
    }
  }

  // ----- the invariant

  lemma InitInv(fs: seq<Flow>, s: System)
    requires Init(fs, s) && FlowsOk(fs, |s.links|)
    ensures Inv(fs, s)
  {
    forall l | 0 <= l < |s.links| ensures LinkOk(fs, s.flows, s.links[l], l) {
      SumZero(HeldRates(fs, s.flows, l));
      SumZero(HeldCounts(fs, s.flows, l));
    }
  }

  /** Replacing the state of one flow in the account of a link. */
  lemma AccountUpdate(fs: seq<Flow>, sts: seq<FlowState>, f: nat, st': FlowState, link: Link, link': Link, l: nat)
    requires AllFlowsOk(fs, sts) && f < |fs| && FlowOk(fs[f], f, st') && LinkOk(fs, sts, link, l)
    requires link'.resv - link.resv
      == (if Holds(fs[f], f, st', l) then fs[f].rate else 0.0) - (if Holds(fs[f], f, sts[f], l) then fs[f].rate else 0.0)
    requires link'.admitted - link.admitted
      == (if Holds(fs[f], f, st', l) then 1 else 0) - (if Holds(fs[f], f, sts[f], l) then 1 else 0)
    requires link'.resv <= link'.cap && SlotsOk(link'.pending)
    requires f in link'.pending <==> Pends(fs[f], f, st', l)
    requires forall g: int :: g != f && g != -1 ==> (g in link'.pending <==> g in link.pending)
    ensures AllFlowsOk(fs, sts[f := st']) && LinkOk(fs, sts[f := st'], link', l)
  {
    hide FlowOk, Holds, Pends, SlotsOk, Sum;
    var sts' := sts[f := st'];
    var rates, counts := HeldRates(fs, sts, l), HeldCounts(fs, sts, l);
    var x := if Holds(fs[f], f, st', l) then fs[f].rate else 0.0;
    var y := if Holds(fs[f], f, st', l) then 1.0 else 0.0;
    assert HeldRates(fs, sts', l) == rates[f := x];
    assert HeldCounts(fs, sts', l) == counts[f := y];
    SumUpdate(rates, f, x);
    SumUpdate(counts, f, y);
  }

  lemma LocalStepInv(fs: seq<Flow>, s: System, s': System, f: nat)
    requires Inv(fs, s) && LocalStep(fs, s, s', f)
    ensures Inv(fs, s')
  {
    var st := s.flows[f];
    var st' :| s'.flows == s.flows[f := st']
      && (Restarts(fs, st, f, st') || (st'.granted == st.granted && StepLocal(fs, st.phase, f, st'.phase)));
    if Restarts(fs, st, f, st') {
      RestartOk(fs, f, st, st');
    } else {
      assert st' == st.(phase := st'.phase);
      LocalStepOk(fs, f, st, st'.phase);
    }
    hide FlowOk, Holds, Pends, StepLocal, Restarts;
    forall l | 0 <= l < |s.links| ensures LinkOk(fs, s'.flows, s'.links[l], l) {
      assert LinkOk(fs, s.flows, s.links[l], l);
      AccountUpdate(fs, s.flows, f, st', s.links[l], s.links[l], l);
    }
  }

  lemma HopStepInv(fs: seq<Flow>, s: System, s': System, f: nat, tail: bool)
    requires Inv(fs, s) && HopStep(fs, s, s', f, tail)
    ensures Inv(fs, s')
  {
    var st := s.flows[f];
    var l0 := fs[f].path[Position(fs[f].path, st.phase, tail)];
    var st' := AfterHop(fs[f], f, s.links[l0], l0, st, tail);
    var link' := Recv(s.links[l0], Moving(fs[f], f, st.phase, tail)).value.0;
    assert s'.flows == s.flows[f := st'] && s'.links == s.links[l0 := link'];
    assert LinkOk(fs, s.flows, s.links[l0], l0);
    HopAtLink(fs[f], f, st, s.links[l0], tail);
    HopFlowOk(fs[f], f, st, s.links[l0], tail);
    hide FlowOk, Holds, Pends, AfterHop, Recv, SlotsOk, Moving, Position, CanMove;
    forall l | 0 <= l < |s.links| ensures LinkOk(fs, s'.flows, s'.links[l], l) {
      assert LinkOk(fs, s.flows, s.links[l], l);
      AccountUpdate(fs, s.flows, f, st', s.links[l], s'.links[l], l);
    }
  }

  lemma {:induction false} RunKeepsInv(fs: seq<Flow>, ss: seq<System>)
    requires Run(fs, ss) && FlowsOk(fs, |ss[0].links|)
    ensures Inv(fs, ss[|ss| - 1])
  {
    if |ss| == 1 {
      InitInv(fs, ss[0]);
    } else {
      var k := |ss| - 2;
      var init := ss[..k + 1];
      assert Step(fs, ss[k], ss[k + 1]);
      forall j | 0 <= j < |init| - 1 ensures Step(fs, init[j], init[j + 1]) {
        assert Step(fs, ss[j], ss[j + 1]);
      }
      RunKeepsInv(fs, init);
      var f, tail :| LocalStep(fs, ss[k], ss[k + 1], f) || HopStep(fs, ss[k], ss[k + 1], f, tail);
      hide Inv;
      if LocalStep(fs, ss[k], ss[k + 1], f) {
        LocalStepInv(fs, ss[k], ss[k + 1], f);
      } else {
        HopStepInv(fs, ss[k], ss[k + 1], f, tail);
      }
    }
  }

  // ----- main results

  /** Conservation and admission: in every interleaving the reserved rate of every
      link is the sum of the rates of the flows that hold it, and never exceeds
      the limit. */
  lemma ReservedRateIsAccounted(fs: seq<Flow>, ss: seq<System>, l: nat)
    requires Run(fs, ss) && FlowsOk(fs, |ss[0].links|) && l < |ss[|ss| - 1].links|
    ensures var s := ss[|ss| - 1];
      && AllFlowsOk(fs, s.flows)
      && s.links[l].resv == Sum(HeldRates(fs, s.flows, l)) <= s.links[l].cap
      && s.links[l].admitted as real == Sum(HeldCounts(fs, s.flows, l)) - 1.0
  {
    RunKeepsInv(fs, ss);
    assert LinkOk(fs, ss[|ss| - 1].flows, ss[|ss| - 1].links[l], l);
  }

  /** No packet of the flow is on its way. */
  predicate Settled(ph: Phase) {
    ph.Idle? || ph.Established? || ph.Refused? || ph.Done?
  }

  /** What a settled flow should hold on link `l`: its rate on every link of its path if
      it is established, and nothing anywhere else. */
  function Due(flow: Flow, ph: Phase, l: nat): real {
    if ph.Established? && l in flow.path then flow.rate else 0.0
  }

  /** All or nothing, on the rate fields of the links: the reserved rate of any link is a
      sum to which every settled flow adds its rate if it is established and crosses the
      link, and nothing otherwise; a flow that is signalling adds its rate or nothing.
      A settled flow occupies no slot. */
  lemma AllOrNothing(fs: seq<Flow>, ss: seq<System>, l: nat) returns (held: seq<real>)
    requires Run(fs, ss) && FlowsOk(fs, |ss[0].links|) && l < |ss[|ss| - 1].links|
    ensures var s := ss[|ss| - 1];
      && |held| == |fs| == |s.flows| && s.links[l].resv == Sum(held)
      && (forall f :: 0 <= f < |fs| && Settled(s.flows[f].phase) ==> held[f] == Due(fs[f], s.flows[f].phase, l))
      && (forall f :: 0 <= f < |fs| ==> held[f] == 0.0 || (held[f] == fs[f].rate && l in fs[f].path))
      && (forall f :: 0 <= f < |fs| && Settled(s.flows[f].phase) ==> f !in s.links[l].pending)
  {
    RunKeepsInv(fs, ss);
    var s := ss[|ss| - 1];
    assert LinkOk(fs, s.flows, s.links[l], l);
    held := HeldRates(fs, s.flows, l);
    forall f | 0 <= f < |fs|
      ensures held[f] == 0.0 || (held[f] == fs[f].rate && l in fs[f].path)
      ensures Settled(s.flows[f].phase) ==> held[f] == Due(fs[f], s.flows[f].phase, l) && f !in s.links[l].pending
    {
      SettledHolds(fs[f], f, s.flows[f], l);
    }
  }

  lemma SettledHolds(flow: Flow, f: nat, st: FlowState, l: nat)
    requires FlowOk(flow, f, st)
    ensures Holds(flow, f, st, l) ==> l in flow.path
    ensures Settled(st.phase) ==> (Holds(flow, f, st, l) <==> st.phase.Established? && l in flow.path)
    ensures Settled(st.phase) ==> !Pends(flow, f, st, l)
  {
    if st.phase.Established? && l in flow.path {
      var k :| 0 <= k < |flow.path| && flow.path[k] == l;
    }
  }

  function DueRates(fs: seq<Flow>, sts: seq<FlowState>, l: nat): seq<real>
    requires |sts| == |fs|
  {
    seq(|fs|, f requires 0 <= f < |fs| => Due(fs[f], sts[f].phase, l))
  }

  ghost predicate Quiet(s: System) {
    forall f :: 0 <= f < |s.flows| ==> Settled(s.flows[f].phase)
  }

  /** When nothing is being signalled, the reserved rate of every link is exactly the sum
      of the rates of the established flows that cross it. */
  lemma QuietLinksHoldEstablished(fs: seq<Flow>, ss: seq<System>, l: nat)
    requires Run(fs, ss) && FlowsOk(fs, |ss[0].links|) && l < |ss[|ss| - 1].links|
    requires Quiet(ss[|ss| - 1])
    ensures |ss[|ss| - 1].flows| == |fs|
    ensures ss[|ss| - 1].links[l].resv == Sum(DueRates(fs, ss[|ss| - 1].flows, l))
  {
    var held := AllOrNothing(fs, ss, l);
    assert held == DueRates(fs, ss[|ss| - 1].flows, l);
  }

  /** A flow is established only if every link of its path admitted it, and refused
      only if some link did not. */
  lemma DecisionIsUnanimous(fs: seq<Flow>, ss: seq<System>, f: nat)
    requires Run(fs, ss) && FlowsOk(fs, |ss[0].links|) && f < |fs|
    ensures |ss[|ss| - 1].flows| == |fs|
    ensures var st := ss[|ss| - 1].flows[f];
      && (st.phase.Established? ==> forall k :: 0 <= k < |fs[f].path| ==> fs[f].path[k] in st.granted)
      && (st.phase.Refused? ==> exists k :: 0 <= k < |fs[f].path| && fs[f].path[k] !in st.granted)
  {
    RunKeepsInv(fs, ss);
    assert FlowOk(fs[f], f, ss[|ss| - 1].flows[f]);
  }
}
