/** Local repair: which repair timers break the order of route information, what the
    raise that is commented out in the timer would do, and a run that ends in a loop. */
module AodvRepair {
  import opened Freshness
  import opened AodvSpec
  import opened AodvNetwork

  // ----- the timer

  /** The timer keeps what the node has promised if and only if it finds no route under
      repair that still has a hop count. */
  lemma TimerKeepsOrderIff(n: Node, d: Addr)
    ensures (forall x :: AtLeast(RankOf(RepairTimer(n, d).node, x), RankOf(n, x))) <==> TimerIsHarmless(n, d)
  {
    var n' := RepairTimer(n, d).node;
    if TimerIsHarmless(n, d) {
      forall x ensures AtLeast(RankOf(n', x), RankOf(n, x)) {
        AtLeastItself(RankOf(n, x));
      }
    } else {
      assert !AtLeast(RankOf(n', d), RankOf(n, d));
    }
  }

  /** The timer with the raise of the number that is commented out. */
  function RaisingTimer(n: Node, d: Addr): Node {
    if d in n.rt && n.rt[d].flags != Up then
      n.(rt := n.rt[d := TakeDown(n.rt[d].(seqno := n.rt[d].seqno + 1))])
    else n
  }

  /** The raise makes the timer safe on a route under repair, but gives a dead route with
      an odd number an even one: it keeps what the network relies on if and only if the
      timer does not find such a route. */
  lemma RaisingTimerIff(n: Node, d: Addr)
    requires NodeOk(n)
    ensures Sound(n, Outcome(RaisingTimer(n, d), []), {})
       <==> (d in n.rt ==> n.rt[d].flags != Down || n.rt[d].seqno == 0)
  {
    var n' := RaisingTimer(n, d);
    if d in n.rt {
      assert EntryOk(n.rt[d]);
      if n.rt[d].flags == Down && n.rt[d].seqno != 0 {
        assert !EntryOk(n'.rt[d]);
      } else {
        assert EntryOk(n'.rt[d]);
        forall x ensures AtLeast(RankOf(n', x), RankOf(n, x)) {
          AtLeastItself(RankOf(n, x));
        }
      }
    } else {
      forall x ensures AtLeast(RankOf(n', x), RankOf(n, x)) {
        AtLeastItself(RankOf(n, x));
      }
    }
  }

  /** The timer with the raise for routes under repair only. */
  function GuardedTimer(n: Node, d: Addr): Node {
    if d in n.rt && n.rt[d].flags == InRepair then RaisingTimer(n, d) else RepairTimer(n, d).node
  }

  /** That timer keeps what the network relies on, whatever it finds. */
  lemma GuardedTimerIsSound(n: Node, d: Addr)
    requires NodeOk(n)
    ensures Sound(n, Outcome(GuardedTimer(n, d), []), {})
  {
    if d in n.rt && n.rt[d].flags == InRepair {
      RaisingTimerIff(n, d);
    } else {
      RepairTimerSound(n, d);
    }
  }

  // ----- a loop

  const A: Addr := 1
  const B: Addr := 2
  const D: Addr := 3

  function NodeA(seqno: nat, bid: nat, order: seq<Addr>, rt: map<Addr, Entry>, seen: set<(Addr, nat)>): Node {
    Node(A, seqno, bid, order, rt, seen, {})
  }

  function NodeB(seqno: nat, bid: nat, order: seq<Addr>, rt: map<Addr, Entry>, seen: set<(Addr, nat)>): Node {
    Node(B, seqno, bid, order, rt, seen, {})
  }

  const A0 := InitNode(A)
  const A1 := NodeA(4, 2, [D], map[D := FRESH_ENTRY], {})
  const A2 := NodeA(4, 2, [D], map[D := Entry(4, Fin(1), D, Up, {})], {})
  const A3 := NodeA(4, 2, [B, D], map[B := Entry(4, Fin(1), B, Up, {D}), D := Entry(4, Fin(1), D, Up, {B})], {(B, 1)})
  const A4 := NodeA(6, 3, [B, D], map[B := Entry(4, Fin(1), B, Up, {D}), D := Entry(4, Fin(1), D, InRepair, {B})], {(B, 1)})
  const A5 := NodeA(6, 3, [B, D], map[B := Entry(4, Fin(1), B, Up, {D}), D := Entry(4, Inf, 0, Down, {B})], {(B, 1)})
  const A6 := NodeA(6, 3, [B, D], map[B := Entry(4, Fin(1), B, Up, {D}), D := Entry(4, Fin(3), B, Up, {B})], {(B, 1)})
  const B0 := InitNode(B)
  const B1 := NodeB(4, 2, [D], map[D := FRESH_ENTRY], {})
  const B2 := NodeB(4, 2, [D], map[D := Entry(4, Fin(2), A, Up, {})], {})
  const B3 := NodeB(4, 2, [A, D], map[A := Entry(6, Fin(1), A, Up, {A}), D := Entry(4, Fin(2), A, Up, {A})], {(A, 2)})
  const D0 := InitNode(D)
  const D1 := Node(D, 4, 1, [A], map[A := Entry(4, Fin(1), A, Up, {})], {(A, 1)}, {})

  /** A asks for D, D answers; B asks for D, A answers; A asks again, B answers. */
  const ASK_A := Rreq(A, 1, 1, D, 0, A, 4)
  const REPLY_D := Rrep(D, 1, D, 4, A, A)
  const ASK_B := Rreq(B, 1, 1, D, 0, B, 4)
  const REPLY_A := Rrep(A, 2, D, 4, B, B)
  const ASK_AGAIN := Rreq(A, 1, 2, D, 4, A, 6)
  const REPLY_B := Rrep(B, 3, D, 4, A, A)

  lemma AAsks()
    ensures TableOk(A0) && Handle(A0, Data(D, A)) == Outcome(A1, [ASK_A])
  {
  }

  lemma DAnswers()
    ensures TableOk(D0) && Handle(D0, Deliver(ASK_A)) == Outcome(D1, [REPLY_D])
  {
    assert ReverseRoute(D0, ASK_A) == D1.(seqno := 2);
  }

  lemma ALearns()
    ensures TableOk(A1) && Handle(A1, Deliver(REPLY_D)) == Outcome(A2, [])
  {
  }

  lemma BAsks()
    ensures TableOk(B0) && Handle(B0, Data(D, B)) == Outcome(B1, [ASK_B])
  {
  }

  lemma AAnswers()
    ensures TableOk(A2) && Handle(A2, Deliver(ASK_B)) == Outcome(A3, [REPLY_A])
  {
    var n := ReverseRoute(A2, ASK_B);
    assert n == NodeA(4, 2, [B, D], map[B := Entry(4, Fin(1), B, Up, {}), D := Entry(4, Fin(1), D, Up, {})], {(B, 1)});
    assert CanAnswer(n, ASK_B);
    var n2 := AddPrecursor(AddPrecursor(n, D, B), B, D);
    assert n2.rt[B].precursors == {D} && n2.rt[D].precursors == {B};
    assert n2.rt == A3.rt;
  }

  lemma BLearns()
    ensures TableOk(B1) && Handle(B1, Deliver(REPLY_A)) == Outcome(B2, [])
  {
  }

  /** The link from A to D breaks under a packet that had been forwarded twice. */
  lemma ARepairs()
    ensures TableOk(A3) && Handle(A3, LinkBreaks(D, D, 2)) == Outcome(A4, [ASK_AGAIN])
  {
    assert A3.rt[D := A3.rt[D].(flags := InRepair)] == A4.rt;
  }

  lemma BAnswers()
    ensures TableOk(B2) && Handle(B2, Deliver(ASK_AGAIN)) == Outcome(B3, [REPLY_B])
  {
    var n := ReverseRoute(B2, ASK_AGAIN);
    assert n == NodeB(4, 2, [A, D], map[A := Entry(6, Fin(1), A, Up, {}), D := Entry(4, Fin(2), A, Up, {})], {(A, 2)});
    assert CanAnswer(n, ASK_AGAIN);
    var n2 := AddPrecursor(AddPrecursor(n, D, A), A, A);
    assert n2.rt[A].precursors == {A} && n2.rt[D].precursors == {A};
    assert n2.rt == B3.rt;
  }

  lemma ATimesOut()
    ensures TableOk(A4) && Handle(A4, RepairTimeout(D)) == Outcome(A5, [])
  {
    assert A4.rt[D := TakeDown(A4.rt[D])] == A5.rt;
  }

  lemma ALearnsWrong()
    ensures TableOk(A5) && Handle(A5, Deliver(REPLY_B)) == Outcome(A6, [])
  {
    assert A5.rt[D := Update(A5.rt[D], 4, 3, B)] == A6.rt;
  }

  function World(a: Node, b: Node, d: Node, msgs: set<Msg>): Net {
    Net(map[A := a, B := b, D := d], msgs)
  }

  predicate Arrives(msgs: set<Msg>, i: Addr, ev: Event) {
    ev.Deliver? ==> ev.m in msgs && (ev.m.Rrep? ==> ev.m.nexthop == i)
  }

  lemma StepOfA(a: Node, a': Node, b: Node, d: Node, msgs: set<Msg>, ev: Event, sent: seq<Msg>)
    requires TableOk(a) && Arrives(msgs, A, ev) && Handle(a, ev) == Outcome(a', sent)
    ensures Step(World(a, b, d, msgs), World(a', b, d, msgs + set m | m in sent), Unchecked)
    ensures !ev.RepairTimeout? ==> Step(World(a, b, d, msgs), World(a', b, d, msgs + set m | m in sent), Timely)
  {
    hide Handle, TableOk;
    assert StepBy(World(a, b, d, msgs), World(a', b, d, msgs + set m | m in sent), A, ev);
  }

  lemma StepOfB(a: Node, b: Node, b': Node, d: Node, msgs: set<Msg>, ev: Event, sent: seq<Msg>)
    requires TableOk(b) && Arrives(msgs, B, ev) && Handle(b, ev) == Outcome(b', sent)
    ensures Step(World(a, b, d, msgs), World(a, b', d, msgs + set m | m in sent), Unchecked)
    ensures !ev.RepairTimeout? ==> Step(World(a, b, d, msgs), World(a, b', d, msgs + set m | m in sent), Timely)
  {
    hide Handle, TableOk;
    assert StepBy(World(a, b, d, msgs), World(a, b', d, msgs + set m | m in sent), B, ev);
  }

  lemma StepOfD(a: Node, b: Node, d: Node, d': Node, msgs: set<Msg>, ev: Event, sent: seq<Msg>)
    requires TableOk(d) && Arrives(msgs, D, ev) && Handle(d, ev) == Outcome(d', sent)
    ensures Step(World(a, b, d, msgs), World(a, b, d', msgs + set m | m in sent), Unchecked)
    ensures !ev.RepairTimeout? ==> Step(World(a, b, d, msgs), World(a, b, d', msgs + set m | m in sent), Timely)
  {
    hide Handle, TableOk;
    assert StepBy(World(a, b, d, msgs), World(a, b, d', msgs + set m | m in sent), D, ev);
  }

  const FIRST: set<Msg> := {ASK_A, REPLY_D}
  const SECOND: set<Msg> := FIRST + {ASK_B, REPLY_A}
  const THIRD: set<Msg> := SECOND + {ASK_AGAIN, REPLY_B}

  lemma AAsksInRun()
    ensures Step(World(A0, B0, D0, {}), World(A1, B0, D0, {ASK_A}), Unchecked)
    ensures Step(World(A0, B0, D0, {}), World(A1, B0, D0, {ASK_A}), Timely)
  {
    hide Handle, Step, TableOk, World;
    AAsks();
    assert {} + (set m | m in [ASK_A]) == {ASK_A};
    StepOfA(A0, A1, B0, D0, {}, Data(D, A), [ASK_A]);
  }

  lemma DAnswersInRun()
    ensures Step(World(A1, B0, D0, {ASK_A}), World(A1, B0, D1, FIRST), Unchecked)
    ensures Step(World(A1, B0, D0, {ASK_A}), World(A1, B0, D1, FIRST), Timely)
  {
    hide Handle, Step, TableOk, World;
    DAnswers();
    assert {ASK_A} + (set m | m in [REPLY_D]) == FIRST;
    StepOfD(A1, B0, D0, D1, {ASK_A}, Deliver(ASK_A), [REPLY_D]);
  }

  lemma ALearnsInRun()
    ensures Step(World(A1, B0, D1, FIRST), World(A2, B0, D1, FIRST), Unchecked)
    ensures Step(World(A1, B0, D1, FIRST), World(A2, B0, D1, FIRST), Timely)
  {
    hide Handle, Step, TableOk, World;
    ALearns();
    assert FIRST + (set m | m in []) == FIRST;
    StepOfA(A1, A2, B0, D1, FIRST, Deliver(REPLY_D), []);
  }

  lemma BAsksInRun()
    ensures Step(World(A2, B0, D1, FIRST), World(A2, B1, D1, FIRST + {ASK_B}), Unchecked)
    ensures Step(World(A2, B0, D1, FIRST), World(A2, B1, D1, FIRST + {ASK_B}), Timely)
  {
    hide Handle, Step, TableOk, World;
    BAsks();
    assert FIRST + (set m | m in [ASK_B]) == FIRST + {ASK_B};
    StepOfB(A2, B0, B1, D1, FIRST, Data(D, B), [ASK_B]);
  }

  lemma AAnswersInRun()
    ensures Step(World(A2, B1, D1, FIRST + {ASK_B}), World(A3, B1, D1, SECOND), Unchecked)
    ensures Step(World(A2, B1, D1, FIRST + {ASK_B}), World(A3, B1, D1, SECOND), Timely)
  {
    hide Handle, Step, TableOk, World;
    AAnswers();
    assert FIRST + {ASK_B} + (set m | m in [REPLY_A]) == SECOND;
    StepOfA(A2, A3, B1, D1, FIRST + {ASK_B}, Deliver(ASK_B), [REPLY_A]);
  }

  lemma BLearnsInRun()
    ensures Step(World(A3, B1, D1, SECOND), World(A3, B2, D1, SECOND), Unchecked)
    ensures Step(World(A3, B1, D1, SECOND), World(A3, B2, D1, SECOND), Timely)
  {
    hide Handle, Step, TableOk, World;
    BLearns();
    assert SECOND + (set m | m in []) == SECOND;
    StepOfB(A3, B1, B2, D1, SECOND, Deliver(REPLY_A), []);
  }

  lemma ARepairsInRun()
    ensures Step(World(A3, B2, D1, SECOND), World(A4, B2, D1, SECOND + {ASK_AGAIN}), Unchecked)
    ensures Step(World(A3, B2, D1, SECOND), World(A4, B2, D1, SECOND + {ASK_AGAIN}), Timely)
  {
    hide Handle, Step, TableOk, World;
    ARepairs();
    assert SECOND + (set m | m in [ASK_AGAIN]) == SECOND + {ASK_AGAIN};
    StepOfA(A3, A4, B2, D1, SECOND, LinkBreaks(D, D, 2), [ASK_AGAIN]);
  }

  lemma BAnswersInRun()
    ensures Step(World(A4, B2, D1, SECOND + {ASK_AGAIN}), World(A4, B3, D1, THIRD), Unchecked)
  {
    hide Handle, Step, TableOk, World;
    BAnswers();
    assert SECOND + {ASK_AGAIN} + (set m | m in [REPLY_B]) == THIRD;
    StepOfB(A4, B2, B3, D1, SECOND + {ASK_AGAIN}, Deliver(ASK_AGAIN), [REPLY_B]);
  }

  lemma ATimesOutInRun()
    ensures Step(World(A4, B3, D1, THIRD), World(A5, B3, D1, THIRD), Unchecked)
  {
    hide Handle, Step, TableOk, World;
    ATimesOut();
    assert THIRD + (set m | m in []) == THIRD;
    StepOfA(A4, A5, B3, D1, THIRD, RepairTimeout(D), []);
  }

  lemma ALearnsWrongInRun()
    ensures Step(World(A5, B3, D1, THIRD), World(A6, B3, D1, THIRD), Unchecked)
  {
    hide Handle, Step, TableOk, World;
    ALearnsWrong();
    assert THIRD + (set m | m in []) == THIRD;
    StepOfA(A5, A6, B3, D1, THIRD, Deliver(REPLY_B), []);
  }

  lemma EndsInLoop()
    ensures Init(World(A0, B0, D0, {}))
    ensures FollowsRoutes(World(A6, B3, D1, THIRD), D, [A, B, A])
  {
  }

  /** Two inputs that fail the assertions on routes being up: the neighbour under repair
      is lost, and its own error arrives. */
  lemma FourMeetsRepair()
    ensures LossMeetsRepair(A4, D) && ErrorMeetsRepair(A4, D, (D, 5))
  {
    assert D in A4.rt && A4.rt[D].flags == InRepair && A4.rt[D].nexthop == D;
  }

  /** A run from the initial network in which no repair timer finds anything, after
      which they do. */
  lemma RepairIsMet() returns (nets: seq<Net>)
    ensures Run(nets, Timely) && A in nets[|nets| - 1].nodes
    ensures LossMeetsRepair(nets[|nets| - 1].nodes[A], D)
    ensures ErrorMeetsRepair(nets[|nets| - 1].nodes[A], D, (D, 5))
  {
    hide Step, Init, FollowsRoutes, LossMeetsRepair, ErrorMeetsRepair;
    EndsInLoop();
    FourMeetsRepair();
    AAsksInRun();
    DAnswersInRun();
    ALearnsInRun();
    BAsksInRun();
    AAnswersInRun();
    BLearnsInRun();
    ARepairsInRun();
    nets := [
      World(A0, B0, D0, {}), World(A1, B0, D0, {ASK_A}), World(A1, B0, D1, FIRST), World(A2, B0, D1, FIRST),
      World(A2, B1, D1, FIRST + {ASK_B}), World(A3, B1, D1, SECOND), World(A3, B2, D1, SECOND),
      World(A4, B2, D1, SECOND + {ASK_AGAIN})];
  }

  /** A run from the initial network in which the repair timer fires before the answer
      to the repair arrives; then A routes to D over B and B over A. */
  lemma LocalRepairLoops() returns (nets: seq<Net>)
    ensures Run(nets, Unchecked)
    ensures FollowsRoutes(nets[|nets| - 1], D, [A, B, A])
  {
    hide Step, Init, FollowsRoutes, World;
    EndsInLoop();
    AAsksInRun();
    DAnswersInRun();
    ALearnsInRun();
    BAsksInRun();
    AAnswersInRun();
    BLearnsInRun();
    ARepairsInRun();
    BAnswersInRun();
    ATimesOutInRun();
    ALearnsWrongInRun();
    nets := [
      World(A0, B0, D0, {}), World(A1, B0, D0, {ASK_A}), World(A1, B0, D1, FIRST), World(A2, B0, D1, FIRST),
      World(A2, B1, D1, FIRST + {ASK_B}), World(A3, B1, D1, SECOND), World(A3, B2, D1, SECOND),
      World(A4, B2, D1, SECOND + {ASK_AGAIN}), World(A4, B3, D1, THIRD), World(A5, B3, D1, THIRD),
      World(A6, B3, D1, THIRD)];
  }
}
