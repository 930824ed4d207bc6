/** What the reservation protocol achieves: a set-up on links with free slots ends, and with
    the rate reserved on the whole path exactly if every link had room for it; a stop gives
    the rate back. */
module ReservationProgress {
  import opened Options
  import opened SignallingLink
  import opened Reservation

  // ----- stretches of a run

  /** Some steps lead from one state to the other. */
  ghost predicate Leads(fs: seq<Flow>, s: System, s': System) {
    exists ss :: Stretch(fs, ss, s, s')
  }

  ghost predicate Stretch(fs: seq<Flow>, ss: seq<System>, s: System, s': System) {
    && |ss| > 0 && ss[0] == s && ss[|ss| - 1] == s'
    && forall k :: 0 <= k < |ss| - 1 ==> Step(fs, ss[k], ss[k + 1])
  }

  lemma LeadsItself(fs: seq<Flow>, s: System)
    ensures Leads(fs, s, s)
  {
    assert Stretch(fs, [s], s, s);
  }

  lemma LeadsOnce(fs: seq<Flow>, s: System, s': System)
    requires Step(fs, s, s')
    ensures Leads(fs, s, s')
  {
    assert Stretch(fs, [s, s'], s, s');
  }

  lemma LeadsOn(fs: seq<Flow>, s: System, s1: System, s2: System)
    requires Leads(fs, s, s1) && Leads(fs, s1, s2)
    ensures Leads(fs, s, s2)
  {
    hide Step;
    var a :| Stretch(fs, a, s, s1);
    var b :| Stretch(fs, b, s1, s2);
    var ss := a + b[1..];
    forall k | 0 <= k < |ss| - 1 ensures Step(fs, ss[k], ss[k + 1]) {
      if k < |a| - 1 {
        assert ss[k] == a[k] && ss[k + 1] == a[k + 1];
      } else {
        var l := k - (|a| - 1);
        assert ss[k] == b[l] && ss[k + 1] == b[l + 1];
      }
    }
    assert ss[|ss| - 1] == s2;
    assert Stretch(fs, ss, s, s2);
  }

  /** A run may go on like that. */
  lemma RunGoesOn(fs: seq<Flow>, ss: seq<System>, s': System) returns (more: seq<System>)
    requires Run(fs, ss) && Leads(fs, ss[|ss| - 1], s')
    ensures Run(fs, more) && |ss| <= |more| && more[..|ss|] == ss && more[|more| - 1] == s'
  {
    hide Step, Init;
    var b :| Stretch(fs, b, ss[|ss| - 1], s');
    more := ss + b[1..];
    forall k | 0 <= k < |more| - 1 ensures Step(fs, more[k], more[k + 1]) {
      if k < |ss| - 1 {
        assert more[k] == ss[k] && more[k + 1] == ss[k + 1];
      } else {
        var l := k - (|ss| - 1);
        assert more[k] == b[l] && more[k + 1] == b[l + 1];
      }
    }
  }

  // ----- one link

  /** The link has room for another `rate`. */
  predicate HasRoom(l: Link, rate: real) {
    l.resv + rate <= l.cap
  }

  predicate HasSlot(l: Link) {
    -1 in l.pending
  }

  /** A link that has let the flow in, and one that has been told that it stays. */
  function Reserving(l: Link, f: nat, rate: real): Link {
    if HasRoom(l, rate) then
      l.(resv := l.resv + rate, admitted := l.admitted + 1, pending := Pended(l.pending, f))
    else l
  }

  function Pended(pending: seq<int>, f: nat): seq<int> {
    var j := Lookup(pending, -1);
    if j < |pending| then pending[j := f] else pending
  }

  function Reserved(l: Link, rate: real): Link {
    l.(resv := l.resv + rate, admitted := l.admitted + 1)
  }

  lemma LookupFinds(pending: seq<int>, id: int)
    ensures Lookup(pending, id) < |pending| <==> id in pending
  {
    if id in pending {
      var k :| 0 <= k < |pending| && pending[k] == id;
    }
  }

  lemma RequestAtLink(l: Link, f: nat, rate: real, decision: bool)
    requires HasSlot(l)
    ensures Recv(l, Packet(Request, f, rate, decision))
         == Some((Reserving(l, f, rate), Packet(Request, f, rate, decision && HasRoom(l, rate))))
  {
    LookupFinds(l.pending, -1);
  }

  /** The confirmation of a granted request leaves the rate reserved, that of a refused one
      leaves the link as it was before the request. */
  lemma ConfirmAtLink(l: Link, f: nat, rate: real, decision: bool)
    requires HasSlot(l) && f !in l.pending && (decision ==> HasRoom(l, rate))
    ensures var p := Packet(Confirm, f, rate, decision);
      Recv(Reserving(l, f, rate), p) == Some((if decision then Reserved(l, rate) else l, p))
  {
    LookupFinds(l.pending, -1);
    LookupFinds(l.pending, f);
    if HasRoom(l, rate) {
      var j := Lookup(l.pending, -1);
      var pended := l.pending[j := f];
      LookupIs(pended, f, j);
      assert pended[j := -1] == l.pending;
    }
  }

  // ----- the packet on its way down the path

  /** Flow `f` has got to `phase`, and no other flow has moved. */
  ghost predicate FlowGotTo(a: seq<FlowState>, b: seq<FlowState>, f: nat, phase: Phase) {
    && f < |a| == |b| && b[f].phase == phase
    && forall g :: 0 <= g < |a| && g != f ==> b[g] == a[g]
  }

  /** From `s` to `t` flow `f` has got to `phase`; the first `k` links of its path have become
      what `behind` says, the others on the path what `ahead` says, nothing else changed. */
  ghost predicate Passing(fs: seq<Flow>, s: System, t: System, f: nat, phase: Phase, k: nat,
                          ahead: Link -> Link, behind: Link -> Link) {
    && f < |fs| == |s.flows| && k <= |fs[f].path| && |t.links| == |s.links|
    && FlowGotTo(s.flows, t.flows, f, phase)
    && forall l :: 0 <= l < |s.links| ==> t.links[l] == Become(fs[f].path, k, l, s.links[l], ahead, behind)
  }

  ghost function Become(path: seq<nat>, k: nat, l: nat, link: Link, ahead: Link -> Link, behind: Link -> Link): Link
    requires k <= |path|
  {
    if l in path[..k] then behind(link) else if l in path then ahead(link) else link
  }

  lemma BecomeNext(path: seq<nat>, k: nat, l: nat, link: Link, ahead: Link -> Link, behind: Link -> Link)
    requires k < |path| && forall i, j :: 0 <= i < j < |path| ==> path[i] != path[j]
    ensures Become(path, k + 1, l, link, ahead, behind)
         == if l == path[k] then behind(link) else Become(path, k, l, link, ahead, behind)
    ensures Become(path, k, path[k], link, ahead, behind) == ahead(link)
  {
    assert path[..k + 1] == path[..k] + [path[k]];
    assert path[k] !in path[..k];
  }

  /** The next link on the path handles the packet. */
  lemma OneHop(fs: seq<Flow>, s: System, t: System, f: nat, k: nat, p: Packet, p': Packet,
               ahead: Link -> Link, behind: Link -> Link) returns (t': System)
    requires FlowsOk(fs, |s.links|) && Passing(fs, s, t, f, Going(p, k), k, ahead, behind) && k < |fs[f].path|
    requires var link := s.links[fs[f].path[k]];
      Recv(ahead(link), p) == Some((behind(link), p'))
    ensures Leads(fs, t, t') && Passing(fs, s, t', f, Going(p', k + 1), k + 1, ahead, behind)
  {
    var path := fs[f].path;
    var l := path[k];
    BecomeNext(path, k, l, s.links[l], ahead, behind);
    assert t.links[l] == ahead(s.links[l]);
    var st := t.flows[f];
    hide Recv, Leads, Become;
    t' := System(t.links[l := behind(s.links[l])], t.flows[f := AfterHop(fs[f], f, t.links[l], l, st, false)]);
    assert HopStep(fs, t, t', f, false);
    assert Step(fs, t, t');
    LeadsOnce(fs, t, t');
    forall x | 0 <= x < |s.links| ensures t'.links[x] == Become(path, k + 1, x, s.links[x], ahead, behind) {
      BecomeNext(path, k, x, s.links[x], ahead, behind);
    }
  }

  lemma LocalIsStep(fs: seq<Flow>, t: System, t': System, f: nat)
    requires LocalStep(fs, t, t', f)
    ensures Step(fs, t, t')
  {
    hide LocalStep;
    var tail := HopStep(fs, t, t', f, true);
    assert LocalStep(fs, t, t', f) || HopStep(fs, t, t', f, tail);
  }

  /** A step of the flow that involves no link. */
  lemma LocalMove(fs: seq<Flow>, t: System, f: nat, phase: Phase) returns (t': System)
    requires f < |fs| == |t.flows|
    requires StepLocal(fs, t.flows[f].phase, f, phase)
      || ((t.flows[f].phase.Done? || t.flows[f].phase.Refused?) && phase == Start(fs, f))
    ensures Leads(fs, t, t') && t'.links == t.links
    ensures FlowGotTo(t.flows, t'.flows, f, phase)
  {
    hide StepLocal, Leads;
    var st := if StepLocal(fs, t.flows[f].phase, f, phase) then FlowState(phase, t.flows[f].granted) else FlowState(phase, {});
    t' := System(t.links, t.flows[f := st]);
    assert t'.flows == t.flows[f := st]
      && (Restarts(fs, t.flows[f], f, st) || (st.granted == t.flows[f].granted && StepLocal(fs, t.flows[f].phase, f, st.phase)));
    assert LocalStep(fs, t, t', f);
    LocalIsStep(fs, t, t', f);
    LeadsOnce(fs, t, t');
  }

  // ----- requests

  function Same(): Link -> Link {
    (l: Link) => l
  }

  function LetsIn(f: nat, rate: real): Link -> Link {
    (l: Link) => Reserving(l, f, rate)
  }

  function Settles(rate: real, decision: bool): Link -> Link {
    (l: Link) => if decision then Reserved(l, rate) else l
  }

  /** The first `k` links of the path have room. */
  ghost predicate RoomUpTo(fs: seq<Flow>, s: System, f: nat, k: nat)
    requires FlowsOk(fs, |s.links|) && f < |fs| && k <= |fs[f].path|
  {
    forall j :: 0 <= j < k ==> HasRoom(s.links[fs[f].path[j]], fs[f].rate)
  }

  ghost predicate SlotsOnPath(fs: seq<Flow>, s: System, f: nat)
    requires FlowsOk(fs, |s.links|) && f < |fs|
  {
    forall j :: 0 <= j < |fs[f].path| ==> HasSlot(s.links[fs[f].path[j]]) && f !in s.links[fs[f].path[j]].pending
  }

  lemma {:induction false} RequestGoes(fs: seq<Flow>, s: System, t: System, f: nat, k: nat) returns (t': System)
    requires FlowsOk(fs, |s.links|) && f < |fs| && SlotsOnPath(fs, s, f) && k <= |fs[f].path|
    requires Passing(fs, s, t, f, Start(fs, f), 0, Same(), LetsIn(f, fs[f].rate))
    ensures Leads(fs, t, t')
    ensures Passing(fs, s, t', f, Going(Packet(Request, f, fs[f].rate, RoomUpTo(fs, s, f, k)), k), k,
                    Same(), LetsIn(f, fs[f].rate))
  {
    hide Leads, Passing, HasSlot, HasRoom;
    var rate := fs[f].rate;
    if k == 0 {
      t' := t;
      LeadsItself(fs, t);
    } else {
      var t1 := RequestGoes(fs, s, t, f, k - 1);
      var link := s.links[fs[f].path[k - 1]];
      RequestAtLink(link, f, rate, RoomUpTo(fs, s, f, k - 1));
      assert RoomUpTo(fs, s, f, k) <==> RoomUpTo(fs, s, f, k - 1) && HasRoom(link, rate);
      t' := OneHop(fs, s, t1, f, k - 1, Packet(Request, f, rate, RoomUpTo(fs, s, f, k - 1)),
                   Packet(Request, f, rate, RoomUpTo(fs, s, f, k)), Same(), LetsIn(f, rate));
      LeadsOn(fs, t, t1, t');
    }
  }

  // ----- confirmations

  lemma {:induction false} ConfirmGoes(fs: seq<Flow>, s: System, t: System, f: nat, k: nat, granted: bool) returns (t': System)
    requires FlowsOk(fs, |s.links|) && f < |fs| && SlotsOnPath(fs, s, f) && k <= |fs[f].path|
    requires granted ==> RoomUpTo(fs, s, f, |fs[f].path|)
    requires Passing(fs, s, t, f, Going(Packet(Confirm, f, fs[f].rate, granted), 0), 0,
                     LetsIn(f, fs[f].rate), Settles(fs[f].rate, granted))
    ensures Leads(fs, t, t')
    ensures Passing(fs, s, t', f, Going(Packet(Confirm, f, fs[f].rate, granted), k), k,
                    LetsIn(f, fs[f].rate), Settles(fs[f].rate, granted))
  {
    hide Leads, Passing, HasSlot, HasRoom;
    var rate := fs[f].rate;
    if k == 0 {
      t' := t;
      LeadsItself(fs, t);
    } else {
      var t1 := ConfirmGoes(fs, s, t, f, k - 1, granted);
      var link := s.links[fs[f].path[k - 1]];
      var p := Packet(Confirm, f, rate, granted);
      ConfirmAtLink(link, f, rate, granted);
      t' := OneHop(fs, s, t1, f, k - 1, p, p, LetsIn(f, rate), Settles(rate, granted));
      LeadsOn(fs, t, t1, t');
    }
  }

  // ----- set-up

  /** The flow has been set up, or refused without a trace, from `s` to `t`. */
  ghost predicate Decided(fs: seq<Flow>, s: System, t: System, f: nat, granted: bool) {
    && f < |fs| == |s.flows| && |t.links| == |s.links|
    && FlowGotTo(s.flows, t.flows, f, if granted then Established else Refused)
    && forall l :: 0 <= l < |s.links| ==>
         t.links[l] == if granted && l in fs[f].path then Reserved(s.links[l], fs[f].rate) else s.links[l]
  }

  predicate MayStart(ph: Phase) {
    ph.Idle? || ph.Done? || ph.Refused?
  }

  lemma StartsPassing(fs: seq<Flow>, s: System, t: System, f: nat, phase: Phase, behind: Link -> Link)
    requires f < |fs| == |s.flows| && t.links == s.links && FlowGotTo(s.flows, t.flows, f, phase)
    ensures Passing(fs, s, t, f, phase, 0, Same(), behind)
  {
  }

  /** The whole path has let the flow in and the confirmation starts out. */
  lemma TurnsAround(fs: seq<Flow>, s: System, t: System, t': System, f: nat, ph: Phase, ph': Phase,
                    between: Link -> Link, behind: Link -> Link)
    requires f < |fs| && Passing(fs, s, t, f, ph, |fs[f].path|, Same(), between)
    requires t'.links == t.links && FlowGotTo(t.flows, t'.flows, f, ph')
    ensures Passing(fs, s, t', f, ph', 0, between, behind)
  {
    var path := fs[f].path;
    assert path[..|path|] == path && path[..0] == [];
  }

  lemma EndsDecided(fs: seq<Flow>, s: System, t: System, t': System, f: nat, ph: Phase, granted: bool)
    requires f < |fs| && Passing(fs, s, t, f, ph, |fs[f].path|, LetsIn(f, fs[f].rate), Settles(fs[f].rate, granted))
    requires t'.links == t.links
    requires FlowGotTo(t.flows, t'.flows, f, if granted then Established else Refused)
    ensures Decided(fs, s, t', f, granted)
  {
    var path := fs[f].path;
    assert path[..|path|] == path;
  }

  /** Set-up: on links with a free slot a flow that starts gets to a decision; it is
      established, with its rate reserved on every link of the path, exactly if all of them
      had room, and otherwise refused, with every link as it was. */
  lemma SetupIsDecided(fs: seq<Flow>, s: System, f: nat) returns (t: System)
    requires Inv(fs, s) && f < |fs| && MayStart(s.flows[f].phase)
    requires forall j :: 0 <= j < |fs[f].path| ==> HasSlot(s.links[fs[f].path[j]])
    ensures Leads(fs, s, t) && Decided(fs, s, t, f, RoomUpTo(fs, s, f, |fs[f].path|))
  {
    StartsWithoutSlots(fs, s, f);
    assert |s.flows| == |fs| && FlowsOk(fs, |s.links|);
    hide Inv, Leads, Passing, Decided, HasSlot, HasRoom;
    var k, rate, granted := |fs[f].path|, fs[f].rate, RoomUpTo(fs, s, f, |fs[f].path|);
    var req, conf := Packet(Request, f, rate, granted), Packet(Confirm, f, rate, granted);
    var t0 := LocalMove(fs, s, f, Start(fs, f));
    StartsPassing(fs, s, t0, f, Start(fs, f), LetsIn(f, rate));
    var t1 := RequestGoes(fs, s, t0, f, k);
    LeadsOn(fs, s, t0, t1);
    PassingPhase(fs, s, t1, f, Going(req, k), k, Same(), LetsIn(f, rate));
    var t2 := LocalMove(fs, t1, f, Returning(Echo(req)));
    LeadsOn(fs, s, t1, t2);
    var t3 := LocalMove(fs, t2, f, Going(conf, 0));
    LeadsOn(fs, s, t2, t3);
    TurnsAround(fs, s, t1, t3, f, Going(req, k), Going(conf, 0), LetsIn(f, rate), Settles(rate, granted));
    var t4 := ConfirmGoes(fs, s, t3, f, k, granted);
    LeadsOn(fs, s, t3, t4);
    PassingPhase(fs, s, t4, f, Going(conf, k), k, LetsIn(f, rate), Settles(rate, granted));
    t := LocalMove(fs, t4, f, if granted then Established else Refused);
    LeadsOn(fs, s, t4, t);
    EndsDecided(fs, s, t4, t, f, Going(conf, k), granted);
  }

  lemma PassingPhase(fs: seq<Flow>, s: System, t: System, f: nat, ph: Phase, k: nat, ahead: Link -> Link, behind: Link -> Link)
    requires Passing(fs, s, t, f, ph, k, ahead, behind)
    ensures f < |fs| == |t.flows| && t.flows[f].phase == ph
  {
  }

  lemma StartsWithoutSlots(fs: seq<Flow>, s: System, f: nat)
    requires Inv(fs, s) && f < |fs| && MayStart(s.flows[f].phase)
    requires forall j :: 0 <= j < |fs[f].path| ==> HasSlot(s.links[fs[f].path[j]])
    ensures FlowsOk(fs, |s.links|) && SlotsOnPath(fs, s, f)
  {
    forall j | 0 <= j < |fs[f].path| ensures f !in s.links[fs[f].path[j]].pending {
      var l := fs[f].path[j];
      assert LinkOk(fs, s.flows, s.links[l], l);
      assert FlowOk(fs[f], f, s.flows[f]);
      assert !Pends(fs[f], f, s.flows[f], l);
    }
  }

  // ----- stopping

  function Released(rate: real): Link -> Link {
    (l: Link) => l.(resv := l.resv - rate, admitted := l.admitted - 1)
  }

  lemma {:induction false} TeardownGoes(fs: seq<Flow>, s: System, t: System, f: nat, k: nat) returns (t': System)
    requires FlowsOk(fs, |s.links|) && f < |fs| && k <= |fs[f].path|
    requires Passing(fs, s, t, f, Stop(fs, f), 0, Same(), Released(fs[f].rate))
    ensures Leads(fs, t, t') && Passing(fs, s, t', f, Going(Reservation.Teardown(fs, f), k), k, Same(), Released(fs[f].rate))
  {
    hide Leads, Passing;
    if k == 0 {
      t' := t;
      LeadsItself(fs, t);
    } else {
      var t1 := TeardownGoes(fs, s, t, f, k - 1);
      t' := OneHop(fs, s, t1, f, k - 1, Reservation.Teardown(fs, f), Reservation.Teardown(fs, f), Same(), Released(fs[f].rate));
      LeadsOn(fs, t, t1, t');
    }
  }

  /** Stopping an established flow takes its rate off every link of its path, and no other. */
  lemma StopGivesBack(fs: seq<Flow>, s: System, f: nat) returns (t: System)
    requires Inv(fs, s) && f < |fs| && s.flows[f].phase == Established
    ensures Leads(fs, s, t)
    ensures FlowGotTo(s.flows, t.flows, f, Done) && |t.links| == |s.links|
    ensures forall l :: 0 <= l < |s.links| ==>
      t.links[l] == if l in fs[f].path then Released(fs[f].rate)(s.links[l]) else s.links[l]
  {
    assert |s.flows| == |fs| && FlowsOk(fs, |s.links|);
    hide Inv, Leads;
    var k := |fs[f].path|;
    assert fs[f].path[..k] == fs[f].path;
    var t0 := LocalMove(fs, s, f, Stop(fs, f));
    StartsPassing(fs, s, t0, f, Stop(fs, f), Released(fs[f].rate));
    var t1 := TeardownGoes(fs, s, t0, f, k);
    LeadsOn(fs, s, t0, t1);
    t := LocalMove(fs, t1, f, Done);
    LeadsOn(fs, s, t1, t);
  }
}
