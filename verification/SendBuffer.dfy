/** The buffer for packets that wait for a route, as a sequence, oldest first. */
module SendBuffer {
  import opened Options

  const LIMIT: nat := 64
  const TIMEOUT: real := 30.0

  /** A buffered packet and the time until which it may wait. */
  datatype Entry = Entry(id: nat, dst: int, ts: real)

  datatype Fate = Dequeued | Evicted(full: bool) | TimedOut

  // ----- what the code does

  predicate Old(e: Entry, now: real) {
    e.ts < now
  }

  /** What the scanning purge leaves. */
  function Live(q: seq<Entry>, now: real): (r: seq<Entry>)
    ensures |r| <= |q| && forall i :: 0 <= i < |r| ==> !Old(r[i], now)
  {
    if q == [] then [] else (if Old(q[0], now) then [] else [q[0]]) + Live(q[1..], now)
  }

  /** What the scanning purge removes, in order. */
  function Aged(q: seq<Entry>, now: real): (r: seq<Entry>)
    ensures forall i :: 0 <= i < |r| ==> Old(r[i], now)
  {
    if q == [] then [] else (if Old(q[0], now) then [q[0]] else []) + Aged(q[1..], now)
  }

  /** The purge that was replaced: it looks at the head only. */
  function HeadPurge(q: seq<Entry>, now: real): seq<Entry> {
    if q != [] && Old(q[0], now) then HeadPurge(q[1..], now) else q
  }

  /** The first packet for `dst`; the length if there is none. */
  function IndexOf(q: seq<Entry>, dst: int): (k: nat)
    ensures k <= |q| && (k < |q| ==> q[k].dst == dst)
    ensures forall i :: 0 <= i < k ==> q[i].dst != dst
  {
    if q == [] || q[0].dst == dst then 0 else 1 + IndexOf(q[1..], dst)
  }

  function RemoveAt(q: seq<Entry>, k: nat): seq<Entry>
    requires k < |q|
  {
    q[..k] + q[k + 1..]
  }

  /** The queue after an operation, and the packet it took out or dropped. */
  datatype Taken = Nothing | Took(entry: Entry, fate: Fate)
  datatype Outcome = Outcome(queue: seq<Entry>, taken: Taken)

  function Enque(q: seq<Entry>, e: Entry, now: real): Outcome {
    var q1 := Live(q, now);
    if |q1| == LIMIT then Outcome(q1[1..] + [e], Took(q1[0], Evicted(q1[0].ts > now)))
    else Outcome(q1 + [e], Nothing)
  }

  function Deque(q: seq<Entry>, now: real): Outcome {
    var q1 := Live(q, now);
    if q1 == [] then Outcome([], Nothing) else Outcome(q1[1..], Took(q1[0], Dequeued))
  }

  function DequeDst(q: seq<Entry>, dst: int, now: real): Outcome {
    var q1 := Live(q, now);
    var k := IndexOf(q1, dst);
    if k == |q1| then Outcome(q1, Nothing) else Outcome(RemoveAt(q1, k), Took(q1[k], Dequeued))
  }

  // ----- the two purges

  ghost predicate InOrder(q: seq<Entry>) {
    forall i, j :: 0 <= i < j < |q| ==> q[i].ts <= q[j].ts
  }

  lemma NoneAged(q: seq<Entry>, now: real)
    requires forall i :: 0 <= i < |q| ==> !Old(q[i], now)
    ensures Live(q, now) == q && Aged(q, now) == []
  {
  }

  /** In time order the aged packets are a prefix, and the head-only purge removes them all. */
  lemma {:induction false} AgedArePrefix(q: seq<Entry>, now: real)
    requires InOrder(q)
    ensures q == Aged(q, now) + Live(q, now)
    ensures Live(q, now) == HeadPurge(q, now)
  {
    if q != [] {
      if Old(q[0], now) {
        AgedArePrefix(q[1..], now);
      } else {
        NoneAged(q, now);
      }
    }
  }

  /** The scanning purge and the head-only purge agree at every time exactly when the
      packets are in time order. */
  lemma PurgesAgreeIffInOrder(q: seq<Entry>)
    ensures (forall now: real :: Live(q, now) == HeadPurge(q, now)) <==> InOrder(q)
  {
    if InOrder(q) {
      forall now: real ensures Live(q, now) == HeadPurge(q, now) {
        AgedArePrefix(q, now);
      }
    } else {
      var i, j :| 0 <= i < j < |q| && q[i].ts > q[j].ts;
      HeadStaysInOrder(q, i, j, q[i].ts);
    }
  }

  /** With `q[i]` fresh and a later `q[j]` aged the head-only purge leaves `q[j]`. */
  lemma {:induction false} HeadStaysInOrder(q: seq<Entry>, i: nat, j: nat, now: real)
    requires i < j < |q| && !Old(q[i], now) && Old(q[j], now)
    ensures q[j] in HeadPurge(q, now)
    ensures Live(q, now) != HeadPurge(q, now)
  {
    if i > 0 && Old(q[0], now) {
      HeadStaysInOrder(q[1..], i - 1, j - 1, now);
    }
  }

  // ----- runs

  /** A packet that left, why, and when. */
  datatype Gone = Gone(entry: Entry, fate: Fate, at: real)

  datatype Event =
    | Arrive(id: nat, dst: int, now: real)
    | Take(now: real)
    | TakeFor(dst: int, now: real)

  datatype State = State(queue: seq<Entry>, entered: seq<Entry>, left: seq<Gone>, clock: real)

  function Entries(gs: seq<Gone>): seq<Entry> {
    seq(|gs|, i requires 0 <= i < |gs| => gs[i].entry)
  }

  function TimeOuts(es: seq<Entry>, now: real): seq<Gone> {
    seq(|es|, i requires 0 <= i < |es| => Gone(es[i], TimedOut, now))
  }

  function Leaving(t: Taken, now: real): seq<Gone> {
    match t
    case Nothing => []
    case Took(e, fate) => [Gone(e, fate, now)]
  }

  function Result(s: State, ev: Event): Outcome {
    match ev
    case Arrive(id, dst, now) => Enque(s.queue, Entry(id, dst, now + TIMEOUT), now)
    case Take(now) => Deque(s.queue, now)
    case TakeFor(dst, now) => DequeDst(s.queue, dst, now)
  }

  function Step(s: State, ev: Event): State {
    var o := Result(s, ev);
    State(o.queue,
          if ev.Arrive? then s.entered + [Entry(ev.id, ev.dst, ev.now + TIMEOUT)] else s.entered,
          s.left + TimeOuts(Aged(s.queue, ev.now), ev.now) + Leaving(o.taken, ev.now),
          ev.now)
  }

  function Run(start: real, evs: seq<Event>): State {
    if evs == [] then State([], [], [], start) else Step(Run(start, evs[..|evs| - 1]), evs[|evs| - 1])
  }

  /** The clock does not run backwards. */
  ghost predicate Clocked(start: real, evs: seq<Event>) {
    evs != [] ==>
      Clocked(start, evs[..|evs| - 1]) && Run(start, evs[..|evs| - 1]).clock <= evs[|evs| - 1].now
  }

  /** The packets for `dst`, in order. */
  function For(q: seq<Entry>, dst: int): seq<Entry> {
    if q == [] then [] else For(q[..|q| - 1], dst) + (if q[|q| - 1].dst == dst then [q[|q| - 1]] else [])
  }

  ghost predicate Bounded(s: State) {
    && |s.queue| <= LIMIT
    && InOrder(s.queue)
    && forall i :: 0 <= i < |s.queue| ==> s.queue[i].ts <= s.clock + TIMEOUT
  }

  ghost predicate FatesRight(left: seq<Gone>) {
    forall i :: 0 <= i < |left| ==> (left[i].fate == TimedOut <==> Old(left[i].entry, left[i].at))
  }

  /** Per destination: what came in is what left, in order, and then what is queued. */
  ghost predicate Fifo(s: State) {
    forall d :: For(s.entered, d) == For(Entries(s.left), d) + For(s.queue, d)
  }

  ghost predicate Conserved(s: State) {
    multiset(s.entered) == multiset(s.queue) + multiset(Entries(s.left))
  }

  lemma {:induction false} ForAppend(a: seq<Entry>, b: seq<Entry>, d: int)
    ensures For(a + b, d) == For(a, d) + For(b, d)
  {
    if b == [] {
      assert a + b == a;
    } else {
      ForAppend(a, b[..|b| - 1], d);
      assert (a + b)[..|a + b| - 1] == a + b[..|b| - 1];
    }
  }

  lemma ForOne(e: Entry, d: int)
    ensures For([e], d) == if e.dst == d then [e] else []
  {
    assert [e][..0] == [];
  }

  lemma {:induction false} ForNone(q: seq<Entry>, d: int)
    requires forall i :: 0 <= i < |q| ==> q[i].dst != d
    ensures For(q, d) == []
  {
    if q != [] {
      ForNone(q[..|q| - 1], d);
    }
  }

  lemma EntriesAppend(a: seq<Gone>, b: seq<Gone>)
    ensures Entries(a + b) == Entries(a) + Entries(b)
  {
  }

  lemma EntriesOfTimeOuts(es: seq<Entry>, now: real)
    ensures Entries(TimeOuts(es, now)) == es
  {
  }

  /** Taking out the first packet of a destination is first-in first-out for all. */
  lemma TakingFirst(a: seq<Entry>, x: Entry, b: seq<Entry>, d: int)
    requires forall i :: 0 <= i < |a| ==> a[i].dst != x.dst
    ensures For(a + [x] + b, d) == For([x], d) + For(a + b, d)
  {
    hide For;
    ForOne(x, d);
    if x.dst == d {
      ForNone(a, d);
    }
    ForAppend(a + [x], b, d);
    ForAppend(a, [x], d);
    ForAppend(a, b, d);
  }

  /** The packet an arrival adds. */
  function Appended(ev: Event): seq<Entry> {
    if ev.Arrive? then [Entry(ev.id, ev.dst, ev.now + TIMEOUT)] else []
  }

  /** Where the purged queue loses a packet. */
  function TakenAt(l: seq<Entry>, ev: Event): nat {
    if ev.TakeFor? then IndexOf(l, ev.dst) else 0
  }

  /** Every operation: purge, take out at most one packet, the first for its
      destination, and append at most one. */
  lemma OutcomeShape(s: State, ev: Event)
    ensures var l, o := Live(s.queue, ev.now), Result(s, ev);
      var k := TakenAt(l, ev);
      && (o.taken == Nothing ==> o.queue == l + Appended(ev))
      && (o.taken.Took? ==>
            && k < |l| && l[k] == o.taken.entry && !Old(l[k], ev.now) && !o.taken.fate.TimedOut?
            && (forall i :: 0 <= i < k ==> l[i].dst != l[k].dst)
            && o.queue == RemoveAt(l, k) + Appended(ev))
    ensures |s.queue| <= LIMIT ==> |Result(s, ev).queue| <= LIMIT
  {
    var l, o := Live(s.queue, ev.now), Result(s, ev);
    if o.taken.Took? {
      assert RemoveAt(l, TakenAt(l, ev)) == if ev.TakeFor? then RemoveAt(l, IndexOf(l, ev.dst)) else l[1..];
    }
  }

  /** What an operation does to a purged queue: takes the entry at `k`, then appends. */
  lemma TakenFifo(l: seq<Entry>, k: nat, a: seq<Entry>, d: int)
    requires k < |l| && forall i :: 0 <= i < k ==> l[i].dst != l[k].dst
    ensures For(l + a, d) == For([l[k]], d) + For(RemoveAt(l, k) + a, d)
    ensures multiset(l + a) == multiset([l[k]]) + multiset(RemoveAt(l, k) + a)
  {
    assert l == l[..k] + [l[k]] + l[k + 1..];
    assert l + a == l[..k] + [l[k]] + (l[k + 1..] + a);
    assert RemoveAt(l, k) + a == l[..k] + (l[k + 1..] + a);
    TakingFirst(l[..k], l[k], l[k + 1..] + a, d);
  }

  lemma OneTaken(s: State, ev: Event, d: int)
    ensures var live, o := Live(s.queue, ev.now), Result(s, ev);
      var out := Entries(Leaving(o.taken, ev.now));
      && For(live + Appended(ev), d) == For(out, d) + For(o.queue, d)
      && multiset(live + Appended(ev)) == multiset(out) + multiset(o.queue)
  {
    var l, o := Live(s.queue, ev.now), Result(s, ev);
    OutcomeShape(s, ev);
    if o.taken.Took? {
      LeavingOne(o.taken, ev.now);
      hide Live, Result, TakenAt, For, Leaving, Entries, Appended, RemoveAt;
      TakenFifo(l, TakenAt(l, ev), Appended(ev), d);
    }
  }

  lemma LeavingOne(t: Taken, now: real)
    requires t.Took?
    ensures Entries(Leaving(t, now)) == [t.entry]
  {
  }

  lemma StepParts(s: State, ev: Event)
    ensures var t, o := Step(s, ev), Result(s, ev);
      && t.queue == o.queue
      && t.entered == s.entered + Appended(ev)
      && Entries(t.left) == Entries(s.left) + Aged(s.queue, ev.now) + Entries(Leaving(o.taken, ev.now))
  {
    var gone := TimeOuts(Aged(s.queue, ev.now), ev.now);
    var last := Leaving(Result(s, ev).taken, ev.now);
    hide Aged, Live, Result, Leaving;
    EntriesAppend(s.left + gone, last);
    EntriesAppend(s.left, gone);
    EntriesOfTimeOuts(Aged(s.queue, ev.now), ev.now);
  }

  lemma Regroup<T>(e: seq<T>, a: seq<T>, l: seq<T>, g: seq<T>, v: seq<T>, o: seq<T>, q: seq<T>)
    requires e == l + (g + v) && v + a == o + q
    ensures e + a == l + g + o + q
  {
    calc {
      e + a;
      (l + g) + (v + a);
      (l + g) + (o + q);
      l + g + o + q;
    }
  }

  lemma FifoSum(e: seq<Entry>, a: seq<Entry>, left: seq<Entry>, aged: seq<Entry>, live: seq<Entry>,
                out: seq<Entry>, q: seq<Entry>, d: int)
    requires For(e, d) == For(left, d) + For(aged + live, d)
    requires For(live + a, d) == For(out, d) + For(q, d)
    ensures For(e + a, d) == For(left + aged + out, d) + For(q, d)
  {
    hide For;
    ForAppend(e, a, d);
    ForAppend(aged, live, d);
    ForAppend(live, a, d);
    ForAppend(left + aged, out, d);
    ForAppend(left, aged, d);
    Regroup(For(e, d), For(a, d), For(left, d), For(aged, d), For(live, d), For(out, d), For(q, d));
  }

  lemma StepKeepsFifo(s: State, ev: Event)
    requires InOrder(s.queue) && Fifo(s)
    ensures Fifo(Step(s, ev))
  {
    var t, o := Step(s, ev), Result(s, ev);
    var out := Entries(Leaving(o.taken, ev.now));
    AgedArePrefix(s.queue, ev.now);
    StepParts(s, ev);
    hide Entries, Aged, Live, Leaving, InOrder, Result, Appended, Step;
    forall d ensures For(t.entered, d) == For(Entries(t.left), d) + For(t.queue, d) {
      hide For;
      OneTaken(s, ev, d);
      FifoSum(s.entered, Appended(ev), Entries(s.left), Aged(s.queue, ev.now), Live(s.queue, ev.now),
              out, o.queue, d);
    }
  }

  /** In time order, and nothing may wait beyond `until`. */
  ghost predicate Waiting(q: seq<Entry>, until: real) {
    InOrder(q) && forall i :: 0 <= i < |q| ==> q[i].ts <= until
  }

  lemma SuffixWaits(a: seq<Entry>, l: seq<Entry>, until: real)
    requires Waiting(a + l, until)
    ensures Waiting(l, until)
  {
    assert forall i :: 0 <= i < |l| ==> l[i] == (a + l)[|a| + i];
  }

  lemma RestWaits(q: seq<Entry>, k: nat, until: real)
    requires k < |q| && Waiting(q, until)
    ensures Waiting(RemoveAt(q, k), until)
  {
    var r := RemoveAt(q, k);
    assert forall i :: 0 <= i < |r| ==> r[i] == q[if i < k then i else i + 1];
  }

  lemma ArrivalWaits(q: seq<Entry>, ev: Event)
    requires Waiting(q, ev.now + TIMEOUT)
    ensures Waiting(q + Appended(ev), ev.now + TIMEOUT)
  {
  }

  lemma StepKeepsBounded(s: State, ev: Event)
    requires Bounded(s) && s.clock <= ev.now
    ensures Bounded(Step(s, ev))
  {
    var l, o := Live(s.queue, ev.now), Result(s, ev);
    AgedArePrefix(s.queue, ev.now);
    OutcomeShape(s, ev);
    hide Live, Aged, Result, TakenAt, RemoveAt, Appended;
    assert Waiting(s.queue, ev.now + TIMEOUT);
    assert Step(s, ev).queue == o.queue;
    assert Waiting(o.queue, ev.now + TIMEOUT) by {
      hide Waiting, InOrder;
      SuffixWaits(Aged(s.queue, ev.now), l, ev.now + TIMEOUT);
      if o.taken.Took? {
        RestWaits(l, TakenAt(l, ev), ev.now + TIMEOUT);
        ArrivalWaits(RemoveAt(l, TakenAt(l, ev)), ev);
      } else {
        ArrivalWaits(l, ev);
      }
    }
  }

  lemma StepKeepsFates(s: State, ev: Event)
    requires FatesRight(s.left)
    ensures FatesRight(Step(s, ev).left)
  {
    OutcomeShape(s, ev);
    hide Result, Live, TakenAt, RemoveAt;
  }

  lemma Pushed(x: Entry, q: seq<Entry>)
    ensures multiset([x] + q) == multiset{x} + multiset(q)
  {
  }

  lemma {:induction false} LiveAndAged(q: seq<Entry>, now: real)
    ensures multiset(q) == multiset(Live(q, now)) + multiset(Aged(q, now))
  {
    if q != [] {
      var rest := q[1..];
      assert q == [q[0]] + rest;
      LiveAndAged(rest, now);
      Pushed(q[0], rest);
      if Old(q[0], now) {
        assert Aged(q, now) == [q[0]] + Aged(rest, now) && Live(q, now) == Live(rest, now);
        Pushed(q[0], Aged(rest, now));
      } else {
        assert Live(q, now) == [q[0]] + Live(rest, now) && Aged(q, now) == Aged(rest, now);
        Pushed(q[0], Live(rest, now));
      }
    }
  }

  lemma CountRegroup(e: multiset<Entry>, a: multiset<Entry>, left: multiset<Entry>, aged: multiset<Entry>,
                     live: multiset<Entry>, out: multiset<Entry>, q: multiset<Entry>)
    requires e == live + aged + left && live + a == out + q
    ensures e + a == q + (left + aged + out)
  {
    forall x: Entry ensures (e + a)[x] == (q + (left + aged + out))[x] {
      assert (live + a)[x] == (out + q)[x];
    }
  }

  lemma CountSum(e: seq<Entry>, a: seq<Entry>, left: seq<Entry>, aged: seq<Entry>, live: seq<Entry>,
                 out: seq<Entry>, q: seq<Entry>)
    requires multiset(e) == multiset(live) + multiset(aged) + multiset(left)
    requires multiset(live + a) == multiset(out) + multiset(q)
    ensures multiset(e + a) == multiset(q) + multiset(left + aged + out)
  {
    assert multiset(live + a) == multiset(live) + multiset(a);
    assert multiset(e + a) == multiset(e) + multiset(a);
    assert multiset(left + aged + out) == multiset(left) + multiset(aged) + multiset(out);
    CountRegroup(multiset(e), multiset(a), multiset(left), multiset(aged), multiset(live), multiset(out), multiset(q));
  }

  /** Needs no assumption on the clock. */
  lemma StepConserves(s: State, ev: Event)
    requires Conserved(s)
    ensures Conserved(Step(s, ev))
  {
    var t, o := Step(s, ev), Result(s, ev);
    StepParts(s, ev);
    LiveAndAged(s.queue, ev.now);
    OneTaken(s, ev, 0);
    hide Entries, Aged, Live, Leaving, Result, Appended, Step, For;
    CountSum(s.entered, Appended(ev), Entries(s.left), Aged(s.queue, ev.now), Live(s.queue, ev.now),
             Entries(Leaving(o.taken, ev.now)), o.queue);
  }

  /** Every packet that entered is queued or left exactly once, whatever the clock does. */
  lemma {:induction false} RunConserves(start: real, evs: seq<Event>)
    ensures Conserved(Run(start, evs))
  {
    if evs != [] {
      RunConserves(start, evs[..|evs| - 1]);
      StepConserves(Run(start, evs[..|evs| - 1]), evs[|evs| - 1]);
    }
  }

  /** Under a clock that does not run backwards: the buffer is bounded, in time order
      and first-in first-out per destination; a packet leaves by timing out exactly
      when its time is over. */
  lemma {:induction false} RunKeepsFifo(start: real, evs: seq<Event>)
    requires Clocked(start, evs)
    ensures Bounded(Run(start, evs)) && Fifo(Run(start, evs)) && FatesRight(Run(start, evs).left)
  {
    if evs != [] {
      var s := Run(start, evs[..|evs| - 1]);
      RunKeepsFifo(start, evs[..|evs| - 1]);
      hide *;
      StepKeepsFates(s, evs[|evs| - 1]);
      StepKeepsFifo(s, evs[|evs| - 1]);
      StepKeepsBounded(s, evs[|evs| - 1]);
      RunStep(start, evs);
    }
  }

  lemma RunStep(start: real, evs: seq<Event>)
    requires evs != []
    ensures Run(start, evs) == Step(Run(start, evs[..|evs| - 1]), evs[|evs| - 1])
  {
  }

  // ----- which packet is handed out or dropped

  /** The packet may still wait. */
  predicate Unexpired(e: Entry, now: real) {
    e.ts >= now
  }

  /** `k` is the position of the first packet that may still wait, for `dst` if that is given. */
  ghost predicate FirstServable(q: seq<Entry>, now: real, dst: Option<int>, k: nat) {
    && k < |q| && Unexpired(q[k], now) && (dst.Some? ==> q[k].dst == dst.value)
    && forall i :: 0 <= i < k && Unexpired(q[i], now) ==> dst.Some? && q[i].dst != dst.value
  }

  ghost predicate Servable(q: seq<Entry>, now: real, dst: Option<int>) {
    exists k :: 0 <= k < |q| && Unexpired(q[k], now) && (dst.Some? ==> q[k].dst == dst.value)
  }

  /** The packet at `k` went, and besides it exactly the expired ones. */
  ghost predicate ServedAt(q: seq<Entry>, now: real, k: nat, o: Outcome) {
    k < |q| && o.taken == Took(q[k], Dequeued) && o.queue == Live(q[..k], now) + Live(q[k + 1..], now)
  }

  lemma {:induction false} LiveAppend(a: seq<Entry>, b: seq<Entry>, now: real)
    ensures Live(a + b, now) == Live(a, now) + Live(b, now)
  {
    hide Live;
    if a == [] {
      NothingLives(now);
      assert a + b == b && Live(a, now) + Live(b, now) == Live(b, now);
    } else {
      LiveFirst(a, now);
      LiveFirst(a + b, now);
      assert (a + b)[1..] == a[1..] + b;
      LiveAppend(a[1..], b, now);
      Associate([a[0]], Live(a[1..], now), Live(b, now));
    }
  }

  lemma NothingLives(now: real)
    ensures Live([], now) == []
  {
  }

  lemma Associate<T>(a: seq<T>, b: seq<T>, c: seq<T>)
    ensures a + (b + c) == a + b + c
  {
  }

  lemma LiveFirst(q: seq<Entry>, now: real)
    requires q != []
    ensures Live(q, now) == if Old(q[0], now) then Live(q[1..], now) else [q[0]] + Live(q[1..], now)
  {
  }

  /** The purge leaves exactly the unexpired packets. */
  lemma {:induction false} LiveIs(q: seq<Entry>, now: real)
    ensures forall e :: e in Live(q, now) <==> e in q && Unexpired(e, now)
    ensures (forall i :: 0 <= i < |q| ==> !Unexpired(q[i], now)) ==> Live(q, now) == []
  {
    if q != [] {
      LiveIs(q[1..], now);
      assert q == [q[0]] + q[1..];
    }
  }

  lemma LiveAround(q: seq<Entry>, now: real, k: nat)
    requires k < |q| && Unexpired(q[k], now)
    ensures Live(q, now) == Live(q[..k], now) + [q[k]] + Live(q[k + 1..], now)
  {
    assert q == q[..k] + ([q[k]] + q[k + 1..]);
    LiveAppend(q[..k], [q[k]] + q[k + 1..], now);
    LiveAppend([q[k]], q[k + 1..], now);
    assert [q[k]][1..] == [];
    assert Live([q[k]], now) == [q[k]];
  }

  lemma {:induction false} IndexIs(q: seq<Entry>, dst: int, k: nat)
    requires k <= |q| && (k < |q| ==> q[k].dst == dst) && forall i :: 0 <= i < k ==> q[i].dst != dst
    ensures IndexOf(q, dst) == k
  {
    if k > 0 {
      IndexIs(q[1..], dst, k - 1);
    }
  }

  lemma {:induction false} FirstOfAll(q: seq<Entry>, now: real, dst: Option<int>) returns (k: nat)
    requires Servable(q, now, dst)
    ensures FirstServable(q, now, dst, k)
  {
    if Unexpired(q[0], now) && (dst.Some? ==> q[0].dst == dst.value) {
      k := 0;
    } else {
      var j :| 0 <= j < |q| && Unexpired(q[j], now) && (dst.Some? ==> q[j].dst == dst.value);
      assert q[1..][j - 1] == q[j];
      k := FirstOfAll(q[1..], now, dst);
      k := k + 1;
    }
  }

  /** Taking a packet for a destination hands out the first unexpired one for it, exactly if
      there is one. */
  lemma TakeForIs(q: seq<Entry>, dst: int, now: real)
    ensures var o := DequeDst(q, dst, now);
      && (o.taken == Nothing <==> !Servable(q, now, Some(dst)))
      && (o.taken != Nothing ==> exists k: nat :: FirstServable(q, now, Some(dst), k) && ServedAt(q, now, k, o))
  {
    hide FirstServable, DequeDst;
    if Servable(q, now, Some(dst)) {
      var k := FirstOfAll(q, now, Some(dst));
      FirstIsServed(q, dst, now, k);
    } else {
      NoneIsServed(q, dst, now);
    }
  }

  lemma FirstIsServed(q: seq<Entry>, dst: int, now: real, k: nat)
    requires FirstServable(q, now, Some(dst), k)
    ensures ServedAt(q, now, k, DequeDst(q, dst, now))
  {
    hide Live;
    var a, b := Live(q[..k], now), Live(q[k + 1..], now);
    LiveAround(q, now, k);
    LiveIs(q[..k], now);
    assert forall i :: 0 <= i < |a| ==> a[i] in a;
    var l := a + [q[k]] + b;
    assert l[|a|] == q[k] && forall i :: 0 <= i < |a| ==> l[i] == a[i];
    IndexIs(l, dst, |a|);
    assert RemoveAt(l, |a|) == a + b;
  }

  lemma NoneIsServed(q: seq<Entry>, dst: int, now: real)
    requires !Servable(q, now, Some(dst))
    ensures DequeDst(q, dst, now).taken == Nothing
  {
    hide Live;
    LiveIs(q, now);
    var l := Live(q, now);
    assert forall i :: 0 <= i < |l| ==> l[i] in l;
    IndexIs(l, dst, |l|);
  }

  /** Taking any packet hands out the first unexpired one, exactly if there is one. */
  lemma TakeIs(q: seq<Entry>, now: real)
    ensures var o := Deque(q, now);
      && (o.taken == Nothing <==> !Servable(q, now, None))
      && (o.taken == Nothing ==> o.queue == [])
      && (o.taken != Nothing ==> exists k: nat :: FirstServable(q, now, None, k) && ServedAt(q, now, k, o))
  {
    LiveIs(q, now);
    if Servable(q, now, None) {
      var k := FirstOfAll(q, now, None);
      LiveAround(q, now, k);
      LiveIs(q[..k], now);
      hide Live;
      assert Live(q[..k], now) == [];
      assert ServedAt(q, now, k, Deque(q, now));
    }
  }

  /** How many packets may still wait. */
  function Waiters(q: seq<Entry>, now: real): nat {
    if q == [] then 0 else (if Unexpired(q[0], now) then 1 else 0) + Waiters(q[1..], now)
  }

  lemma {:induction false} WaitersAre(q: seq<Entry>, now: real)
    ensures |Live(q, now)| == Waiters(q, now)
  {
    if q != [] {
      WaitersAre(q[1..], now);
    }
  }

  /** A packet that arrives may wait for 30 seconds. */
  lemma ArrivalWaits30(s: State, id: nat, dst: int, now: real)
    ensures var q := Result(s, Arrive(id, dst, now)).queue;
      q != [] && q[|q| - 1] == Entry(id, dst, now + 30.0)
  {
  }

  /** Entering a packet drops one exactly if 64 others may still wait, and then the first of
      these; it counts as dropped for lack of room exactly if its time was still to come. */
  lemma EnterIs(q: seq<Entry>, e: Entry, now: real)
    ensures var o := Enque(q, e, now);
      if Waiters(q, now) == 64 then
        exists k: nat :: FirstServable(q, now, None, k)
          && o.taken == Took(q[k], Evicted(q[k].ts > now)) && o.queue == Live(q[k + 1..], now) + [e]
      else o.taken == Nothing && o.queue == Live(q, now) + [e]
  {
    WaitersAre(q, now);
    if Waiters(q, now) == 64 {
      LiveIs(q, now);
      assert Live(q, now)[0] in Live(q, now);
      assert Servable(q, now, None) by {
        var k :| 0 <= k < |q| && q[k] == Live(q, now)[0];
      }
      var k := FirstOfAll(q, now, None);
      LiveAround(q, now, k);
      LiveIs(q[..k], now);
      hide Live;
      assert Live(q[..k], now) == [];
      assert FirstServable(q, now, None, k);
    }
  }
}
