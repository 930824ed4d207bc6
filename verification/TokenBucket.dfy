/** The token bucket filter: a packet goes out when the tokens cover it, else it
    waits in a bounded queue until a timer fires.  Time and tokens are reals. */
module TokenBucket {

  datatype Timer = Idle | Pending(at: real)

  /** Token rate in bits per second, bucket depth in bits, queue limit in packets. */
  datatype Config = Config(rate: real, depth: int, limit: int)

  /** The fields of the filter; `queue` holds packet sizes in bytes. */
  datatype Filter = Filter(tokens: real, last: real, unused: bool, queue: seq<nat>, timer: Timer)

  /** A packet that left the filter: when, and how many bits. */
  datatype Sent = Sent(at: real, bits: nat)

  function Bits(size: nat): nat {
    8 * size
  }

  function Initial(): Filter {
    Filter(0.0, 0.0, true, [], Idle)
  }

  // ----- what the methods do

  /** The tokens generated in a time span. */
  function Earned(c: Config, span: real): real {
    span * c.rate
  }

  function Refill(c: Config, f: Filter, now: real): Filter {
    var t := f.tokens + Earned(c, now - f.last);
    f.(tokens := if t > c.depth as real then c.depth as real else t, last := now)
  }

  function FirstUse(c: Config, f: Filter, now: real): Filter {
    if f.unused then f.(tokens := c.depth as real, last := now, unused := false) else f
  }

  /** When the timer is set for a head packet of this size. */
  function Due(c: Config, f: Filter, size: nat, now: real): real
    requires c.rate > 0.0
  {
    now + (Bits(size) as real - f.tokens) / c.rate
  }

  datatype Fate = Forwarded | Queued | Dropped

  function Recv(c: Config, f: Filter, now: real, size: nat): (Filter, Fate)
    requires c.rate > 0.0
  {
    var f0 := FirstUse(c, f, now);
    if f0.queue != [] then
      if |f0.queue| < c.limit then (f0.(queue := f0.queue + [size]), Queued) else (f0, Dropped)
    else
      var f1 := Refill(c, f0, now);
      if f1.tokens >= Bits(size) as real then
        (f1.(tokens := f1.tokens - Bits(size) as real), Forwarded)
      else if c.limit != 0 then
        (f1.(queue := [size], timer := Pending(Due(c, f1, size, now))), Queued)
      else (f1, Dropped)
  }

  /** The timer fires: the head is sent without looking at the tokens. */
  function Timeout(c: Config, f: Filter, now: real): Filter
    requires c.rate > 0.0 && f.queue != []
  {
    var f1 := Refill(c, f.(queue := f.queue[1..], timer := Idle), now);
    var f2 := f1.(tokens := f1.tokens - Bits(f.queue[0]) as real);
    if f2.queue != [] then f2.(timer := Pending(Due(c, f2, f2.queue[0], now))) else f2
  }

  // ----- runs

  datatype Event = Arrival(at: real, size: nat) | Fire(at: real)

  /** What a run has produced: the filter, the packets sent, and the sizes of the
      packets that were not dropped, in order of arrival. */
  datatype Trace = Trace(f: Filter, log: seq<Sent>, accepted: seq<nat>)

  function Step(c: Config, t: Trace, ev: Event): Trace
    requires c.rate > 0.0
  {
    match ev
    case Arrival(at, size) =>
      var (f, fate) := Recv(c, t.f, at, size);
      Trace(f,
            if fate == Forwarded then t.log + [Sent(at, Bits(size))] else t.log,
            if fate == Dropped then t.accepted else t.accepted + [size])
    case Fire(at) =>
      if t.f.queue == [] then t
      else Trace(Timeout(c, t.f, at), t.log + [Sent(at, Bits(t.f.queue[0]))], t.accepted)
  }

  function Exec(c: Config, evs: seq<Event>): Trace
    requires c.rate > 0.0
  {
    if evs == [] then Trace(Initial(), [], [])
    else Step(c, Exec(c, evs[..|evs| - 1]), evs[|evs| - 1])
  }

  /** The scheduler: time does not run backwards, no event passes a pending timer,
      and a pending timer fires exactly when it is due. */
  ghost predicate MayHappen(f: Filter, ev: Event, before: real) {
    && before <= ev.at
    && (ev.Arrival? ==> f.timer.Idle? || ev.at <= f.timer.at)
    && (ev.Fire? ==> f.timer == Pending(ev.at))
  }

  ghost predicate Schedule(c: Config, evs: seq<Event>)
    requires c.rate > 0.0
  {
    evs != [] ==>
      var n := |evs| - 1;
      Schedule(c, evs[..n]) && MayHappen(Exec(c, evs[..n]).f, evs[n], if n > 0 then evs[n - 1].at else evs[n].at)
  }

  // ----- invariants of every run

  /** The queue is nonempty exactly when the timer is pending, and then the timer is
      set for when the tokens would cover the head. */
  ghost predicate TimerSet(c: Config, f: Filter)
    requires c.rate > 0.0
  {
    && (f.timer.Idle? <==> f.queue == [])
    && (f.unused ==> f.queue == [])
    && (f.timer.Pending? ==> f.timer.at == Due(c, f, f.queue[0], f.last))
  }

  /** Besides, that time is still to come. */
  ghost predicate TimerOk(c: Config, f: Filter)
    requires c.rate > 0.0
  {
    TimerSet(c, f) && (f.timer.Pending? ==> f.last <= f.timer.at)
  }

  lemma StepKeepsTimerSet(c: Config, t: Trace, ev: Event)
    requires c.rate > 0.0 && TimerSet(c, t.f)
    ensures TimerSet(c, Step(c, t, ev).f)
  {
    hide Earned, Bits;
  }

  function Sizes(log: seq<Sent>): seq<nat> {
    seq(|log|, k requires 0 <= k < |log| => log[k].bits / 8)
  }

  /** First in, first out, within the limit: the accepted packets are those sent
      followed by those queued, in order. */
  ghost predicate QueueOk(c: Config, t: Trace) {
    && t.accepted == Sizes(t.log) + t.f.queue
    && (forall k :: 0 <= k < |t.log| ==> t.log[k].bits % 8 == 0)
    && |t.f.queue| <= if c.limit < 0 then 1 else c.limit
  }

  lemma StepKeepsQueue(c: Config, t: Trace, ev: Event)
    requires c.rate > 0.0 && QueueOk(c, t)
    ensures QueueOk(c, Step(c, t, ev))
  {
    var t' := Step(c, t, ev);
    if |t'.log| > |t.log| {
      var x := t'.log[|t.log|];
      assert Sizes(t'.log) == Sizes(t.log) + [x.bits / 8];
    }
  }

  /** Tokens that are still missing arrive when the timer is due. */
  lemma DueCovers(c: Config, f: Filter, size: nat, now: real)
    requires c.rate > 0.0
    ensures var at := Due(c, f, size, now);
      && f.tokens + Earned(c, at - now) == Bits(size) as real
      && (f.tokens <= Bits(size) as real ==> now <= at)
  {
    var d := (Bits(size) as real - f.tokens) / c.rate;
    assert d * c.rate == Bits(size) as real - f.tokens;
    EarnedSign(c, d);
  }

  lemma EarnedSign(c: Config, span: real)
    requires c.rate > 0.0
    ensures Earned(c, span) >= 0.0 <==> span >= 0.0
  {
    if span >= 0.0 {
      assert span * c.rate >= 0.0;
    } else {
      assert span * c.rate < 0.0;
    }
  }

  lemma EarnedSum(c: Config, x: real, y: real, z: real)
    requires z == x + y
    ensures Earned(c, z) == Earned(c, x) + Earned(c, y)
  {
  }

  /** No packet sent so far was larger than the bucket. */
  ghost predicate Fits(c: Config, log: seq<Sent>) {
    forall k :: 0 <= k < |log| ==> log[k].bits <= c.depth
  }

  ghost predicate TokensOk(c: Config, f: Filter) {
    0.0 <= f.tokens && (f.unused || f.tokens <= c.depth as real)
  }

  /** When the timer fires, the refilled tokens are exactly the bits of the head
      packet, unless it is larger than the bucket. */
  lemma TimerCoversHead(c: Config, f: Filter)
    requires c.rate > 0.0 && TimerSet(c, f) && f.timer.Pending?
    ensures Bits(f.queue[0]) <= c.depth ==> Refill(c, f, f.timer.at).tokens == Bits(f.queue[0]) as real
    ensures Bits(f.queue[0]) > c.depth ==> Refill(c, f, f.timer.at).tokens < Bits(f.queue[0]) as real
  {
    DueCovers(c, f, f.queue[0], f.last);
    hide Earned, Due, Bits;
  }

  lemma RefillBounds(c: Config, f: Filter, now: real)
    requires c.rate > 0.0 && 0.0 <= f.tokens <= c.depth as real && f.last <= now
    ensures var r := Refill(c, f, now);
      0.0 <= r.tokens <= c.depth as real && r.tokens <= f.tokens + Earned(c, now - f.last)
  {
    EarnedSign(c, now - f.last);
  }

  /** Events do not happen before the last token update. */
  ghost predicate UpToDate(f: Filter, now: real) {
    f.unused || f.last <= now
  }

  lemma RecvKeepsTimer(c: Config, f: Filter, now: real, size: nat)
    requires c.rate > 0.0 && c.depth >= 0 && TimerOk(c, f) && TokensOk(c, f) && UpToDate(f, now)
    ensures var f' := Recv(c, f, now, size).0;
      TimerOk(c, f') && TokensOk(c, f') && UpToDate(f', now) && !f'.unused
  {
    var f0 := FirstUse(c, f, now);
    RefillBounds(c, f0, now);
    var f1 := Refill(c, f0, now);
    DueCovers(c, f1, size, now);
    hide Earned, Due, Bits;
  }

  lemma TimeoutKeepsTimer(c: Config, f: Filter)
    requires c.rate > 0.0 && c.depth >= 0 && TimerOk(c, f) && TokensOk(c, f) && f.timer.Pending?
    requires Bits(f.queue[0]) <= c.depth
    ensures var f' := Timeout(c, f, f.timer.at);
      TimerOk(c, f') && TokensOk(c, f') && UpToDate(f', f.timer.at) && !f'.unused && f'.tokens == 0.0
  {
    TimerCoversHead(c, f);
    var now := f.timer.at;
    var f' := Timeout(c, f, now);
    if f'.queue != [] {
      DueCovers(c, f', f'.queue[0], now);
    }
  }

  /** The bits sent at or after time `a`. */
  function BitsSince(log: seq<Sent>, a: real): nat {
    if log == [] then 0
    else
      var n := |log| - 1;
      BitsSince(log[..n], a) + if a <= log[n].at then log[n].bits else 0
  }

  /** The bits sent in the interval from `a` to `b`, both included. */
  function BitsBetween(log: seq<Sent>, a: real, b: real): nat {
    if log == [] then 0
    else
      var n := |log| - 1;
      BitsBetween(log[..n], a, b) + if a <= log[n].at <= b then log[n].bits else 0
  }

  ghost predicate SentBy(log: seq<Sent>, now: real) {
    forall k :: 0 <= k < |log| ==> log[k].at <= now
  }

  lemma {:induction false} NothingSince(log: seq<Sent>, a: real, now: real)
    requires SentBy(log, now) && now < a
    ensures BitsSince(log, a) == 0
  {
    if log != [] {
      NothingSince(log[..|log| - 1], a, now);
    }
  }

  lemma {:induction false} BetweenIsSince(log: seq<Sent>, a: real, b: real)
    requires SentBy(log, b)
    ensures BitsBetween(log, a, b) == BitsSince(log, a)
  {
    if log != [] {
      BetweenIsSince(log[..|log| - 1], a, b);
    }
  }

  /** The account of a run: what was sent since any moment, plus the tokens left,
      is at most a full bucket and the tokens generated since. */
  ghost predicate Budget(c: Config, t: Trace) {
    && SentBy(t.log, t.f.last)
    && forall a :: a <= t.f.last ==>
         BitsSince(t.log, a) as real + t.f.tokens <= c.depth as real + Earned(c, t.f.last - a)
  }

  /** Refilling and then spending `bits` of the tokens keeps the account. */
  lemma SpendKeepsBudget(c: Config, t: Trace, now: real, bits: nat)
    requires c.rate > 0.0 && Budget(c, t) && !t.f.unused && TokensOk(c, t.f) && t.f.last <= now
    ensures var f1 := Refill(c, t.f, now);
      && Budget(c, t.(f := f1))
      && Budget(c, Trace(f1.(tokens := f1.tokens - bits as real), t.log + [Sent(now, bits)], t.accepted))
  {
    hide Earned;
    RefillBounds(c, t.f, now);
    var f1 := Refill(c, t.f, now);
    var f2 := f1.(tokens := f1.tokens - bits as real);
    var log := t.log + [Sent(now, bits)];
    assert log[..|log| - 1] == t.log;
    forall a | a <= now
      ensures BitsSince(t.log, a) as real + f1.tokens <= c.depth as real + Earned(c, now - a)
      ensures BitsSince(log, a) == BitsSince(t.log, a) + bits
    {
      if a <= t.f.last {
        assert BitsSince(t.log, a) as real + t.f.tokens <= c.depth as real + Earned(c, t.f.last - a);
        EarnedSum(c, t.f.last - a, now - t.f.last, now - a);
      } else {
        NothingSince(t.log, a, t.f.last);
        EarnedSign(c, now - a);
      }
    }
  }

  /** A change of queue and timer alone does not touch the account. */
  lemma SameTokensSameBudget(c: Config, t: Trace, t': Trace)
    requires Budget(c, t) && t'.log == t.log && t'.f.tokens == t.f.tokens && t'.f.last == t.f.last
    ensures Budget(c, t')
  {
  }

  /** Everything that holds after a run in which no sent packet exceeds the bucket. */
  ghost predicate Good(c: Config, t: Trace, now: real)
    requires c.rate > 0.0
  {
    && TimerOk(c, t.f) && TokensOk(c, t.f) && UpToDate(t.f, now)
    && (if t.f.unused then t.log == [] && t.f.queue == [] else Budget(c, t))
  }

  lemma ArrivalKeepsGood(c: Config, t: Trace, now: real, size: nat)
    requires c.rate > 0.0 && c.depth >= 0 && Good(c, t, now)
    ensures Good(c, Step(c, t, Arrival(now, size)), now)
  {
    hide Budget, Earned, Due, Bits;
    RecvKeepsTimer(c, t.f, now, size);
    FirstUseKeepsBudget(c, t, now);
    ArrivalKeepsBudget(c, t, now, size);
  }

  lemma FirstUseKeepsBudget(c: Config, t: Trace, now: real)
    requires c.rate > 0.0 && c.depth >= 0 && Good(c, t, now)
    ensures Budget(c, t.(f := FirstUse(c, t.f, now)))
  {
    var t0 := t.(f := FirstUse(c, t.f, now));
    if t.f.unused {
      forall a | a <= now ensures BitsSince(t0.log, a) as real + t0.f.tokens <= c.depth as real + Earned(c, now - a) {
        EarnedSign(c, now - a);
      }
    }
  }

  lemma ArrivalKeepsBudget(c: Config, t: Trace, now: real, size: nat)
    requires c.rate > 0.0 && c.depth >= 0 && Good(c, t, now) && Budget(c, t.(f := FirstUse(c, t.f, now)))
    ensures Budget(c, Step(c, t, Arrival(now, size)))
  {
    hide Budget, Earned, Due, Bits;
    var t0 := t.(f := FirstUse(c, t.f, now));
    SpendKeepsBudget(c, t0, now, Bits(size));
    var t' := Step(c, t, Arrival(now, size));
    if t'.log == t.log {
      if t0.f.queue != [] {
        SameTokensSameBudget(c, t0, t');
      } else {
        SameTokensSameBudget(c, t0.(f := Refill(c, t0.f, now)), t');
      }
    } else {
      SameTokensSameBudget(c, Trace(t'.f, t'.log, t.accepted), t');
    }
  }

  lemma FireKeepsGood(c: Config, t: Trace)
    requires c.rate > 0.0 && c.depth >= 0 && TimerOk(c, t.f) && t.f.timer.Pending? && Good(c, t, t.f.timer.at)
    requires Bits(t.f.queue[0]) <= c.depth
    ensures Good(c, Step(c, t, Fire(t.f.timer.at)), t.f.timer.at)
  {
    var now := t.f.timer.at;
    TimeoutKeepsTimer(c, t.f);
    SpendKeepsBudget(c, t, now, Bits(t.f.queue[0]));
    var f1 := Refill(c, t.f, now);
    var spent := Trace(f1.(tokens := f1.tokens - Bits(t.f.queue[0]) as real), t.log + [Sent(now, Bits(t.f.queue[0]))], t.accepted);
    SameTokensSameBudget(c, spent, Step(c, t, Fire(now)));
  }

  lemma {:induction false} RunIsGood(c: Config, evs: seq<Event>)
    requires c.rate > 0.0 && c.depth >= 0 && Schedule(c, evs) && Fits(c, Exec(c, evs).log)
    ensures evs != [] ==> Good(c, Exec(c, evs), evs[|evs| - 1].at)
    ensures evs == [] ==> forall now :: Good(c, Exec(c, evs), now)
  {
    if evs != [] {
      var n := |evs| - 1;
      var t, ev := Exec(c, evs[..n]), evs[n];
      var t' := Exec(c, evs);
      assert t' == Step(c, t, ev);
      assert t.log <= t'.log;
      assert Fits(c, t.log) by {
        forall k | 0 <= k < |t.log| ensures t.log[k].bits <= c.depth {
          assert t.log[k] == t'.log[k];
        }
      }
      RunIsGood(c, evs[..n]);
      assert Good(c, t, ev.at);
      match ev {
        case Arrival(at, size) => ArrivalKeepsGood(c, t, at, size);
        case Fire(at) =>
          assert t'.log[|t.log|] == Sent(at, Bits(t.f.queue[0]));
          FireKeepsGood(c, t);
      }
    }
  }

  // ----- main results

  /** FIFO, within the limit, nothing lost that was not dropped on arrival. */
  lemma {:induction false} RunKeepsOrder(c: Config, evs: seq<Event>)
    requires c.rate > 0.0
    ensures QueueOk(c, Exec(c, evs))
  {
    if evs != [] {
      RunKeepsOrder(c, evs[..|evs| - 1]);
      StepKeepsQueue(c, Exec(c, evs[..|evs| - 1]), evs[|evs| - 1]);
    }
  }

  lemma {:induction false} RunKeepsTimerSet(c: Config, evs: seq<Event>)
    requires c.rate > 0.0
    ensures TimerSet(c, Exec(c, evs).f)
  {
    if evs != [] {
      RunKeepsTimerSet(c, evs[..|evs| - 1]);
      StepKeepsTimerSet(c, Exec(c, evs[..|evs| - 1]), evs[|evs| - 1]);
    }
  }

  /** After any events at all the queue is nonempty exactly when the timer is pending,
      and when a pending timer is due the refilled tokens cover the head exactly if
      the head fits the bucket. */
  lemma TimerPendingIffQueued(c: Config, evs: seq<Event>)
    requires c.rate > 0.0
    ensures var f := Exec(c, evs).f;
      && (f.queue != [] <==> f.timer.Pending?)
      && (f.queue != [] ==>
            (Refill(c, f, f.timer.at).tokens >= Bits(f.queue[0]) as real <==> Bits(f.queue[0]) <= c.depth))
  {
    RunKeepsTimerSet(c, evs);
    var f := Exec(c, evs).f;
    if f.timer.Pending? {
      TimerCoversHead(c, f);
    }
  }

  /** The bits sent in any interval of a run are at most a bucket and the tokens of its length. */
  lemma WindowBound(c: Config, evs: seq<Event>, a: real, b: real)
    requires c.rate > 0.0 && c.depth >= 0 && Schedule(c, evs) && Fits(c, Exec(c, evs).log) && a <= b
    ensures BitsBetween(Exec(c, evs).log, a, b) as real <= c.depth as real + c.rate * (b - a)
  {
    hide Earned, BitsBetween, Exec, Schedule, Fits;
    WindowEarned(c, evs, a, b);
    EarnedIs(c, b - a);
  }

  lemma EarnedIs(c: Config, span: real)
    ensures Earned(c, span) == c.rate * span
  {
  }

  lemma {:induction false} WindowEarned(c: Config, evs: seq<Event>, a: real, b: real)
    requires c.rate > 0.0 && c.depth >= 0 && Schedule(c, evs) && Fits(c, Exec(c, evs).log) && a <= b
    ensures BitsBetween(Exec(c, evs).log, a, b) as real <= c.depth as real + Earned(c, b - a)
  {
    var t' := Exec(c, evs);
    EarnedSign(c, b - a);
    if evs != [] {
      var n := |evs| - 1;
      var t, ev := Exec(c, evs[..n]), evs[n];
      assert t' == Step(c, t, ev);
      assert t'.log == t.log || (|t'.log| == |t.log| + 1 && t'.log[..|t.log|] == t.log && t'.log[|t.log|].at == ev.at);
      RunIsGood(c, evs);
      if t'.log == t.log || b < ev.at {
        assert Fits(c, t.log) by {
          forall k | 0 <= k < |t.log| ensures t.log[k].bits <= c.depth {
            assert t.log[k] == t'.log[k];
          }
        }
        WindowEarned(c, evs[..n], a, b);
      } else {
        WindowFromBudget(c, t', a, b);
      }
    }
  }

  lemma WindowFromBudget(c: Config, t: Trace, a: real, b: real)
    requires c.rate > 0.0 && c.depth >= 0 && Budget(c, t) && 0.0 <= t.f.tokens && a <= b && t.f.last <= b
    ensures BitsBetween(t.log, a, b) as real <= c.depth as real + Earned(c, b - a)
  {
    BetweenIsSince(t.log, a, b);
    EarnedSign(c, b - a);
    if a <= t.f.last {
      EarnedSign(c, b - t.f.last);
      EarnedSum(c, t.f.last - a, b - t.f.last, b - a);
    } else {
      NothingSince(t.log, a, t.f.last);
    }
  }

  lemma {:induction false} AtLeastOne(log: seq<Sent>, k: nat)
    requires k < |log|
    ensures log[k].bits <= BitsBetween(log, log[k].at, log[k].at)
  {
    if k < |log| - 1 {
      AtLeastOne(log[..|log| - 1], k);
    }
  }

  lemma EarnedNothing(c: Config)
    ensures Earned(c, 0.0) == 0.0
  {
  }

  /** In every interval of the run at most a bucket and the tokens of its length. */
  ghost predicate Conforms(c: Config, log: seq<Sent>) {
    forall a, b :: a <= b ==> BitsBetween(log, a, b) as real <= c.depth as real + c.rate * (b - a)
  }

  /** Conformance, exactly: a run sends at most bucket + rate * length bits in every
      interval if and only if no packet it sends is larger than the bucket. */
  lemma ConformsExactly(c: Config, evs: seq<Event>)
    requires c.rate > 0.0 && c.depth >= 0 && Schedule(c, evs)
    ensures Conforms(c, Exec(c, evs).log) <==> Fits(c, Exec(c, evs).log)
  {
    hide Earned, BitsBetween, Exec, Schedule;
    var log := Exec(c, evs).log;
    if Fits(c, log) {
      forall a, b | a <= b ensures BitsBetween(log, a, b) as real <= c.depth as real + c.rate * (b - a) {
        WindowBound(c, evs, a, b);
      }
    }
    if Conforms(c, log) {
      forall k | 0 <= k < |log| ensures log[k].bits <= c.depth {
        AtLeastOne(log, k);
        var a := log[k].at;
        assert BitsBetween(log, a, a) as real <= c.depth as real + c.rate * (a - a);
      }
    }
  }

  /** Packets that all fit the bucket on arrival are only ever sent conforming. */
  lemma {:induction false} FittingArrivalsConform(c: Config, evs: seq<Event>)
    requires c.rate > 0.0 && c.depth >= 0 && Schedule(c, evs)
    requires forall k :: 0 <= k < |evs| && evs[k].Arrival? ==> Bits(evs[k].size) <= c.depth
    ensures Conforms(c, Exec(c, evs).log)
  {
    AcceptedFit(c, evs);
    RunKeepsOrder(c, evs);
    var t := Exec(c, evs);
    forall k | 0 <= k < |t.log| ensures t.log[k].bits <= c.depth {
      assert t.accepted[k] == t.log[k].bits / 8;
    }
    ConformsExactly(c, evs);
  }

  lemma {:induction false} AcceptedFit(c: Config, evs: seq<Event>)
    requires c.rate > 0.0
    requires forall k :: 0 <= k < |evs| && evs[k].Arrival? ==> Bits(evs[k].size) <= c.depth
    ensures forall k :: 0 <= k < |Exec(c, evs).accepted| ==> Bits(Exec(c, evs).accepted[k]) <= c.depth
  {
    if evs != [] {
      AcceptedFit(c, evs[..|evs| - 1]);
    }
  }

  ghost predicate ArrivalsAtMost(evs: seq<Event>, m: nat) {
    forall k :: 0 <= k < |evs| && evs[k].Arrival? ==> evs[k].size <= m
  }

  /** Without a queue only packets that the tokens cover are ever sent. */
  lemma {:induction false} NoQueueFits(c: Config, evs: seq<Event>)
    requires c.rate > 0.0 && c.limit == 0
    ensures Fits(c, Exec(c, evs).log)
  {
    if evs != [] {
      NoQueueFits(c, evs[..|evs| - 1]);
      RunKeepsOrder(c, evs[..|evs| - 1]);
      var t := Exec(c, evs[..|evs| - 1]);
      assert t.f.queue == [];
      var t' := Step(c, t, evs[|evs| - 1]);
      forall k | 0 <= k < |t'.log| ensures t'.log[k].bits <= c.depth {
        if k < |t.log| {
          assert t'.log[k] == t.log[k];
        }
      }
    }
  }

  /** An oversized packet that arrives first, and the timer that sends it. */
  function Oversized(c: Config, m: nat): seq<Event>
    requires c.rate > 0.0
  {
    var first := Arrival(0.0, m);
    var f := Recv(c, Initial(), 0.0, m).0;
    [first, Fire(if f.timer.Pending? then f.timer.at else 0.0)]
  }

  lemma {:induction false} OversizedIsQueued(c: Config, m: nat)
    requires c.rate > 0.0 && c.depth >= 0 && c.limit != 0 && Bits(m) > c.depth
    ensures var (f, fate) := Recv(c, Initial(), 0.0, m);
      fate == Queued && f.queue == [m] && f.timer.Pending? && 0.0 <= f.timer.at
  {
    EarnedNothing(c);
    var f1 := Refill(c, FirstUse(c, Initial(), 0.0), 0.0);
    DueCovers(c, f1, m, 0.0);
  }

  lemma RunOfTwo(c: Config, e0: Event, e1: Event)
    requires c.rate > 0.0
    ensures var t0 := Trace(Initial(), [], []);
      var t1 := Step(c, t0, e0);
      && Exec(c, [e0, e1]) == Step(c, t1, e1)
      && (MayHappen(t0.f, e0, e0.at) && MayHappen(t1.f, e1, e0.at) ==> Schedule(c, [e0, e1]))
  {
    hide Step, MayHappen;
    var evs := [e0, e1];
    assert evs[..1] == [e0] && evs[..1][..0] == [];
    assert Exec(c, evs[..1]) == Step(c, Trace(Initial(), [], []), e0);
    assert MayHappen(Initial(), e0, e0.at) ==> Schedule(c, evs[..1]);
  }

  /** The two events form a schedule, and the timer sends the packet. */
  lemma {:induction false} OversizedIsSent(c: Config, m: nat)
    requires c.rate > 0.0 && c.depth >= 0 && c.limit != 0 && Bits(m) > c.depth
    ensures var evs := Oversized(c, m);
      && Schedule(c, evs) && ArrivalsAtMost(evs, m) && Exec(c, evs).log == [Sent(evs[1].at, Bits(m))]
  {
    OversizedIsQueued(c, m);
    hide Earned, Due, Refill, FirstUse, Bits, Recv, Conforms, BitsBetween, Exec, Schedule;
    var evs := Oversized(c, m);
    RunOfTwo(c, evs[0], evs[1]);
  }

  lemma {:induction false} OversizedBreaks(c: Config, m: nat)
    requires c.rate > 0.0 && c.depth >= 0 && c.limit != 0 && Bits(m) > c.depth
    ensures Schedule(c, Oversized(c, m)) && ArrivalsAtMost(Oversized(c, m), m)
    ensures !Conforms(c, Exec(c, Oversized(c, m)).log)
  {
    hide Oversized, Bits, Recv, Conforms, Exec, Schedule, ArrivalsAtMost;
    var evs := Oversized(c, m);
    OversizedIsSent(c, m);
    assert !Fits(c, Exec(c, evs).log) by {
      assert Exec(c, evs).log[0].bits > c.depth;
    }
    ConformsExactly(c, evs);
  }

  /** Conformance by the size of what arrives: all schedules of packets of at most `m`
      bytes conform if and only if such a packet fits the bucket or nothing is queued. */
  lemma ConformsIffPacketsFit(c: Config, m: nat)
    requires c.rate > 0.0 && c.depth >= 0
    ensures (forall evs :: Schedule(c, evs) && ArrivalsAtMost(evs, m) ==> Conforms(c, Exec(c, evs).log))
       <==> Bits(m) <= c.depth || c.limit == 0
  {
    if Bits(m) <= c.depth || c.limit == 0 {
      forall evs | Schedule(c, evs) && ArrivalsAtMost(evs, m) ensures Conforms(c, Exec(c, evs).log) {
        if c.limit == 0 {
          NoQueueFits(c, evs);
          ConformsExactly(c, evs);
        } else {
          FittingArrivalsConform(c, evs);
        }
      }
    } else {
      OversizedBreaks(c, m);
    }
  }
}
