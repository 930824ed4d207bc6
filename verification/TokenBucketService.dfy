/** The token bucket sends as soon as it may: a packet that meets an empty queue goes out at
    once exactly if that conforms, and the head of the queue goes at the earliest moment at
    which it does. */
module TokenBucketService {
  import opened TokenBucket

  /** Since `a` the run has used a full bucket and all tokens generated, but for those left. */
  ghost predicate FullAt(c: Config, t: Trace, a: real) {
    a <= t.f.last && BitsSince(t.log, a) as real + t.f.tokens == c.depth as real + Earned(c, t.f.last - a)
  }

  ghost predicate Tight(c: Config, t: Trace) {
    exists a :: FullAt(c, t, a)
  }

  /** Before the first packet there is nothing to account for. */
  ghost predicate TightOrUnused(c: Config, t: Trace) {
    if t.f.unused then t.log == [] && t.f.queue == [] else SentBy(t.log, t.f.last) && Tight(c, t)
  }

  lemma FirstUseIsTight(c: Config, t: Trace, now: real)
    requires TightOrUnused(c, t)
    ensures var t0 := t.(f := FirstUse(c, t.f, now));
      SentBy(t0.log, t0.f.last) && Tight(c, t0)
  {
    if t.f.unused {
      EarnedNothing(c);
      hide Earned;
      assert FullAt(c, t.(f := FirstUse(c, t.f, now)), now);
    }
  }

  lemma RefillKeepsTight(c: Config, t: Trace, now: real)
    requires c.rate > 0.0 && t.f.last <= now && t.f.tokens <= c.depth as real
    requires SentBy(t.log, t.f.last) && Tight(c, t)
    ensures Tight(c, t.(f := Refill(c, t.f, now)))
  {
    hide Earned;
    EarnedNothing(c);
    var t1 := t.(f := Refill(c, t.f, now));
    if t.f.tokens + Earned(c, now - t.f.last) > c.depth as real {
      assert t.f.last < now;
      NothingSince(t.log, now, t.f.last);
      assert FullAt(c, t1, now);
    } else {
      var a :| FullAt(c, t, a);
      EarnedSum(c, t.f.last - a, now - t.f.last, now - a);
      assert FullAt(c, t1, a);
    }
  }

  lemma SpendKeepsTight(c: Config, t: Trace, t': Trace, bits: nat)
    requires Tight(c, t) && t'.log == t.log + [Sent(t.f.last, bits)]
    requires t'.f.last == t.f.last && t'.f.tokens == t.f.tokens - bits as real
    ensures Tight(c, t')
  {
    hide Earned;
    var a :| FullAt(c, t, a);
    assert t'.log[..|t'.log| - 1] == t.log;
    assert FullAt(c, t', a);
  }

  lemma SameTokensSameTight(c: Config, t: Trace, t': Trace)
    requires Tight(c, t) && t'.log == t.log && t'.f.tokens == t.f.tokens && t'.f.last == t.f.last
    ensures Tight(c, t')
  {
    var a :| FullAt(c, t, a);
    assert FullAt(c, t', a);
  }

  lemma ArrivalKeepsTight(c: Config, t: Trace, now: real, size: nat)
    requires c.rate > 0.0 && c.depth >= 0 && Good(c, t, now) && TightOrUnused(c, t)
    ensures TightOrUnused(c, Step(c, t, Arrival(now, size)))
  {
    hide Earned, Due, Bits, Tight;
    FirstUseIsTight(c, t, now);
    var t0, t' := t.(f := FirstUse(c, t.f, now)), Step(c, t, Arrival(now, size));
    if t0.f.queue != [] {
      SameTokensSameTight(c, t0, t');
    } else {
      RefillKeepsTight(c, t0, now);
      var t1 := t0.(f := Refill(c, t0.f, now));
      if t'.log == t.log {
        SameTokensSameTight(c, t1, t');
      } else {
        SpendKeepsTight(c, t1, t', Bits(size));
      }
    }
  }

  lemma FireKeepsTight(c: Config, t: Trace)
    requires c.rate > 0.0 && c.depth >= 0 && TimerOk(c, t.f) && t.f.timer.Pending? && Good(c, t, t.f.timer.at)
    requires TightOrUnused(c, t)
    ensures TightOrUnused(c, Step(c, t, Fire(t.f.timer.at)))
  {
    hide Earned, Due, Bits, Tight;
    var now := t.f.timer.at;
    RefillKeepsTight(c, t, now);
    SpendKeepsTight(c, t.(f := Refill(c, t.f, now)), Step(c, t, Fire(now)), Bits(t.f.queue[0]));
  }

  /** Every packet that arrives fits the bucket. */
  ghost predicate AllFit(c: Config, evs: seq<Event>) {
    forall k :: 0 <= k < |evs| && evs[k].Arrival? ==> 8 * evs[k].size <= c.depth
  }

  lemma FitsWhenAllFit(c: Config, evs: seq<Event>)
    requires c.rate > 0.0 && c.depth >= 0 && Schedule(c, evs) && AllFit(c, evs)
    ensures Fits(c, Exec(c, evs).log)
  {
    hide Exec, Schedule, Conforms, Fits;
    FittingArrivalsConform(c, evs);
    ConformsExactly(c, evs);
  }

  lemma {:induction false} RunIsTight(c: Config, evs: seq<Event>)
    requires c.rate > 0.0 && c.depth >= 0 && Schedule(c, evs) && AllFit(c, evs)
    ensures TightOrUnused(c, Exec(c, evs))
  {
    if evs != [] {
      hide Good, TightOrUnused, Step, Fits;
      var n := |evs| - 1;
      var t, ev := Exec(c, evs[..n]), evs[n];
      assert Exec(c, evs) == Step(c, t, ev);
      RunIsTight(c, evs[..n]);
      ReadyFor(c, evs[..n], ev);
      match ev {
        case Arrival(at, size) => ArrivalKeepsTight(c, t, at, size);
        case Fire(at) => FireKeepsTight(c, t);
      }
    } else {
      assert TightOrUnused(c, Exec(c, evs));
    }
  }

  /** What holds when the next event of a schedule happens. */
  lemma ReadyFor(c: Config, evs: seq<Event>, ev: Event)
    requires c.rate > 0.0 && c.depth >= 0 && Schedule(c, evs) && AllFit(c, evs)
    requires MayHappen(Exec(c, evs).f, ev, if evs == [] then ev.at else evs[|evs| - 1].at)
    ensures Good(c, Exec(c, evs), ev.at) && TimerOk(c, Exec(c, evs).f)
  {
    hide Exec, Schedule, Budget, Due;
    FitsWhenAllFit(c, evs);
    RunIsGood(c, evs);
  }

  // ----- service

  /** Sending `bits` more at `now` keeps to the bucket and the rate, whatever the interval. */
  ghost predicate MaySend(c: Config, log: seq<Sent>, now: real, bits: nat) {
    forall a :: a <= now ==> BitsSince(log, a) as real + bits as real <= c.depth as real + c.rate * (now - a)
  }

  /** The tokens of an up-to-date filter cover a packet exactly if it may be sent. */
  lemma TokensSuffice(c: Config, t: Trace, bits: nat)
    requires Budget(c, t) && Tight(c, t)
    ensures t.f.tokens >= bits as real <==> MaySend(c, t.log, t.f.last, bits)
  {
    hide Earned, BitsSince;
    var now := t.f.last;
    if t.f.tokens >= bits as real {
      forall a | a <= now ensures BitsSince(t.log, a) as real + bits as real <= c.depth as real + c.rate * (now - a) {
        EarnedIs(c, now - a);
      }
    }
    if MaySend(c, t.log, now, bits) {
      var a :| FullAt(c, t, a);
      EarnedIs(c, now - a);
      assert BitsSince(t.log, a) as real + bits as real <= c.depth as real + c.rate * (now - a);
    }
  }

  /** A packet that meets an empty queue is sent at once exactly if that conforms. */
  lemma ForwardedExactly(c: Config, evs: seq<Event>, now: real, size: nat)
    requires c.rate > 0.0 && c.depth >= 0 && Schedule(c, evs) && AllFit(c, evs)
    requires MayHappen(Exec(c, evs).f, Arrival(now, size), if evs == [] then now else evs[|evs| - 1].at)
    requires Exec(c, evs).f.queue == []
    ensures Recv(c, Exec(c, evs).f, now, size).1 == Forwarded <==> MaySend(c, Exec(c, evs).log, now, 8 * size)
  {
    hide Earned, Due, Exec, Schedule, Tight, Budget, MaySend, Good;
    RunIsTight(c, evs);
    ReadyFor(c, evs, Arrival(now, size));
    FirstTokens(c, Exec(c, evs), now, 8 * size);
  }

  lemma FirstTokens(c: Config, t: Trace, now: real, bits: nat)
    requires c.rate > 0.0 && c.depth >= 0 && Good(c, t, now) && TightOrUnused(c, t)
    ensures Refill(c, FirstUse(c, t.f, now), now).tokens >= bits as real <==> MaySend(c, t.log, now, bits)
  {
    hide Earned, Tight, Budget, MaySend;
    var t0 := t.(f := FirstUse(c, t.f, now));
    FirstUseIsTight(c, t, now);
    FirstUseKeepsBudget(c, t, now);
    RefillKeepsTight(c, t0, now);
    SpendKeepsBudget(c, t0, now, 0);
    TokensSuffice(c, t0.(f := Refill(c, t0.f, now)), bits);
  }

  /** The first packet of all is sent at once exactly if it fits the bucket. */
  lemma FirstPacketIsSent(c: Config, now: real, size: nat)
    requires c.rate > 0.0
    ensures Recv(c, Initial(), now, size).1 == Forwarded <==> 8 * size <= c.depth
  {
    EarnedNothing(c);
    hide Earned, Due;
  }

  /** Any other packet is queued or dropped by the limit alone. */
  lemma QueuedOrDropped(c: Config, f: Filter, now: real, size: nat)
    requires c.rate > 0.0 && (f.unused ==> f.queue == [])
    ensures var (f', fate) := Recv(c, f, now, size);
      && (f.queue != [] ==> fate != Forwarded && (fate == Dropped <==> |f.queue| >= c.limit))
      && (f.queue == [] && fate != Forwarded ==> (fate == Dropped <==> c.limit == 0))
      && f'.queue == f.queue + (if fate == Queued then [size] else [])
  {
    hide Earned, Due, Bits;
    assert f.queue + [] == f.queue && [] + [size] == [size];
  }

  /** The head of the queue is sent when the timer is due, and at no earlier moment would
      that have conformed. */
  lemma HeadGoesAsSoonAsItMay(c: Config, evs: seq<Event>, at: real)
    requires c.rate > 0.0 && c.depth >= 0 && Schedule(c, evs) && AllFit(c, evs)
    requires Exec(c, evs).f.queue != [] && Exec(c, evs).f.last <= at
    ensures var t := Exec(c, evs);
      && t.f.timer.Pending?
      && (at < t.f.timer.at ==> !MaySend(c, t.log, at, 8 * t.f.queue[0]))
      && (at == t.f.timer.at ==> MaySend(c, t.log, at, 8 * t.f.queue[0]))
  {
    hide Earned, Due, Exec, Schedule, Tight, Budget, MaySend;
    var t := Exec(c, evs);
    RunIsTight(c, evs);
    RunKeepsTimerSet(c, evs);
    FitsWhenAllFit(c, evs);
    RunIsGood(c, evs);
    AfterLast(c, evs, t, at);
    FirstTokens(c, t, at, Bits(t.f.queue[0]));
    HeadFits(c, evs);
    if at == t.f.timer.at {
      TimerCoversHead(c, t.f);
    } else if at < t.f.timer.at {
      TooEarly(c, t.f, at);
    }
  }

  lemma AfterLast(c: Config, evs: seq<Event>, t: Trace, at: real)
    requires c.rate > 0.0 && t == Exec(c, evs) && t.f.last <= at
    requires evs != [] ==> Good(c, t, evs[|evs| - 1].at)
    requires evs == [] ==> forall now :: Good(c, t, now)
    ensures Good(c, t, at)
  {
  }

  lemma HeadFits(c: Config, evs: seq<Event>)
    requires c.rate > 0.0 && AllFit(c, evs) && Exec(c, evs).f.queue != []
    ensures Bits(Exec(c, evs).f.queue[0]) <= c.depth
  {
    AcceptedFit(c, evs);
    RunKeepsOrder(c, evs);
    var t := Exec(c, evs);
    hide Exec;
    assert t.accepted[|t.log|] == t.f.queue[0];
  }

  /** Before the timer is due the tokens do not cover the head. */
  lemma TooEarly(c: Config, f: Filter, at: real)
    requires c.rate > 0.0 && TimerSet(c, f) && f.timer.Pending? && !f.unused && f.last <= at < f.timer.at
    requires Bits(f.queue[0]) <= c.depth
    ensures Refill(c, FirstUse(c, f, at), at).tokens < Bits(f.queue[0]) as real
  {
    DueCovers(c, f, f.queue[0], f.last);
    EarnedSum(c, at - f.last, f.timer.at - at, f.timer.at - f.last);
    EarnedSign(c, f.timer.at - at);
    EarnedSign(c, at - f.timer.at);
    hide Earned, Due, Bits;
  }
}
