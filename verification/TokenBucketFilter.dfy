/** The token bucket filter as an object whose methods update its fields. */
module TokenBucketFilter {
  import opened TokenBucket

  class Tbf {
    var tokens: real
    const rate: real
    const bucket: int
    const qlen: int
    var lastUpdateTime: real
    var q: seq<nat>
    var init: bool
    var timer: Timer

    function Params(): Config {
      Config(rate, bucket, qlen)
    }

    function State(): Filter
      reads this
    {
      Filter(tokens, lastUpdateTime, init, q, timer)
    }

    constructor (rate: real, bucket: int, qlen: int)
      ensures State() == Initial() && Params() == Config(rate, bucket, qlen)
    {
      this.rate, this.bucket, this.qlen := rate, bucket, qlen;
      tokens, lastUpdateTime, init, q, timer := 0.0, 0.0, true, [], Idle;
    }

    method GetUpdatedTokens(now: real)
      modifies this`tokens, this`lastUpdateTime
      ensures State() == Refill(Params(), old(State()), now)
    {
      assert Earned(Params(), now - lastUpdateTime) == (now - lastUpdateTime) * rate;
      hide Earned;
      tokens := tokens + (now - lastUpdateTime) * rate;
      if tokens > bucket as real {
        tokens := bucket as real;
      }
      lastUpdateTime := now;
    }

    method Recv(now: real, size: nat) returns (fate: Fate)
      requires rate > 0.0
      modifies this
      ensures (State(), fate) == TokenBucket.Recv(Params(), old(State()), now, size)
    {
      if init {
        tokens := bucket as real;
        lastUpdateTime := now;
        init := false;
      }
      if |q| != 0 {
        if |q| < qlen {
          q := q + [size];
          return Queued;
        }
        return Dropped;
      }
      GetUpdatedTokens(now);
      var pktsize := 8 * size;
      if tokens >= pktsize as real {
        tokens := tokens - pktsize as real;
        fate := Forwarded;
      } else if qlen != 0 {
        q := q + [size];
        assert q == [size];
        timer := Pending(now + (pktsize as real - tokens) / rate);
        fate := Queued;
      } else {
        fate := Dropped;
      }
    }

    method Timeout(now: real) returns (sent: Sent)
      requires rate > 0.0 && q != []
      modifies this
      ensures State() == TokenBucket.Timeout(Params(), old(State()), now)
      ensures sent == Sent(now, Bits(old(q)[0]))
    {
      var p := q[0];
      q := q[1..];
      timer := Idle;
      GetUpdatedTokens(now);
      var pktsize := 8 * p;
      sent := Sent(now, pktsize);
      tokens := tokens - pktsize as real;
      if |q| != 0 {
        pktsize := 8 * q[0];
        timer := Pending(now + (pktsize as real - tokens) / rate);
      }
    }
  }
}
