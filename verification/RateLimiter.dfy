/**
 `counter.RateLimiter` as the object it is: fields changed under the mutex by `SetRate`,
 `Close`, `reserve` and `allow`, and the loop of `Wait` around `reserve`.
 */
module RateLimiters {
  import opened TokenBucket

  // The process clock. Sleeping is the only thing here that moves it.
  class Clock {
    var now: int

    constructor (start: int)
      ensures now == start
    {
      now := start;
    }

    method Sleep(wait: int)
      modifies this
      ensures now == old(now) + (if wait > 0 then wait else 0)
    {
      if wait > 0 {
        now := now + wait;
      }
    }
  }

  // The delay one uncut reservation of n bytes would return: no burst cap on the request.
  function OneShotWait(b: Bucket, now: int, n: int): int
    requires b.Limiting()
  {
    var tokens := Refill(b, now).tokens;
    if tokens >= n as real then 0 else Delay(b.rate, n as real - tokens).Floor
  }

  class RateLimiter {
    var rate: int
    var burst: int
    var tokens: real
    var last: int
    var disabled: bool
    var closed: bool
    // Bytes charged to this limiter since it was made.
    ghost var charged: int

    ghost function State(): Bucket
      reads this
    {
      Bucket(rate, burst, tokens, last, disabled, closed)
    }

    ghost predicate Valid()
      reads this
    {
      State().Valid()
    }

    predicate Limiting()
      reads this
    {
      !closed && !disabled && rate > 0
    }

    constructor (now: int, bytesPerSecond: int)
      ensures State() == TokenBucket.SetRate(Bucket(0, 0, 0.0, now, false, false), now, bytesPerSecond)
      ensures Valid() && charged == 0 && tokens == 0.0
    {
      rate, burst, tokens, last, disabled, closed := 0, 0, 0.0, now, false, false;
      charged := 0;
      new;
      SetRate(now, bytesPerSecond);
    }

    method SetRate(now: int, bytesPerSecond: int)
      modifies this
      ensures State() == TokenBucket.SetRate(old(State()), now, bytesPerSecond)
      ensures rate == bytesPerSecond && disabled == (bytesPerSecond <= 0) && closed == (old(closed) && disabled)
      ensures last == (if disabled then old(last) else now)
      ensures tokens == if !disabled && 0.0 <= old(tokens) <= burst as real then old(tokens) else 0.0
      ensures 327_680 <= rate <= 46_116_860_184 ==> 5 * burst <= rate < 5 * burst + 5
      ensures -46_116_860_184 <= rate < 327_680 ==> burst == 65_536
      ensures old(Valid()) ==> Valid()
      ensures charged == old(charged)
    {
      if bytesPerSecond <= 46_116_860_184 {
        BurstIsOneFifth(bytesPerSecond);
      }
      rate := bytesPerSecond;
      burst := TruncDiv(Int64(bytesPerSecond * BURST_WINDOW), NANOS);
      if burst < CHUNK {
        burst := CHUNK;
      }
      if bytesPerSecond <= 0 {
        disabled := true;
        tokens := 0.0;
        return;
      }
      closed := false;
      disabled := false;
      if tokens < 0.0 || tokens > burst as real {
        tokens := 0.0;
      }
      last := now;
    }

    method Close()
      modifies this
      ensures State() == TokenBucket.Close(old(State()))
      ensures Valid() && closed && disabled && rate == 0 && burst == 0 && tokens == 0.0 && last == old(last)
      ensures charged == old(charged)
    {
      closed := true;
      disabled := true;
      rate := 0;
      burst := 0;
      tokens := 0.0;
    }

    method Reserve(now: int, n: int) returns (wait: int, err: bool)
      requires Valid()
      modifies this
      ensures State() == TokenBucket.Reserve(old(State()), now, n)
      ensures wait == ReserveWait(old(State()), now, n)
      ensures err == old(closed)
      ensures charged == old(charged) + (if old(Limiting()) && n > 0 then Need(old(State()), n) else 0)
    {
      if closed {
        return 0, true;
      }
      if disabled || rate <= 0 || n <= 0 {
        return 0, false;
      }
      if now > last {
        tokens := tokens + Volume(rate, (now - last) as real);
        if tokens > burst as real {
          tokens := burst as real;
        }
        last := now;
      }
      var need := if n > burst then burst else n;
      charged := charged + need;
      if tokens >= need as real {
        tokens := tokens - need as real;
        return 0, false;
      }
      var missing := need as real - tokens;
      tokens := tokens - need as real;
      return Delay(rate, missing).Floor, false;
    }

    method Allow(now: int, n: int) returns (ok: bool, err: bool)
      requires Valid()
      modifies this
      ensures n > 0 ==> err == old(closed)
      ensures n > 0 && old(Limiting()) ==>
        (ok <==> Min(old(tokens) + (if now > old(last) then Volume(rate, (now - old(last)) as real) else 0.0), burst as real)
                 >= Min(n as real, burst as real))
      ensures n > 0 && !old(Limiting()) ==> ok == !old(closed)
      ensures n <= 0 ==> ok && !err
      ensures n > 0 ==> ok == Allows(old(State()), now, n)
      ensures State() == TokenBucket.Allow(old(State()), now, n)
      ensures charged == old(charged) + (if old(Limiting()) && n > 0 && ok then Need(old(State()), n) else 0)
    {
      if n <= 0 {
        return true, false;
      }
      if closed {
        return false, true;
      }
      if disabled || rate <= 0 {
        return true, false;
      }
      if now > last {
        tokens := tokens + Volume(rate, (now - last) as real);
        if tokens > burst as real {
          tokens := burst as real;
        }
        last := now;
      }
      var need := if n > burst then burst else n;
      if tokens < need as real {
        return false, false;
      }
      tokens := tokens - need as real;
      charged := charged + need;
      return true, false;
    }

    // A sole caller whose sleeps last exactly as returned. However many chunks the loop
    // cuts n into, the caller finishes exactly when one uncut reservation of n bytes made
    // at the start would have let it go, and the bucket has moved by exactly n bytes.
    method Wait(clock: Clock, n: int) returns (err: bool)
      requires Valid() && last <= clock.now
      modifies this, clock
      ensures n <= 0 || old(!Limiting()) ==>
        State() == old(State()) && clock.now == old(clock.now) && charged == old(charged)
      ensures err == (n > 0 && old(closed))
      ensures n > 0 && old(Limiting()) ==>
        && clock.now == old(clock.now) + OneShotWait(old(State()), old(clock.now), n)
        && Position(State()) == Position(Refill(old(State()), old(clock.now))) + n as real
        && charged == old(charged) + n
      ensures Valid() && last <= clock.now && old(clock.now) <= clock.now
      ensures rate == old(rate) && burst == old(burst) && disabled == old(disabled) && closed == old(closed)
    {
      if n <= 0 {
        return false;
      }
      var remaining := n;
      ghost var start := Refill(State(), clock.now);
      ghost var goal := Position(start);
      while remaining > 0
        invariant 0 <= remaining <= n
        invariant Valid() && last <= clock.now && old(clock.now) <= clock.now
        invariant rate == old(rate) && burst == old(burst) && disabled == old(disabled) && closed == old(closed)
        invariant charged == old(charged) + n - remaining
        invariant old(!Limiting()) ==> remaining == n
        invariant remaining == n ==> State() == old(State()) && clock.now == old(clock.now)
        invariant remaining < n ==> Position(State()) == goal + (n - remaining) as real
        invariant remaining < n ==> clock.now == old(clock.now) + OneShotWait(old(State()), old(clock.now), n - remaining)
        decreases remaining
      {
        var chunk := remaining;
        if disabled || rate <= 0 || closed {
          var _, e := Reserve(clock.now, 0);
          return e;
        }
        if burst > 0 && chunk > burst {
          chunk := burst;
        }
        ghost var before := State();
        ghost var at := clock.now;
        var wait, e := Reserve(clock.now, chunk);
        ReserveStep(old(State()), old(clock.now), n - remaining, before, at, chunk);
        clock.Sleep(wait);
        remaining := remaining - chunk;
      }
      return false;
    }
  }

  // A reservation made at instant `at` sends its caller off at the whole nanosecond at
  // which the clock's volume reaches the bucket's new position -- so `done` bytes followed
  // by a chunk cost what done + chunk bytes at once would have cost.
  lemma ReserveStep(b0: Bucket, t0: int, done: int, b: Bucket, at: int, chunk: int)
    requires b0.Limiting() && b0.Valid() && b0.last <= t0
    requires b.Limiting() && b.Valid() && b.last <= at
    requires b.rate == b0.rate && b.burst == b0.burst
    requires 0 <= done && 0 < chunk <= b.burst
    requires done == 0 ==> b == b0 && at == t0
    requires done > 0 ==>
      && Position(b) == Position(Refill(b0, t0)) + done as real
      && at == t0 + OneShotWait(b0, t0, done)
    ensures var after := TokenBucket.Reserve(b, at, chunk);
      && after.Valid() && after.Limiting() && after.last <= at + ReserveWait(b, at, chunk)
      && ReserveWait(b, at, chunk) >= 0
      && Position(after) == Position(Refill(b0, t0)) + (done + chunk) as real
      && at + ReserveWait(b, at, chunk) == t0 + OneShotWait(b0, t0, done + chunk)
  {
    var start, ready := Refill(b0, t0), Refill(b, at);
    RefillPosition(b0, t0);
    RefillPosition(b, at);
    ChargePosition(b, at, chunk);
    if done > 0 {
      StillCharged(start, done, b, at);
    }
    Landing(start, done);
    Landing(start, done + chunk);
    Landing(ready, chunk);
    assert Position(ready) + chunk as real == Position(start) + (done + chunk) as real;
    SameInstant(b.rate, Reach(ready, chunk), Reach(start, done + chunk));
    VolumeStrict(b.rate, Reach(start, done + chunk), Reach(start, done));
  }

  // At the instant a reservation was for, the refill has not yet caught up with it.
  lemma StillCharged(start: Bucket, done: int, b: Bucket, at: int)
    requires start.Limiting() && b.Limiting() && b.Valid() && b.rate == start.rate && b.last <= at
    requires Position(b) == Position(start) + done as real && done > 0
    requires at == start.last + OneShotWait(start, start.last, done)
    requires start.tokens <= b.burst as real
    ensures Position(Refill(b, at)) == Position(b)
  {
    RefillPosition(b, at);
    Landing(start, done);
    var reach := Reach(start, done);
    VolumeMonotone(b.rate, reach.Floor as real, reach);
  }

  lemma SameInstant(rate: int, x: real, y: real)
    requires rate > 0 && Volume(rate, x) == Volume(rate, y)
    ensures x == y
  {
    VolumeStrict(rate, x, y);
    VolumeStrict(rate, y, x);
  }

  // The exact instant at which the clock's volume is n bytes past the bucket's position.
  ghost function Reach(b: Bucket, n: int): real
    requires b.Limiting()
  {
    b.last as real + Delay(b.rate, n as real - b.tokens)
  }

  // A one-shot reservation lets its caller go at that instant, rounded down, or at once.
  lemma Landing(b: Bucket, n: int)
    requires b.Limiting()
    ensures Volume(b.rate, Reach(b, n)) == Position(b) + n as real
    ensures b.last + OneShotWait(b, b.last, n) == if Reach(b, n).Floor < b.last then b.last else Reach(b, n).Floor
  {
    var short := n as real - b.tokens;
    DelayVolume(b.rate, short);
    VolumeAdds(b.rate, b.last as real, Delay(b.rate, short));
    VolumeStrict(b.rate, b.last as real, Reach(b, n));
    VolumeStrict(b.rate, Reach(b, n), b.last as real);
  }
}
