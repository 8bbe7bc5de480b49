/**
 The arithmetic of the token bucket behind `counter.RateLimiter`: what one locked
 section does to the bucket, as functions on values. Times are whole nanoseconds of a
 monotone clock; tokens are real numbers of bytes and may be negative (debt).
 */
module TokenBucket {

  const NANOS := 1_000_000_000
  const BURST_WINDOW := 200_000_000
  const CHUNK := 64 * 1024

  datatype Bucket = Bucket(
    rate: int,
    burst: int,
    tokens: real,
    last: int,
    disabled: bool,
    closed: bool)
  {
    // A bucket that charges: neither switched off nor closed.
    predicate Limiting() {
      !closed && !disabled && rate > 0
    }

    // What every locked section keeps.
    predicate Valid() {
      && (!disabled ==> rate > 0)
      && (Limiting() ==> CHUNK <= burst && tokens <= burst as real)
      && (disabled ==> tokens == 0.0)
      && (closed ==> disabled)
    }
  }

  // Bytes a rate (per second) yields over `ns` nanoseconds.
  function Volume(rate: int, ns: real): real {
    rate as real * ns / 1_000_000_000.0
  }

  function Min(x: real, y: real): real {
    if x < y then x else y
  }

  function Max(x: real, y: real): real {
    if x < y then y else x
  }

  // Go's 64-bit wrap-around and its division, which truncates toward zero.
  function Int64(x: int): int {
    (x + 0x8000_0000_0000_0000) % 0x1_0000_0000_0000_0000 - 0x8000_0000_0000_0000
  }

  function TruncDiv(x: int, y: int): int
    requires y > 0
  {
    if x >= 0 then x / y else -(-x / y)
  }

  function BurstFor(rate: int): int {
    var window := TruncDiv(Int64(rate * BURST_WINDOW), NANOS);
    if window < CHUNK then CHUNK else window
  }

  // Wrapping gives the 64-bit number that is congruent.
  lemma Int64Wraps(x: int)
    ensures -0x8000_0000_0000_0000 <= Int64(x) <= 0x7fff_ffff_ffff_ffff
    ensures (Int64(x) - x) % 0x1_0000_0000_0000_0000 == 0
    ensures -0x8000_0000_0000_0000 <= x <= 0x7fff_ffff_ffff_ffff ==> Int64(x) == x
  {
  }

  // Up to the rate at which the 64-bit product wraps, the burst is the bytes of a fifth of a
  // second, rounded down, and never less than one chunk.
  lemma BurstIsOneFifth(rate: int)
    requires rate <= 46_116_860_184
    ensures rate >= 327_680 ==> 5 * BurstFor(rate) <= rate < 5 * BurstFor(rate) + 5
    ensures -46_116_860_184 <= rate < 327_680 ==> BurstFor(rate) == 65_536
  {
    Int64Wraps(rate * BURST_WINDOW);
  }

  // ---- the locked sections -------------------------------------------------

  function SetRate(b: Bucket, now: int, rate: int): Bucket {
    var burst := BurstFor(rate);
    if rate <= 0 then
      b.(rate := rate, burst := burst, disabled := true, tokens := 0.0)
    else
      b.(rate := rate, burst := burst, disabled := false, closed := false, last := now,
         tokens := if b.tokens < 0.0 || b.tokens > burst as real then 0.0 else b.tokens)
  }

  function Close(b: Bucket): Bucket {
    b.(closed := true, disabled := true, rate := 0, burst := 0, tokens := 0.0)
  }

  function Refill(b: Bucket, now: int): Bucket {
    if now <= b.last then b
    else b.(tokens := Min(b.tokens + Volume(b.rate, (now - b.last) as real), b.burst as real), last := now)
  }

  // A request larger than the burst is charged the burst only.
  function Need(b: Bucket, n: int): int {
    if n > b.burst then b.burst else n
  }

  function Charge(b: Bucket, now: int, n: int): Bucket {
    var r := Refill(b, now);
    r.(tokens := r.tokens - Need(b, n) as real)
  }

  function Reserve(b: Bucket, now: int, n: int): Bucket {
    if b.Limiting() && n > 0 then Charge(b, now, n) else b
  }

  // The exact time, in nanoseconds, until `short` missing bytes have accrued.
  function Delay(rate: int, short: real): real
    requires rate > 0
  {
    short / rate as real * 1_000_000_000.0
  }

  // The delay `reserve` returns: whole nanoseconds, truncated.
  function ReserveWait(b: Bucket, now: int, n: int): int {
    if !b.Limiting() || n <= 0 then 0
    else
      var r := Refill(b, now);
      var need := Need(b, n) as real;
      if r.tokens >= need then 0 else Delay(b.rate, need - r.tokens).Floor
  }

  predicate Allows(b: Bucket, now: int, n: int) {
    !b.closed && (!b.Limiting() || n <= 0 || Refill(b, now).tokens >= Need(b, n) as real)
  }

  function Allow(b: Bucket, now: int, n: int): Bucket {
    if !b.Limiting() || n <= 0 then b
    else if Allows(b, now, n) then Charge(b, now, n)
    else Refill(b, now)
  }

  // ---- position: a volume that only grants move forward ----------------------

  // The volume the clock must reach before the bucket is out of debt.
  function Position(b: Bucket): real {
    Volume(b.rate, b.last as real) - b.tokens
  }

  lemma VolumeAdds(rate: int, x: real, y: real)
    ensures Volume(rate, x) + Volume(rate, y) == Volume(rate, x + y)
  {
  }

  lemma VolumeMonotone(rate: int, x: real, y: real)
    requires 0 <= rate && x <= y
    ensures Volume(rate, x) <= Volume(rate, y)
  {
    VolumeAdds(rate, x, y - x);
  }

  lemma VolumeStrict(rate: int, x: real, y: real)
    requires 0 < rate
    ensures x < y <==> Volume(rate, x) < Volume(rate, y)
  {
    VolumeAdds(rate, x, y - x);
    VolumeAdds(rate, y, x - y);
  }

  lemma DelayVolume(rate: int, short: real)
    requires 0 < rate
    ensures Volume(rate, Delay(rate, short)) == short
    ensures short > 0.0 ==> Delay(rate, short) > 0.0
  {
    var q := short / rate as real;
    assert q * rate as real == short;
    VolumeStrict(rate, 0.0, Delay(rate, short));
  }

  // Refilling moves the position only when the burst caps the bucket.
  lemma RefillPosition(b: Bucket, now: int)
    requires b.Limiting() && b.Valid() && b.last <= now
    ensures Position(Refill(b, now)) == Max(Position(b), Volume(b.rate, now as real) - b.burst as real)
    ensures Refill(b, now).Valid() && Refill(b, now).last == now
  {
    VolumeAdds(b.rate, b.last as real, (now - b.last) as real);
  }

  // Charging moves the position forward by the charge.
  lemma ChargePosition(b: Bucket, now: int, n: int)
    requires b.Limiting() && b.Valid() && b.last <= now && 0 < n
    ensures Position(Charge(b, now, n))
         == Max(Position(b), Volume(b.rate, now as real) - b.burst as real) + Need(b, n) as real
    ensures Charge(b, now, n).Valid() && Charge(b, now, n).last == now
  {
    RefillPosition(b, now);
  }
}
