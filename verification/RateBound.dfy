/**
 What a shared limiter promises at a constant rate, over every interleaving of its
 callers: the order of locked sections is a sequence of operations with non-decreasing
 clock readings, and nothing else is known about who issued them.
 */
module RateBound {
  import opened TokenBucket

  // One locked section: a `reserve` for one chunk of a Wait, or an `allow` for a packet.
  datatype Op = Chunk(now: int, n: int) | Packet(now: int, n: int)

  // A granted request: its bytes, the exact instant they fall due, and the instant the
  // caller goes on after sleeping for the truncated delay.
  datatype Grant = Grant(bytes: int, due: real, released: int)

  function Step(b: Bucket, op: Op): Bucket {
    match op
    case Chunk(now, n) => Reserve(b, now, n)
    case Packet(now, n) => Allow(b, now, n)
  }

  function GrantOf(b: Bucket, op: Op): seq<Grant>
    requires b.Limiting()
  {
    if op.n <= 0 then []
    else match op
      case Chunk(now, n) =>
        var tokens := Charge(b, now, n).tokens;
        [Grant(n, now as real + (if tokens >= 0.0 then 0.0 else Delay(b.rate, -tokens)), now + ReserveWait(b, now, n))]
      case Packet(now, n) =>
        if Allows(b, now, n) then [Grant(n, now as real, now)] else []
  }

  function Grants(b: Bucket, ops: seq<Op>): seq<Grant>
    requires b.Limiting()
    decreases |ops|
  {
    if ops == [] then [] else GrantOf(b, ops[0]) + Grants(Step(b, ops[0]), ops[1..])
  }

  // Clock readings never run backwards.
  predicate Timely(t: int, ops: seq<Op>)
    decreases |ops|
  {
    ops == [] || (t <= ops[0].now && Timely(ops[0].now, ops[1..]))
  }

  // Bytes whose exact due instant lies in (s, t].
  function DueIn(gs: seq<Grant>, s: real, t: real): int {
    if gs == [] then 0
    else (if s < gs[0].due <= t then gs[0].bytes else 0) + DueIn(gs[1..], s, t)
  }

  // Bytes whose caller goes on at an instant in (s, t].
  function ReleasedIn(gs: seq<Grant>, s: real, t: real): int {
    if gs == [] then 0
    else (if s < gs[0].released as real <= t then gs[0].bytes else 0) + ReleasedIn(gs[1..], s, t)
  }

  ghost predicate WithinBurst(burst: int, gs: seq<Grant>) {
    forall g :: g in gs ==> g.bytes <= burst
  }

  ghost predicate RateHolds(b: Bucket, gs: seq<Grant>) {
    forall s: real, t: real :: s <= t ==> DueIn(gs, s, t) as real <= b.burst as real + Volume(b.rate, t - s)
  }

  // ---- one step ---------------------------------------------------------------

  // A step at a constant rate keeps the bucket limiting; a grant moves its position by
  // the charge and falls due exactly when the clock or the position gets there.
  lemma StepFacts(b: Bucket, op: Op)
    requires b.Limiting() && b.Valid() && b.last <= op.now
    ensures var b' := Step(b, op);
      && b'.Limiting() && b'.Valid() && b'.last <= op.now
      && b'.rate == b.rate && b'.burst == b.burst
      && Position(b) <= Position(b')
    ensures forall g :: g in GrantOf(b, op) ==>
      && 0 < g.bytes == op.n && op.now as real <= g.due
      && g.released as real <= g.due < g.released as real + 1.0
      && Step(b, op) == Charge(b, op.now, op.n) && Step(b, op).last == op.now
      && Volume(b.rate, g.due) == Max(Volume(b.rate, op.now as real), Position(Step(b, op)))
  {
    RefillPosition(b, op.now);
    if op.n > 0 {
      ChargePosition(b, op.now, op.n);
      var after := Charge(b, op.now, op.n);
      if after.tokens < 0.0 {
        DelayVolume(b.rate, -after.tokens);
        VolumeAdds(b.rate, op.now as real, Delay(b.rate, -after.tokens));
      }
    }
  }

  // ---- the window bound ---------------------------------------------------------

  // The bytes due in (s, t] never exceed the volume between the bucket's position (or
  // one burst before s, whichever is later) and t.
  lemma {:induction false} DueBelowPosition(b: Bucket, ops: seq<Op>, s: real, t: real)
    requires b.Limiting() && b.Valid() && Timely(b.last, ops) && s <= t
    requires WithinBurst(b.burst, Grants(b, ops))
    ensures DueIn(Grants(b, ops), s, t) as real
         <= Max(0.0, Volume(b.rate, t) - Max(Position(b), Volume(b.rate, s) - b.burst as real))
    decreases |ops|
  {
    if ops != [] {
      var op, rest := ops[0], ops[1..];
      StepFacts(b, op);
      var b' := Step(b, op);
      TimelyEarlier(op.now, b'.last, rest);
      assert forall g :: g in Grants(b', rest) ==> g in Grants(b, ops);
      DueBelowPosition(b', rest, s, t);
      if GrantOf(b, op) == [] {
        assert Grants(b, ops) == Grants(b', rest);
      } else {
        var g := GrantOf(b, op)[0];
        assert Grants(b, ops)[1..] == Grants(b', rest);
        assert g in Grants(b, ops);
        ChargePosition(b, op.now, op.n);
        VolumeStrict(b.rate, s, g.due);
        VolumeStrict(b.rate, t, g.due);
      }
    }
  }

  lemma TimelyEarlier(t: int, t': int, ops: seq<Op>)
    requires Timely(t, ops) && t' <= t
    ensures Timely(t', ops)
  {
  }

  lemma {:induction false} GrantsArePositive(b: Bucket, ops: seq<Op>)
    requires b.Limiting() && b.Valid() && Timely(b.last, ops)
    ensures forall g :: g in Grants(b, ops) ==>
      && 0 < g.bytes && b.last as real <= g.due
      && g.released as real <= g.due < g.released as real + 1.0
      && Position(b) <= Volume(b.rate, g.due)
    decreases |ops|
  {
    if ops != [] {
      StepFacts(b, ops[0]);
      TimelyEarlier(ops[0].now, Step(b, ops[0]).last, ops[1..]);
      GrantsArePositive(Step(b, ops[0]), ops[1..]);
      assert ops[0].n > 0 ==> b.last <= Charge(b, ops[0].now, ops[0].n).last;
      assert b.last <= Step(b, ops[0]).last;
    }
  }

  // A grant counts toward every window that holds its due instant.
  lemma {:induction false} DueAtLeast(gs: seq<Grant>, g: Grant, s: real, t: real)
    requires forall h :: h in gs ==> 0 < h.bytes
    requires g in gs && s < g.due <= t
    ensures g.bytes <= DueIn(gs, s, t)
  {
    DueNonNegative(gs[1..], s, t);
    if g in gs[1..] {
      DueAtLeast(gs[1..], g, s, t);
    }
  }

  lemma DueNonNegative(gs: seq<Grant>, s: real, t: real)
    requires forall h :: h in gs ==> 0 < h.bytes
    ensures 0 <= DueIn(gs, s, t)
  {
  }

  // Over any run and any window, at most one burst plus the rate times the window falls
  // due -- exactly when no granted request is larger than the burst.
  lemma WindowBound(b: Bucket, ops: seq<Op>)
    requires b.Limiting() && b.Valid() && Timely(b.last, ops)
    ensures RateHolds(b, Grants(b, ops)) <==> WithinBurst(b.burst, Grants(b, ops))
  {
    var gs := Grants(b, ops);
    if WithinBurst(b.burst, gs) {
      forall s: real, t: real | s <= t
        ensures DueIn(gs, s, t) as real <= b.burst as real + Volume(b.rate, t - s)
      {
        DueBelowPosition(b, ops, s, t);
        VolumeAdds(b.rate, s, t - s);
        VolumeMonotone(b.rate, 0.0, t - s);
      }
    } else {
      var g :| g in gs && b.burst < g.bytes;
      GrantsArePositive(b, ops);
      var excess := (g.bytes - b.burst) as real / 2.0;
      var width := Delay(b.rate, excess);
      DelayVolume(b.rate, excess);
      DueAtLeast(gs, g, g.due - width, g.due);
      assert g.due - (g.due - width) == width;
      assert !(DueIn(gs, g.due - width, g.due) as real <= b.burst as real + Volume(b.rate, g.due - (g.due - width)));
    }
  }

  // Truncating every sleep to whole nanoseconds costs one nanosecond of rate in all,
  // however many grants the window holds.
  lemma TruncationBound(b: Bucket, ops: seq<Op>, s: real, t: real)
    requires b.Limiting() && b.Valid() && Timely(b.last, ops) && s <= t
    requires WithinBurst(b.burst, Grants(b, ops))
    ensures ReleasedIn(Grants(b, ops), s, t) as real <= b.burst as real + Volume(b.rate, t - s + 1.0)
  {
    GrantsArePositive(b, ops);
    ReleasedBelowDue(Grants(b, ops), s, t);
    WindowBound(b, ops);
    assert t + 1.0 - s == t - s + 1.0;
  }

  lemma {:induction false} ReleasedBelowDue(gs: seq<Grant>, s: real, t: real)
    requires forall g :: g in gs ==> 0 < g.bytes && g.released as real <= g.due < g.released as real + 1.0
    ensures ReleasedIn(gs, s, t) <= DueIn(gs, s, t + 1.0)
  {
    if gs != [] {
      ReleasedBelowDue(gs[1..], s, t);
    }
  }

  // The limiter is first come, first served: due instants follow the order of the grants.
  lemma {:induction false} DueInGrantOrder(b: Bucket, ops: seq<Op>, i: nat, j: nat)
    requires b.Limiting() && b.Valid() && Timely(b.last, ops)
    requires i < j < |Grants(b, ops)|
    ensures Grants(b, ops)[i].due <= Grants(b, ops)[j].due
    decreases |ops|
  {
    var op, rest := ops[0], ops[1..];
    var b' := Step(b, op);
    StepFacts(b, op);
    TimelyEarlier(op.now, b'.last, rest);
    var first := GrantOf(b, op);
    if first == [] {
      assert Grants(b, ops) == Grants(b', rest);
      DueInGrantOrder(b', rest, i, j);
    } else if i > 0 {
      assert Grants(b, ops)[1..] == Grants(b', rest);
      DueInGrantOrder(b', rest, i - 1, j - 1);
    } else {
      var g, h := first[0], Grants(b, ops)[j];
      assert h == Grants(b', rest)[j - 1];
      GrantsArePositive(b', rest);
      VolumeMonotone(b.rate, op.now as real, h.due);
      VolumeStrict(b.rate, h.due, g.due);
    }
  }

  // Left alone for as long as the missing tokens take to accrue, a bucket passes a
  // packet of any size; a packet of at least the burst passes only then.
  lemma PacketEventuallyPasses(b: Bucket, now: int, n: int)
    requires b.Limiting() && b.Valid() && b.last <= now && 0 < n
    ensures b.tokens + Volume(b.rate, (now - b.last) as real) >= b.burst as real ==> Allows(b, now, n)
    ensures b.burst <= n && Allows(b, now, n) ==>
      b.tokens + Volume(b.rate, (now - b.last) as real) >= b.burst as real
  {
    if now == b.last {
      VolumeAdds(b.rate, 0.0, 0.0);
    }
  }

  // A chunk of Wait never exceeds the burst, and a UDP packet never the least burst there is;
  // so for the callers there are, the window bound holds.
  predicate WithinLimits(b: Bucket, op: Op) {
    op.n <= if op.Chunk? then b.burst else 65535
  }

  lemma {:induction false} RealCallersStayWithin(b: Bucket, ops: seq<Op>)
    requires b.Limiting() && b.Valid() && Timely(b.last, ops)
    requires forall i :: 0 <= i < |ops| ==> WithinLimits(b, ops[i])
    ensures WithinBurst(b.burst, Grants(b, ops)) && RateHolds(b, Grants(b, ops))
    decreases |ops|
  {
    if ops != [] {
      StepFacts(b, ops[0]);
      TimelyEarlier(ops[0].now, Step(b, ops[0]).last, ops[1..]);
      RealCallersStayWithin(Step(b, ops[0]), ops[1..]);
      assert WithinLimits(b, ops[0]);
    }
    WindowBound(b, ops);
  }

  // `Allow` itself does not keep to it: a full bucket passes a packet of any size, charging the
  // burst only, and if that is larger than the burst the bound fails.
  lemma BigPacketBreaksBound(b: Bucket, now: int, n: int)
    requires b.Limiting() && b.Valid() && b.last <= now && b.tokens == b.burst as real && n > 0
    ensures Allows(b, now, n)
    ensures RateHolds(b, Grants(b, [Packet(now, n)])) <==> n <= b.burst
  {
    var ops := [Packet(now, n)];
    RefillPosition(b, now);
    VolumeMonotone(b.rate, 0.0, (now - b.last) as real);
    assert Allows(b, now, n);
    assert ops[1..] == [] && Grants(b, ops) == [Grant(n, now as real, now)];
    assert Timely(b.last, ops);
    assert Grants(b, ops)[0] in Grants(b, ops);
    WindowBound(b, ops);
  }
}
