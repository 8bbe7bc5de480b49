/**
 When a packet passes: exactly when it fits. Over every run of a shared limiter at a constant
 rate, a packet is dropped only if it would overfill what the limiter started with or some
 window that ends with it.
 */
module PacketLaw {
  import opened TokenBucket
  import opened RateBound

  function Run(b: Bucket, ops: seq<Op>): Bucket
    decreases |ops|
  {
    if ops == [] then b else Run(Step(b, ops[0]), ops[1..])
  }

  // What a request of n bytes takes: never more than the burst.
  function Capped(n: int, burst: int): int {
    if n < burst then n else burst
  }

  // Whether this operation is granted: every chunk is, a packet may not be.
  predicate Granted(b: Bucket, op: Op) {
    op.n > 0 && (op.Packet? ==> Allows(b, op.now, op.n))
  }

  // What the operations at s and later took.
  function TakenSince(b: Bucket, ops: seq<Op>, s: int): int
    decreases |ops|
  {
    if ops == [] then 0
    else (if Granted(b, ops[0]) && s <= ops[0].now then Capped(ops[0].n, b.burst) else 0) + TakenSince(Step(b, ops[0]), ops[1..], s)
  }

  // Bytes that a rate per second yields in this many nanoseconds.
  function Earned(rate: int, ns: int): real {
    rate as real * ns as real / 1_000_000_000.0
  }

  predicate Within(taken: int, x: int, held: real, earned: real) {
    taken as real + x as real <= held + earned
  }

  // x bytes fit beside what was taken: into what the bucket held when it was last refilled and
  // has earned since, and into every window that ends now.
  ghost predicate Fits(b: Bucket, ops: seq<Op>, now: int, x: int) {
    && Within(TakenSince(b, ops, b.last), x, b.tokens, Earned(b.rate, now - b.last))
    && forall s: int :: b.last <= s <= now ==> FitsWindow(b, ops, s, now, x)
  }

  predicate FitsWindow(b: Bucket, ops: seq<Op>, s: int, now: int, x: int) {
    Within(TakenSince(b, ops, s), x, b.burst as real, Earned(b.rate, now - s))
  }

  predicate EndsBy(ops: seq<Op>, now: int) {
    forall i :: 0 <= i < |ops| ==> ops[i].now <= now
  }

  // One operation: nothing, or a refill to the burst at most and then what it took.
  lemma StepTakes(b: Bucket, op: Op)
    requires b.Limiting() && b.Valid() && b.last <= op.now
    ensures op.n <= 0 ==> Step(b, op) == b
    ensures op.n > 0 ==>
      var b', full := Step(b, op), b.tokens + Volume(b.rate, (op.now - b.last) as real);
      && b'.last == op.now
      && b'.tokens == Min(full, b.burst as real) - (if Granted(b, op) then Capped(op.n, b.burst) else 0) as real
  {
    VolumeAdds(b.rate, 0.0, 0.0);
  }

  lemma {:induction false} TakenFromStart(b: Bucket, ops: seq<Op>, s: int, t: int)
    requires b.Limiting() && b.Valid() && Timely(b.last, ops) && Timely(t, ops) && s <= t
    ensures TakenSince(b, ops, s) == TakenSince(b, ops, t) && TakenSince(b, ops, s) >= 0
    decreases |ops|
  {
    if ops != [] {
      StepFacts(b, ops[0]);
      TimelyEarlier(ops[0].now, Step(b, ops[0]).last, ops[1..]);
      if s <= ops[0].now && t <= ops[0].now {
        TakenFromStart(Step(b, ops[0]), ops[1..], s, ops[0].now);
        TakenFromStart(Step(b, ops[0]), ops[1..], t, ops[0].now);
      }
    }
  }

  lemma StepKeeps(b: Bucket, op: Op)
    requires b.Limiting() && b.Valid() && b.last <= op.now
    ensures var b' := Step(b, op);
      b'.Limiting() && b'.Valid() && b'.last <= op.now && b'.rate == b.rate && b'.burst == b.burst
  {
    StepFacts(b, op);
  }

  lemma VolumeBetween(rate: int, a: int, b: int, c: int)
    ensures Volume(rate, (b - a) as real) + Volume(rate, (c - b) as real) == Volume(rate, (c - a) as real)
  {
    VolumeAdds(rate, (b - a) as real, (c - b) as real);
    assert (b - a) as real + (c - b) as real == (c - a) as real;
  }

  // What is in the bucket at any later time is exactly what fits.
  lemma {:induction false} LevelIsWhatFits(b: Bucket, ops: seq<Op>, now: int, x: int)
    requires b.Limiting() && b.Valid() && Timely(b.last, ops) && EndsBy(ops, now) && b.last <= now
    ensures Refill(Run(b, ops), now).tokens >= x as real <==> Fits(b, ops, now, x)
    decreases |ops|
  {
    if ops == [] {
      EmptyFits(b, now, x);
    } else {
      var op, rest := ops[0], ops[1..];
      StepKeeps(b, op);
      TimelyEarlier(op.now, Step(b, op).last, rest);
      assert EndsBy(rest, now);
      LevelIsWhatFits(Step(b, op), rest, now, x);
      if op.n <= 0 {
        StepTakes(b, op);
        SameFits(b, ops, now, x);
      } else {
        FitsStep(b, ops, now, x);
      }
    }
  }

  lemma EmptyFits(b: Bucket, now: int, x: int)
    requires b.Limiting() && b.Valid() && b.last <= now
    ensures Refill(b, now).tokens >= x as real <==> Fits(b, [], now, x)
  {
    forall s: int | b.last <= s <= now
      ensures x <= b.burst ==> FitsWindow(b, [], s, now, x)
    {
      VolumeMonotone(b.rate, 0.0, (now - s) as real);
    }
    VolumeMonotone(b.rate, 0.0, (now - b.last) as real);
    assert FitsWindow(b, [], now, now, x) <==> x <= b.burst by {
      VolumeAdds(b.rate, 0.0, 0.0);
    }
  }

  lemma SameFits(b: Bucket, ops: seq<Op>, now: int, x: int)
    requires ops != [] && ops[0].n <= 0 && Step(b, ops[0]) == b
    ensures Fits(b, ops, now, x) <==> Fits(b, ops[1..], now, x)
  {
    assert forall s: int :: TakenSince(b, ops, s) == TakenSince(b, ops[1..], s);
    assert forall s: int :: FitsWindow(b, ops, s, now, x) <==> FitsWindow(b, ops[1..], s, now, x);
  }

  lemma EarnedGrows(rate: int, less: int, more: int)
    requires 0 <= rate && less <= more
    ensures Earned(rate, less) <= Earned(rate, more)
  {
    VolumeMonotone(rate, less as real, more as real);
  }

  lemma EarnedAdds(rate: int, a: int, b: int, c: int)
    ensures Earned(rate, b - a) + Earned(rate, c - b) == Earned(rate, c - a)
    ensures Earned(rate, b - a) == Volume(rate, (b - a) as real)
  {
    VolumeBetween(rate, a, b, c);
  }

  lemma FirstTakes(b: Bucket, ops: seq<Op>, s: int)
    requires b.Limiting() && b.Valid() && Timely(b.last, ops) && ops != [] && ops[0].n > 0
    ensures var took, rest := (if Granted(b, ops[0]) then Capped(ops[0].n, b.burst) else 0), TakenSince(Step(b, ops[0]), ops[1..], s);
      TakenSince(b, ops, s) == (if s <= ops[0].now then took else 0) + rest && took >= 0
  {
  }

  // A window that starts after the first operation is one of the rest.
  lemma LaterWindow(b: Bucket, ops: seq<Op>, s: int, now: int, x: int)
    requires b.Limiting() && b.Valid() && Timely(b.last, ops) && ops != [] && ops[0].n > 0 && ops[0].now < s
    ensures FitsWindow(b, ops, s, now, x) <==> FitsWindow(Step(b, ops[0]), ops[1..], s, now, x)
  {
    StepKeeps(b, ops[0]);
  }

  // One that starts with it or before is the tighter the later it starts.
  lemma EarlierWindow(b: Bucket, ops: seq<Op>, s: int, now: int, x: int)
    requires b.Limiting() && b.Valid() && Timely(b.last, ops) && ops != [] && b.last <= s <= ops[0].now <= now
    requires FitsWindow(b, ops, ops[0].now, now, x)
    ensures FitsWindow(b, ops, s, now, x)
  {
    TakenFromStart(b, ops, s, ops[0].now);
    EarnedGrows(b.rate, now - ops[0].now, now - s);
  }

  lemma SameWindow(b: Bucket, ops: seq<Op>, now: int, x: int)
    requires b.Limiting() && b.Valid() && Timely(b.last, ops) && ops != [] && ops[0].n > 0
    requires FitsWindow(b, ops, ops[0].now, now, x)
    ensures FitsWindow(Step(b, ops[0]), ops[1..], ops[0].now, now, x)
  {
    StepKeeps(b, ops[0]);
    FirstTakes(b, ops, ops[0].now);
  }

  // The first operation refills: what the rest starts with is what the whole run held by then,
  // or the burst, which is the window that starts with it.
  lemma FirstHeld(b: Bucket, ops: seq<Op>, now: int, x: int)
    requires b.Limiting() && b.Valid() && Timely(b.last, ops) && ops != [] && ops[0].n > 0
    ensures var op, rest, b' := ops[0], ops[1..], Step(b, ops[0]);
      Within(TakenSince(b', rest, b'.last), x, b'.tokens, Earned(b'.rate, now - b'.last))
      <==> Within(TakenSince(b, ops, b.last), x, b.tokens, Earned(b.rate, now - b.last)) && FitsWindow(b, ops, op.now, now, x)
  {
    var op, rest := ops[0], ops[1..];
    var b' := Step(b, op);
    StepKeeps(b, op);
    StepTakes(b, op);
    TimelyEarlier(op.now, b'.last, rest);
    FirstTakes(b, ops, b.last);
    FirstTakes(b, ops, op.now);
    TakenFromStart(b', rest, b.last, op.now);
    EarnedAdds(b.rate, b.last, op.now, now);
    assert b'.last == op.now && b'.rate == b.rate;
    HeldStep(if Granted(b, op) then Capped(op.n, b.burst) else 0, TakenSince(b', rest, b'.last), TakenSince(b, ops, b.last),
             TakenSince(b, ops, op.now), x, b.tokens, b.burst as real, Earned(b.rate, op.now - b.last),
             Earned(b'.rate, now - b'.last), Earned(b.rate, now - b.last), b'.tokens);
    assert Within(TakenSince(b, ops, op.now), x, b.burst as real, Earned(b.rate, now - op.now)) == FitsWindow(b, ops, op.now, now, x);
  }

  lemma HeldStep(took: int, rest: int, all: int, same: int, x: int, tokens: real, burst: real,
                 before: real, after: real, total: real, held: real)
    requires held == Min(tokens + before, burst) - took as real && all == same == took + rest && total == before + after
    ensures Within(rest, x, held, after) <==> Within(all, x, tokens, total) && Within(same, x, burst, after)
  {
  }

  lemma FitsStep(b: Bucket, ops: seq<Op>, now: int, x: int)
    requires b.Limiting() && b.Valid() && Timely(b.last, ops) && EndsBy(ops, now)
    requires ops != [] && ops[0].n > 0
    ensures Fits(b, ops, now, x) <==> Fits(Step(b, ops[0]), ops[1..], now, x)
  {
    StepKeeps(b, ops[0]);
    StepTakes(b, ops[0]);
    FirstHeld(b, ops, now, x);
    if FitsWindow(b, ops, ops[0].now, now, x) {
      WindowsAgree(b, ops, now, x);
    }
  }

  lemma WindowsAgree(b: Bucket, ops: seq<Op>, now: int, x: int)
    requires b.Limiting() && b.Valid() && Timely(b.last, ops) && EndsBy(ops, now)
    requires ops != [] && ops[0].n > 0 && FitsWindow(b, ops, ops[0].now, now, x)
    ensures (forall s: int :: b.last <= s <= now ==> FitsWindow(b, ops, s, now, x)) <==>
            (forall s: int :: ops[0].now <= s <= now ==> FitsWindow(Step(b, ops[0]), ops[1..], s, now, x))
  {
    SameWindow(b, ops, now, x);
    forall s: int | b.last <= s <= now
      ensures s <= ops[0].now ==> FitsWindow(b, ops, s, now, x)
      ensures ops[0].now < s ==> (FitsWindow(b, ops, s, now, x) <==> FitsWindow(Step(b, ops[0]), ops[1..], s, now, x))
    {
      if s <= ops[0].now {
        EarlierWindow(b, ops, s, now, x);
      } else {
        LaterWindow(b, ops, s, now, x);
      }
    }
  }

  // After any run, whatever was waited for, passed or dropped before: a packet passes exactly
  // when it fits. So a packet of at most the burst is dropped only if passing it would put more
  // than the burst and the rate allow into a window that ends now, or more than the limiter has
  // had since it started.
  lemma PacketPassesExactly(b: Bucket, ops: seq<Op>, now: int, n: int)
    requires b.Limiting() && b.Valid() && Timely(b.last, ops) && EndsBy(ops, now) && b.last <= now && n > 0
    ensures Allows(Run(b, ops), now, n) <==> Fits(b, ops, now, Capped(n, b.burst))
  {
    RunKeepsRate(b, ops);
    LevelIsWhatFits(b, ops, now, Capped(n, b.burst));
  }

  lemma {:induction false} RunKeepsRate(b: Bucket, ops: seq<Op>)
    requires b.Limiting() && b.Valid() && Timely(b.last, ops)
    ensures var e := Run(b, ops); e.Limiting() && e.Valid() && e.rate == b.rate && e.burst == b.burst
    decreases |ops|
  {
    if ops != [] {
      StepKeeps(b, ops[0]);
      TimelyEarlier(ops[0].now, Step(b, ops[0]).last, ops[1..]);
      RunKeepsRate(Step(b, ops[0]), ops[1..]);
    }
  }
}
