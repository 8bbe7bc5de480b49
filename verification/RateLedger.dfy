/**
 The limiter's books across reconfiguration. `SetRate` and `Close` reset a negative
 token count to zero, so a bound over runs that contain them needs a ledger: what was
 charged, what the rate paid for, and what those calls forgave.
 */
module RateLedger {
  import opened TokenBucket

  datatype Op =
    | Chunk(now: int, n: int)
    | Packet(now: int, n: int)
    | Rate(now: int, rate: int)
    | Shut(now: int)

  // What a run was charged, what the configured rates paid, the debt written off, and the
  // tokens thrown away.
  datatype Ledger = Ledger(charged: real, paid: real, forgiven: real, discarded: real)

  function Step(b: Bucket, op: Op): Bucket {
    match op
    case Chunk(now, n) => Reserve(b, now, n)
    case Packet(now, n) => Allow(b, now, n)
    case Rate(now, rate) => SetRate(b, now, rate)
    case Shut(_) => Close(b)
  }

  function Run(b: Bucket, ops: seq<Op>): Bucket
    decreases |ops|
  {
    if ops == [] then b else Run(Step(b, ops[0]), ops[1..])
  }

  predicate InClockOrder(t: int, ops: seq<Op>)
    decreases |ops|
  {
    ops == [] || (t <= ops[0].now && InClockOrder(ops[0].now, ops[1..]))
  }

  function EndTime(t: int, ops: seq<Op>): int
    decreases |ops|
  {
    if ops == [] then t else EndTime(ops[0].now, ops[1..])
  }

  function Debt(b: Bucket): real {
    if b.tokens < 0.0 then -b.tokens else 0.0
  }

  function Charged(b: Bucket, op: Op): int {
    match op
    case Chunk(now, n) => if b.Limiting() && n > 0 then Need(b, n) else 0
    case Packet(now, n) => if b.Limiting() && n > 0 && Allows(b, now, n) then Need(b, n) else 0
    case _ => 0
  }

  // `SetRate` and `Close` are the calls after which a debt is gone.
  function Forgiven(b: Bucket, op: Op): real {
    if op.Rate? || op.Shut? then Debt(b) else 0.0
  }

  // Tokens accrued since the last refill and not yet credited.
  function Accrued(b: Bucket, now: int): real {
    if b.Limiting() then Volume(b.rate, (now - b.last) as real) else 0.0
  }

  // A refill drops what exceeds the burst. `SetRate` does not refill first, and drops all
  // tokens when they exceed the new burst; `Close` drops all.
  function Discarded(b: Bucket, op: Op): real {
    match op
    case Chunk(now, n) => if b.Limiting() && n > 0 then Max(0.0, Credit(b, now) - b.burst as real) else 0.0
    case Packet(now, n) => if b.Limiting() && n > 0 then Max(0.0, Credit(b, now) - b.burst as real) else 0.0
    case _ => Accrued(b, op.now) + (if b.tokens > 0.0 then b.tokens - Step(b, op).tokens else 0.0)
  }

  // The books of a run that starts at clock reading t: the rate in force is integrated
  // over the time between consecutive operations.
  function Books(b: Bucket, t: int, ops: seq<Op>): Ledger
    decreases |ops|
  {
    if ops == [] then Ledger(0.0, 0.0, 0.0, 0.0)
    else
      var op := ops[0];
      var rest := Books(Step(b, op), op.now, ops[1..]);
      var paid := if b.Limiting() then Volume(b.rate, (op.now - t) as real) else 0.0;
      Ledger(Charged(b, op) as real + rest.charged, paid + rest.paid, Forgiven(b, op) + rest.forgiven,
             Discarded(b, op) + rest.discarded)
  }

  // Tokens in hand plus those accrued by time t but not yet credited.
  function Credit(b: Bucket, t: int): real {
    b.tokens + Accrued(b, t)
  }

  lemma StepLedger(b: Bucket, t: int, op: Op)
    requires b.Valid() && (b.Limiting() ==> b.last <= t) && t <= op.now
    ensures var b' := Step(b, op);
      && b'.Valid() && (b'.Limiting() ==> b'.last <= op.now)
      && Charged(b, op) as real + Credit(b', op.now) + Discarded(b, op)
         == Credit(b, t) + (if b.Limiting() then Volume(b.rate, (op.now - t) as real) else 0.0) + Forgiven(b, op)
    ensures Discarded(b, op) >= 0.0
  {
    var now := op.now;
    if b.Limiting() {
      VolumeAdds(b.rate, (t - b.last) as real, (now - t) as real);
      assert (t - b.last) as real + (now - t) as real == (now - b.last) as real;
      VolumeMonotone(b.rate, 0.0, (now - b.last) as real);
      RefillPosition(b, now);
      VolumeAdds(b.rate, b.last as real, (now - b.last) as real);
    }
  }

  // Over any run -- every interleaving of callers, rate changes and closes -- the books
  // balance to the last token: what was charged, what is still in hand, and what was thrown
  // away are exactly the opening credit, the integral of the rate and the debt forgiven.
  lemma {:induction false} LedgerBalances(b: Bucket, t: int, ops: seq<Op>)
    requires b.Valid() && (b.Limiting() ==> b.last <= t) && InClockOrder(t, ops)
    ensures var books, end := Books(b, t, ops), Run(b, ops);
      && books.charged + Credit(end, EndTime(t, ops)) + books.discarded == Credit(b, t) + books.paid + books.forgiven
      && books.discarded >= 0.0
      && (end.Limiting() ==> end.last <= EndTime(t, ops))
      && end.Valid()
    decreases |ops|
  {
    if ops != [] {
      StepLedger(b, t, ops[0]);
      LedgerBalances(Step(b, ops[0]), ops[0].now, ops[1..]);
    }
  }

  // What a limiter has in hand beyond its debt.
  function InHand(b: Bucket, t: int): real {
    Credit(b, t) + Debt(b)
  }

  // Some SetRate or Close of the run finds the bucket in debt.
  predicate MeetsDebt(b: Bucket, ops: seq<Op>)
    decreases |ops|
  {
    ops != [] && (((ops[0].Rate? || ops[0].Shut?) && b.tokens < 0.0) || MeetsDebt(Step(b, ops[0]), ops[1..]))
  }

  lemma {:induction false} OnlyDebtIsForgiven(b: Bucket, t: int, ops: seq<Op>)
    ensures Books(b, t, ops).forgiven >= 0.0
    ensures Books(b, t, ops).forgiven == 0.0 <==> !MeetsDebt(b, ops)
    decreases |ops|
  {
    if ops != [] {
      OnlyDebtIsForgiven(Step(b, ops[0]), ops[0].now, ops[1..]);
    }
  }

  // Without the forgiveness the books balance exactly when no SetRate and no Close of the run
  // finds the bucket in debt; otherwise more was charged than was ever paid for.
  lemma ForgivenessIsNeeded(b: Bucket, t: int, ops: seq<Op>)
    requires b.Valid() && (b.Limiting() ==> b.last <= t) && InClockOrder(t, ops)
    ensures var books, end := Books(b, t, ops), Run(b, ops);
      && (books.charged + Credit(end, EndTime(t, ops)) + books.discarded == Credit(b, t) + books.paid
          <==> !MeetsDebt(b, ops))
      && books.charged + Credit(end, EndTime(t, ops)) + books.discarded >= Credit(b, t) + books.paid
  {
    LedgerBalances(b, t, ops);
    OnlyDebtIsForgiven(b, t, ops);
  }

  // So charges less the debt outstanding are covered by what was paid and forgiven, and by what
  // was paid alone as long as no more was forgiven than was thrown away or is in hand.
  lemma ChargesAreCovered(b: Bucket, t: int, ops: seq<Op>)
    requires b.Valid() && (b.Limiting() ==> b.last <= t) && InClockOrder(t, ops)
    ensures var books, end := Books(b, t, ops), Run(b, ops);
      && books.charged - Debt(end) <= Credit(b, t) + books.paid + books.forgiven
      && (books.charged - Debt(end) <= Credit(b, t) + books.paid
          <==> books.forgiven <= books.discarded + InHand(end, EndTime(t, ops)))
      && InHand(end, EndTime(t, ops)) >= 0.0
  {
    LedgerBalances(b, t, ops);
    var end := Run(b, ops);
    if end.Limiting() {
      VolumeMonotone(end.rate, 0.0, (EndTime(t, ops) - end.last) as real);
    }
  }

  // The books of a limiter that starts as `NewRateLimiter` leaves it, with nothing in hand: it
  // charges nothing that was not paid for, forgiven, or still owed.
  lemma NewLimiterLedger(b: Bucket, t: int, rate: int, ops: seq<Op>)
    requires b == SetRate(Bucket(0, 0, 0.0, t, false, false), t, rate) && InClockOrder(t, ops)
    ensures var books, end := Books(b, t, ops), Run(b, ops);
      && books.charged + Credit(end, EndTime(t, ops)) + books.discarded == books.paid + books.forgiven
      && books.charged - Debt(end) <= books.paid + books.forgiven
    ensures Run(b, ops).Limiting() ==> Run(b, ops).tokens <= Run(b, ops).burst as real
  {
    LedgerBalances(b, t, ops);
    ChargesAreCovered(b, t, ops);
    if rate > 0 {
      VolumeAdds(rate, 0.0, 0.0);
    }
  }

  // Forgiveness is real: an empty limiter that is charged any chunk and then given a rate again
  // has charged n bytes, owes nothing, and was paid nothing.
  lemma DebtIsForgiven(b: Bucket, n: int, rate: int)
    requires b.Limiting() && b.Valid() && b.tokens == 0.0 && 0 < n <= b.burst
    ensures var ops := [Chunk(b.last, n), Rate(b.last, rate)]; var books, end := Books(b, b.last, ops), Run(b, ops);
      && InClockOrder(b.last, ops) && Credit(b, b.last) == 0.0
      && books.charged == n as real && books.paid == 0.0 && Debt(end) == 0.0 && books.forgiven == n as real
  {
    var t := b.last;
    var b1 := Step(b, Chunk(t, n));
    VolumeAdds(b.rate, 0.0, 0.0);
    assert b1 == b.(tokens := -(n as real));
    OneOp(b1, t, Rate(t, rate));
    TwoOps(b, t, Chunk(t, n), Rate(t, rate));
  }

  lemma OneOp(b: Bucket, t: int, op: Op)
    ensures Run(b, [op]) == Step(b, op) && (InClockOrder(t, [op]) <==> t <= op.now)
    ensures Books(b, t, [op]) == Ledger(
      Charged(b, op) as real, if b.Limiting() then Volume(b.rate, (op.now - t) as real) else 0.0,
      Forgiven(b, op), Discarded(b, op))
  {
    assert [op][1..] == [];
  }

  lemma TwoOps(b: Bucket, t: int, first: Op, second: Op)
    ensures var ops, rest := [first, second], Books(Step(b, first), first.now, [second]);
      && Run(b, ops) == Run(Step(b, first), [second])
      && (InClockOrder(t, ops) <==> t <= first.now && InClockOrder(first.now, [second]))
      && Books(b, t, ops).charged == Charged(b, first) as real + rest.charged
      && Books(b, t, ops).paid == (if b.Limiting() then Volume(b.rate, (first.now - t) as real) else 0.0) + rest.paid
      && Books(b, t, ops).forgiven == Forgiven(b, first) + rest.forgiven
  {
    assert [first, second][1..] == [second];
  }
}
