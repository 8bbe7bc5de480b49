/**
 What a limit in Mbit/s means in bytes: for every pair of limiters the user manager keeps, for
 the node's pair, and for the traffic that shares them.
 */
module LimiterRates {
  import opened TokenBucket
  import opened UserDiff
  import opened LimiterTable
  import RB = RateBound

  // Eight bits a byte, and a burst of a fifth of a second but at least one chunk. Beyond 368934
  // Mbit/s the 64-bit product behind the burst wraps.
  predicate LimitsTo(b: Bucket, mbps: int) {
    && b.Limiting() && b.Valid() && 8 * b.rate == mbps * 1_000_000
    && (mbps <= 368_934 ==> b.burst == if mbps * 25_000 > 65_536 then mbps * 25_000 else 65_536)
  }

  lemma OpenedLimits(b: Bucket, mbps: int)
    requires mbps > 0 && Opened(b, MbpsToBytes(mbps))
    ensures LimitsTo(b, mbps)
  {
    assert mbps * 1000 * 1000 == 8 * (mbps * 125_000);
    if mbps <= 368_934 {
      BurstIsOneFifth(b.rate);
    }
  }

  // A map in sync: every pair belongs to a user with a limit, and both its limiters run at it.
  lemma EveryPairAtItsLimit(users: Users, ls: Limiters)
    requires InSync(users, ls)
    ensures forall id :: id in ls.pairs <==> id in users && users[id].speedLimit > 0
    ensures forall id :: id in ls.pairs ==>
      var p, mbps := ls.pairs[id], users[id].speedLimit;
      && p.rx < |ls.objects| && LimitsTo(ls.objects[p.rx], mbps)
      && p.tx < |ls.objects| && LimitsTo(ls.objects[p.tx], mbps)
  {
    forall id | id in ls.pairs
      ensures IsLimited(users, id)
      ensures var p, mbps := ls.pairs[id], users[id].speedLimit;
        && p.rx < |ls.objects| && LimitsTo(ls.objects[p.rx], mbps)
        && p.tx < |ls.objects| && LimitsTo(ls.objects[p.tx], mbps)
    {
      assert RatedAt(ls, id, users[id]);
      OpenedLimits(ls.objects[ls.pairs[id].rx], users[id].speedLimit);
      OpenedLimits(ls.objects[ls.pairs[id].tx], users[id].speedLimit);
    }
  }

  // So after every call of an error-free run each limited user has a pair at its current limit,
  // and nobody else has one.
  lemma ErrorFreeRunLimits(stages: seq<Stage>, calls: seq<Call>)
    requires IsRun(stages, calls) && InSync(stages[0].users, stages[0].ls)
    requires forall i :: 0 <= i < |calls| ==> !calls[i].failed
    ensures var users, ls := stages[|calls|].users, stages[|calls|].ls;
      && (forall id :: id in ls.pairs <==> id in users && users[id].speedLimit > 0)
      && forall id :: id in ls.pairs ==>
           var p, mbps := ls.pairs[id], users[id].speedLimit;
           && p.rx < |ls.objects| && LimitsTo(ls.objects[p.rx], mbps)
           && p.tx < |ls.objects| && LimitsTo(ls.objects[p.tx], mbps)
  {
    ErrorFreeRunInSync(stages, calls);
    EveryPairAtItsLimit(stages[|calls|].users, stages[|calls|].ls);
  }

  // The node's pair, which no call ever touches: at the node's limit, or not limiting at all.
  lemma NodeAtItsLimit(stages: seq<Stage>, calls: seq<Call>, i: nat, now: int, nodeMbps: int)
    requires IsRun(stages, calls) && i < |stages| && stages[0].ls == NewLimiters(now, nodeMbps)
    ensures var ls := stages[i].ls;
      && ls.node.rx < |ls.objects| && ls.node.tx < |ls.objects| && ls.node.rx != ls.node.tx
      && (nodeMbps > 0 ==> LimitsTo(ls.objects[ls.node.rx], nodeMbps) && LimitsTo(ls.objects[ls.node.tx], nodeMbps))
      && (nodeMbps <= 0 ==> !ls.objects[ls.node.rx].Limiting() && !ls.objects[ls.node.tx].Limiting())
  {
    NodeStays(stages, calls, i);
    ClosedStaysClosed(stages, calls, 0, i, stages[0].ls.node.rx);
    ClosedStaysClosed(stages, calls, 0, i, stages[0].ls.node.tx);
    RunKeepsInv(stages, calls, i);
    if nodeMbps > 0 {
      PositiveRate(nodeMbps);
      SetRateOpens(Bucket(0, 0, 0.0, now, false, false), now, MbpsToBytes(nodeMbps));
      OpenedLimits(NewBucket(now, MbpsToBytes(nodeMbps)), nodeMbps);
    }
  }

  lemma {:induction false} NodeStays(stages: seq<Stage>, calls: seq<Call>, i: nat)
    requires IsRun(stages, calls) && i < |stages|
    ensures stages[i].ls.node == stages[0].ls.node
  {
    if i > 0 {
      NodeStays(stages, calls, i - 1);
      assert Applied(stages[i - 1], calls[i - 1], stages[i]);
    }
  }

  // What that limit promises. Over every interleaving of the connections that share the limiter,
  // in every window of `seconds`: at most 125000 bytes per Mbit and second fall due, and one
  // burst.
  lemma LimitedTrafficIsBounded(b: Bucket, mbps: int, ops: seq<RB.Op>, s: real, seconds: real)
    requires mbps > 0 && LimitsTo(b, mbps) && RB.Timely(b.last, ops) && seconds >= 0.0
    requires forall i :: 0 <= i < |ops| ==> RB.WithinLimits(b, ops[i])
    ensures RB.DueIn(RB.Grants(b, ops), s, s + seconds * 1_000_000_000.0) as real
         <= b.burst as real + (mbps * 125_000) as real * seconds
  {
    RB.RealCallersStayWithin(b, ops);
    var ns := seconds * 1_000_000_000.0;
    assert b.rate == mbps * 125_000;
    assert s + ns - s == ns;
    PerSecond(b.rate, seconds);
  }

  lemma PerSecond(rate: int, seconds: real)
    ensures Volume(rate, seconds * 1_000_000_000.0) == rate as real * seconds
  {
  }
}
