/**
 The limiters of a `UserManager`. Connections keep pointers to limiter objects, so objects
 have an identity that outlives the map: here a limiter is a handle into the collection of
 all limiters ever made, and the map and the connections hold handles.
 */
module LimiterTable {
  import opened TokenBucket
  import opened UserDiff

  type Handle = nat

  // The rx and tx limiters of one user, or of the node.
  datatype Pair = Pair(rx: Handle, tx: Handle)

  datatype Limiters = Limiters(pairs: map<int, Pair>, node: Pair, objects: seq<Bucket>)

  function MbpsToBytes(mbps: int): int {
    if mbps <= 0 then 0 else mbps * 1000 * 1000 / 8
  }

  function NewBucket(now: int, rate: int): Bucket {
    SetRate(Bucket(0, 0, 0.0, now, false, false), now, rate)
  }

  function NewLimiters(now: int, nodeMbps: int): Limiters {
    var rate := MbpsToBytes(nodeMbps);
    Limiters(map[], Pair(0, 1), [NewBucket(now, rate), NewBucket(now, rate)])
  }

  predicate OpenAt(ls: Limiters, h: Handle, rate: int) {
    h < |ls.objects| && Opened(ls.objects[h], rate)
  }

  // A limiter that runs at this rate, with the burst that goes with it.
  predicate Opened(b: Bucket, rate: int) {
    b.Limiting() && b.Valid() && b.rate == rate && b.burst == BurstFor(rate)
  }

  // ---- closing, opening and re-rating one user's pair --------------------------------

  function CloseUser(ls: Limiters, id: int): Limiters
    requires Inv(ls)
  {
    if id !in ls.pairs then ls
    else
      var p := ls.pairs[id];
      var closed := ls.objects[p.rx := Close(ls.objects[p.rx])];
      ls.(pairs := ls.pairs - {id}, objects := closed[p.tx := Close(closed[p.tx])])
  }

  function RateUser(ls: Limiters, id: int, rate: int, now: int): Limiters
    requires Inv(ls) && id in ls.pairs
  {
    var p := ls.pairs[id];
    var rated := ls.objects[p.rx := SetRate(ls.objects[p.rx], now, rate)];
    ls.(objects := rated[p.tx := SetRate(rated[p.tx], now, rate)])
  }

  function OpenUser(ls: Limiters, id: int, rate: int, now: int): Limiters {
    ls.(pairs := ls.pairs[id := Pair(|ls.objects|, |ls.objects| + 1)],
        objects := ls.objects + [NewBucket(now, rate), NewBucket(now, rate)])
  }

  function UpdateUser(ls: Limiters, u: PanelUser, now: int): Limiters
    requires Inv(ls)
  {
    if u.speedLimit <= 0 then CloseUser(ls, u.id)
    else if u.id in ls.pairs then RateUser(ls, u.id, MbpsToBytes(u.speedLimit), now)
    else OpenUser(ls, u.id, MbpsToBytes(u.speedLimit), now)
  }

  // ---- the invariant -----------------------------------------------------------------

  // Every limiter in the map is an open object of its own, distinct from all others and
  // from the node's.
  ghost predicate Inv(ls: Limiters) {
    && ls.node.rx < |ls.objects| && ls.node.tx < |ls.objects| && ls.node.rx != ls.node.tx
    && (forall id :: id in ls.pairs ==>
          var p := ls.pairs[id];
          && p.rx < |ls.objects| && p.tx < |ls.objects| && p.rx != p.tx
          && p.rx != ls.node.rx && p.rx != ls.node.tx && p.tx != ls.node.rx && p.tx != ls.node.tx
          && ls.objects[p.rx].Limiting() && ls.objects[p.tx].Limiting())
    && (forall i, j :: i in ls.pairs && j in ls.pairs && i != j ==>
          ls.pairs[i].rx != ls.pairs[j].rx && ls.pairs[i].tx != ls.pairs[j].tx && ls.pairs[i].rx != ls.pairs[j].tx)
  }

  // Both limiters of a pair are enabled.
  ghost predicate Enabled(ls: Limiters, p: Pair) {
    && p.rx < |ls.objects| && ls.objects[p.rx].Limiting()
    && p.tx < |ls.objects| && ls.objects[p.tx].Limiting()
  }

  lemma PairEnabled(ls: Limiters, id: int)
    requires Inv(ls) && id in ls.pairs
    ensures Enabled(ls, ls.pairs[id])
  {
  }

  ghost predicate Reachable(ls: Limiters, h: Handle) {
    exists id :: id in ls.pairs && (ls.pairs[id].rx == h || ls.pairs[id].tx == h)
  }

  lemma PositiveRate(mbps: int)
    requires mbps > 0
    ensures MbpsToBytes(mbps) > 0
  {
    assert mbps * 1000 * 1000 == mbps * 125000 * 8;
  }

  lemma SetRateOpens(b: Bucket, now: int, rate: int)
    requires rate > 0
    ensures SetRate(b, now, rate).Limiting() && Opened(SetRate(b, now, rate), rate)
  {
  }

  lemma CloseUserKeepsInv(ls: Limiters, id: int)
    requires Inv(ls)
    ensures Inv(CloseUser(ls, id))
  {
  }

  lemma RateUserKeepsInv(ls: Limiters, id: int, rate: int, now: int)
    requires Inv(ls) && id in ls.pairs && rate > 0
    ensures Inv(RateUser(ls, id, rate, now))
    ensures var ls' := RateUser(ls, id, rate, now);
      OpenAt(ls', ls'.pairs[id].rx, rate) && OpenAt(ls', ls'.pairs[id].tx, rate)
  {
    forall b
      ensures SetRate(b, now, rate).Limiting() && Opened(SetRate(b, now, rate), rate)
    {
      SetRateOpens(b, now, rate);
    }
  }

  lemma OpenUserKeepsInv(ls: Limiters, id: int, rate: int, now: int)
    requires Inv(ls) && id !in ls.pairs && rate > 0
    ensures Inv(OpenUser(ls, id, rate, now))
    ensures var ls' := OpenUser(ls, id, rate, now);
      OpenAt(ls', ls'.pairs[id].rx, rate) && OpenAt(ls', ls'.pairs[id].tx, rate)
  {
    var b := SetRate(Bucket(0, 0, 0.0, now, false, false), now, rate);
    SetRateOpens(Bucket(0, 0, 0.0, now, false, false), now, rate);
    NewPairKeepsInv(ls, OpenUser(ls, id, rate, now), id, b);
  }

  lemma NewPairKeepsInv(ls: Limiters, ls': Limiters, id: int, b: Bucket)
    requires Inv(ls) && id !in ls.pairs && b.Limiting()
    requires ls'.node == ls.node && ls'.objects == ls.objects + [b, b]
    requires ls'.pairs == ls.pairs[id := Pair(|ls.objects|, |ls.objects| + 1)]
    ensures Inv(ls')
  {
    forall i | i in ls'.pairs && i != id
      ensures ls'.objects[ls'.pairs[i].rx] == ls.objects[ls.pairs[i].rx] && ls'.objects[ls'.pairs[i].tx] == ls.objects[ls.pairs[i].tx]
    {
      assert i in ls.pairs;
    }
  }

  lemma UpdateUserKeepsInv(ls: Limiters, u: PanelUser, now: int)
    requires Inv(ls)
    ensures Inv(UpdateUser(ls, u, now))
    ensures u.speedLimit > 0 ==> u.id in UpdateUser(ls, u, now).pairs && RatedAt(UpdateUser(ls, u, now), u.id, u)
  {
    if u.speedLimit <= 0 {
      CloseUserKeepsInv(ls, u.id);
    } else {
      PositiveRate(u.speedLimit);
      if u.id in ls.pairs {
        RateUserKeepsInv(ls, u.id, MbpsToBytes(u.speedLimit), now);
      } else {
        OpenUserKeepsInv(ls, u.id, MbpsToBytes(u.speedLimit), now);
      }
    }
  }

  // ---- what may change between two states ---------------------------------------------

  // Users keep their objects while they keep a pair; a user dropped from the map has had its
  // objects closed; objects outside the map -- closed ones and the node's -- are not touched;
  // whatever is new in the map is a new object.
  ghost predicate Evolves(ls: Limiters, ls': Limiters) {
    && ls'.node == ls.node && |ls.objects| <= |ls'.objects|
    && (forall id :: id in ls.pairs && id in ls'.pairs ==> ls'.pairs[id] == ls.pairs[id])
    && (forall id :: id in ls.pairs && id !in ls'.pairs ==>
          var p := ls.pairs[id];
          p.rx < |ls'.objects| && p.tx < |ls'.objects| && ls'.objects[p.rx].closed && ls'.objects[p.tx].closed)
    && (forall id :: id !in ls.pairs && id in ls'.pairs ==>
          ls'.pairs[id].rx >= |ls.objects| && ls'.pairs[id].tx >= |ls.objects|)
    && (forall h :: 0 <= h < |ls.objects| && !Reachable(ls, h) ==> ls'.objects[h] == ls.objects[h])
  }

  // Only the two objects of the user's pair are touched.
  lemma OnlyPairMoves(ls: Limiters, id: int, objects: seq<Bucket>)
    requires Inv(ls) && id in ls.pairs && |objects| == |ls.objects|
    requires forall h :: 0 <= h < |objects| && h != ls.pairs[id].rx && h != ls.pairs[id].tx ==> objects[h] == ls.objects[h]
    ensures Evolves(ls, ls.(objects := objects))
    ensures objects[ls.pairs[id].rx].closed && objects[ls.pairs[id].tx].closed ==>
      Evolves(ls, ls.(pairs := ls.pairs - {id}, objects := objects))
  {
    forall h | 0 <= h < |objects| && !Reachable(ls, h)
      ensures objects[h] == ls.objects[h]
    {
      assert h != ls.pairs[id].rx && h != ls.pairs[id].tx;
    }
  }

  lemma CloseUserEvolves(ls: Limiters, id: int)
    requires Inv(ls)
    ensures Evolves(ls, CloseUser(ls, id))
  {
    if id in ls.pairs {
      OnlyPairMoves(ls, id, CloseUser(ls, id).objects);
    }
  }

  lemma OpenUserEvolves(ls: Limiters, id: int, rate: int, now: int)
    requires Inv(ls) && id !in ls.pairs
    ensures Evolves(ls, OpenUser(ls, id, rate, now))
  {
  }

  lemma UpdateUserEvolves(ls: Limiters, u: PanelUser, now: int)
    requires Inv(ls)
    ensures Evolves(ls, UpdateUser(ls, u, now))
  {
    if u.speedLimit <= 0 {
      CloseUserEvolves(ls, u.id);
    } else if u.id in ls.pairs {
      OnlyPairMoves(ls, u.id, UpdateUser(ls, u, now).objects);
    } else {
      OpenUserEvolves(ls, u.id, MbpsToBytes(u.speedLimit), now);
    }
  }

  // An object that is in no pair of the map stays out of it and stays as it is.
  lemma DeadStaysDead(ls: Limiters, ls': Limiters, h: Handle)
    requires Evolves(ls, ls') && h < |ls.objects| && !Reachable(ls, h)
    ensures h < |ls'.objects| && !Reachable(ls', h) && ls'.objects[h] == ls.objects[h]
  {
  }

  lemma EvolvesTrans(a: Limiters, b: Limiters, c: Limiters)
    requires Inv(a) && Evolves(a, b) && Evolves(b, c)
    requires forall id :: id in a.pairs && id !in b.pairs ==> id !in c.pairs
    ensures Evolves(a, c)
  {
    forall h: Handle | h < |a.objects| && !Reachable(a, h)
      ensures c.objects[h] == a.objects[h]
    {
      DeadStaysDead(a, b, h);
    }
    forall id | id in a.pairs && id !in c.pairs
      ensures c.objects[a.pairs[id].rx].closed && c.objects[a.pairs[id].tx].closed
    {
      if id !in b.pairs {
        assert !Reachable(b, a.pairs[id].rx) && !Reachable(b, a.pairs[id].tx);
      }
    }
  }

  // ---- one ApplyBox ----------------------------------------------------------------------

  predicate IsLimited(users: Users, id: int) {
    id in users && users[id].speedLimit > 0
  }

  // The map holds exactly the limited users, each open at its rate.
  ghost predicate InSync(users: Users, ls: Limiters) {
    && (forall id :: id in ls.pairs <==> IsLimited(users, id))
    && forall id :: IsLimited(users, id) ==> RatedAt(ls, id, users[id])
  }

  ghost predicate RatedAt(ls: Limiters, id: int, u: PanelUser) {
    && id in ls.pairs
    && OpenAt(ls, ls.pairs[id].rx, MbpsToBytes(u.speedLimit))
    && OpenAt(ls, ls.pairs[id].tx, MbpsToBytes(u.speedLimit))
  }

  // What the two loops of ApplyBox do to the limiters, in whatever order the maps are
  // iterated -- also when an inbound fails afterwards.
  ghost predicate Reconciled(prev: Users, next: Users, ls: Limiters, ls': Limiters) {
    && Inv(ls') && Evolves(ls, ls')
    && (forall id :: id in ls'.pairs <==> IsLimited(next, id) || (id in ls.pairs && id !in prev && id !in next))
    && forall id :: IsLimited(next, id) ==> RatedAt(ls', id, next[id])
  }

  // The limiters match the list, exactly when none belonged to an id that neither the users
  // last applied nor the list knows.
  lemma ReconciledInSync(prev: Users, next: Users, ls: Limiters, ls': Limiters)
    requires Reconciled(prev, next, ls, ls')
    ensures InSync(next, ls') <==> forall id :: id in ls.pairs ==> id in prev || id in next
  {
    if id :| id in ls.pairs && id !in prev && id !in next {
      assert id in ls'.pairs && !IsLimited(next, id);
    }
  }

  // The first loop, once the users in `done` have had their turn.
  ghost predicate AfterRemovals(start: Limiters, next: Users, done: set<int>, ls: Limiters) {
    && Inv(ls) && Evolves(start, ls)
    && forall id :: id in ls.pairs <==> id in start.pairs && (id in done ==> id in next)
  }

  lemma KeepStep(start: Limiters, ls: Limiters, next: Users, done: set<int>, id: int)
    requires AfterRemovals(start, next, done, ls) && id in next
    ensures AfterRemovals(start, next, done + {id}, ls)
  {
  }

  lemma RemoveStep(start: Limiters, ls: Limiters, next: Users, done: set<int>, id: int)
    requires Inv(start) && AfterRemovals(start, next, done, ls) && id !in next
    ensures AfterRemovals(start, next, done + {id}, CloseUser(ls, id))
  {
    CloseUserKeepsInv(ls, id);
    CloseUserEvolves(ls, id);
    CloseUserKeys(ls, id);
    Removal(start, ls, next, done, id, CloseUser(ls, id));
  }

  lemma CloseUserKeys(ls: Limiters, id: int)
    requires Inv(ls)
    ensures forall i :: i in CloseUser(ls, id).pairs <==> i != id && i in ls.pairs
  {
  }

  lemma Removal(start: Limiters, ls: Limiters, next: Users, done: set<int>, id: int, ls': Limiters)
    requires Inv(start) && AfterRemovals(start, next, done, ls) && id !in next
    requires Inv(ls') && Evolves(ls, ls')
    requires forall i :: i in ls'.pairs <==> i != id && i in ls.pairs
    ensures AfterRemovals(start, next, done + {id}, ls')
  {
    EvolvesTrans(start, ls, ls');
  }

  // The second loop, once the users in `done` have had their turn.
  ghost predicate AfterUpdates(start: Limiters, next: Users, done: set<int>, ls: Limiters) {
    && Inv(ls) && Evolves(start, ls)
    && (forall id :: id in ls.pairs <==> if id in done then IsLimited(next, id) else id in start.pairs)
    && forall id :: id in done && IsLimited(next, id) ==> RatedAt(ls, id, next[id])
  }

  lemma UpdateStep(start: Limiters, ls: Limiters, next: Users, done: set<int>, id: int, now: int)
    requires Inv(start) && AfterUpdates(start, next, done, ls)
    requires id in next && id !in done && next[id].id == id
    ensures AfterUpdates(start, next, done + {id}, UpdateUser(ls, next[id], now))
  {
    var ls' := UpdateUser(ls, next[id], now);
    UpdateUserKeepsInv(ls, next[id], now);
    UpdateUserEvolves(ls, next[id], now);
    UpdateUserKeys(ls, next[id], now);
    forall i | i in done && IsLimited(next, i)
      ensures RatedAt(ls', i, next[i])
    {
      UpdateUserKeepsOthers(ls, next[id], now, i, next[i]);
    }
    Update(start, ls, next, done, id, ls');
  }

  lemma KeysAfterUpdate(start: set<int>, keys: set<int>, keys': set<int>, next: Users, done: set<int>, id: int)
    requires forall i :: i in keys <==> if i in done then IsLimited(next, i) else i in start
    requires forall i :: i in keys' <==> if i == id then IsLimited(next, id) else i in keys
    ensures forall i :: i in keys' <==> if i in done + {id} then IsLimited(next, i) else i in start
  {
  }

  lemma Update(start: Limiters, ls: Limiters, next: Users, done: set<int>, id: int, ls': Limiters)
    requires Inv(start) && AfterUpdates(start, next, done, ls) && id in next && id !in done
    requires Inv(ls') && Evolves(ls, ls')
    requires forall i :: i in ls'.pairs <==> if i == id then IsLimited(next, id) else i in ls.pairs
    requires forall i :: i in done + {id} && IsLimited(next, i) ==> RatedAt(ls', i, next[i])
    ensures AfterUpdates(start, next, done + {id}, ls')
  {
    KeysAfterUpdate(start.pairs.Keys, ls.pairs.Keys, ls'.pairs.Keys, next, done, id);
    EvolvesTrans(start, ls, ls');
  }

  lemma UpdateUserKeys(ls: Limiters, u: PanelUser, now: int)
    requires Inv(ls)
    ensures forall i :: i in UpdateUser(ls, u, now).pairs <==> if i == u.id then u.speedLimit > 0 else i in ls.pairs
  {
  }

  lemma UpdateUserKeepsOthers(ls: Limiters, u: PanelUser, now: int, other: int, v: PanelUser)
    requires Inv(ls) && other in ls.pairs && other != u.id && RatedAt(ls, other, v)
    ensures RatedAt(UpdateUser(ls, u, now), other, v)
  {
  }

  // The two loops one after the other.
  lemma LoopsReconcile(prev: Users, next: Users, a: Limiters, b: Limiters, c: Limiters)
    requires Inv(a) && AfterRemovals(a, next, prev.Keys, b) && AfterUpdates(b, next, next.Keys, c)
    ensures Reconciled(prev, next, a, c)
  {
    EvolvesTrans(a, b, c);
  }

  // ---- runs ------------------------------------------------------------------------------

  datatype Stage = Stage(users: Users, ls: Limiters)

  ghost predicate IsRun(stages: seq<Stage>, calls: seq<Call>) {
    && |stages| == |calls| + 1
    && Inv(stages[0].ls)
    && forall i :: 0 <= i < |calls| ==> Applied(stages[i], calls[i], stages[i + 1])
  }

  ghost predicate Applied(before: Stage, call: Call, after: Stage) {
    && Reconciled(before.users, call.next, before.ls, after.ls)
    && after.users == if call.failed then before.users else call.next
  }

  lemma {:induction false} RunKeepsInv(stages: seq<Stage>, calls: seq<Call>, i: nat)
    requires IsRun(stages, calls) && i < |stages|
    ensures Inv(stages[i].ls)
  {
    if i > 0 {
      assert Applied(stages[i - 1], calls[i - 1], stages[i]);
    }
  }

  // Over any run, failures included: a limiter that has left the map is never reopened,
  // re-rated or handed out again, and the node's pair is never touched.
  lemma {:induction false} ClosedStaysClosed(stages: seq<Stage>, calls: seq<Call>, i: nat, j: nat, h: Handle)
    requires IsRun(stages, calls) && i <= j < |stages|
    requires h < |stages[i].ls.objects| && !Reachable(stages[i].ls, h)
    ensures h < |stages[j].ls.objects| && !Reachable(stages[j].ls, h)
    ensures stages[j].ls.objects[h] == stages[i].ls.objects[h]
    decreases j - i
  {
    if i < j {
      assert Applied(stages[i], calls[i], stages[i + 1]);
      DeadStaysDead(stages[i].ls, stages[i + 1].ls, h);
      ClosedStaysClosed(stages, calls, i + 1, j, h);
    }
  }

  ghost predicate HasPair(ls: Limiters, id: int, p: Pair) {
    id in ls.pairs && ls.pairs[id] == p
  }

  // A call that limits a user keeps its pair and rates it.
  ghost predicate PairStep(stages: seq<Stage>, calls: seq<Call>, k: int, id: int) {
    0 <= k < |calls| < |stages| && IsLimited(calls[k].next, id) ==>
      && RatedAt(stages[k + 1].ls, id, calls[k].next[id])
      && (id in stages[k].ls.pairs ==> HasPair(stages[k + 1].ls, id, stages[k].ls.pairs[id]))
  }

  lemma EveryPairStep(stages: seq<Stage>, calls: seq<Call>, k: nat, id: int)
    requires IsRun(stages, calls)
    ensures PairStep(stages, calls, k, id)
  {
    if k < |calls| {
      assert Applied(stages[k], calls[k], stages[k + 1]);
    }
  }

  lemma {:induction false} StepsKeepPair(stages: seq<Stage>, calls: seq<Call>, i: nat, j: nat, id: int)
    requires i <= j <= |calls| < |stages| && id in stages[i].ls.pairs && forall k: nat :: PairStep(stages, calls, k, id)
    requires forall k :: i <= k < j ==> IsLimited(calls[k].next, id)
    ensures HasPair(stages[j].ls, id, stages[i].ls.pairs[id])
    decreases j
  {
    if i < j {
      StepsKeepPair(stages, calls, i, j - 1, id);
      assert PairStep(stages, calls, j - 1, id);
    }
  }

  // A user limited by every list of a stretch of the run keeps the same two objects, so that
  // live connections follow its rate.
  lemma LimitedUserKeepsLimiters(stages: seq<Stage>, calls: seq<Call>, i: nat, j: nat, id: int)
    requires IsRun(stages, calls) && i <= j < |stages| && id in stages[i].ls.pairs
    requires forall k :: i <= k < j ==> IsLimited(calls[k].next, id)
    ensures HasPair(stages[j].ls, id, stages[i].ls.pairs[id])
    ensures i < j ==> RatedAt(stages[j].ls, id, calls[j - 1].next[id])
  {
    forall k: nat
      ensures PairStep(stages, calls, k, id)
    {
      EveryPairStep(stages, calls, k, id);
    }
    StepsKeepPair(stages, calls, i, j, id);
    assert i < j ==> PairStep(stages, calls, j - 1, id) && IsLimited(calls[j - 1].next, id);
  }

  // As long as no call fails, the map holds exactly the limited users, each at its rate.
  lemma {:induction false} ErrorFreeRunInSync(stages: seq<Stage>, calls: seq<Call>)
    requires IsRun(stages, calls) && InSync(stages[0].users, stages[0].ls)
    requires forall i :: 0 <= i < |calls| ==> !calls[i].failed
    ensures InSync(stages[|calls|].users, stages[|calls|].ls)
    decreases |calls|
  {
    if calls != [] {
      var n := |calls| - 1;
      assert IsRun(stages[..n + 1], calls[..n]);
      ErrorFreeRunInSync(stages[..n + 1], calls[..n]);
      assert Applied(stages[n], calls[n], stages[n + 1]);
      ReconciledInSync(stages[n].users, calls[n].next, stages[n].ls, stages[n + 1].ls);
    }
  }

  // The k-th call knows this id from the users or from its list.
  predicate Knows(stages: seq<Stage>, calls: seq<Call>, k: nat, id: int)
    requires k < |calls| && k < |stages|
  {
    id in stages[k].users || id in calls[k].next
  }

  // The id came into the map with the i-th call, or was there at the start, and no call since
  // has known it.
  ghost predicate HeldSince(stages: seq<Stage>, calls: seq<Call>, i: nat, n: nat, id: int)
    requires n <= |calls| < |stages|
  {
    && i <= n
    && (if i == 0 then id in stages[0].ls.pairs else IsLimited(calls[i - 1].next, id))
    && forall k: nat :: i <= k < n ==> !Knows(stages, calls, k, id)
  }

  ghost predicate Held(stages: seq<Stage>, calls: seq<Call>, n: nat, id: int)
    requires n <= |calls| < |stages|
  {
    exists i: nat :: HeldSince(stages, calls, i, n, id)
  }

  lemma HeldAtStart(stages: seq<Stage>, calls: seq<Call>, id: int)
    requires |calls| < |stages|
    ensures Held(stages, calls, 0, id) <==> id in stages[0].ls.pairs
  {
    assert id in stages[0].ls.pairs ==> HeldSince(stages, calls, 0, 0, id);
  }

  lemma HeldStep(stages: seq<Stage>, calls: seq<Call>, n: nat, n': nat, id: int)
    requires n' == n + 1 <= |calls| < |stages|
    ensures Held(stages, calls, n', id) <==>
      IsLimited(calls[n].next, id) || (Held(stages, calls, n, id) && !Knows(stages, calls, n, id))
  {
    if IsLimited(calls[n].next, id) {
      assert HeldSince(stages, calls, n', n', id);
    } else {
      forall i: nat
        ensures HeldSince(stages, calls, i, n', id) <==> HeldSince(stages, calls, i, n, id) && !Knows(stages, calls, n, id)
      {
      }
    }
  }

  // What the k-th call does to the map.
  ghost predicate MapStep(stages: seq<Stage>, calls: seq<Call>, k: int, id: int) {
    0 <= k < |calls| < |stages| ==>
      (id in stages[k + 1].ls.pairs <==>
         IsLimited(calls[k].next, id) || (id in stages[k].ls.pairs && !Knows(stages, calls, k, id)))
  }

  lemma EveryMapStep(stages: seq<Stage>, calls: seq<Call>, k: nat, id: int)
    requires IsRun(stages, calls)
    ensures MapStep(stages, calls, k, id)
  {
    if k < |calls| {
      assert Applied(stages[k], calls[k], stages[k + 1]);
    }
  }

  lemma {:induction false} StepsHoldExactly(stages: seq<Stage>, calls: seq<Call>, n: nat, id: int)
    requires n <= |calls| < |stages| && forall k: nat :: MapStep(stages, calls, k, id)
    ensures id in stages[n].ls.pairs <==> Held(stages, calls, n, id)
  {
    if n == 0 {
      HeldAtStart(stages, calls, id);
    } else {
      StepsHoldExactly(stages, calls, n - 1, id);
      assert MapStep(stages, calls, n - 1, id);
      HeldStep(stages, calls, n - 1, n, id);
    }
  }

  // Over any run, failures included: a user has limiters exactly if some list limited it and
  // no call since has known it -- whatever the users applied say of it.
  lemma MapHoldsExactly(stages: seq<Stage>, calls: seq<Call>, n: nat, id: int)
    requires IsRun(stages, calls) && n <= |calls|
    ensures id in stages[n].ls.pairs <==> Held(stages, calls, n, id)
  {
    forall k: nat
      ensures MapStep(stages, calls, k, id)
    {
      EveryMapStep(stages, calls, k, id);
    }
    StepsHoldExactly(stages, calls, n, id);
  }

  // A failed call also takes the limiters of a user it would have unlimited or dropped, although
  // that user stays active with its limit: until a call succeeds or limits it again, its new
  // connections run unlimited.
  lemma {:induction false} FailureUnlimitsUser(stages: seq<Stage>, calls: seq<Call>, id: int, j: nat)
    requires IsRun(stages, calls) && 1 <= j <= |calls| && IsLimited(stages[0].users, id)
    requires forall k :: 0 <= k < j ==> calls[k].failed && !IsLimited(calls[k].next, id)
    ensures IsLimited(stages[j].users, id) && stages[j].users == stages[0].users && id !in stages[j].ls.pairs
  {
    if j > 1 {
      FailureUnlimitsUser(stages, calls, id, j - 1);
    }
    FailureUnlimits(stages, calls, id, j - 1);
  }

  lemma FailureUnlimits(stages: seq<Stage>, calls: seq<Call>, id: int, k: nat)
    requires IsRun(stages, calls) && k < |calls| && calls[k].failed
    requires IsLimited(stages[k].users, id) && !IsLimited(calls[k].next, id)
    ensures stages[k + 1].users == stages[k].users && id !in stages[k + 1].ls.pairs
  {
    assert Applied(stages[k], calls[k], stages[k + 1]);
    assert id in stages[k].users;
  }

  // A failed call can leave an orphan: the user it introduced gets a limiter, but the manager
  // does not remember the user, so if the next list lacks it nothing ever closes that limiter.
  lemma {:induction false} FailureOrphansLimiter(stages: seq<Stage>, calls: seq<Call>, id: int, j: nat)
    requires IsRun(stages, calls) && 1 <= j < |stages| && calls[0].failed
    requires IsLimited(calls[0].next, id) && id !in stages[0].users
    requires forall k :: 1 <= k < j ==> id !in calls[k].next
    ensures id in stages[j].ls.pairs && id !in stages[j].users
    decreases j
  {
    assert Applied(stages[0], calls[0], stages[1]);
    if j > 1 {
      FailureOrphansLimiter(stages, calls, id, j - 1);
      assert Applied(stages[j - 1], calls[j - 1], stages[j]);
    } else {
      assert id in stages[1].ls.pairs;
    }
  }
}
