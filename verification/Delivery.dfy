/**
 Exactly-once delivery over runs of the traffic pipeline: what the panels received under an id
 is what was committed under it, plus what flushes that failed had already delivered, plus
 what the current flush has delivered and not yet committed.
 */
module Delivery {
  import opened Decimal
  import opened Sums
  import opened Panel
  import opened SyncMachine

  function OfUser(keys: set<Key>, user: string): set<Key> {
    set k | k in keys && k.user == user
  }

  // One user's bytes over all inbounds.
  ghost function TotalFor(m: Counts, user: string): Bytes {
    Sum(OfUser(m.Keys, user), m)
  }

  lemma TotalAdd(m: Counts, k: Key, b: Bytes, user: string)
    ensures TotalFor(Add(m, k, b), user).up == TotalFor(m, user).up + (if k.user == user then b.up else 0)
    ensures TotalFor(Add(m, k, b), user).down == TotalFor(m, user).down + (if k.user == user then b.down else 0)
  {
    var m' := Add(m, k, b);
    var others := OfUser(m.Keys, user) - {k};
    SumEqual(others, m, m');
    OfUserWithout(m, k, b, user);
    if k.user == user {
      SumInsert(others, m', k);
      if k in m {
        SumInsert(others, m, k);
      }
    }
  }

  lemma OfUserWithout(m: Counts, k: Key, b: Bytes, user: string)
    ensures OfUser(Add(m, k, b).Keys, user) == if k.user == user then OfUser(m.Keys, user) - {k} + {k} else OfUser(m.Keys, user) - {k}
    ensures OfUser(m.Keys, user) == if k.user == user && k in m then OfUser(m.Keys, user) - {k} + {k} else OfUser(m.Keys, user) - {k}
  {
  }

  // The same bytes, summed per inbound as the panels do or per key as commits do.
  lemma {:induction false} SumByTag(tags: set<string>, column: map<string, Bytes>, keys: set<Key>, m: Counts, user: string)
    requires forall k :: k in keys <==> k.user == user && k.tag in tags
    requires forall tag :: tag in tags ==> Lookup(column, tag) == Lookup(m, Key(tag, user))
    ensures Sum(tags, column) == Sum(keys, m)
    decreases |tags|
  {
    if tags == {} {
      assert keys == {};
    } else {
      var tag := AnElement(tags);
      SumByTag(tags - {tag}, column, keys - {Key(tag, user)}, m, user);
      BothRemoved(tags, column, keys, m, tag, Key(tag, user));
    }
  }

  lemma BothRemoved(tags: set<string>, column: map<string, Bytes>, keys: set<Key>, m: Counts, tag: string, k: Key)
    requires tag in tags && k in keys && Lookup(column, tag) == Lookup(m, k)
    requires Sum(tags - {tag}, column) == Sum(keys - {k}, m)
    ensures Sum(tags, column) == Sum(keys, m)
  {
    SumRemove(tags, column, tag);
    SumRemove(keys, m, k);
  }

  // ---- bytes as often as panels report them ------------------------------------------------

  // Every count as many times as panels match its inbound.
  function Weigh(panels: seq<Client>, m: Counts): (w: Counts)
    ensures w.Keys == m.Keys
    ensures forall k :: Lookup(w, k) == if k in m then m[k].Times(MatchCount(panels, k.tag)) else ZERO
  {
    map k | k in m :: m[k].Times(MatchCount(panels, k.tag))
  }

  // What the panels together are due under a user key for these counts.
  ghost function Due(panels: seq<Client>, m: Counts, user: string): Bytes {
    TotalFor(Weigh(panels, m), user)
  }

  lemma TimesPlus(a: Bytes, b: Bytes, n: nat)
    ensures a.Plus(b).Times(n).up == a.Times(n).up + b.Times(n).up
    ensures a.Plus(b).Times(n).down == a.Times(n).down + b.Times(n).down
  {
    TimesIsProduct(a, n);
    TimesIsProduct(b, n);
    TimesIsProduct(a.Plus(b), n);
    Distributes(n, a.up, b.up);
    Distributes(n, a.down, b.down);
  }

  lemma Distributes(n: int, x: int, y: int)
    ensures n * (x + y) == n * x + n * y
  {
  }

  lemma NothingTimes(b: Bytes, n: nat)
    requires b.up == 0 && b.down == 0
    ensures b.Times(n).up == 0 && b.Times(n).down == 0
  {
    TimesIsProduct(b, n);
  }

  lemma SameBytes(a: Bytes, b: Bytes)
    requires a.up == b.up && a.down == b.down
    ensures a == b
  {
  }

  lemma TimesNonNegative(b: Bytes, n: nat)
    requires b.up >= 0 && b.down >= 0
    ensures b.Times(n).up >= 0 && b.Times(n).down >= 0
  {
    TimesIsProduct(b, n);
  }

  lemma WeighAdd(panels: seq<Client>, m: Counts, k: Key, b: Bytes)
    ensures var n := MatchCount(panels, k.tag);
      Lookup(Weigh(panels, Add(m, k, b)), k) == Lookup(Add(Weigh(panels, m), k, b.Times(n)), k)
  {
    TimesOfSum(Lookup(m, k), b, MatchCount(panels, k.tag), k in m, Lookup(Weigh(panels, m), k));
  }

  lemma TimesOfSum(had: Bytes, b: Bytes, n: nat, counted: bool, weighed: Bytes)
    requires if counted then weighed == had.Times(n) else weighed.up == weighed.down == had.up == had.down == 0
    ensures had.Plus(b).Times(n) == weighed.Plus(b.Times(n))
  {
    TimesPlus(had, b, n);
    if !counted {
      NothingTimes(had, n);
    }
    SameBytes(had.Plus(b).Times(n), weighed.Plus(b.Times(n)));
  }

  lemma DueAdd(panels: seq<Client>, m: Counts, k: Key, b: Bytes, user: string)
    ensures var share := b.Times(MatchCount(panels, k.tag));
      && Due(panels, Add(m, k, b), user).up == Due(panels, m, user).up + (if k.user == user then share.up else 0)
      && Due(panels, Add(m, k, b), user).down == Due(panels, m, user).down + (if k.user == user then share.down else 0)
  {
    var share := b.Times(MatchCount(panels, k.tag));
    var added, weighed := Add(Weigh(panels, m), k, share), Weigh(panels, Add(m, k, b));
    TotalAdd(Weigh(panels, m), k, share, user);
    assert weighed.Keys == added.Keys;
    forall o
      ensures Lookup(weighed, o) == Lookup(added, o)
    {
      if o == k {
        WeighAdd(panels, m, k, b);
      }
    }
    SumEqual(OfUser(added.Keys, user), added, weighed);
  }

  // What all panels together are sent of a snapshot is what they are due for it.
  lemma SentIsDue(panels: seq<Client>, delta: Counts, user: string)
    requires Numeric(user)
    ensures SentTo(panels, Nest(delta), user) == Sum(OfUser(NumericKeys(delta), user), Weigh(panels, delta))
  {
    var nested := Nest(delta);
    var times := map tag | tag in nested :: Get(nested, tag, user).Times(MatchCount(panels, tag));
    var tags := set tag | tag in nested && user in nested[tag];
    SentIsMatchCount(panels, nested, user, times);
    forall tag | tag in nested && tag !in tags
      ensures Lookup(times, tag) == ZERO
    {
      NothingTimes(Get(nested, tag, user), MatchCount(panels, tag));
      SameBytes(Lookup(times, tag), ZERO);
    }
    SumSelection(tags, nested.Keys, times, times);
    SumByTag(tags, times, OfUser(NumericKeys(delta), user), Weigh(panels, delta), user);
  }

  lemma {:induction false} SumNonNegative<K(!new)>(s: set<K>, m: map<K, Bytes>)
    requires forall k :: k in s ==> Lookup(m, k).AtLeast(ZERO)
    ensures Sum(s, m).AtLeast(ZERO)
    decreases |s|
  {
    if s != {} {
      SumNonNegative(s - {AnElement(s)}, m);
    }
  }

  // ---- the account of one id -------------------------------------------------------------

  // What the current flush has delivered and not yet committed.
  ghost function InFlight(panels: seq<Client>, pc: Pc, uid: int): Bytes {
    match pc
    case Pushing(_, _, delivered) => Lookup(delivered, uid)
    case Committing(delta, todo) => Sum(OfUser(todo, Itoa(uid)), Weigh(panels, delta))
    case _ => ZERO
  }

  // The bytes received under an id are the committed ones, those failed flushes delivered,
  // and those in flight.
  ghost predicate BooksAt(s: State, uid: int, committed: Bytes, flight: Bytes) {
    && Lookup(s.received, uid).up == committed.up + Lookup(s.resent, uid).up + flight.up
    && Lookup(s.received, uid).down == committed.down + Lookup(s.resent, uid).down + flight.down
    && Lookup(s.resent, uid).up >= 0 && Lookup(s.resent, uid).down >= 0
    && flight.up >= 0 && flight.down >= 0
  }

  // While pushing, what was delivered and what the panels still to be pushed are sent make up
  // what all panels together are sent.
  ghost predicate OnTheWay(panels: seq<Client>, pc: Pc, uid: int) {
    pc.Pushing? ==>
      var whole, left := SentTo(panels, Nest(pc.delta), Itoa(uid)), SentFrom(panels, pc.next, Nest(pc.delta), Itoa(uid));
      && whole.up == Lookup(pc.delivered, uid).up + left.up
      && whole.down == Lookup(pc.delivered, uid).down + left.down
  }

  ghost predicate CommitAccount(panels: seq<Client>, s: State, uid: int, committed: Bytes) {
    s.pc.Committing? && BooksAt(s, uid, committed, Sum(OfUser(s.pc.todo, Itoa(uid)), Weigh(panels, s.pc.delta)))
  }

  ghost predicate Account(panels: seq<Client>, s: State, uid: int) {
    AccountWith(panels, s, uid, Due(panels, s.committed, Itoa(uid)))
  }

  ghost predicate AccountWith(panels: seq<Client>, s: State, uid: int, committed: Bytes) {
    match s.pc
    case Pushing(_, _, delivered) => BooksAt(s, uid, committed, Lookup(delivered, uid))
    case Committing(_, _) => CommitAccount(panels, s, uid, committed)
    case _ => BooksAt(s, uid, committed, ZERO)
  }

  // Numeric user keys in the map are canonical ids.
  ghost predicate CanonicalLive(live: map<Key, Storage>) {
    forall k :: k in live && Numeric(k.user) ==> Canonical(k.user)
  }

  lemma CanonicalDelta(live: map<Key, Storage>, delta: Counts)
    requires CanonicalLive(live) && Covers(live, delta.Keys, delta)
    ensures CanonicalKeys(Nest(delta))
  {
    var nested := Nest(delta);
    forall tag, user | tag in nested && user in nested[tag] && Numeric(user)
      ensures Canonical(user)
    {
      assert Key(tag, user) in delta;
    }
  }

  // A payload carries exactly the next panel's share.
  lemma PayloadShare(panels: seq<Client>, live: map<Key, Storage>, pc: Pc, payload: map<int, Bytes>, uid: int)
    requires CanonicalLive(live) && CanPush(panels, pc, payload) && Covers(live, pc.delta.Keys, pc.delta)
    requires 0 <= uid <= MAX_INT
    ensures Lookup(payload, uid) == Sum(Matched(panels[pc.next], Nest(pc.delta)), Column(Nest(pc.delta), Itoa(uid)))
  {
    CanonicalDelta(live, pc.delta);
    ShareSent(panels[pc.next], Nest(pc.delta), payload, uid);
  }

  lemma ShareSent(c: Client, nested: Delta, payload: map<int, Bytes>, uid: int)
    requires CanonicalKeys(nested) && Sends(c, nested, payload) && 0 <= uid <= MAX_INT
    ensures Lookup(payload, uid) == Sum(Matched(c, nested), Column(nested, Itoa(uid)))
  {
    var flat :| IsFlat(Matched(c, nested), nested, flat) && IsPayload(flat, payload);
    PayloadIsExact(c, nested, flat, payload, uid);
  }

  lemma ColumnNonNegative(live: map<Key, Storage>, delta: Counts, tags: set<string>, user: string)
    requires Covers(live, delta.Keys, delta)
    ensures Sum(tags, Column(Nest(delta), user)).AtLeast(ZERO)
  {
    forall tag
      ensures Lookup(Column(Nest(delta), user), tag).AtLeast(ZERO)
    {
      assert Get(Nest(delta), tag, user) == Lookup(delta, Key(tag, user));
    }
    SumNonNegative(tags, Column(Nest(delta), user));
  }

  // ---- what each step does to the account of one id ---------------------------------------

  ghost predicate SameBooks(s: State, t: State) {
    t.received == s.received && t.resent == s.resent && t.committed == s.committed
  }

  ghost predicate SameFlush(s: State, t: State) {
    && SameBooks(s, t)
    && (t.pc == s.pc || (!s.pc.Pushing? && !s.pc.Committing? && !t.pc.Pushing? && !t.pc.Committing?))
  }

  ghost predicate Begins(s: State, t: State) {
    && SameBooks(s, t) && !s.pc.Pushing? && !s.pc.Committing?
    && t.pc.Pushing? && t.pc.next == 0 && t.pc.delivered == map[]
  }

  // One panel accepts b bytes of this id ...
  ghost predicate Accepts(s: State, t: State, uid: int, b: Bytes) {
    && s.pc.Pushing? && t.pc.Pushing? && t.committed == s.committed && t.resent == s.resent
    && b.up >= 0 && Lookup(t.received, uid).up == Lookup(s.received, uid).up + b.up
    && b.down >= 0 && Lookup(t.received, uid).down == Lookup(s.received, uid).down + b.down
    && Lookup(t.pc.delivered, uid).up == Lookup(s.pc.delivered, uid).up + b.up
    && Lookup(t.pc.delivered, uid).down == Lookup(s.pc.delivered, uid).down + b.down
  }

  // ... or the flush fails, with b bytes delivered last.
  ghost predicate Fails(s: State, t: State, uid: int, b: Bytes) {
    && s.pc.Pushing? && t.pc.Idle? && t.committed == s.committed
    && b.up >= 0 && Lookup(t.received, uid).up == Lookup(s.received, uid).up + b.up
    && b.down >= 0 && Lookup(t.received, uid).down == Lookup(s.received, uid).down + b.down
    && Lookup(t.resent, uid).up == Lookup(s.resent, uid).up + Lookup(s.pc.delivered, uid).up + b.up
    && Lookup(t.resent, uid).down == Lookup(s.resent, uid).down + Lookup(s.pc.delivered, uid).down + b.down
  }

  // A flush all panels accepted has delivered exactly what it is about to commit.
  ghost predicate Turns(panels: seq<Client>, s: State, t: State, uid: int) {
    && SameBooks(s, t) && s.pc.Pushing? && t.pc.Committing?
    && Sum(OfUser(t.pc.todo, Itoa(uid)), Weigh(panels, t.pc.delta)).up == Lookup(s.pc.delivered, uid).up
    && Sum(OfUser(t.pc.todo, Itoa(uid)), Weigh(panels, t.pc.delta)).down == Lookup(s.pc.delivered, uid).down
  }

  // b bytes of this id are committed.
  ghost predicate Commits(panels: seq<Client>, s: State, t: State, uid: int, b: Bytes) {
    && s.pc.Committing? && t.pc.Committing? && t.received == s.received && t.resent == s.resent
    && var total, total' := Due(panels, s.committed, Itoa(uid)), Due(panels, t.committed, Itoa(uid));
    && total'.up == total.up + b.up && total'.down == total.down + b.down
    && var left, left' := Sum(OfUser(s.pc.todo, Itoa(uid)), Weigh(panels, s.pc.delta)), Sum(OfUser(t.pc.todo, Itoa(uid)), Weigh(panels, t.pc.delta));
    && left.up == left'.up + b.up && left'.up >= 0 && left.down == left'.down + b.down && left'.down >= 0
  }

  ghost predicate Ends(s: State, t: State) {
    SameBooks(s, t) && s.pc.Committing? && s.pc.todo == {} && t.pc.Idle?
  }

  ghost predicate FlushStep(panels: seq<Client>, s: State, t: State, uid: int) {
    || SameFlush(s, t)
    || Begins(s, t)
    || (exists b :: Accepts(s, t, uid, b))
    || (exists b :: Fails(s, t, uid, b))
    || Turns(panels, s, t, uid)
    || (exists b :: Commits(panels, s, t, uid, b))
    || Ends(s, t)
  }

  lemma MoveIsFlushStep(panels: seq<Client>, s: State, t: State, uid: int)
    requires PcFacts(s.live, s.pc) && CanonicalLive(s.live) && 0 <= uid <= MAX_INT
    requires Moves(panels, s.live, s.pc, t.pc) && SameBooks(s, t) && OnTheWay(panels, s.pc, uid)
    ensures FlushStep(panels, s, t, uid)
  {
    MoveKinds(panels, s.live, s.pc, t.pc);
    if s.pc.Pushing? {
      DeliveredIsCommitted(panels, s.live, s.pc, t.pc, uid);
      assert Turns(panels, s, t, uid);
    } else if s.pc.Committing? {
      assert Ends(s, t);
    } else if t.pc.Pushing? {
      assert Begins(s, t);
    } else {
      assert SameFlush(s, t);
    }
  }

  // A flush begins with nothing delivered and ends with nothing left to commit.
  lemma MoveKinds(panels: seq<Client>, live: map<Key, Storage>, pc: Pc, pc': Pc)
    requires Moves(panels, live, pc, pc')
    ensures pc.Pushing? ==> StartCommit(panels, pc, pc')
    ensures pc.Committing? ==> pc.todo == {} && pc'.Idle?
    ensures !pc.Pushing? ==> !pc'.Committing? && (pc'.Pushing? ==> pc'.next == 0 && pc'.delivered == map[])
  {
  }

  lemma DeliveredIsCommitted(panels: seq<Client>, live: map<Key, Storage>, pc: Pc, pc': Pc, uid: int)
    requires CanonicalLive(live) && PcFacts(live, pc) && StartCommit(panels, pc, pc') && OnTheWay(panels, pc, uid)
    requires 0 <= uid <= MAX_INT
    ensures Sum(OfUser(pc'.todo, Itoa(uid)), Weigh(panels, pc'.delta)).up == Lookup(pc.delivered, uid).up
    ensures Sum(OfUser(pc'.todo, Itoa(uid)), Weigh(panels, pc'.delta)).down == Lookup(pc.delivered, uid).down
  {
    AtoiItoa(uid);
    SentIsDue(panels, pc.delta, Itoa(uid));
  }

  lemma AcceptedAccepts(s: State, t: State, payload: map<int, Bytes>, uid: int)
    requires PushAccepted(s, t, payload) && Lookup(payload, uid).up >= 0 && Lookup(payload, uid).down >= 0
    ensures Accepts(s, t, uid, Lookup(payload, uid))
  {
  }

  lemma LostFails(s: State, t: State, uid: int)
    requires PushLost(s, t)
    ensures Fails(s, t, uid, ZERO)
  {
  }

  lemma ReplyLostFails(s: State, t: State, payload: map<int, Bytes>, uid: int)
    requires ReplyLost(s, t, payload) && Lookup(payload, uid).up >= 0 && Lookup(payload, uid).down >= 0
    ensures Fails(s, t, uid, Lookup(payload, uid))
  {
    var delivered :| Merged(delivered, s.pc.delivered, payload) && Merged(t.resent, s.resent, delivered);
    assert Lookup(delivered, uid).up == Lookup(s.pc.delivered, uid).up + Lookup(payload, uid).up;
    assert Lookup(delivered, uid).down == Lookup(s.pc.delivered, uid).down + Lookup(payload, uid).down;
  }

  lemma PushIsFlushStep(panels: seq<Client>, s: State, t: State, payload: map<int, Bytes>, uid: int)
    requires s.pc.Pushing? && Covers(s.live, s.pc.delta.Keys, s.pc.delta) && CanonicalLive(s.live)
    requires Push(panels, s, t, payload) && 0 <= uid <= MAX_INT
    ensures (exists b :: Accepts(s, t, uid, b)) || exists b :: Fails(s, t, uid, b)
  {
    PayloadNonNegative(panels, s.live, s.pc, payload, uid);
    if PushAccepted(s, t, payload) {
      AcceptedAccepts(s, t, payload, uid);
    } else if PushLost(s, t) {
      LostFails(s, t, uid);
    } else {
      ReplyLostFails(s, t, payload, uid);
    }
  }

  lemma CommitCommits(panels: seq<Client>, s: State, t: State, k: Key, uid: int)
    requires Commit(s, t, k) && k in s.live && Covers(s.live, s.pc.todo, s.pc.delta)
    ensures Commits(panels, s, t, uid,
                    if k.user == Itoa(uid) then s.pc.delta[k].Times(MatchCount(panels, k.tag)) else ZERO)
  {
    DueAdd(panels, s.committed, k, s.pc.delta[k], Itoa(uid));
    CommitInFlight(panels, s.live, s.pc.delta, s.pc.todo, k, Itoa(uid));
  }

  lemma CommitInFlight(panels: seq<Client>, live: map<Key, Storage>, delta: Counts, todo: set<Key>, k: Key, user: string)
    requires Covers(live, todo, delta) && k in todo
    ensures var w := Weigh(panels, delta);
      var left, left' := Sum(OfUser(todo, user), w), Sum(OfUser(todo - {k}, user), w);
      && left.up == left'.up + (if k.user == user then w[k].up else 0) && left'.up >= 0
      && left.down == left'.down + (if k.user == user then w[k].down else 0) && left'.down >= 0
  {
    var w := Weigh(panels, delta);
    forall o | o in OfUser(todo - {k}, user)
      ensures Lookup(w, o).AtLeast(ZERO)
    {
      TimesNonNegative(delta[o], MatchCount(panels, o.tag));
    }
    SumNonNegative(OfUser(todo - {k}, user), w);
    if k.user == user {
      SumRemove(OfUser(todo, user), w, k);
      assert OfUser(todo, user) - {k} == OfUser(todo - {k}, user);
    } else {
      assert OfUser(todo, user) == OfUser(todo - {k}, user);
    }
  }

  lemma PayloadNonNegative(panels: seq<Client>, live: map<Key, Storage>, pc: Pc, payload: map<int, Bytes>, uid: int)
    requires CanonicalLive(live) && CanPush(panels, pc, payload) && Covers(live, pc.delta.Keys, pc.delta)
    requires 0 <= uid <= MAX_INT
    ensures Lookup(payload, uid).up >= 0 && Lookup(payload, uid).down >= 0
  {
    PayloadShare(panels, live, pc, payload, uid);
    ColumnNonNegative(live, pc.delta, Matched(panels[pc.next], Nest(pc.delta)), Itoa(uid));
  }

  lemma OpenFrame(s: State, t: State, k: Key)
    requires OpenStep(s, t, k)
    ensures SameFlush(s, t)
  {
  }

  lemma CountFrame(s: State, t: State, k: Key, b: Bytes)
    requires CountStep(s, t, k, b)
    ensures SameFlush(s, t)
  {
  }

  lemma CountDetachedFrame(s: State, t: State, i: nat, b: Bytes)
    requires CountDetached(s, t, i, b)
    ensures SameFlush(s, t)
  {
  }

  lemma DeleteFrame(s: State, t: State)
    requires Delete(s, t)
    ensures SameFlush(s, t)
  {
  }

  ghost predicate FlushKind(panels: seq<Client>, s: State, t: State) {
    || SameFlush(s, t)
    || MoveStep(panels, s, t)
    || (exists payload :: Push(panels, s, t, payload))
    || exists k :: Commit(s, t, k)
  }

  // The connections' steps and the removal of a storage leave the flush alone.
  lemma NextIsFlushKind(panels: seq<Client>, s: State, t: State)
    requires Next(panels, s, t)
    ensures FlushKind(panels, s, t)
  {
    if k :| OpenStep(s, t, k) {
      OpenFrame(s, t, k);
    } else if k, b :| CountStep(s, t, k, b) {
      CountFrame(s, t, k, b);
    } else if i, b :| CountDetached(s, t, i, b) {
      CountDetachedFrame(s, t, i, b);
    } else if Delete(s, t) {
      DeleteFrame(s, t);
    }
  }

  lemma NextIsFlushStep(panels: seq<Client>, s: State, t: State, uid: int)
    requires Conserves(s) && CanonicalLive(s.live) && Next(panels, s, t) && 0 <= uid <= MAX_INT
    requires OnTheWay(panels, s.pc, uid)
    ensures FlushStep(panels, s, t, uid)
  {
    NextIsFlushKind(panels, s, t);
    KindIsFlushStep(panels, s, t, uid);
  }

  lemma KindIsFlushStep(panels: seq<Client>, s: State, t: State, uid: int)
    requires PcFacts(s.live, s.pc) && CanonicalLive(s.live) && FlushKind(panels, s, t) && 0 <= uid <= MAX_INT
    requires OnTheWay(panels, s.pc, uid)
    ensures FlushStep(panels, s, t, uid)
  {
    if MoveStep(panels, s, t) {
      MoveIsFlushStep(panels, s, t, uid);
    } else if payload :| Push(panels, s, t, payload) {
      PushIsFlushStep(panels, s, t, payload, uid);
    } else if k :| Commit(s, t, k) {
      CommitCommits(panels, s, t, k, uid);
    }
  }

  // ---- every step keeps the account ------------------------------------------------------

  lemma BooksMove(s: State, t: State, uid: int, committed: Bytes, flight: Bytes, flight': Bytes)
    requires SameBooks(s, t) && BooksAt(s, uid, committed, flight)
    requires flight'.up == flight.up && flight'.down == flight.down
    ensures BooksAt(t, uid, committed, flight')
  {
  }

  lemma SameFlushKeeps(panels: seq<Client>, s: State, t: State, uid: int, committed: Bytes)
    requires SameFlush(s, t) && AccountWith(panels, s, uid, committed)
    ensures AccountWith(panels, t, uid, committed)
  {
    if t.pc != s.pc {
      BooksMove(s, t, uid, committed, ZERO, ZERO);
    }
  }

  lemma BeginsKeeps(panels: seq<Client>, s: State, t: State, uid: int, committed: Bytes)
    requires Begins(s, t) && AccountWith(panels, s, uid, committed)
    ensures AccountWith(panels, t, uid, committed)
  {
    BooksMove(s, t, uid, committed, ZERO, Lookup(t.pc.delivered, uid));
  }

  lemma TurnsKeeps(panels: seq<Client>, s: State, t: State, uid: int, committed: Bytes)
    requires Turns(panels, s, t, uid) && BooksAt(s, uid, committed, Lookup(s.pc.delivered, uid))
    ensures CommitAccount(panels, t, uid, committed)
  {
    BooksMove(s, t, uid, committed, Lookup(s.pc.delivered, uid), Sum(OfUser(t.pc.todo, Itoa(uid)), Weigh(panels, t.pc.delta)));
  }

  lemma EndsKeeps(panels: seq<Client>, s: State, t: State, uid: int, committed: Bytes)
    requires Ends(s, t) && CommitAccount(panels, s, uid, committed)
    ensures BooksAt(t, uid, committed, ZERO)
  {
    assert OfUser(s.pc.todo, Itoa(uid)) == {};
    BooksMove(s, t, uid, committed, ZERO, ZERO);
  }

  lemma AcceptsKeeps(s: State, t: State, uid: int, b: Bytes, committed: Bytes)
    requires Accepts(s, t, uid, b) && BooksAt(s, uid, committed, Lookup(s.pc.delivered, uid))
    ensures BooksAt(t, uid, committed, Lookup(t.pc.delivered, uid))
  {
  }

  // What a failing flush has delivered, an arrived payload without a reply included, will be
  // delivered again.
  lemma FailsKeeps(s: State, t: State, uid: int, b: Bytes, committed: Bytes)
    requires Fails(s, t, uid, b) && BooksAt(s, uid, committed, Lookup(s.pc.delivered, uid))
    ensures BooksAt(t, uid, committed, ZERO)
  {
  }

  lemma CommitsKeeps(s: State, t: State, uid: int, b: Bytes, committed: Bytes, committed': Bytes, flight: Bytes, flight': Bytes)
    requires t.received == s.received && t.resent == s.resent && BooksAt(s, uid, committed, flight)
    requires committed'.up == committed.up + b.up && flight.up == flight'.up + b.up && flight'.up >= 0
    requires committed'.down == committed.down + b.down && flight.down == flight'.down + b.down && flight'.down >= 0
    ensures BooksAt(t, uid, committed', flight')
  {
  }

  lemma StepKeepsAccount(panels: seq<Client>, s: State, t: State, uid: int)
    requires FlushStep(panels, s, t, uid) && Account(panels, s, uid)
    ensures Account(panels, t, uid)
  {
    var user, committed := Itoa(uid), Due(panels, s.committed, Itoa(uid));
    if SameFlush(s, t) {
      SameFlushKeeps(panels, s, t, uid, committed);
    } else if Begins(s, t) {
      BeginsKeeps(panels, s, t, uid, committed);
    } else if b :| Accepts(s, t, uid, b) {
      AcceptsKeeps(s, t, uid, b, committed);
    } else if b :| Fails(s, t, uid, b) {
      FailsKeeps(s, t, uid, b, committed);
    } else if Turns(panels, s, t, uid) {
      TurnsKeeps(panels, s, t, uid, committed);
    } else if b :| Commits(panels, s, t, uid, b) {
      CommitsKeeps(s, t, uid, b, committed, Due(panels, t.committed, user),
                   Sum(OfUser(s.pc.todo, user), Weigh(panels, s.pc.delta)), Sum(OfUser(t.pc.todo, user), Weigh(panels, t.pc.delta)));
    } else {
      EndsKeeps(panels, s, t, uid, committed);
    }
  }

  // ---- every step keeps the panels' shares adding up -------------------------------------

  lemma PushStaysOnTheWay(panels: seq<Client>, live: map<Key, Storage>, pc: Pc, pc': Pc, payload: map<int, Bytes>, uid: int)
    requires CanPush(panels, pc, payload)
    requires pc'.Pushing? && pc'.delta == pc.delta && pc'.next == pc.next + 1 && Merged(pc'.delivered, pc.delivered, payload)
    requires CanonicalLive(live) && Covers(live, pc.delta.Keys, pc.delta) && 0 <= uid <= MAX_INT
    requires OnTheWay(panels, pc, uid)
    ensures OnTheWay(panels, pc', uid)
  {
    PayloadShare(panels, live, pc, payload, uid);
    assert Lookup(pc'.delivered, uid).up == Lookup(pc.delivered, uid).up + Lookup(payload, uid).up;
  }

  lemma MoveStaysOnTheWay(panels: seq<Client>, live: map<Key, Storage>, pc: Pc, pc': Pc, uid: int)
    requires Moves(panels, live, pc, pc')
    ensures OnTheWay(panels, pc', uid)
  {
    MoveKinds(panels, live, pc, pc');
  }

  lemma SameFlushStaysOnTheWay(panels: seq<Client>, s: State, t: State, uid: int)
    requires SameFlush(s, t) && OnTheWay(panels, s.pc, uid)
    ensures OnTheWay(panels, t.pc, uid)
  {
  }

  lemma PushPcs(panels: seq<Client>, s: State, t: State, payload: map<int, Bytes>)
    requires Push(panels, s, t, payload)
    ensures CanPush(panels, s.pc, payload)
    ensures t.pc.Idle? || (&& t.pc.Pushing? && t.pc.delta == s.pc.delta && t.pc.next == s.pc.next + 1
                           && Merged(t.pc.delivered, s.pc.delivered, payload))
  {
  }

  lemma PushStepStaysOnTheWay(panels: seq<Client>, s: State, t: State, payload: map<int, Bytes>, uid: int)
    requires Push(panels, s, t, payload) && CanonicalLive(s.live) && PcFacts(s.live, s.pc) && 0 <= uid <= MAX_INT
    requires OnTheWay(panels, s.pc, uid)
    ensures OnTheWay(panels, t.pc, uid)
  {
    PushPcs(panels, s, t, payload);
    if t.pc.Pushing? {
      PushStaysOnTheWay(panels, s.live, s.pc, t.pc, payload, uid);
    }
  }

  lemma NextStaysOnTheWay(panels: seq<Client>, s: State, t: State, uid: int)
    requires Conserves(s) && CanonicalLive(s.live) && Next(panels, s, t) && 0 <= uid <= MAX_INT
    requires OnTheWay(panels, s.pc, uid)
    ensures OnTheWay(panels, t.pc, uid)
  {
    if MoveStep(panels, s, t) {
      MoveStaysOnTheWay(panels, s.live, s.pc, t.pc, uid);
    } else if payload :| Push(panels, s, t, payload) {
      PushStepStaysOnTheWay(panels, s, t, payload, uid);
    } else if k :| Commit(s, t, k) {
      assert t.pc.Committing?;
    } else {
      NextIsFlushKind(panels, s, t);
      SameFlushStaysOnTheWay(panels, s, t, uid);
    }
  }

  lemma {:induction false} RunAccount(panels: seq<Client>, run: seq<State>, i: nat, uid: int)
    requires IsRun(panels, run) && i < |run| && 0 <= uid <= MAX_INT
    requires forall j :: 0 <= j < i ==> CanonicalLive(run[j].live)
    ensures Account(panels, run[i], uid) && OnTheWay(panels, run[i].pc, uid)
  {
    if i == 0 {
      InitialAccount(panels, run[0], uid);
    } else {
      RunAccount(panels, run, i - 1, uid);
      RunConserves(panels, run, i - 1);
      assert StepAt(panels, run, i - 1);
      NextIsFlushStep(panels, run[i - 1], run[i], uid);
      StepKeepsAccount(panels, run[i - 1], run[i], uid);
      NextStaysOnTheWay(panels, run[i - 1], run[i], uid);
    }
  }

  lemma InitialAccount(panels: seq<Client>, s: State, uid: int)
    requires Initial(s)
    ensures Account(panels, s, uid)
  {
    assert OfUser({}, Itoa(uid)) == {};
  }

  // The law of delivery, over any run whose numeric keys are canonical, however the inbounds
  // are reported: what the panels received under an id is what was committed under its key,
  // each inbound's bytes as often as panels match it, plus what failed flushes delivered, plus
  // what the current one has delivered and not yet committed.
  lemma DeliveryLaw(panels: seq<Client>, run: seq<State>, i: nat, uid: int)
    requires IsRun(panels, run) && i < |run| && 0 <= uid <= MAX_INT
    requires forall j :: 0 <= j < i ==> CanonicalLive(run[j].live)
    ensures BooksAt(run[i], uid, Due(panels, run[i].committed, Itoa(uid)), InFlight(panels, run[i].pc, uid))
  {
    RunAccount(panels, run, i, uid);
    AccountBooks(panels, run[i], uid);
  }

  lemma AccountBooks(panels: seq<Client>, s: State, uid: int)
    requires Account(panels, s, uid)
    ensures BooksAt(s, uid, Due(panels, s.committed, Itoa(uid)), InFlight(panels, s.pc, uid))
  {
  }

  // Every inbound in the map is reported by exactly one panel, and numeric user keys are
  // canonical ids.
  ghost predicate Wired(panels: seq<Client>, live: map<Key, Storage>) {
    CanonicalLive(live) && forall k :: k in live ==> MatchCount(panels, k.tag) == 1
  }

  // Only keys in the map are ever committed.
  lemma {:induction false} CommittedOnce(panels: seq<Client>, run: seq<State>, i: nat)
    requires IsRun(panels, run) && i < |run|
    requires forall j :: 0 <= j < i ==> Wired(panels, run[j].live)
    ensures forall k :: k in run[i].committed ==> MatchCount(panels, k.tag) == 1
  {
    if i > 0 {
      CommittedOnce(panels, run, i - 1);
      assert StepAt(panels, run, i - 1);
      StepCommits(panels, run[i - 1], run[i]);
    }
  }

  lemma StepCommits(panels: seq<Client>, s: State, t: State)
    requires Next(panels, s, t)
    ensures forall k :: k in t.committed ==> k in s.committed || k in s.live
  {
    if MoveStep(panels, s, t) {
    } else if payload :| Push(panels, s, t, payload) {
      PushFrame(panels, s, t, payload);
    } else if k :| Commit(s, t, k) {
    } else {
      NextIsFlushKind(panels, s, t);
    }
  }

  lemma DueIsTotal(panels: seq<Client>, m: Counts, user: string)
    requires forall k :: k in m ==> MatchCount(panels, k.tag) == 1
    ensures Due(panels, m, user) == TotalFor(m, user)
  {
    forall k | k in OfUser(m.Keys, user)
      ensures Lookup(Weigh(panels, m), k) == Lookup(m, k)
    {
      Once(m[k]);
    }
    SumEqual(OfUser(m.Keys, user), Weigh(panels, m), m);
  }

  // In particular, over any run in which every inbound is reported by exactly one panel: the
  // panels received at least what was committed, and with no flush under way exactly that, if
  // and only if no failed flush had delivered anything.
  lemma ExactlyOnce(panels: seq<Client>, run: seq<State>, i: nat, uid: int)
    requires IsRun(panels, run) && i < |run| && 0 <= uid <= MAX_INT
    requires forall j :: 0 <= j < i ==> Wired(panels, run[j].live)
    ensures BooksAt(run[i], uid, TotalFor(run[i].committed, Itoa(uid)), InFlight(panels, run[i].pc, uid))
    ensures Lookup(run[i].received, uid).AtLeast(TotalFor(run[i].committed, Itoa(uid)))
    ensures run[i].pc.Idle? ==>
      (Lookup(run[i].received, uid) == TotalFor(run[i].committed, Itoa(uid)) <==> Lookup(run[i].resent, uid) == ZERO)
  {
    DeliveryLaw(panels, run, i, uid);
    CommittedOnce(panels, run, i);
    DueIsTotal(panels, run[i].committed, Itoa(uid));
    BooksBounds(run[i], uid, TotalFor(run[i].committed, Itoa(uid)), InFlight(panels, run[i].pc, uid));
  }

  lemma BooksBounds(s: State, uid: int, committed: Bytes, flight: Bytes)
    requires BooksAt(s, uid, committed, flight)
    ensures Lookup(s.received, uid).AtLeast(committed)
    ensures flight.up == 0 && flight.down == 0 ==> (Lookup(s.received, uid) == committed <==> Lookup(s.resent, uid) == ZERO)
  {
  }

  // ---- the wiring is needed ----------------------------------------------------------------

  // Panels report every inbound at least once, or every inbound at most once.
  predicate OnOneSide(n: nat, twice: bool) {
    if twice then n >= 1 else n <= 1
  }

  predicate FarApart(a: Bytes, b: Bytes, twice: bool) {
    if twice then a.AtLeast(b) else b.AtLeast(a)
  }

  predicate Unaffected(b: Bytes, n: nat) {
    n == 1 || (b.up == 0 && b.down == 0)
  }

  lemma ShareOf(b: Bytes, n: nat, twice: bool)
    requires b.up >= 0 && b.down >= 0 && OnOneSide(n, twice)
    ensures FarApart(b.Times(n), b, twice)
    ensures b.Times(n).up == b.up && b.Times(n).down == b.down <==> Unaffected(b, n)
  {
    TimesIsProduct(b, n);
    ProductAgainst(n, b.up);
    ProductAgainst(n, b.down);
  }

  lemma ProductAgainst(n: nat, x: int)
    requires x >= 0
    ensures n >= 1 ==> n * x >= x
    ensures n <= 1 ==> n * x <= x
    ensures n * x == x <==> n == 1 || x == 0
  {
    assert n * x == x <==> (n - 1) * x == 0;
    if n >= 1 {
      assert n * x == x + (n - 1) * x;
    }
  }

  lemma ApartStep(a: Bytes, b: Bytes, a': Bytes, b': Bytes, twice: bool)
    requires FarApart(a, b, twice) && FarApart(a', b', twice)
    ensures FarApart(a.Plus(a'), b.Plus(b'), twice)
    ensures a.Plus(a').up == b.Plus(b').up && a.Plus(a').down == b.Plus(b').down
       <==> a.up == b.up && a.down == b.down && a'.up == b'.up && a'.down == b'.down
  {
  }

  // On one side there is no cancelling out: the shares add up to the counts only when every
  // key with bytes is reported once.
  lemma {:induction false} SharesAddUp(panels: seq<Client>, keys: set<Key>, m: Counts, twice: bool)
    requires forall k :: k in keys ==> k in m && m[k].up >= 0 && m[k].down >= 0
    requires forall k :: k in keys ==> OnOneSide(MatchCount(panels, k.tag), twice)
    ensures var shares, counts := Sum(keys, Weigh(panels, m)), Sum(keys, m);
      && FarApart(shares, counts, twice)
      && (shares.up == counts.up && shares.down == counts.down
          <==> forall k :: k in keys ==> Unaffected(m[k], MatchCount(panels, k.tag)))
    decreases |keys|
  {
    if keys != {} {
      var k, w := AnElement(keys), Weigh(panels, m);
      SumRemove(keys, w, k);
      SumRemove(keys, m, k);
      SharesAddUp(panels, keys - {k}, m, twice);
      ShareOf(m[k], MatchCount(panels, k.tag), twice);
      ApartStep(Lookup(w, k), m[k], Sum(keys - {k}, w), Sum(keys - {k}, m), twice);
      assert forall o :: o in keys <==> o == k || o in keys - {k};
    }
  }

  // With no flush under way and nothing resent, the panels received exactly what was committed
  // if and only if every inbound with bytes committed is reported by exactly one panel -- among
  // wirings that report every committed inbound, or none of them twice.
  lemma WiringIsNeeded(panels: seq<Client>, run: seq<State>, i: nat, uid: int, twice: bool)
    requires IsRun(panels, run) && i < |run| && 0 <= uid <= MAX_INT
    requires forall j :: 0 <= j < i ==> CanonicalLive(run[j].live)
    requires run[i].pc.Idle? && Lookup(run[i].resent, uid).up == Lookup(run[i].resent, uid).down == 0
    requires forall k :: k in run[i].committed ==> OnOneSide(MatchCount(panels, k.tag), twice)
    ensures var received, committed := Lookup(run[i].received, uid), TotalFor(run[i].committed, Itoa(uid));
      && FarApart(received, committed, twice)
      && (received.up == committed.up && received.down == committed.down <==>
          forall k :: k in run[i].committed && k.user == Itoa(uid) ==> Unaffected(run[i].committed[k], MatchCount(panels, k.tag)))
  {
    var m, keys := run[i].committed, OfUser(run[i].committed.Keys, Itoa(uid));
    DeliveryLaw(panels, run, i, uid);
    RunConserves(panels, run, i);
    forall k | k in keys
      ensures m[k].up >= 0 && m[k].down >= 0
    {
      assert Lookup(m, k).AtLeast(ZERO);
    }
    SharesAddUp(panels, keys, m, twice);
    SameKeys(panels, m, Itoa(uid));
  }

  lemma SameKeys(panels: seq<Client>, m: Counts, user: string)
    ensures Due(panels, m, user) == Sum(OfUser(m.Keys, user), Weigh(panels, m))
  {
    assert OfUser(Weigh(panels, m).Keys, user) == OfUser(m.Keys, user);
  }

  // Only a flush that fails has anything delivered again.
  lemma {:induction false} OnlyFailuresResend(panels: seq<Client>, run: seq<State>, i: nat)
    requires IsRun(panels, run) && i < |run|
    requires forall j :: 0 <= j < i ==> !(run[j].pc.Pushing? && run[j + 1].pc.Idle?)
    ensures run[i].resent == map[]
  {
    if i > 0 {
      OnlyFailuresResend(panels, run, i - 1);
      assert StepAt(panels, run, i - 1);
      StepResends(panels, run[i - 1], run[i]);
    }
  }

  lemma StepResends(panels: seq<Client>, s: State, t: State)
    requires Next(panels, s, t) && !(s.pc.Pushing? && t.pc.Idle?)
    ensures t.resent == s.resent
  {
    if MoveStep(panels, s, t) {
    } else if payload :| Push(panels, s, t, payload) {
      PushResends(s, t, payload);
    } else if k :| Commit(s, t, k) {
    } else {
      NextIsFlushKind(panels, s, t);
    }
  }

  lemma PushResends(s: State, t: State, payload: map<int, Bytes>)
    requires s.pc.Pushing? && !t.pc.Idle?
    requires PushAccepted(s, t, payload) || PushLost(s, t) || ReplyLost(s, t, payload)
    ensures t.resent == s.resent
  {
  }
}
