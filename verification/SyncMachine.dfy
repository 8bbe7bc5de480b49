/**
 The traffic pipeline as a state machine. Any number of connections count bytes into storages
 while a single syncer removes the storages of absent users, snapshots what is not yet
 committed, pushes the snapshot to the panels one after another, and commits it when all of
 them accepted it. Every load of an atomic counter is a step of its own.
 */
module SyncMachine {
  import opened Decimal
  import opened Sums
  import opened Panel

  // One user on one inbound, and a byte count for each such pair.
  datatype Key = Key(tag: string, user: string)

  type Counts = map<Key, Bytes>

  datatype Storage = Storage(counted: Bytes, committed: Bytes) {
    function Pending(): Bytes {
      counted.Minus(committed)
    }
  }

  datatype Detached = Detached(key: Key, storage: Storage)

  // Where the syncer is. `late` is what was counted in each direction since that direction
  // was found to have nothing pending.
  datatype Pc =
    | Idle
    | Removing(active: set<string>)
    | UpChecked(active: set<string>, key: Key, late: Bytes)
    | Doomed(active: set<string>, key: Key, late: Bytes)
    | Snapping(todo: set<Key>, delta: Counts)
    | UpRead(todo: set<Key>, delta: Counts, key: Key, up: int)
    | Pushing(delta: Counts, next: nat, delivered: map<int, Bytes>)
    | Committing(delta: Counts, todo: set<Key>)

  // The storages in the maps and those taken out, which connections may still hold. Then
  // history: per key the bytes connections counted, the bytes committed and the bytes that no
  // snapshot will see; per id the bytes the panels received and, of those, the bytes of
  // flushes that failed.
  datatype State = State(
    live: map<Key, Storage>, detached: seq<Detached>, pc: Pc,
    counted: Counts, committed: Counts, lost: Counts,
    received: map<int, Bytes>, resent: map<int, Bytes>)

  predicate Initial(s: State) {
    s == State(map[], [], Idle, map[], map[], map[], map[], map[])
  }

  function Add(m: Counts, k: Key, b: Bytes): (r: Counts)
    ensures forall o :: Lookup(r, o) == if o == k then Lookup(m, o).Plus(b) else Lookup(m, o)
  {
    m[k := Lookup(m, k).Plus(b)]
  }

  // A record of bytes per id, with another added to it.
  ghost predicate Merged(r: map<int, Bytes>, a: map<int, Bytes>, b: map<int, Bytes>) {
    forall uid ::
      && Lookup(r, uid).up == Lookup(a, uid).up + Lookup(b, uid).up
      && Lookup(r, uid).down == Lookup(a, uid).down + Lookup(b, uid).down
  }

  // What is still to be snapshot under a key.
  function PendingAt(live: map<Key, Storage>, k: Key): Bytes {
    if k in live then live[k].Pending() else ZERO
  }

  // ---- steps of the connections ----------------------------------------------------------

  // GetCounter: load the storage of a key, or store a new one.
  predicate OpenStep(s: State, t: State, k: Key) {
    k !in s.live && t == s.(live := s.live[k := Storage(ZERO, ZERO)])
  }

  function Late(pc: Pc, k: Key, b: Bytes): Pc {
    match pc
    case UpChecked(active, key, late) => if key == k then UpChecked(active, key, late.Plus(Bytes(b.up, 0))) else pc
    case Doomed(active, key, late) => if key == k then Doomed(active, key, late.Plus(b)) else pc
    case _ => pc
  }

  // A connection counts bytes into its storage, which is in the map ...
  predicate CountStep(s: State, t: State, k: Key, b: Bytes) {
    && k in s.live && b.AtLeast(ZERO)
    && t == s.(live := s.live[k := Storage(s.live[k].counted.Plus(b), s.live[k].committed)],
               counted := Add(s.counted, k, b), pc := Late(s.pc, k, b))
  }

  // ... or has been taken out of it.
  predicate CountDetached(s: State, t: State, i: nat, b: Bytes) {
    && i < |s.detached| && b.AtLeast(ZERO)
    && var d := s.detached[i];
       t == s.(detached := s.detached[i := Detached(d.key, Storage(d.storage.counted.Plus(b), d.storage.committed))],
               counted := Add(s.counted, d.key, b), lost := Add(s.lost, d.key, b))
  }

  // ---- steps of the syncer: RemoveAbsent -------------------------------------------------

  // After a successful ApplyBox.
  predicate StartRemoving(pc: Pc, pc': Pc) {
    pc.Idle? && pc'.Removing?
  }

  predicate CheckUp(live: map<Key, Storage>, pc: Pc, pc': Pc, k: Key) {
    && pc.Removing? && k in live && k.user !in pc.active && PendingAt(live, k).up == 0
    && pc' == UpChecked(pc.active, k, ZERO)
  }

  predicate CheckDown(live: map<Key, Storage>, pc: Pc, pc': Pc) {
    && pc.UpChecked?
    && pc' == if PendingAt(live, pc.key).down == 0 then Doomed(pc.active, pc.key, pc.late) else Removing(pc.active)
  }

  predicate Delete(s: State, t: State) {
    && s.pc.Doomed?
    && t == s.(pc := Removing(s.pc.active), lost := Add(s.lost, s.pc.key, s.pc.late), live := s.live - {s.pc.key},
               detached := if s.pc.key in s.live then s.detached + [Detached(s.pc.key, s.live[s.pc.key])] else s.detached)
  }

  // ---- steps of the syncer: SnapshotDelta ------------------------------------------------

  // After RemoveAbsent, or without it when fetching or applying the users failed. Every key in
  // the map now will be visited; a key stored later may be.
  predicate StartSnapshot(live: map<Key, Storage>, pc: Pc, pc': Pc) {
    (pc.Idle? || pc.Removing?) && pc' == Snapping(live.Keys, map[])
  }

  predicate ReadUp(live: map<Key, Storage>, pc: Pc, pc': Pc, k: Key) {
    && pc.Snapping? && k in live && k !in pc.delta
    && pc' == UpRead(pc.todo, pc.delta, k, PendingAt(live, k).up)
  }

  predicate ReadDown(live: map<Key, Storage>, pc: Pc, pc': Pc) {
    && pc.UpRead?
    && var b := Bytes(pc.up, PendingAt(live, pc.key).down);
       pc' == Snapping(pc.todo - {pc.key}, if b.up > 0 || b.down > 0 then pc.delta[pc.key := b] else pc.delta)
  }

  ghost predicate HasTraffic(delta: Counts) {
    exists k :: k in delta && Numeric(k.user)
  }

  ghost predicate EndSnapshot(pc: Pc, pc': Pc) {
    && pc.Snapping? && pc.todo == {}
    && pc' == if HasTraffic(pc.delta) then Pushing(pc.delta, 0, map[]) else Idle
  }

  // ---- steps of the syncer: PushTraffic and CommitSnapshot -------------------------------

  function Row(delta: Counts, tag: string): (row: map<string, Bytes>)
    ensures forall user :: user in row <==> Key(tag, user) in delta
    ensures forall user :: user in row ==> row[user] == delta[Key(tag, user)]
  {
    var users := set k | k in delta && k.tag == tag :: k.user;
    map user | user in users :: delta[Key(tag, user)]
  }

  // The nested map the panels are given.
  function Nest(delta: Counts): (nested: Delta)
    ensures forall tag, user :: tag in nested && user in nested[tag] <==> Key(tag, user) in delta
    ensures forall tag, user :: Get(nested, tag, user) == Lookup(delta, Key(tag, user))
    ensures forall tag :: tag in nested ==> exists user :: Key(tag, user) in delta
  {
    var tags := set k | k in delta :: k.tag;
    map tag | tag in tags :: Row(delta, tag)
  }

  ghost predicate CanPush(panels: seq<Client>, pc: Pc, payload: map<int, Bytes>) {
    pc.Pushing? && pc.next < |panels| && Sends(panels[pc.next], Nest(pc.delta), payload)
  }

  predicate SameStorages(s: State, t: State) {
    && t.live == s.live && t.detached == s.detached
    && t.counted == s.counted && t.committed == s.committed && t.lost == s.lost
  }

  // The next panel accepts its payload.
  ghost predicate PushAccepted(s: State, t: State, payload: map<int, Bytes>) {
    && s.pc.Pushing? && SameStorages(s, t) && t.resent == s.resent
    && Merged(t.received, s.received, payload)
    && t.pc.Pushing? && t.pc.delta == s.pc.delta && t.pc.next == s.pc.next + 1
    && Merged(t.pc.delivered, s.pc.delivered, payload)
  }

  // The push to the next panel fails without its payload having arrived; the flush ends with
  // nothing committed.
  ghost predicate PushLost(s: State, t: State) {
    && s.pc.Pushing? && t.pc.Idle? && SameStorages(s, t)
    && t.received == s.received && Merged(t.resent, s.resent, s.pc.delivered)
  }

  // The same although the payload has arrived.
  ghost predicate ReplyLost(s: State, t: State, payload: map<int, Bytes>) {
    && s.pc.Pushing? && t.pc.Idle? && SameStorages(s, t)
    && Merged(t.received, s.received, payload)
    && exists delivered :: Merged(delivered, s.pc.delivered, payload) && Merged(t.resent, s.resent, delivered)
  }

  ghost predicate Push(panels: seq<Client>, s: State, t: State, payload: map<int, Bytes>) {
    && CanPush(panels, s.pc, payload)
    && (PushAccepted(s, t, payload) || PushLost(s, t) || ReplyLost(s, t, payload))
  }

  // commitDelta: the numeric users of the snapshot.
  function NumericKeys(delta: Counts): set<Key> {
    set k | k in delta && Numeric(k.user)
  }

  predicate StartCommit(panels: seq<Client>, pc: Pc, pc': Pc) {
    pc.Pushing? && pc.next == |panels| && pc' == Committing(pc.delta, NumericKeys(pc.delta))
  }

  predicate Commit(s: State, t: State, k: Key) {
    && s.pc.Committing? && k in s.pc.todo && k in s.pc.delta
    && var pc, b := Committing(s.pc.delta, s.pc.todo - {k}), s.pc.delta[k];
       if k in s.live then
         t == s.(live := s.live[k := Storage(s.live[k].counted, s.live[k].committed.Plus(b))],
                 committed := Add(s.committed, k, b), pc := pc)
       else
         t == s.(pc := pc)
  }

  predicate EndCommit(pc: Pc, pc': Pc) {
    pc.Committing? && pc.todo == {} && pc'.Idle?
  }

  // ---- the machine -----------------------------------------------------------------------

  // The steps that only move the syncer.
  ghost predicate Moves(panels: seq<Client>, live: map<Key, Storage>, pc: Pc, pc': Pc) {
    || StartRemoving(pc, pc')
    || (exists k :: CheckUp(live, pc, pc', k))
    || CheckDown(live, pc, pc')
    || StartSnapshot(live, pc, pc')
    || (exists k :: ReadUp(live, pc, pc', k))
    || ReadDown(live, pc, pc')
    || EndSnapshot(pc, pc')
    || StartCommit(panels, pc, pc')
    || EndCommit(pc, pc')
  }

  ghost predicate MoveStep(panels: seq<Client>, s: State, t: State) {
    Moves(panels, s.live, s.pc, t.pc) && t == s.(pc := t.pc)
  }

  ghost predicate Next(panels: seq<Client>, s: State, t: State) {
    || (exists k :: OpenStep(s, t, k))
    || (exists k, b :: CountStep(s, t, k, b))
    || (exists i, b :: CountDetached(s, t, i, b))
    || MoveStep(panels, s, t)
    || Delete(s, t)
    || (exists payload :: Push(panels, s, t, payload))
    || (exists k :: Commit(s, t, k))
  }

  ghost predicate StepAt(panels: seq<Client>, run: seq<State>, i: int) {
    0 <= i < |run| - 1 ==> Next(panels, run[i], run[i + 1])
  }

  ghost predicate IsRun(panels: seq<Client>, run: seq<State>) {
    run != [] && Initial(run[0]) && forall i :: StepAt(panels, run, i)
  }

  // ---- conservation ----------------------------------------------------------------------

  // Every storage keeps 0 <= committed <= counted.
  ghost predicate Bounded(live: map<Key, Storage>) {
    forall k :: k in live ==> live[k].committed.AtLeast(ZERO) && live[k].Pending().AtLeast(ZERO)
  }

  // Every byte counted under a key is committed, still pending in the map, or lost, and only
  // numeric users are ever committed.
  predicate BalancedAt(s: State, k: Key) {
    var counted, committed, lost, pending := Lookup(s.counted, k), Lookup(s.committed, k), Lookup(s.lost, k), PendingAt(s.live, k);
    && counted.up == committed.up + lost.up + pending.up
    && counted.down == committed.down + lost.down + pending.down
    && committed.AtLeast(ZERO) && lost.AtLeast(ZERO)
    && (committed != ZERO ==> Numeric(k.user))
  }

  ghost predicate Balanced(s: State) {
    forall k :: BalancedAt(s, k)
  }


  // The counts taken under the given keys are still pending there.
  ghost predicate Covers(live: map<Key, Storage>, keys: set<Key>, delta: Counts) {
    forall k :: k in keys ==>
      (&& k in delta && k in live && Positive(delta[k]) && PendingAt(live, k).AtLeast(delta[k]))
  }

  ghost predicate PcFacts(live: map<Key, Storage>, pc: Pc) {
    match pc
    case Idle => true
    case Removing(_) => true
    case UpChecked(_, k, late) => k in live && late.AtLeast(ZERO) && late.down == 0 && PendingAt(live, k).up == late.up
    case Doomed(_, k, late) =>
      k in live && late.AtLeast(ZERO) && PendingAt(live, k).up == late.up && PendingAt(live, k).down == late.down
    case Snapping(_, delta) => Covers(live, delta.Keys, delta)
    case UpRead(_, delta, k, up) => Covers(live, delta.Keys, delta) && k in live && 0 <= up <= PendingAt(live, k).up
    case Pushing(delta, _, _) => Covers(live, delta.Keys, delta)
    case Committing(delta, todo) => Covers(live, todo, delta) && forall k :: k in todo ==> Numeric(k.user)
  }

  ghost predicate Conserves(s: State) {
    Bounded(s.live) && Balanced(s) && PcFacts(s.live, s.pc)
  }

  lemma OpenConserves(s: State, t: State, k: Key)
    requires Conserves(s) && OpenStep(s, t, k)
    ensures Conserves(t)
  {
    OpenPc(s.live, t.live, k, s.pc);
    forall o
      ensures BalancedAt(t, o)
    {
      assert BalancedAt(s, o);
    }
  }

  lemma OpenPc(live: map<Key, Storage>, live': map<Key, Storage>, k: Key, pc: Pc)
    requires PcFacts(live, pc) && k !in live && live' == live[k := Storage(ZERO, ZERO)]
    ensures PcFacts(live', pc)
  {
    assert forall o :: o in live ==> o in live' && PendingAt(live', o) == PendingAt(live, o);
  }

  lemma CountConserves(s: State, t: State, k: Key, b: Bytes)
    requires Conserves(s) && CountStep(s, t, k, b)
    ensures Conserves(t)
  {
    CountPc(s.live, t.live, k, b, s.pc);
    CountBounded(s.live, t.live, k, b);
    forall o
      ensures BalancedAt(t, o)
    {
      assert BalancedAt(s, o);
    }
  }

  predicate CountsIn(live: map<Key, Storage>, live': map<Key, Storage>, k: Key, b: Bytes) {
    k in live && b.AtLeast(ZERO) && live' == live[k := Storage(live[k].counted.Plus(b), live[k].committed)]
  }

  lemma CountBounded(live: map<Key, Storage>, live': map<Key, Storage>, k: Key, b: Bytes)
    requires Bounded(live) && CountsIn(live, live', k, b)
    ensures Bounded(live')
  {
  }

  lemma CountCovers(live: map<Key, Storage>, live': map<Key, Storage>, k: Key, b: Bytes, keys: set<Key>, delta: Counts)
    requires Covers(live, keys, delta) && CountsIn(live, live', k, b)
    ensures Covers(live', keys, delta)
  {
  }

  lemma CountPc(live: map<Key, Storage>, live': map<Key, Storage>, k: Key, b: Bytes, pc: Pc)
    requires PcFacts(live, pc) && CountsIn(live, live', k, b)
    ensures PcFacts(live', Late(pc, k, b))
  {
    match pc
    case Snapping(_, delta) => CountCovers(live, live', k, b, delta.Keys, delta);
    case UpRead(_, delta, _, _) => CountCovers(live, live', k, b, delta.Keys, delta);
    case Pushing(delta, _, _) => CountCovers(live, live', k, b, delta.Keys, delta);
    case Committing(delta, todo) => CountCovers(live, live', k, b, todo, delta);
    case _ =>
  }

  lemma CountDetachedConserves(s: State, t: State, i: nat, b: Bytes)
    requires Conserves(s) && CountDetached(s, t, i, b)
    ensures Conserves(t)
  {
    forall o
      ensures BalancedAt(t, o)
    {
      assert BalancedAt(s, o);
    }
  }

  lemma DeleteConserves(s: State, t: State)
    requires Conserves(s) && Delete(s, t)
    ensures Conserves(t)
  {
    forall o
      ensures BalancedAt(t, o)
    {
      assert BalancedAt(s, o);
    }
  }

  // The storages and their history as they were.
  lemma SyncerConserves(s: State, t: State)
    requires Conserves(s) && PcFacts(t.live, t.pc)
    requires t.live == s.live && t.counted == s.counted && t.committed == s.committed && t.lost == s.lost
    ensures Conserves(t)
  {
    forall o
      ensures BalancedAt(t, o)
    {
      assert BalancedAt(s, o);
    }
  }

  lemma MovePc(panels: seq<Client>, live: map<Key, Storage>, pc: Pc, pc': Pc)
    requires Bounded(live) && PcFacts(live, pc) && Moves(panels, live, pc, pc')
    ensures PcFacts(live, pc')
  {
    if ReadDown(live, pc, pc') {
      var b := Bytes(pc.up, PendingAt(live, pc.key).down);
      assert live[pc.key].Pending().AtLeast(ZERO);
      if Positive(b) {
        ReadCovers(live, pc.delta, pc.key, b);
      }
    }
  }

  lemma ReadCovers(live: map<Key, Storage>, delta: Counts, k: Key, b: Bytes)
    requires Covers(live, delta.Keys, delta) && k in live && Positive(b) && PendingAt(live, k).AtLeast(b)
    ensures Covers(live, delta[k := b].Keys, delta[k := b])
  {
  }

  lemma PushPc(live: map<Key, Storage>, pc: Pc, pc': Pc)
    requires PcFacts(live, pc) && pc.Pushing?
    requires pc'.Idle? || (pc'.Pushing? && pc'.delta == pc.delta)
    ensures PcFacts(live, pc')
  {
  }

  lemma PushFrame(panels: seq<Client>, s: State, t: State, payload: map<int, Bytes>)
    requires Push(panels, s, t, payload)
    ensures t.live == s.live && t.counted == s.counted && t.committed == s.committed && t.lost == s.lost
    ensures t.pc.Idle? || (t.pc.Pushing? && t.pc.delta == s.pc.delta)
  {
  }

  lemma CommitConserves(s: State, t: State, k: Key)
    requires Conserves(s) && Commit(s, t, k)
    ensures Conserves(t)
  {
    CommitLive(s.live, t.live, k, s.pc.delta, s.pc.todo);
    forall o
      ensures BalancedAt(t, o)
    {
      assert BalancedAt(s, o);
    }
  }

  lemma CommitLive(live: map<Key, Storage>, live': map<Key, Storage>, k: Key, delta: Counts, todo: set<Key>)
    requires Bounded(live) && Covers(live, todo, delta) && k in todo
    requires live' == live[k := Storage(live[k].counted, live[k].committed.Plus(delta[k]))]
    ensures Bounded(live') && Covers(live', todo - {k}, delta)
  {
  }

  // Every reachable state balances: per inbound and user the bytes counted are the bytes
  // committed plus the bytes pending plus the bytes lost, so 0 <= committed <= counted. Bytes
  // are lost only by counting into a storage that RemoveAbsent has detached, or is about to
  // detach after seeing nothing pending in it.
  lemma {:induction false} RunConserves(panels: seq<Client>, run: seq<State>, i: nat)
    requires IsRun(panels, run) && i < |run|
    ensures Conserves(run[i])
    ensures forall k :: Lookup(run[i].committed, k).AtLeast(ZERO)
                        && Lookup(run[i].counted, k).AtLeast(Lookup(run[i].committed, k))
  {
    if i > 0 {
      RunConserves(panels, run, i - 1);
      assert StepAt(panels, run, i - 1);
      StepConserves(panels, run[i - 1], run[i]);
    }
    CountedCovers(run[i]);
  }

  lemma CountedCovers(s: State)
    requires Conserves(s)
    ensures forall k :: Lookup(s.committed, k).AtLeast(ZERO) && Lookup(s.counted, k).AtLeast(Lookup(s.committed, k))
  {
    forall k
      ensures Lookup(s.committed, k).AtLeast(ZERO) && Lookup(s.counted, k).AtLeast(Lookup(s.committed, k))
    {
      assert BalancedAt(s, k) && PendingAt(s.live, k).AtLeast(ZERO);
    }
  }

  lemma StepConserves(panels: seq<Client>, s: State, t: State)
    requires Conserves(s) && Next(panels, s, t)
    ensures Conserves(t)
  {
    if k :| OpenStep(s, t, k) {
      OpenConserves(s, t, k);
    } else if k, b :| CountStep(s, t, k, b) {
      CountConserves(s, t, k, b);
    } else if i, b :| CountDetached(s, t, i, b) {
      CountDetachedConserves(s, t, i, b);
    } else if MoveStep(panels, s, t) {
      MovePc(panels, s.live, s.pc, t.pc);
      SyncerConserves(s, t);
    } else if Delete(s, t) {
      DeleteConserves(s, t);
    } else if payload :| Push(panels, s, t, payload) {
      PushFrame(panels, s, t, payload);
      PushPc(s.live, s.pc, t.pc);
      SyncerConserves(s, t);
    } else {
      var k :| Commit(s, t, k);
      CommitConserves(s, t, k);
    }
  }
}
