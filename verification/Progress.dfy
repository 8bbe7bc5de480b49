/**
 The flush can always be finished: from every state in which the syncer is idle there is a run
 of its own steps, all panels accepting, after which every numeric user is settled.
 */
module Progress {
  import opened Options
  import opened Decimal
  import opened Sums
  import opened Panel
  import opened SyncMachine

  // Some run of the machine leads from s to t.
  ghost predicate Leads(panels: seq<Client>, s: State, t: State) {
    exists run :: IsPath(panels, run, s, t)
  }

  ghost predicate IsPath(panels: seq<Client>, run: seq<State>, s: State, t: State) {
    run != [] && run[0] == s && run[|run| - 1] == t && forall i :: StepAt(panels, run, i)
  }

  lemma LeadsNowhere(panels: seq<Client>, s: State)
    ensures Leads(panels, s, s)
  {
    assert IsPath(panels, [s], s, s);
  }

  lemma LeadsOn(panels: seq<Client>, s: State, t: State, u: State)
    requires Leads(panels, s, t) && Next(panels, t, u)
    ensures Leads(panels, s, u)
  {
    var run :| IsPath(panels, run, s, t);
    PathOn(panels, run, s, t, u);
    assert IsPath(panels, run + [u], s, u);
  }

  lemma PathOn(panels: seq<Client>, run: seq<State>, s: State, t: State, u: State)
    requires IsPath(panels, run, s, t) && Next(panels, t, u)
    ensures IsPath(panels, run + [u], s, u)
  {
    forall i
      ensures StepAt(panels, run + [u], i)
    {
      assert StepAt(panels, run, i);
      if i == |run| - 1 {
        assert (run + [u])[i] == t && (run + [u])[i + 1] == u;
      } else if 0 <= i < |run| - 1 {
        assert (run + [u])[i] == run[i] && (run + [u])[i + 1] == run[i + 1];
      }
    }
  }

  lemma LeadsMove(panels: seq<Client>, s: State, t: State, pc: Pc)
    requires Leads(panels, s, t) && Moves(panels, t.live, t.pc, pc)
    ensures Leads(panels, s, t.(pc := pc))
  {
    assert MoveStep(panels, t, t.(pc := pc));
    LeadsOn(panels, s, t, t.(pc := pc));
  }

  // ---- the snapshot ----------------------------------------------------------------------

  predicate SomePending(b: Bytes) {
    b.up > 0 || b.down > 0
  }

  // What the snapshot has once these keys were visited.
  function Taken(live: map<Key, Storage>, keys: set<Key>): Counts {
    map k | k in keys && k in live && SomePending(PendingAt(live, k)) :: PendingAt(live, k)
  }

  lemma VisitOne(panels: seq<Client>, s: State, t: State, todo: set<Key>, k: Key)
    requires Leads(panels, s, t) && k in todo && todo <= t.live.Keys
    requires t.pc == Snapping(todo, Taken(t.live, t.live.Keys - todo))
    ensures Leads(panels, s, t.(pc := Snapping(todo - {k}, Taken(t.live, t.live.Keys - (todo - {k})))))
  {
    var delta, p := t.pc.delta, PendingAt(t.live, k);
    var read := UpRead(todo, delta, k, p.up);
    assert ReadUp(t.live, t.pc, read, k);
    LeadsMove(panels, s, t, read);
    var next := Snapping(todo - {k}, if SomePending(p) then delta[k := p] else delta);
    assert Bytes(p.up, p.down) == p;
    assert ReadDown(t.live, read, next);
    LeadsMove(panels, s, t.(pc := read), next);
    TakenOne(t.live, t.live.Keys - todo, k, t.live.Keys - (todo - {k}));
  }

  lemma TakenOne(live: map<Key, Storage>, keys: set<Key>, k: Key, more: set<Key>)
    requires k in live && k !in keys && more == keys + {k}
    ensures Taken(live, more) == if SomePending(PendingAt(live, k)) then Taken(live, keys)[k := PendingAt(live, k)] else Taken(live, keys)
  {
  }

  lemma {:induction false} VisitAll(panels: seq<Client>, s: State, t: State, todo: set<Key>)
    requires Leads(panels, s, t) && todo <= t.live.Keys && t.pc == Snapping(todo, Taken(t.live, t.live.Keys - todo))
    ensures Leads(panels, s, t.(pc := Snapping({}, Taken(t.live, t.live.Keys))))
    decreases |todo|
  {
    if todo == {} {
      assert t.live.Keys - todo == t.live.Keys;
    } else {
      var k :| k in todo;
      VisitOne(panels, s, t, todo, k);
      VisitAll(panels, s, t.(pc := Snapping(todo - {k}, Taken(t.live, t.live.Keys - (todo - {k})))), todo - {k});
    }
  }

  // ---- the pushes ------------------------------------------------------------------------

  function Flat(tags: set<string>, delta: Delta): set<string> {
    set tag, user | tag in tags && tag in delta && user in delta[tag] && Numeric(user) :: user
  }

  // Every delta can be sent to every panel.
  lemma SomePayload(c: Client, delta: Delta) returns (payload: map<int, Bytes>)
    ensures Sends(c, delta, payload)
  {
    var tags := Matched(c, delta);
    ghost var flat: map<string, Bytes> := map user | user in Flat(tags, delta) :: Sum(tags, Column(delta, user));
    payload := SomeParsed(flat);
    assert IsFlat(tags, delta, flat);
  }

  lemma SomeParsed(flat: map<string, Bytes>) returns (payload: map<int, Bytes>)
    ensures IsPayload(flat, payload)
  {
    var ids := set user | user in flat && Atoi(user).Some? :: Atoi(user).value;
    payload := map uid | uid in ids :: flat[NameFor(flat, uid)];
  }

  ghost function NameFor(flat: map<string, Bytes>, uid: int): (user: string)
    requires exists user :: user in flat && Atoi(user) == Some(uid)
    ensures user in flat && Atoi(user) == Some(uid)
  {
    var user :| user in flat && Atoi(user) == Some(uid);
    user
  }

  function Joined(a: map<int, Bytes>, b: map<int, Bytes>): (r: map<int, Bytes>)
    ensures Merged(r, a, b)
  {
    map uid | uid in a.Keys + b.Keys :: Lookup(a, uid).Plus(Lookup(b, uid))
  }

  predicate OnlyPushed(t: State, u: State) {
    u.live == t.live && u.counted == t.counted && u.committed == t.committed && u.lost == t.lost && u.detached == t.detached
  }

  lemma {:induction false} PushAll(panels: seq<Client>, s: State, t: State) returns (u: State)
    requires Leads(panels, s, t) && t.pc.Pushing? && t.pc.next <= |panels|
    ensures Leads(panels, s, u) && OnlyPushed(t, u) && u.resent == t.resent
    ensures u.pc.Pushing? && u.pc.next == |panels| && u.pc.delta == t.pc.delta
    decreases |panels| - t.pc.next
  {
    if t.pc.next == |panels| {
      u := t;
    } else {
      var payload := SomePayload(panels[t.pc.next], Nest(t.pc.delta));
      var next := t.(received := Joined(t.received, payload),
                     pc := Pushing(t.pc.delta, t.pc.next + 1, Joined(t.pc.delivered, payload)));
      assert PushAccepted(t, next, payload) && Push(panels, t, next, payload);
      LeadsOn(panels, s, t, next);
      u := PushAll(panels, s, next);
    }
  }

  // ---- the commits -----------------------------------------------------------------------

  // The storages once these keys of the snapshot are committed.
  function CommittedTo(live: map<Key, Storage>, delta: Counts, keys: set<Key>): map<Key, Storage> {
    map k | k in live ::
      if k in keys && k in delta then Storage(live[k].counted, live[k].committed.Plus(delta[k])) else live[k]
  }

  lemma {:induction false} CommitAll(panels: seq<Client>, s: State, t: State, todo: set<Key>) returns (u: State)
    requires Leads(panels, s, t) && t.pc.Committing? && t.pc.todo == todo && todo <= t.pc.delta.Keys && todo <= t.live.Keys
    ensures Leads(panels, s, u) && u.pc.Idle? && u.live == CommittedTo(t.live, t.pc.delta, todo) && u.counted == t.counted
    decreases |todo|
  {
    if todo == {} {
      LeadsMove(panels, s, t, Idle);
      u := t.(pc := Idle);
      assert u.live == CommittedTo(t.live, t.pc.delta, todo);
    } else {
      var k :| k in todo;
      var next := t.(live := t.live[k := Storage(t.live[k].counted, t.live[k].committed.Plus(t.pc.delta[k]))],
                     committed := Add(t.committed, k, t.pc.delta[k]), pc := Committing(t.pc.delta, todo - {k}));
      assert Commit(t, next, k);
      LeadsOn(panels, s, t, next);
      u := CommitAll(panels, s, next, todo - {k});
      CommittedOne(t.live, t.pc.delta, todo, k);
    }
  }

  lemma CommittedOne(live: map<Key, Storage>, delta: Counts, todo: set<Key>, k: Key)
    requires k in todo && k in delta && k in live
    ensures CommittedTo(live[k := Storage(live[k].counted, live[k].committed.Plus(delta[k]))], delta, todo - {k})
         == CommittedTo(live, delta, todo)
  {
  }

  // ---- the whole flush -------------------------------------------------------------------

  // Settled in both directions, for the numeric users; the others as they were.
  ghost predicate SettlesNumeric(live: map<Key, Storage>, live': map<Key, Storage>) {
    && live'.Keys == live.Keys
    && forall k :: k in live ==>
         && live'[k].counted.up == live[k].counted.up && live'[k].counted.down == live[k].counted.down
         && var to := if Numeric(k.user) then live[k].counted else live[k].committed;
            live'[k].committed.up == to.up && live'[k].committed.down == to.down
  }

  // From every idle state a flush can run to its end: then everything counted so far for
  // numeric users is committed, and nothing else has changed in the storages.
  lemma FlushCanFinish(panels: seq<Client>, s: State) returns (t: State)
    requires s.pc.Idle? && Bounded(s.live)
    ensures Leads(panels, s, t) && t.pc.Idle? && SettlesNumeric(s.live, t.live) && t.counted == s.counted
  {
    var started := s.(pc := Snapping(s.live.Keys, map[]));
    LeadsNowhere(panels, s);
    LeadsMove(panels, s, s, started.pc);
    assert s.live.Keys - s.live.Keys == {};
    assert Taken(s.live, {}) == map[];
    VisitAll(panels, s, started, s.live.Keys);
    var delta := Taken(s.live, s.live.Keys);
    var taken := s.(pc := Snapping({}, delta));
    if HasTraffic(delta) {
      t := PushAndCommit(panels, s, taken, delta);
    } else {
      LeadsMove(panels, s, taken, Idle);
      t := s;
      NothingToCommit(s.live, delta);
    }
  }

  lemma NothingToCommit(live: map<Key, Storage>, delta: Counts)
    requires Bounded(live) && delta == Taken(live, live.Keys) && !HasTraffic(delta)
    ensures SettlesNumeric(live, live)
  {
    forall k | k in live && Numeric(k.user)
      ensures live[k].committed.up == live[k].counted.up && live[k].committed.down == live[k].counted.down
    {
      assert k !in delta;
      assert live[k].Pending().AtLeast(ZERO);
    }
  }

  lemma PushAndCommit(panels: seq<Client>, s: State, taken: State, delta: Counts) returns (t: State)
    requires Leads(panels, s, taken) && taken == s.(pc := Snapping({}, delta)) && delta == Taken(s.live, s.live.Keys)
    requires HasTraffic(delta) && Bounded(s.live)
    ensures Leads(panels, s, t) && t.pc.Idle? && SettlesNumeric(s.live, t.live) && t.counted == s.counted
  {
    LeadsMove(panels, s, taken, Pushing(delta, 0, map[]));
    var pushed := PushAll(panels, s, s.(pc := Pushing(delta, 0, map[])));
    LeadsMove(panels, s, pushed, Committing(delta, NumericKeys(delta)));
    t := CommitAll(panels, s, pushed.(pc := Committing(delta, NumericKeys(delta))), NumericKeys(delta));
    AllCommitted(s.live, delta);
  }

  lemma AllCommitted(live: map<Key, Storage>, delta: Counts)
    requires Bounded(live) && delta == Taken(live, live.Keys)
    ensures SettlesNumeric(live, CommittedTo(live, delta, NumericKeys(delta)))
  {
    forall k | k in live && Numeric(k.user)
      ensures CommittedTo(live, delta, NumericKeys(delta))[k].committed.up == live[k].counted.up
      ensures CommittedTo(live, delta, NumericKeys(delta))[k].committed.down == live[k].counted.down
    {
      assert live[k].Pending().AtLeast(ZERO);
    }
  }
}
