/**
 Agent and panel end to end: what the server's counters get of what the agent's panels -- nodes
 of one server -- received, and so of what the agent committed. The server answers a push with
 success also when it drops entries of users it does not know.
 */
module Crediting {
  import opened Options
  import opened Decimal
  import opened Sums
  import opened Panel
  import opened SyncMachine
  import opened Delivery
  import R = Records
  import P = Push

  // A payload as it is sent: an object with the ids as decimal names.
  ghost predicate Encodes(raw: map<string, Option<R.Traffic>>, payload: map<int, Bytes>) {
    && (forall name :: name in raw ==> exists uid :: uid in payload && Itoa(uid) == name)
    && forall uid :: uid in payload ==>
         Itoa(uid) in raw && raw[Itoa(uid)] == Some(R.Traffic(payload[uid].up, payload[uid].down))
  }

  ghost predicate Parseable(payload: map<int, Bytes>) {
    forall uid :: uid in payload ==> -MAX_INT - 1 <= uid <= MAX_INT
  }

  // Entries that carry the payload, each id once, in some order.
  ghost predicate Lists(es: seq<P.Entry>, payload: map<int, Bytes>) {
    && (forall i :: 0 <= i < |es| ==>
          es[i].uid in payload && es[i].up == payload[es[i].uid].up && es[i].down == payload[es[i].uid].down)
    && (forall i, j :: 0 <= i < j < |es| ==> es[i].uid != es[j].uid)
    && forall uid :: uid in payload ==> exists i :: 0 <= i < |es| && es[i].uid == uid
  }

  ghost predicate EntryAt(e: P.Entry, payload: map<int, Bytes>, name: string) {
    e.uid in payload && Itoa(e.uid) == name && e.up == payload[e.uid].up && e.down == payload[e.uid].down
  }

  // The server parses this member of the object to its entry.
  ghost predicate ParsesAt(raw: map<string, Option<R.Traffic>>, payload: map<int, Bytes>, name: string) {
    exists e :: EntryAt(e, payload, name) && P.Parse(raw, name) == [e]
  }

  lemma MemberParses(raw: map<string, Option<R.Traffic>>, payload: map<int, Bytes>, name: string)
    requires Encodes(raw, payload) && Parseable(payload) && name in raw
    ensures ParsesAt(raw, payload, name)
  {
    var uid :| uid in payload && Itoa(uid) == name;
    AtoiItoa(uid);
    var e := P.Entry(uid, payload[uid].up, payload[uid].down);
    assert EntryAt(e, payload, name) && P.Parse(raw, name) == [e];
  }

  ghost predicate InOrder(es: seq<P.Entry>, payload: map<int, Bytes>, names: seq<string>) {
    |es| == |names| && forall i :: 0 <= i < |es| ==> EntryAt(es[i], payload, names[i])
  }

  lemma InOrderNext(es: seq<P.Entry>, payload: map<int, Bytes>, names: seq<string>, e: P.Entry, name: string)
    requires InOrder(es, payload, names) && EntryAt(e, payload, name)
    ensures InOrder(es + [e], payload, names + [name])
  {
  }

  lemma {:induction false} EntriesInOrder(raw: map<string, Option<R.Traffic>>, payload: map<int, Bytes>, names: seq<string>)
    requires forall name :: name in names ==> ParsesAt(raw, payload, name)
    ensures InOrder(P.EntriesFor(raw, names), payload, names)
  {
    if names != [] {
      var front, last := names[..|names| - 1], names[|names| - 1];
      EntriesInOrder(raw, payload, front);
      LastInOrder(raw, payload, front, last);
      assert names == front + [last];
    }
  }

  lemma LastInOrder(raw: map<string, Option<R.Traffic>>, payload: map<int, Bytes>, front: seq<string>, last: string)
    requires ParsesAt(raw, payload, last) && InOrder(P.EntriesFor(raw, front), payload, front)
    ensures InOrder(P.EntriesFor(raw, front + [last]), payload, front + [last])
  {
    var e :| EntryAt(e, payload, last) && P.Parse(raw, last) == [e];
    P.EntriesAppend(raw, front, last);
    InOrderNext(P.EntriesFor(raw, front), payload, front, e, last);
  }

  lemma EnumerationsHaveNoRepeats(names: seq<string>, all: set<string>)
    requires multiset(names) == multiset(all)
    ensures forall i, j :: 0 <= i < j < |names| ==> names[i] != names[j]
    ensures forall name :: name in names <==> name in all
  {
    forall i, j | 0 <= i < j < |names|
      ensures names[i] != names[j]
    {
      assert names == names[..j] + names[j..];
      assert names[i] in names[..j] && names[j] in names[j..];
      assert multiset(names)[names[j]] == multiset(names[..j])[names[j]] + multiset(names[j..])[names[j]];
      assert multiset(all)[names[j]] <= 1;
    }
    forall name
      ensures name in names <==> name in all
    {
      assert name in multiset(names) <==> name in names;
    }
  }

  // In whatever order the server iterates over the object, it finds the payload's entries.
  lemma ObjectLists(raw: map<string, Option<R.Traffic>>, payload: map<int, Bytes>, names: seq<string>)
    requires Encodes(raw, payload) && Parseable(payload) && P.Enumerates(names, raw)
    ensures Lists(P.EntriesFor(raw, names), payload)
  {
    EnumerationsHaveNoRepeats(names, raw.Keys);
    forall name | name in names
      ensures ParsesAt(raw, payload, name)
    {
      MemberParses(raw, payload, name);
    }
    EntriesInOrder(raw, payload, names);
    var es := P.EntriesFor(raw, names);
    forall uid | uid in payload
      ensures exists i :: 0 <= i < |es| && es[i].uid == uid
    {
      var i :| 0 <= i < |names| && names[i] == Itoa(uid);
      assert EntryAt(es[i], payload, names[i]);
      AtoiItoa(uid);
      AtoiItoa(es[i].uid);
    }
    forall i, j | 0 <= i < j < |es|
      ensures es[i].uid != es[j].uid
    {
      assert EntryAt(es[i], payload, names[i]) && EntryAt(es[j], payload, names[j]);
    }
    forall i | 0 <= i < |es|
      ensures es[i].uid in payload && es[i].up == payload[es[i].uid].up && es[i].down == payload[es[i].uid].down
    {
      assert EntryAt(es[i], payload, names[i]);
    }
  }

  lemma {:induction false} SumOfNone(es: seq<P.Entry>, uid: int)
    requires forall i :: 0 <= i < |es| ==> es[i].uid != uid
    ensures P.SumFor(es, uid) == R.Traffic(0, 0)
  {
    if es != [] {
      SumOfNone(es[..|es| - 1], uid);
    }
  }

  lemma {:induction false} SumOfOne(es: seq<P.Entry>, uid: int, k: nat)
    requires k < |es| && es[k].uid == uid && es[k].up >= 0 && es[k].down >= 0
    requires forall i :: 0 <= i < |es| && i != k ==> es[i].uid != uid
    ensures P.SumFor(es, uid) == R.Traffic(es[k].up, es[k].down)
  {
    if k == |es| - 1 {
      SumOfNone(es[..k], uid);
    } else {
      SumOfOne(es[..|es| - 1], uid, k);
    }
  }

  lemma SumOfListed(es: seq<P.Entry>, payload: map<int, Bytes>, uid: int)
    requires Lists(es, payload) && Lookup(payload, uid).up >= 0 && Lookup(payload, uid).down >= 0
    ensures P.SumFor(es, uid).up == Lookup(payload, uid).up && P.SumFor(es, uid).down == Lookup(payload, uid).down
  {
    if uid in payload {
      var k :| 0 <= k < |es| && es[k].uid == uid;
      SumOfOne(es, uid, k);
    } else {
      SumOfNone(es, uid);
    }
  }

  // The ids of a payload were parsed from names.
  lemma PayloadParses(panels: seq<Client>, pc: Pc, payload: map<int, Bytes>)
    requires CanPush(panels, pc, payload)
    ensures Parseable(payload)
  {
  }

  // A push credits each user the server knows with exactly its bytes of the payload, and drops
  // the others.
  lemma PushCredits(m: R.Mem, m': R.Mem, payload: map<int, Bytes>, uid: int)
    requires Accumulated(m, m', payload) && Parseable(payload)
    requires Lookup(payload, uid).up >= 0 && Lookup(payload, uid).down >= 0
    ensures m'.users == m.users
    ensures R.CounterOf(m', uid).up == R.CounterOf(m, uid).up + (if uid in m.users then Lookup(payload, uid).up else 0)
    ensures R.CounterOf(m', uid).down == R.CounterOf(m, uid).down + (if uid in m.users then Lookup(payload, uid).down else 0)
  {
    var raw, names :|
      Encodes(raw, payload) && P.Enumerates(names, raw) && m' == P.PushAll(P.Push(m, 0), P.EntriesFor(raw, names)).mem;
    ObjectLists(raw, payload, names);
    SumOfListed(P.EntriesFor(raw, names), payload, uid);
    P.PushAddsUp(P.Push(m, 0), P.EntriesFor(raw, names));
  }

  // ---- one step --------------------------------------------------------------------------

  // A payload arrives and is accumulated into a state of the server whose counter for this user
  // is still what it was -- the users may have changed, but nobody deleted this one.
  ghost predicate Arrives(panels: seq<Client>, s: State, t: State, m: R.Mem, m': R.Mem, uid: int,
                          payload: map<int, Bytes>, q: R.Mem) {
    && Push(panels, s, t, payload) && Merged(t.received, s.received, payload)
    && R.CounterOf(q, uid) == R.CounterOf(m, uid) && Accumulated(q, m', payload)
  }

  ghost predicate Accumulated(m: R.Mem, m': R.Mem, payload: map<int, Bytes>) {
    exists raw, names ::
      Encodes(raw, payload) && P.Enumerates(names, raw) && m' == P.PushAll(P.Push(m, 0), P.EntriesFor(raw, names)).mem
  }

  ghost predicate ServerStep(panels: seq<Client>, s: State, t: State, m: R.Mem, m': R.Mem, uid: int) {
    if t.received == s.received then R.CounterOf(m', uid) == R.CounterOf(m, uid)
    else exists payload, q :: Arrives(panels, s, t, m, m', uid, payload, q)
  }

  // Bytes of the user arrive while the server does not know it.
  predicate Drops(s: State, t: State, m': R.Mem, uid: int) {
    && uid !in m'.users
    && (Lookup(t.received, uid).up != Lookup(s.received, uid).up
        || Lookup(t.received, uid).down != Lookup(s.received, uid).down)
  }

  // How far the server's counter lags behind what was received.
  function Lag(s: State, m: R.Mem, uid: int): Bytes {
    Bytes(Lookup(s.received, uid).up - R.CounterOf(m, uid).up, Lookup(s.received, uid).down - R.CounterOf(m, uid).down)
  }

  lemma StepLag(panels: seq<Client>, s: State, t: State, m: R.Mem, m': R.Mem, uid: int)
    requires CanonicalLive(s.live) && PcFacts(s.live, s.pc) && 0 <= uid <= MAX_INT
    requires ServerStep(panels, s, t, m, m', uid)
    ensures Lag(t, m', uid).up >= Lag(s, m, uid).up && Lag(t, m', uid).down >= Lag(s, m, uid).down
    ensures Lag(t, m', uid).up == Lag(s, m, uid).up && Lag(t, m', uid).down == Lag(s, m, uid).down <==> !Drops(s, t, m', uid)
  {
    if t.received != s.received {
      var payload, q :| Arrives(panels, s, t, m, m', uid, payload, q);
      assert CanPush(panels, s.pc, payload);
      PayloadNonNegative(panels, s.live, s.pc, payload, uid);
      PayloadParses(panels, s.pc, payload);
      PushCredits(q, m', payload, uid);
    }
  }

  // ---- whole runs ------------------------------------------------------------------------

  ghost predicate ServerStepAt(panels: seq<Client>, run: seq<State>, stores: seq<R.Mem>, i: int, uid: int) {
    0 <= i < |run| - 1 && i < |stores| - 1 ==> ServerStep(panels, run[i], run[i + 1], stores[i], stores[i + 1], uid)
  }

  predicate DropsAt(run: seq<State>, stores: seq<R.Mem>, i: int, uid: int) {
    0 <= i < |run| - 1 && i < |stores| - 1 && Drops(run[i], run[i + 1], stores[i + 1], uid)
  }

  ghost predicate LagStep(run: seq<State>, stores: seq<R.Mem>, i: int, uid: int) {
    0 <= i < |run| - 1 && i < |stores| - 1 ==>
      var before, after := Lag(run[i], stores[i], uid), Lag(run[i + 1], stores[i + 1], uid);
      && after.up >= before.up && after.down >= before.down
      && (after.up == before.up && after.down == before.down <==> !DropsAt(run, stores, i, uid))
  }

  lemma LagAt(panels: seq<Client>, run: seq<State>, stores: seq<R.Mem>, i: nat, uid: int)
    requires IsRun(panels, run) && |stores| == |run| && i + 1 < |run| && 0 <= uid <= MAX_INT
    requires CanonicalLive(run[i].live) && ServerStepAt(panels, run, stores, i, uid)
    ensures LagStep(run, stores, i, uid)
  {
    RunConserves(panels, run, i);
    StepLag(panels, run[i], run[i + 1], stores[i], stores[i + 1], uid);
  }

  lemma {:induction false} LagsAddUp(run: seq<State>, stores: seq<R.Mem>, n: nat, uid: int)
    requires |stores| == |run| && n < |run| && forall i :: 0 <= i < n ==> LagStep(run, stores, i, uid)
    ensures var lag, first := Lag(run[n], stores[n], uid), Lag(run[0], stores[0], uid);
      && lag.up >= first.up && lag.down >= first.down
      && (lag.up == first.up && lag.down == first.down <==> forall i :: 0 <= i < n ==> !DropsAt(run, stores, i, uid))
  {
    if n > 0 {
      LagsAddUp(run, stores, n - 1, uid);
      assert LagStep(run, stores, n - 1, uid);
    }
  }

  // Over any run of the agent against a server: the counter of a user grows by at most what was
  // received under its id, and by exactly that if and only if the server knew the user whenever
  // bytes of it arrived.
  lemma CountersFollow(panels: seq<Client>, run: seq<State>, stores: seq<R.Mem>, n: nat, uid: int)
    requires IsRun(panels, run) && |stores| == |run| && n < |run| && 0 <= uid <= MAX_INT
    requires forall j :: 0 <= j < n ==> CanonicalLive(run[j].live)
    requires forall i :: ServerStepAt(panels, run, stores, i, uid)
    ensures var lag, first := Lag(run[n], stores[n], uid), Lag(run[0], stores[0], uid);
      && lag.up >= first.up && lag.down >= first.down
      && (lag.up == first.up && lag.down == first.down <==> forall i :: 0 <= i < n ==> !DropsAt(run, stores, i, uid))
  {
    forall i | 0 <= i < n
      ensures LagStep(run, stores, i, uid)
    {
      LagAt(panels, run, stores, i, uid);
    }
    LagsAddUp(run, stores, n, uid);
  }

  // With every inbound reported by one panel, no flush under way and none failed: the server's
  // counter has grown by exactly what the agent committed, if and only if the server knew the
  // user whenever bytes of it arrived. Otherwise the agent has committed bytes that no counter
  // will ever get.
  lemma CommittedAreCredited(panels: seq<Client>, run: seq<State>, stores: seq<R.Mem>, n: nat, uid: int)
    requires IsRun(panels, run) && |stores| == |run| && n < |run| && 0 <= uid <= MAX_INT
    requires forall j :: 0 <= j < n ==> Wired(panels, run[j].live)
    requires forall i :: ServerStepAt(panels, run, stores, i, uid)
    requires run[n].pc.Idle? && Lookup(run[n].resent, uid).up == 0 && Lookup(run[n].resent, uid).down == 0
    ensures var committed := TotalFor(run[n].committed, Itoa(uid));
      var before, after := R.CounterOf(stores[0], uid), R.CounterOf(stores[n], uid);
      && after.up - before.up <= committed.up && after.down - before.down <= committed.down
      && (after.up - before.up == committed.up && after.down - before.down == committed.down
          <==> forall i :: 0 <= i < n ==> !DropsAt(run, stores, i, uid))
  {
    CountersFollow(panels, run, stores, n, uid);
    ReceivedIsCommitted(panels, run, n, uid);
  }

  // In particular a user the server had no counter for: its stored counter is then exactly what
  // the agent committed for it.
  lemma FirstCommitsAreStored(panels: seq<Client>, run: seq<State>, stores: seq<R.Mem>, n: nat, uid: int)
    requires IsRun(panels, run) && |stores| == |run| && n < |run| && 0 <= uid <= MAX_INT
    requires forall j :: 0 <= j < n ==> Wired(panels, run[j].live)
    requires forall i :: ServerStepAt(panels, run, stores, i, uid)
    requires run[n].pc.Idle? && Lookup(run[n].resent, uid).up == 0 && Lookup(run[n].resent, uid).down == 0
    requires uid !in stores[0].traffic && forall i :: 0 <= i < n ==> !DropsAt(run, stores, i, uid)
    ensures var committed, traffic := TotalFor(run[n].committed, Itoa(uid)), stores[n].traffic;
      if uid in traffic then traffic[uid] == R.Traffic(committed.up, committed.down)
      else committed.up == 0 && committed.down == 0
  {
    CommittedAreCredited(panels, run, stores, n, uid);
  }

  lemma ReceivedIsCommitted(panels: seq<Client>, run: seq<State>, n: nat, uid: int)
    requires IsRun(panels, run) && n < |run| && 0 <= uid <= MAX_INT
    requires forall j :: 0 <= j < n ==> Wired(panels, run[j].live)
    requires run[n].pc.Idle? && Lookup(run[n].resent, uid).up == 0 && Lookup(run[n].resent, uid).down == 0
    ensures Lookup(run[n].received, uid).up == TotalFor(run[n].committed, Itoa(uid)).up
    ensures Lookup(run[n].received, uid).down == TotalFor(run[n].committed, Itoa(uid)).down
    ensures Lookup(run[0].received, uid).up == 0 && Lookup(run[0].received, uid).down == 0
  {
    ExactlyOnce(panels, run, n, uid);
  }
}
