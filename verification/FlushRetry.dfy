/** A failed flush loses nothing: what it tried to push is part of the next one. */
module FlushRetry {
  import opened Sums
  import opened Panel
  import opened SyncMachine

  // The bytes of a failed flush are still pending, under keys the maps still hold.
  ghost predicate StillPending(live: map<Key, Storage>, d: Counts) {
    forall k :: k in d ==>
      && k in live && (d[k].up > 0 || d[k].down > 0) && d[k].up >= 0 && d[k].down >= 0
      && live[k].counted.up - live[k].committed.up >= d[k].up
      && live[k].counted.down - live[k].committed.down >= d[k].down
  }

  predicate Carries(delta: Counts, d: Counts, k: Key)
    requires k in d
  {
    k in delta && delta[k].up >= d[k].up && delta[k].down >= d[k].down
  }

  // ... and the syncer will neither remove such a key nor pass it over.
  ghost predicate OnTrack(pc: Pc, d: Counts) {
    match pc
    case UpChecked(_, key, _) => key in d ==> d[key].up == 0
    case Doomed(_, key, _) => key !in d
    case Snapping(todo, delta) => forall k :: k in d ==> k in todo || Carries(delta, d, k)
    case UpRead(todo, delta, key, up) =>
      (forall k :: k in d ==> k in todo || Carries(delta, d, k)) && (key in d ==> up >= d[key].up)
    case Pushing(delta, _, _) => forall k :: k in d ==> Carries(delta, d, k)
    case _ => true
  }

  ghost predicate Owes(s: State, d: Counts) {
    StillPending(s.live, d) && OnTrack(s.pc, d)
  }

  lemma OpenOwes(s: State, t: State, k: Key, d: Counts)
    requires OpenStep(s, t, k) && Owes(s, d)
    ensures Owes(t, d) && t.committed == s.committed
  {
  }

  lemma CountOwes(s: State, t: State, k: Key, b: Bytes, d: Counts)
    requires CountStep(s, t, k, b) && Owes(s, d)
    ensures Owes(t, d) && t.committed == s.committed
  {
    assert b.up >= 0 && b.down >= 0;
    CountPending(s.live, t.live, k, b, d);
    LateOnTrack(s.pc, k, b, d);
  }

  lemma CountPending(live: map<Key, Storage>, live': map<Key, Storage>, k: Key, b: Bytes, d: Counts)
    requires StillPending(live, d) && k in live && b.up >= 0 && b.down >= 0
    requires live' == live[k := Storage(live[k].counted.Plus(b), live[k].committed)]
    ensures StillPending(live', d)
  {
  }

  lemma LateOnTrack(pc: Pc, k: Key, b: Bytes, d: Counts)
    requires OnTrack(pc, d)
    ensures OnTrack(Late(pc, k, b), d)
  {
  }

  lemma CountDetachedOwes(s: State, t: State, i: nat, b: Bytes, d: Counts)
    requires CountDetached(s, t, i, b) && Owes(s, d)
    ensures Owes(t, d) && t.committed == s.committed
  {
  }

  lemma DeleteOwes(s: State, t: State, d: Counts)
    requires Delete(s, t) && Owes(s, d)
    ensures Owes(t, d) && t.committed == s.committed
  {
  }

  lemma MoveOnTrack(panels: seq<Client>, live: map<Key, Storage>, pc: Pc, pc': Pc, d: Counts)
    requires Moves(panels, live, pc, pc') && !pc'.Committing? && StillPending(live, d) && OnTrack(pc, d)
    ensures OnTrack(pc', d)
  {
    if ReadDown(live, pc, pc') {
      ReadDownOnTrack(live, pc, pc', d);
    } else if k :| ReadUp(live, pc, pc', k) {
      ReadUpOnTrack(live, pc, pc', k, d);
    }
  }

  lemma ReadUpOnTrack(live: map<Key, Storage>, pc: Pc, pc': Pc, k: Key, d: Counts)
    requires ReadUp(live, pc, pc', k) && StillPending(live, d) && OnTrack(pc, d)
    ensures OnTrack(pc', d)
  {
  }

  lemma ReadDownOnTrack(live: map<Key, Storage>, pc: Pc, pc': Pc, d: Counts)
    requires ReadDown(live, pc, pc') && StillPending(live, d) && OnTrack(pc, d)
    ensures OnTrack(pc', d)
  {
  }

  lemma PushOwes(panels: seq<Client>, s: State, t: State, payload: map<int, Bytes>, d: Counts)
    requires Push(panels, s, t, payload) && Owes(s, d)
    ensures Owes(t, d) && t.committed == s.committed
  {
    PushFrame(panels, s, t, payload);
  }

  lemma StepOwes(panels: seq<Client>, s: State, t: State, d: Counts)
    requires Next(panels, s, t) && !s.pc.Committing? && !t.pc.Committing? && Owes(s, d)
    ensures Owes(t, d) && t.committed == s.committed
  {
    if k :| OpenStep(s, t, k) {
      OpenOwes(s, t, k, d);
    } else if k, b :| CountStep(s, t, k, b) {
      CountOwes(s, t, k, b, d);
    } else if i, b :| CountDetached(s, t, i, b) {
      CountDetachedOwes(s, t, i, b, d);
    } else if MoveStep(panels, s, t) {
      MoveOnTrack(panels, s.live, s.pc, t.pc, d);
    } else if Delete(s, t) {
      DeleteOwes(s, t, d);
    } else {
      var payload :| Push(panels, s, t, payload);
      PushOwes(panels, s, t, payload, d);
    }
  }

  lemma FailureOwes(panels: seq<Client>, s: State, t: State)
    requires Conserves(s) && Next(panels, s, t) && s.pc.Pushing? && t.pc.Idle?
    ensures Owes(t, s.pc.delta) && t.committed == s.committed
  {
    CoveredIsPending(s.live, s.pc.delta);
    StepOwes(panels, s, t, s.pc.delta);
  }

  lemma CoveredIsPending(live: map<Key, Storage>, delta: Counts)
    requires Covers(live, delta.Keys, delta)
    ensures StillPending(live, delta)
  {
  }

  lemma {:induction false} RunOwes(panels: seq<Client>, run: seq<State>, i: nat, j: nat, d: Counts)
    requires i <= j < |run| && forall m :: StepAt(panels, run, m)
    requires forall m :: i <= m <= j ==> !run[m].pc.Committing?
    requires Owes(run[i], d)
    ensures Owes(run[j], d) && run[j].committed == run[i].committed
    decreases j
  {
    if i < j {
      RunOwes(panels, run, i, j - 1, d);
      assert StepAt(panels, run, j - 1);
      StepOwes(panels, run[j - 1], run[j], d);
    }
  }

  lemma OwesCarries(s: State, d: Counts)
    requires Owes(s, d) && s.pc.Pushing?
    ensures forall k :: k in d ==> Carries(s.pc.delta, d, k)
  {
  }

  lemma FailsAt(panels: seq<Client>, run: seq<State>, i: nat)
    requires IsRun(panels, run) && i + 1 < |run| && run[i].pc.Pushing? && run[i + 1].pc.Idle?
    ensures Owes(run[i + 1], run[i].pc.delta) && run[i + 1].committed == run[i].committed
  {
    RunConserves(panels, run, i);
    assert StepAt(panels, run, i);
    FailureOwes(panels, run[i], run[i + 1]);
  }

  // A flush that fails commits nothing, and until some flush is committed, every later push
  // carries at least what the failed one did, key by key and in both directions -- whatever
  // the connections count and whatever storages are removed in between.
  lemma NextPushCarriesFailedOne(panels: seq<Client>, run: seq<State>, i: nat, j: nat)
    requires IsRun(panels, run) && i < j < |run|
    requires run[i].pc.Pushing? && run[i + 1].pc.Idle? && run[j].pc.Pushing?
    requires forall m :: i < m <= j ==> !run[m].pc.Committing?
    ensures run[j].committed == run[i].committed
    ensures forall k :: k in run[i].pc.delta ==> Carries(run[j].pc.delta, run[i].pc.delta, k)
  {
    FailsAt(panels, run, i);
    RunOwes(panels, run, i + 1, j, run[i].pc.delta);
    OwesCarries(run[j], run[i].pc.delta);
  }
}
