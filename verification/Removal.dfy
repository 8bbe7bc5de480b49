/** What a removal can lose: nothing that was counted before its storage was checked. */
module Removal {
  import opened Decimal
  import opened Sums
  import opened Panel
  import opened SyncMachine

  // RemoveAbsent is looking at this key, and `late` is what came in since.
  predicate Checking(pc: Pc, k: Key) {
    (pc.UpChecked? || pc.Doomed?) && pc.key == k
  }

  // Since a given moment, what is lost or would be lost by deleting the storage now was also
  // counted since then.
  ghost predicate OnlyLate(s: State, k: Key, counted: Bytes, lost: Bytes) {
    && Checking(s.pc, k)
    && Lookup(s.lost, k).up + s.pc.late.up - lost.up <= Lookup(s.counted, k).up - counted.up
    && Lookup(s.lost, k).down + s.pc.late.down - lost.down <= Lookup(s.counted, k).down - counted.down
  }

  lemma CountLate(s: State, t: State, o: Key, b: Bytes, k: Key, counted: Bytes, lost: Bytes)
    requires CountStep(s, t, o, b) && OnlyLate(s, k, counted, lost)
    ensures OnlyLate(t, k, counted, lost)
  {
  }

  lemma CountDetachedLate(s: State, t: State, i: nat, b: Bytes, k: Key, counted: Bytes, lost: Bytes)
    requires CountDetached(s, t, i, b) && OnlyLate(s, k, counted, lost)
    ensures OnlyLate(t, k, counted, lost)
  {
  }

  lemma MoveLate(panels: seq<Client>, s: State, t: State, k: Key, counted: Bytes, lost: Bytes)
    requires MoveStep(panels, s, t) && Checking(t.pc, k) && OnlyLate(s, k, counted, lost)
    ensures OnlyLate(t, k, counted, lost)
  {
    assert CheckDown(s.live, s.pc, t.pc);
  }

  lemma StepLate(panels: seq<Client>, s: State, t: State, k: Key, counted: Bytes, lost: Bytes)
    requires Next(panels, s, t) && Checking(t.pc, k) && OnlyLate(s, k, counted, lost)
    ensures OnlyLate(t, k, counted, lost)
  {
    if o :| OpenStep(s, t, o) {
    } else if o, b :| CountStep(s, t, o, b) {
      CountLate(s, t, o, b, k, counted, lost);
    } else if i, b :| CountDetached(s, t, i, b) {
      CountDetachedLate(s, t, i, b, k, counted, lost);
    } else if MoveStep(panels, s, t) {
      MoveLate(panels, s, t, k, counted, lost);
    } else if payload :| Push(panels, s, t, payload) {
      PushFrame(panels, s, t, payload);
    }
  }

  lemma {:induction false} RunLate(panels: seq<Client>, run: seq<State>, i: nat, j: nat, k: Key, counted: Bytes, lost: Bytes)
    requires i <= j < |run| && forall m :: StepAt(panels, run, m)
    requires forall m :: i <= m <= j ==> Checking(run[m].pc, k)
    requires OnlyLate(run[i], k, counted, lost)
    ensures OnlyLate(run[j], k, counted, lost)
    decreases j
  {
    if i < j {
      RunLate(panels, run, i, j - 1, k, counted, lost);
      assert StepAt(panels, run, j - 1);
      StepLate(panels, run[j - 1], run[j], k, counted, lost);
    }
  }

  // From the first of its two checks to its deletion, a storage loses at most what was counted
  // under its key in between: everything older was committed.
  lemma RemovalLosesOnlyLateBytes(panels: seq<Client>, run: seq<State>, i: nat, j: nat, k: Key)
    requires i < j && j + 1 < |run| && forall m :: StepAt(panels, run, m)
    requires run[i].pc.Removing? && run[i + 1].pc.UpChecked?
    requires forall m :: i < m <= j ==> Checking(run[m].pc, k)
    requires run[j].pc.Doomed? && run[j + 1].pc.Removing?
    ensures k !in run[j + 1].live
    ensures var before, after := run[i], run[j + 1];
      && Lookup(after.lost, k).up - Lookup(before.lost, k).up <= Lookup(after.counted, k).up - Lookup(before.counted, k).up
      && Lookup(after.lost, k).down - Lookup(before.lost, k).down
         <= Lookup(after.counted, k).down - Lookup(before.counted, k).down
  {
    var counted, lost := Lookup(run[i].counted, k), Lookup(run[i].lost, k);
    assert OnlyLate(run[j], k, counted, lost) by {
      CheckedAt(panels, run, i, k);
      RunLate(panels, run, i + 1, j, k, counted, lost);
    }
    DeletedAt(panels, run, j, k, counted, lost);
  }

  lemma CheckedAt(panels: seq<Client>, run: seq<State>, i: nat, k: Key)
    requires i + 1 < |run| && StepAt(panels, run, i) && run[i].pc.Removing? && Checking(run[i + 1].pc, k)
    ensures OnlyLate(run[i + 1], k, Lookup(run[i].counted, k), Lookup(run[i].lost, k))
  {
    OnlyTheSyncerMoves(panels, run[i], run[i + 1]);
    CheckStarts(panels, run[i], run[i + 1], k);
  }

  lemma CheckStarts(panels: seq<Client>, s: State, t: State, k: Key)
    requires MoveStep(panels, s, t) && s.pc.Removing? && Checking(t.pc, k)
    ensures OnlyLate(t, k, Lookup(s.counted, k), Lookup(s.lost, k))
  {
    assert t.pc.late == ZERO;
  }

  lemma OnlyTheSyncerMoves(panels: seq<Client>, s: State, t: State)
    requires Next(panels, s, t) && s.pc.Removing? && !t.pc.Removing?
    ensures MoveStep(panels, s, t)
  {
    if !MoveStep(panels, s, t) {
      ConnectionsLeaveRemoving(panels, s, t);
    }
  }

  lemma ConnectionsLeaveRemoving(panels: seq<Client>, s: State, t: State)
    requires Next(panels, s, t) && s.pc.Removing? && !MoveStep(panels, s, t)
    ensures t.pc.Removing?
  {
    if k :| OpenStep(s, t, k) {
    } else if k, b :| CountStep(s, t, k, b) {
    } else {
      var i, b :| CountDetached(s, t, i, b);
    }
  }

  lemma DeletedAt(panels: seq<Client>, run: seq<State>, j: nat, k: Key, counted: Bytes, lost: Bytes)
    requires j + 1 < |run| && forall m :: StepAt(panels, run, m)
    requires run[j].pc.Doomed? && run[j + 1].pc.Removing? && OnlyLate(run[j], k, counted, lost)
    ensures k !in run[j + 1].live
    ensures Lookup(run[j + 1].lost, k).up - lost.up <= Lookup(run[j + 1].counted, k).up - counted.up
    ensures Lookup(run[j + 1].lost, k).down - lost.down <= Lookup(run[j + 1].counted, k).down - counted.down
  {
    assert StepAt(panels, run, j);
    OnlyDeleteEnds(panels, run[j], run[j + 1]);
    DeleteLoses(run[j], run[j + 1], k, counted, lost);
  }

  lemma OnlyDeleteEnds(panels: seq<Client>, s: State, t: State)
    requires Next(panels, s, t) && s.pc.Doomed? && t.pc.Removing?
    ensures Delete(s, t)
  {
    if k :| OpenStep(s, t, k) {
    } else if k, b :| CountStep(s, t, k, b) {
    } else if i, b :| CountDetached(s, t, i, b) {
    } else if MoveStep(panels, s, t) {
    } else if payload :| Push(panels, s, t, payload) {
      PushFrame(panels, s, t, payload);
    }
  }

  // Only the storage of an absent user is ever looked at, and so deleted.
  ghost predicate LooksAtAbsent(pc: Pc) {
    pc.UpChecked? || pc.Doomed? ==> pc.key.user !in pc.active
  }

  lemma StepLooksAtAbsent(panels: seq<Client>, s: State, t: State)
    requires Next(panels, s, t) && LooksAtAbsent(s.pc)
    ensures LooksAtAbsent(t.pc)
  {
    if MoveStep(panels, s, t) {
      MoveLooksAtAbsent(panels, s.live, s.pc, t.pc);
    } else if Looking(s.pc) {
      LookingGoesOn(panels, s, t);
    } else {
      OnlyMovesLook(panels, s, t);
    }
  }

  predicate Looking(pc: Pc) {
    pc.UpChecked? || pc.Doomed?
  }

  lemma LookingGoesOn(panels: seq<Client>, s: State, t: State)
    requires Next(panels, s, t) && !MoveStep(panels, s, t) && Looking(s.pc)
    ensures t.pc.Removing? || (Looking(t.pc) && t.pc.key == s.pc.key && t.pc.active == s.pc.active)
  {
    if Delete(s, t) {
      DeleteEndsLooking(s, t);
    } else if k, b :| CountStep(s, t, k, b) {
      CountKeepsLooking(s, t, k, b);
    } else {
      OthersKeepLooking(panels, s, t);
    }
  }

  lemma DeleteEndsLooking(s: State, t: State)
    requires Delete(s, t)
    ensures t.pc.Removing?
  {
  }

  lemma CountKeepsLooking(s: State, t: State, k: Key, b: Bytes)
    requires CountStep(s, t, k, b) && Looking(s.pc)
    ensures Looking(t.pc) && t.pc.key == s.pc.key && t.pc.active == s.pc.active
  {
  }

  lemma OthersKeepLooking(panels: seq<Client>, s: State, t: State)
    requires Next(panels, s, t) && !MoveStep(panels, s, t) && Looking(s.pc) && !Delete(s, t)
    requires forall k, b :: !CountStep(s, t, k, b)
    ensures t.pc == s.pc
  {
    if k :| OpenStep(s, t, k) {
    } else {
      var i, b :| CountDetached(s, t, i, b);
    }
  }

  lemma OnlyMovesLook(panels: seq<Client>, s: State, t: State)
    requires Next(panels, s, t) && !MoveStep(panels, s, t) && !Looking(s.pc)
    ensures !Looking(t.pc)
  {
    if payload :| Push(panels, s, t, payload) {
      PushFrame(panels, s, t, payload);
    } else if k :| Commit(s, t, k) {
    } else {
      ConnectionsKeepPc(panels, s, t);
    }
  }

  lemma ConnectionsKeepPc(panels: seq<Client>, s: State, t: State)
    requires Next(panels, s, t) && !MoveStep(panels, s, t) && !Looking(s.pc)
    requires (forall payload :: !Push(panels, s, t, payload)) && forall k :: !Commit(s, t, k)
    ensures t.pc == s.pc
  {
    if k, b :| CountStep(s, t, k, b) {
    } else if k :| OpenStep(s, t, k) {
    } else {
      var i, b :| CountDetached(s, t, i, b);
    }
  }

  lemma MoveLooksAtAbsent(panels: seq<Client>, live: map<Key, Storage>, pc: Pc, pc': Pc)
    requires Moves(panels, live, pc, pc') && LooksAtAbsent(pc)
    ensures LooksAtAbsent(pc')
  {
  }

  lemma {:induction false} RunLooksAtAbsent(panels: seq<Client>, run: seq<State>, i: nat)
    requires IsRun(panels, run) && i < |run|
    ensures LooksAtAbsent(run[i].pc)
  {
    if i > 0 {
      RunLooksAtAbsent(panels, run, i - 1);
      assert StepAt(panels, run, i - 1);
      StepLooksAtAbsent(panels, run[i - 1], run[i]);
    }
  }

  // The storage of a user the syncer holds active stays in the map, over every run.
  lemma ActiveStays(panels: seq<Client>, run: seq<State>, i: nat, k: Key)
    requires IsRun(panels, run) && i + 1 < |run| && k in run[i].live
    ensures k !in run[i + 1].live ==> Delete(run[i], run[i + 1]) && run[i].pc.Doomed? && k.user !in run[i].pc.active
  {
    RunLooksAtAbsent(panels, run, i);
    assert StepAt(panels, run, i);
    if k !in run[i + 1].live {
      OnlyDeletesRemove(panels, run[i], run[i + 1], k);
    }
  }

  lemma OnlyDeletesRemove(panels: seq<Client>, s: State, t: State, k: Key)
    requires Next(panels, s, t) && k in s.live && k !in t.live
    ensures Delete(s, t) && s.pc.key == k
  {
    if o :| OpenStep(s, t, o) {
    } else if o, b :| CountStep(s, t, o, b) {
    } else if i, b :| CountDetached(s, t, i, b) {
    } else if MoveStep(panels, s, t) {
      MoveRemovesNothing(panels, s, t);
    } else if payload :| Push(panels, s, t, payload) {
      PushFrame(panels, s, t, payload);
    } else if o :| Commit(s, t, o) {
      CommitRemovesNothing(s, t, o);
    }
  }

  lemma MoveRemovesNothing(panels: seq<Client>, s: State, t: State)
    requires MoveStep(panels, s, t)
    ensures t.live == s.live
  {
  }

  lemma CommitRemovesNothing(s: State, t: State, k: Key)
    requires Commit(s, t, k)
    ensures t.live.Keys == s.live.Keys
  {
  }

  // A snapshot with traffic of a numeric user is pushed, and only such a one.
  lemma SnapshotsWithTrafficArePushed(panels: seq<Client>, live: map<Key, Storage>, pc: Pc, pc': Pc)
    requires Moves(panels, live, pc, pc') && pc.Snapping? && !pc'.Snapping? && !pc'.UpRead?
    ensures pc.todo == {} && (pc'.Pushing? <==> exists k :: k in pc.delta && Numeric(k.user))
    ensures pc'.Pushing? ==> pc'.delta == pc.delta
    ensures !pc'.Pushing? ==> pc'.Idle?
  {
  }

  lemma DeleteLoses(s: State, t: State, k: Key, counted: Bytes, lost: Bytes)
    requires Delete(s, t) && OnlyLate(s, k, counted, lost)
    ensures k !in t.live
    ensures Lookup(t.lost, k).up - lost.up <= Lookup(t.counted, k).up - counted.up
    ensures Lookup(t.lost, k).down - lost.down <= Lookup(t.counted, k).down - counted.down
  {
  }
}
