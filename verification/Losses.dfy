/**
 When bytes are lost: exactly when a connection counts into a storage that RemoveAbsent has
 taken out of the map, or RemoveAbsent deletes one that was counted into since it was checked.
 */
module Losses {
  import opened Sums
  import opened Panel
  import opened SyncMachine

  predicate SomeBytes(b: Bytes) {
    b.up != 0 || b.down != 0
  }

  ghost predicate CountsDetached(s: State, t: State, k: Key) {
    exists i: nat, b :: CountDetached(s, t, i, b) && s.detached[i].key == k && SomeBytes(b)
  }

  predicate DeletesLate(s: State, t: State, k: Key) {
    Delete(s, t) && s.pc.key == k && SomeBytes(s.pc.late)
  }

  ghost predicate Loses(s: State, t: State, k: Key) {
    CountsDetached(s, t, k) || DeletesLate(s, t, k)
  }

  // ---- one step --------------------------------------------------------------------------

  predicate Grows(a: Bytes, b: Bytes) {
    b.AtLeast(a) && (b.up != a.up || b.down != a.down)
  }

  predicate Same(a: Bytes, b: Bytes) {
    a.up == b.up && a.down == b.down
  }

  lemma CountingDetachedLoses(s: State, t: State, k: Key, i: nat, b: Bytes)
    requires CountDetached(s, t, i, b)
    ensures s.detached[i].key == k && SomeBytes(b) ==> Grows(Lookup(s.lost, k), Lookup(t.lost, k))
    ensures s.detached[i].key != k || !SomeBytes(b) ==> Same(Lookup(s.lost, k), Lookup(t.lost, k))
  {
  }

  lemma DeletingLoses(s: State, t: State, k: Key)
    requires Delete(s, t) && PcFacts(s.live, s.pc)
    ensures if DeletesLate(s, t, k) then Grows(Lookup(s.lost, k), Lookup(t.lost, k))
            else Same(Lookup(s.lost, k), Lookup(t.lost, k))
  {
  }

  lemma LosingGrows(s: State, t: State, k: Key)
    requires Loses(s, t, k) && PcFacts(s.live, s.pc)
    ensures Grows(Lookup(s.lost, k), Lookup(t.lost, k))
  {
    if i: nat, b :| CountDetached(s, t, i, b) && s.detached[i].key == k && SomeBytes(b) {
      CountingDetachedLoses(s, t, k, i, b);
    } else {
      DeletingLoses(s, t, k);
    }
  }

  lemma OtherwiseSame(panels: seq<Client>, s: State, t: State, k: Key)
    requires Next(panels, s, t) && PcFacts(s.live, s.pc) && !Loses(s, t, k)
    ensures Same(Lookup(s.lost, k), Lookup(t.lost, k))
  {
    if i: nat, b :| CountDetached(s, t, i, b) {
      assert s.detached[i].key != k || !SomeBytes(b);
      CountingDetachedLoses(s, t, k, i, b);
    } else if Delete(s, t) {
      DeletingLoses(s, t, k);
    } else if payload :| Push(panels, s, t, payload) {
      PushFrame(panels, s, t, payload);
    } else {
      OthersLoseNothing(panels, s, t);
    }
  }

  lemma OthersLoseNothing(panels: seq<Client>, s: State, t: State)
    requires Next(panels, s, t) && !Delete(s, t)
    requires (forall i: nat, b :: !CountDetached(s, t, i, b)) && forall payload :: !Push(panels, s, t, payload)
    ensures t.lost == s.lost
  {
    if k :| OpenStep(s, t, k) {
    } else if k, b :| CountStep(s, t, k, b) {
    } else if MoveStep(panels, s, t) {
    } else {
      var k :| Commit(s, t, k);
    }
  }

  // ---- whole runs ------------------------------------------------------------------------

  ghost predicate LosesAt(run: seq<State>, j: int, k: Key) {
    0 <= j < |run| - 1 && Loses(run[j], run[j + 1], k)
  }

  // In every reachable state, under every key: something has been lost if and only if some step
  // so far counted into a detached storage or deleted one with late bytes.
  lemma {:induction false} LostExactly(panels: seq<Client>, run: seq<State>, n: nat, k: Key)
    requires IsRun(panels, run) && n < |run|
    ensures Lookup(run[n].lost, k).AtLeast(ZERO)
    ensures Lookup(run[n].lost, k) == ZERO <==> forall j :: 0 <= j < n ==> !LosesAt(run, j, k)
  {
    if n > 0 {
      LostExactly(panels, run, n - 1, k);
      LostAt(panels, run, n - 1, k);
    }
  }

  lemma LostAt(panels: seq<Client>, run: seq<State>, j: nat, k: Key)
    requires IsRun(panels, run) && j + 1 < |run|
    ensures var before, after := Lookup(run[j].lost, k), Lookup(run[j + 1].lost, k);
      if LosesAt(run, j, k) then Grows(before, after) else Same(before, after)
  {
    RunConserves(panels, run, j);
    assert StepAt(panels, run, j);
    if LosesAt(run, j, k) {
      LosingGrows(run[j], run[j + 1], k);
    } else {
      OtherwiseSame(panels, run[j], run[j + 1], k);
    }
  }

  // So without a removal nothing is lost: every byte counted is committed or pending.
  lemma NoRemovalNoLoss(panels: seq<Client>, run: seq<State>, n: nat, k: Key)
    requires IsRun(panels, run) && n < |run|
    requires forall j :: 0 <= j < n ==> !run[j].pc.Doomed?
    ensures Lookup(run[n].lost, k) == ZERO
  {
    forall j | 0 <= j < n
      ensures !LosesAt(run, j, k)
    {
      NothingDetachedYet(panels, run, j);
      NothingToLose(run[j], run[j + 1], k);
    }
    LostExactly(panels, run, n, k);
  }

  lemma {:induction false} NothingDetachedYet(panels: seq<Client>, run: seq<State>, n: nat)
    requires IsRun(panels, run) && n < |run|
    requires forall j :: 0 <= j < n ==> !run[j].pc.Doomed?
    ensures run[n].detached == []
  {
    if n > 0 {
      NothingDetachedYet(panels, run, n - 1);
      assert StepAt(panels, run, n - 1);
      OnlyDeletesDetach(panels, run[n - 1], run[n]);
    }
  }

  lemma NothingToLose(s: State, t: State, k: Key)
    requires s.detached == [] && !s.pc.Doomed?
    ensures !Loses(s, t, k)
  {
  }

  lemma OnlyDeletesDetach(panels: seq<Client>, s: State, t: State)
    requires Next(panels, s, t) && s.detached == [] && !s.pc.Doomed?
    ensures t.detached == []
  {
    if k :| OpenStep(s, t, k) {
    } else if k, b :| CountStep(s, t, k, b) {
    } else if MoveStep(panels, s, t) {
      MoveDetachesNothing(panels, s, t);
    } else if payload :| Push(panels, s, t, payload) {
      PushDetachesNothing(panels, s, t, payload);
    } else {
      var k :| Commit(s, t, k);
    }
  }

  lemma MoveDetachesNothing(panels: seq<Client>, s: State, t: State)
    requires MoveStep(panels, s, t)
    ensures t.detached == s.detached
  {
  }

  lemma PushDetachesNothing(panels: seq<Client>, s: State, t: State, payload: map<int, Bytes>)
    requires Push(panels, s, t, payload)
    ensures t.detached == s.detached
  {
  }

  // The storage has been found settled in both directions ...
  function Condemned(s: State, k: Key): State
    requires s.pc.Removing?
  {
    s.(pc := Doomed(s.pc.active, k, ZERO))
  }

  // ... then a connection counts into it ...
  function CountedLate(s: State, k: Key, b: Bytes): State
    requires s.pc.Removing? && k in s.live
  {
    s.(live := s.live[k := Storage(s.live[k].counted.Plus(b), s.live[k].committed)],
       counted := Add(s.counted, k, b), pc := Doomed(s.pc.active, k, b))
  }

  // ... and then it is deleted.
  function Deleted(s: State, k: Key, b: Bytes): State
    requires s.pc.Removing? && k in s.live
  {
    var counted := CountedLate(s, k, b);
    counted.(pc := s.pc, lost := Add(s.lost, k, b), live := counted.live - {k},
             detached := s.detached + [Detached(k, counted.live[k])])
  }

  lemma Condemning(panels: seq<Client>, s: State, k: Key)
    requires s.pc.Removing? && k in s.live && k.user !in s.pc.active
    requires PendingAt(s.live, k).up == 0 && PendingAt(s.live, k).down == 0
    ensures var checked := s.(pc := UpChecked(s.pc.active, k, ZERO));
      Next(panels, s, checked) && Next(panels, checked, Condemned(s, k))
  {
    var checked := s.(pc := UpChecked(s.pc.active, k, ZERO));
    assert CheckUp(s.live, s.pc, checked.pc, k) && MoveStep(panels, s, checked);
    assert CheckDown(checked.live, checked.pc, Condemned(s, k).pc) && MoveStep(panels, checked, Condemned(s, k));
  }

  lemma CountingLate(panels: seq<Client>, s: State, k: Key, b: Bytes)
    requires s.pc.Removing? && k in s.live && b.AtLeast(ZERO)
    ensures Next(panels, Condemned(s, k), CountedLate(s, k, b))
  {
    assert ZERO.Plus(b) == b;
    assert CountStep(Condemned(s, k), CountedLate(s, k, b), k, b);
  }

  lemma Deleting(s: State, k: Key, b: Bytes)
    requires s.pc.Removing? && k in s.live
    ensures Delete(CountedLate(s, k, b), Deleted(s, k, b))
  {
  }

  // It does happen, in every state in which RemoveAbsent is under way, to every absent user
  // with nothing pending, and with any number of bytes: they are counted between the second
  // check and the deletion, and no snapshot will see them.
  lemma LateBytesAreLost(panels: seq<Client>, s: State, k: Key, b: Bytes) returns (run: seq<State>)
    requires s.pc.Removing? && k in s.live && k.user !in s.pc.active && b.AtLeast(ZERO)
    requires PendingAt(s.live, k).up == 0 && PendingAt(s.live, k).down == 0
    ensures |run| == 5 && run[0] == s && forall i :: StepAt(panels, run, i)
    ensures k !in run[4].live && run[4].pc == s.pc && run[4].committed == s.committed
    ensures Lookup(run[4].lost, k).up == Lookup(s.lost, k).up + b.up
    ensures Lookup(run[4].lost, k).down == Lookup(s.lost, k).down + b.down
    ensures SomeBytes(b) ==> LosesAt(run, 3, k)
  {
    Condemning(panels, s, k);
    CountingLate(panels, s, k, b);
    Deleting(s, k, b);
    run := [s, s.(pc := UpChecked(s.pc.active, k, ZERO)), Condemned(s, k), CountedLate(s, k, b), Deleted(s, k, b)];
    FourSteps(panels, run);
    Outcome(s, k, b);
    if SomeBytes(b) {
      OutcomeIsLoss(s, k, b);
    }
  }

  lemma FourSteps(panels: seq<Client>, run: seq<State>)
    requires |run| == 5 && Next(panels, run[0], run[1]) && Next(panels, run[1], run[2])
    requires Next(panels, run[2], run[3]) && Next(panels, run[3], run[4])
    ensures forall i :: StepAt(panels, run, i)
  {
    forall i
      ensures StepAt(panels, run, i)
    {
      if 0 <= i < 4 {
        assert i == 0 || i == 1 || i == 2 || i == 3;
      }
    }
  }

  lemma Outcome(s: State, k: Key, b: Bytes)
    requires s.pc.Removing? && k in s.live
    ensures var t := Deleted(s, k, b);
      && k !in t.live && t.pc == s.pc && t.committed == s.committed
      && Lookup(t.lost, k).up == Lookup(s.lost, k).up + b.up && Lookup(t.lost, k).down == Lookup(s.lost, k).down + b.down
  {
  }

  lemma OutcomeIsLoss(s: State, k: Key, b: Bytes)
    requires s.pc.Removing? && k in s.live && SomeBytes(b)
    ensures Loses(CountedLate(s, k, b), Deleted(s, k, b), k)
  {
    Deleting(s, k, b);
    assert DeletesLate(CountedLate(s, k, b), Deleted(s, k, b), k);
  }

  // And such a state is reached from the start: a user connects, is removed from the list while
  // its connection stays, and the connection goes on counting.
  lemma LossIsReachable(panels: seq<Client>, k: Key, b: Bytes) returns (run: seq<State>)
    requires b.AtLeast(ZERO)
    ensures IsRun(panels, run) && |run| == 7
    ensures Lookup(run[6].lost, k) == Lookup(run[6].counted, k) == b && k !in run[6].live && k !in run[6].committed
  {
    var start := State(map[], [], Idle, map[], map[], map[], map[], map[]);
    var connected := start.(live := map[k := Storage(ZERO, ZERO)]);
    var removing := connected.(pc := Removing({}));
    assert OpenStep(start, connected, k);
    assert StartRemoving(connected.pc, removing.pc) && MoveStep(panels, connected, removing);
    var rest := LateBytesAreLost(panels, removing, k, b);
    run := [start, connected] + rest;
    forall i
      ensures StepAt(panels, run, i)
    {
      if i >= 2 {
        assert StepAt(panels, rest, i - 2);
      }
    }
    RunConserves(panels, run, 6);
    assert BalancedAt(run[6], k);
  }
}
