/**
 What one call of `AtomicWriteWithBackup` leaves under the names path and path.bak in the
 running process, whichever of its system calls fail: kept, replaced, restored from the
 backup, or gone.
 */
module SaveOutcome {
  import opened Options
  import opened Disk

  // What path and path.bak stand for; None where there is no such file.
  datatype Files<T> = Files(main: Option<T>, bak: Option<T>)

  predicate Sees<T>(f: Files<T>, io: Io) {
    io.stat && f.main.Some?
  }

  function Save<T>(f: Files<T>, data: T, io: Io): Files<T> {
    if !StageOk(io) || (Sees(f, io) && !io.backup) then f
    else
      var g := if Sees(f, io) then Files(None, f.main) else f;
      if io.promote then Files(Some(data), g.bak)
      else if io.restore && g.bak.Some? then Files(g.bak, None)
      else g
  }

  predicate SaveOk<T>(f: Files<T>, io: Io) {
    StageOk(io) && (Sees(f, io) ==> io.backup) && io.promote && io.syncDir
  }

  // The rename that is to repair a failed promote lands on a live file.
  predicate Overwrites<T>(f: Files<T>, io: Io) {
    StageOk(io) && f.main.Some? && f.bak.Some? && !io.stat && !io.promote && io.restore
  }

  // The four outcomes: the new document, everything kept, the backup back in place of what
  // was there, or nothing left under path but the old document under path.bak.
  lemma FourOutcomes<T>(f: Files<T>, data: T, io: Io)
    ensures var g := Save(f, data, io);
      || (g.main == Some(data) && (g.bak == f.bak || g.bak == f.main))
      || g == f
      || (g.bak == None && g.main.Some? && (g.main == f.main || (g.main == f.bak && (Overwrites(f, io) || f.main == None))))
      || (g.main == None && g.bak == f.main)
    ensures SaveOk(f, io) ==> Save(f, data, io).main == Some(data)
    ensures Overwrites(f, io) ==> Save(f, data, io) == Files(f.bak, None)
  {
  }

  // ---- the disk under it -----------------------------------------------------------------

  // Every name has an inode of its own, and new ones are fresh.
  ghost predicate Tidy<T>(s: State<T>) {
    && s.dirs != []
    && (forall i :: i in s.inodes ==> i < s.next)
    && (forall n :: n in s.Now() ==> s.Now()[n] in s.inodes)
    && forall n, m :: n in s.Now() && m in s.Now() && n != m ==> s.Now()[n] != s.Now()[m]
  }

  function DocAt<T>(s: State<T>, n: Name): Option<Option<T>> {
    if n in s.Now() then Some(LoadFile(Live(s), n)) else None
  }

  function View<T>(s: State<T>): Files<Option<T>> {
    Files(DocAt(s, Main), DocAt(s, Bak))
  }

  lemma TidyJournal<T>(s: State<T>, op: DirOp)
    requires Tidy(s) && !op.Link?
    ensures Tidy(s.Journal(op))
  {
  }

  lemma CreateView<T>(s: State<T>)
    requires Tidy(s)
    ensures var c := s.Create(); Tidy(c) && View(c) == View(s) && Tmp in c.Now()
  {
    if Tmp in s.Now() {
      FillView(s, None, false);
    }
  }

  lemma FillView<T>(s: State<T>, doc: Option<T>, synced: bool)
    requires Tidy(s) && Tmp in s.Now()
    ensures var c := s.Fill(doc, synced);
      Tidy(c) && View(c) == View(s) && Tmp in c.Now() && DocAt(c, Tmp) == Some(doc)
  {
  }

  lemma MoveView<T>(s: State<T>, from: Name, to: Name)
    requires Tidy(s) && from in s.Now() && from != to
    ensures var c := s.Journal(Move(from, to));
      && Tidy(c) && DocAt(c, to) == DocAt(s, from) && DocAt(c, from) == None
      && forall n :: n != from && n != to ==> DocAt(c, n) == DocAt(s, n)
  {
    TidyJournal(s, Move(from, to));
    MoveDocs(s, from, to);
  }

  lemma MoveDocs<T>(s: State<T>, from: Name, to: Name)
    requires from in s.Now() && from != to
    ensures var c := s.Journal(Move(from, to));
      && DocAt(c, to) == DocAt(s, from) && DocAt(c, from) == None
      && forall n :: n != from && n != to ==> DocAt(c, n) == DocAt(s, n)
  {
  }

  lemma CleanupView<T>(s: State<T>, io: Io)
    requires Tidy(s)
    ensures var c := Last(s, Cleanup(s, io)); Tidy(c) && View(c) == View(s)
  {
  }

  lemma StagedView<T>(s: State<T>, data: T)
    requires Tidy(s)
    ensures var c := Staged(s, data); Tidy(c) && View(c) == View(s) && DocAt(c, Tmp) == Some(Some(data))
  {
    CreateView(s);
    FillView(s.Create(), Some(data), false);
    FillView(Written(s, data), Some(data), true);
  }

  lemma StageFailsView<T>(s: State<T>, data: T, io: Io)
    requires Tidy(s) && !StageOk(io)
    ensures var c := Last(s, StageTrace(s, data, io)); Tidy(c) && View(c) == View(s)
  {
    if io.open {
      var reached := if !io.write then s.Create() else if !io.sync then Written(s, data) else Staged(s, data);
      ReachedView(s, data);
      CleanupView(reached, io);
      LastOfStage(s, data, io, reached);
    }
  }

  lemma LastOfStage<T>(s: State<T>, data: T, io: Io, reached: State<T>)
    requires io.open && !StageOk(io)
    requires reached == if !io.write then s.Create() else if !io.sync then Written(s, data) else Staged(s, data)
    ensures Last(s, StageTrace(s, data, io)) == Last(reached, Cleanup(reached, io))
  {
  }

  lemma ReachedView<T>(s: State<T>, data: T)
    requires Tidy(s)
    ensures Tidy(s.Create()) && View(s.Create()) == View(s)
    ensures Tidy(Written(s, data)) && View(Written(s, data)) == View(s)
    ensures Tidy(Staged(s, data)) && View(Staged(s, data)) == View(s)
  {
    CreateView(s);
    FillView(s.Create(), Some(data), false);
    StagedView(s, data);
  }

  lemma PromoteView<T>(s: State<T>, data: T)
    requires Tidy(s) && DocAt(s, Tmp) == Some(Some(data))
    ensures var c := s.Journal(Move(Tmp, Main));
      && Tidy(c) && View(c) == Files(Some(Some(data)), View(s).bak)
      && Tidy(c.SyncDir()) && View(c.SyncDir()) == View(c)
  {
    MoveView(s, Tmp, Main);
  }

  function Restored<T>(s: State<T>, io: Io): State<T> {
    if io.restore && Bak in s.Now() then s.Journal(Move(Bak, Main)) else s
  }

  lemma RestoreView<T>(s: State<T>, io: Io)
    requires Tidy(s)
    ensures var c := Last(Restored(s, io), Cleanup(Restored(s, io), io));
      && Tidy(c)
      && View(c) == if io.restore && View(s).bak.Some? then Files(View(s).bak, None) else View(s)
  {
    if io.restore && Bak in s.Now() {
      MoveView(s, Bak, Main);
    }
    CleanupView(Restored(s, io), io);
  }

  // The state after path has been renamed away, if os.Stat saw it.
  function Backed<T>(s: State<T>, io: Io): State<T> {
    if StatOk(s, io) then s.Journal(Move(Main, Bak)) else s
  }

  lemma BackedView<T>(s: State<T>, io: Io)
    requires Tidy(s) && Tmp in s.Now()
    ensures Tidy(Backed(s, io)) && DocAt(Backed(s, io), Tmp) == DocAt(s, Tmp)
    ensures View(Backed(s, io)) == if Sees(View(s), io) then Files(None, View(s).main) else View(s)
  {
    if StatOk(s, io) {
      MoveView(s, Main, Bak);
    }
  }

  lemma ReplaceView<T>(s: State<T>, data: T, io: Io)
    requires Tidy(s) && StageOk(io) && DocAt(s, Tmp) == Some(Some(data))
    ensures var c := Last(s, ReplaceTrace(s, io)); Tidy(c) && View(c) == Save(View(s), Some(data), io)
  {
    if StatOk(s, io) && !io.backup {
      CleanupView(s, io);
    } else {
      BackedView(s, io);
      if io.promote {
        PromoteView(Backed(s, io), data);
      } else {
        RestoreView(Backed(s, io), io);
        LastOfRestore(s, io);
      }
    }
  }

  lemma LastOfRestore<T>(s: State<T>, io: Io)
    requires !(StatOk(s, io) && !io.backup) && !io.promote
    ensures Last(s, ReplaceTrace(s, io)) == Last(Restored(Backed(s, io), io), Cleanup(Restored(Backed(s, io), io), io))
  {
    var s4 := Backed(s, io);
    var s5 := Restored(s4, io);
    assert ReplaceTrace(s, io) == [s4, s5] + Cleanup(s5, io);
  }

  // The outcome is the one the whole trace of the protocol ends in.
  lemma SaveIsWrite<T>(s: State<T>, data: T, io: Io)
    requires Tidy(s)
    ensures View(Final(s, data, io)) == Save(View(s), Some(data), io) && Tidy(Final(s, data, io))
    ensures WriteOk(s, io) == SaveOk(View(s), io)
  {
    if StageOk(io) {
      StagedView(s, data);
      ReplaceView(Staged(s, data), data, io);
      var trace := StageTrace(s, data, io);
      assert trace[|trace| - 1] == Staged(s, data);
    } else {
      StageFailsView(s, data, io);
    }
  }
}
