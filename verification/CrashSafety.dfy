/**
 Crash safety of the file-replacement protocol: over any run of writes, with any of their
 system calls failing, the process dying or the power going at any step.
 */
module CrashSafety {
  import opened Options
  import opened Disk

  // ---- one write -----------------------------------------------------------------

  // What can go wrong in one write although a reader could recover before it: the rename that
  // is to repair a failed promote puts a stale path.bak over the live path, or a corrupt path
  // is renamed over the good path.bak.
  ghost predicate Harmless<T>(s: State<T>, io: Io, allowed: iset<Option<T>>) {
    && (OverwritesLive(s, io) ==> Holds(s, s.Now()[Bak], allowed))
    && !BuriesBackup(s, io)
  }

  lemma WriteSafe<T>(s: State<T>, data: T, io: Io, allowed: iset<Option<T>>)
    requires Safe(s, allowed) && Some(data) in allowed && Harmless(s, io, allowed)
    ensures forall st :: st in WriteTrace(s, data, io) ==> Safe(st, allowed)
  {
    if io.open {
      StagedSafe(s, data, allowed);
      StagedFacts(s, data);
      CleanupSafe(s.Create(), io, allowed);
      CleanupSafe(Written(s, data), io, allowed);
      CleanupSafe(Staged(s, data), io, allowed);
      SafeNow(s, allowed);
      if io.write && io.sync && io.close {
        ReplaceSafe(Staged(s, data), io, allowed);
      }
    }
  }

  // A write that returned nil is durable: nothing but the new document can come back.
  lemma WriteOkIsDurable<T>(s: State<T>, data: T, io: Io, allowed: iset<Option<T>>)
    requires Safe(s, allowed) && WriteOk(s, io)
    ensures Safe(Final(s, data, io), iset{Some(data)})
  {
    var s3 := Staged(s, data);
    StagedSafe(s, data, allowed);
    StagedFacts(s, data);
    SafeNow(s3, allowed);
    PromotedIsDurable(s3, io, data, allowed);
  }

  lemma PromotedIsDurable<T>(s: State<T>, io: Io, data: T, allowed: iset<Option<T>>)
    requires Safe(s, allowed) && (StatOk(s, io) ==> io.backup) && io.promote && io.syncDir
    requires Tmp in s.Now() && Holds(s, s.Now()[Tmp], iset{Some(data)})
    ensures var t := ReplaceTrace(s, io); t != [] && Safe(t[|t| - 1], iset{Some(data)})
  {
    SafeNow(s, allowed);
    var s4 := if StatOk(s, io) then s.Journal(Move(Main, Bak)) else s;
    var end := s4.Journal(Move(Tmp, Main)).SyncDir();
    assert GoodDir(end, end.Now(), iset{Some(data)});
  }

  lemma RecoversAllowed<T>(s: State<T>, allowed: iset<Option<T>>, img: Image<T>)
    requires Safe(s, allowed) && PowerLoss(s, img)
    ensures LoadWithFallback(img) in allowed
  {
    assert GoodDir(s, img.dir, allowed);
  }

  ghost predicate EveryCrashRecovers<T(!new)>(trace: seq<State<T>>, allowed: iset<Option<T>>) {
    forall st, img :: st in trace && PowerLoss(st, img) ==> LoadWithFallback(img) in allowed
  }

  // Power may go after any step of one write and any prefix of its directory operations be
  // on disk: an allowed document or the new one comes back -- exactly when the write does
  // neither of the two harmful things.
  lemma WriteCrashSafe<T(!new)>(s: State<T>, data: T, io: Io, allowed: iset<Option<T>>)
    requires Safe(s, allowed) && None !in allowed
    ensures EveryCrashRecovers(WriteTrace(s, data, io), allowed + iset{Some(data)})
       <==> Harmless(s, io, allowed + iset{Some(data)})
  {
    var more := allowed + iset{Some(data)};
    SafeWeaken(s, allowed, more);
    if BuriesBackup(s, io) {
      BuriedBackup(s, data, io, more);
    } else if OverwritesLive(s, io) && !Holds(s, s.Now()[Bak], more) {
      StaleRestore(s, data, io, more);
    } else {
      WriteSafe(s, data, io, more);
      forall st, img | st in WriteTrace(s, data, io) && PowerLoss(st, img)
        ensures LoadWithFallback(img) in more
      {
        RecoversAllowed(st, more, img);
      }
    }
  }

  // What is on the disk when the directory is as the process sees it and whatever was not
  // fsynced is lost.
  function Durable<T>(s: State<T>): Image<T> {
    Image(s.Now(), map i | i in s.inodes :: if s.inodes[i].synced then s.inodes[i].doc else None)
  }

  lemma StaleRestore<T(!new)>(s: State<T>, data: T, io: Io, allowed: iset<Option<T>>)
    requires Safe(s, allowed) && None !in allowed
    requires OverwritesLive(s, io) && !Holds(s, s.Now()[Bak], allowed)
    ensures !EveryCrashRecovers(WriteTrace(s, data, io), allowed)
  {
    SafeNow(s, allowed);
    StagedSafe(s, data, allowed);
    StagedFacts(s, data);
    var st := Staged(s, data).Journal(Move(Bak, Main));
    StaleImage(Staged(s, data), allowed);
    assert ReplaceTrace(Staged(s, data), io)[1] == st;
    assert st in WriteTrace(s, data, io) && PowerLoss(st, Durable(st));
  }

  lemma StaleImage<T>(s: State<T>, allowed: iset<Option<T>>)
    requires Safe(s, allowed) && None !in allowed
    requires Main in s.Now() && Bak in s.Now() && !Holds(s, s.Now()[Bak], allowed)
    ensures var st := s.Journal(Move(Bak, Main)); LoadWithFallback(Durable(st)) !in allowed
  {
    SafeNow(s, allowed);
  }

  lemma BuriedBackup<T(!new)>(s: State<T>, data: T, io: Io, allowed: iset<Option<T>>)
    requires Safe(s, allowed) && None !in allowed && BuriesBackup(s, io)
    ensures !EveryCrashRecovers(WriteTrace(s, data, io), allowed)
  {
    SafeNow(s, allowed);
    StagedSafe(s, data, allowed);
    StagedFacts(s, data);
    var s3 := Staged(s, data);
    var st := s3.Journal(Move(Main, Bak));
    BuriedImage(s3);
    assert ReplaceTrace(s3, io)[0] == st;
    assert st in WriteTrace(s, data, io) && PowerLoss(st, Durable(st));
  }

  lemma BuriedImage<T>(s: State<T>)
    requires s.dirs != [] && Main in s.Now() && Corrupt(s, s.Now()[Main])
    ensures LoadWithFallback(Durable(s.Journal(Move(Main, Bak)))) == None
  {
  }

  // A write cleans up: path.tmp is gone at its end if it was made at all, unless removing it
  // after a failure fails as well.
  lemma TmpIsGone<T>(s: State<T>, data: T, io: Io)
    requires io.open && (io.remove || WriteOk(s, io))
    ensures Tmp !in Final(s, data, io).Now()
  {
    StagedFacts(s, data);
    if StageOk(io) {
      ReplaceRemovesTmp(Staged(s, data), io);
      LastOfWrite(s, data, io);
    } else {
      var reached := if !io.write then s.Create() else if !io.sync then Written(s, data) else Staged(s, data);
      assert Final(s, data, io) == (if Cleanup(reached, io) == [] then reached else Cleanup(reached, io)[0]);
    }
  }

  lemma LastOfWrite<T>(s: State<T>, data: T, io: Io)
    requires StageOk(io)
    ensures ReplaceTrace(Staged(s, data), io) == [] ==> Final(s, data, io) == Staged(s, data)
    ensures Final(s, data, io) == Last(Staged(s, data), ReplaceTrace(Staged(s, data), io))
  {
  }

  lemma ReplaceRemovesTmp<T>(s: State<T>, io: Io)
    requires Tmp in s.Now() && (io.remove || ((StatOk(s, io) ==> io.backup) && io.promote))
    ensures Tmp !in Last(s, ReplaceTrace(s, io)).Now()
  {
  }

  // ---- runs of writes -----------------------------------------------------------------

  // A write either runs to its end, or the process is killed after `at` of its steps, or the
  // power goes there and the machine boots from what is on the disk.
  datatype Event<T> =
    | Completed(data: T, io: Io)
    | Killed(data: T, io: Io, at: nat)
    | PowerCut(data: T, io: Io, at: nat, img: Image<T>)

  function After<T>(s: State<T>, data: T, io: Io, steps: nat): State<T> {
    var trace := WriteTrace(s, data, io);
    if steps == 0 || trace == [] then s
    else if steps <= |trace| then trace[steps - 1] else trace[|trace| - 1]
  }

  function Next<T>(s: State<T>, e: Event<T>): State<T> {
    match e
    case Completed(data, io) => Final(s, data, io)
    case Killed(data, io, at) => After(s, data, io, at)
    case PowerCut(data, io, at, img) => Boot(img, s.next + 1)
  }

  ghost predicate Possible<T>(s: State<T>, e: Event<T>) {
    e.PowerCut? ==> PowerLoss(After(s, e.data, e.io, e.at), e.img)
  }

  // The last completed generation, and every generation attempted since.
  ghost function Candidates<T>(s: State<T>, allowed: iset<Option<T>>, e: Event<T>): iset<Option<T>> {
    match e
    case Completed(data, io) => if WriteOk(s, io) then iset{Some(data)} else allowed + iset{Some(data)}
    case Killed(data, _, _) => allowed + iset{Some(data)}
    case PowerCut(_, _, _, img) => iset{LoadWithFallback(img)}
  }

  function Run<T>(s: State<T>, es: seq<Event<T>>): State<T> {
    if es == [] then s else Next(Run(s, es[..|es| - 1]), es[|es| - 1])
  }

  ghost predicate PossibleRun<T>(s: State<T>, es: seq<Event<T>>) {
    es == [] || (PossibleRun(s, es[..|es| - 1]) && Possible(Run(s, es[..|es| - 1]), es[|es| - 1]))
  }

  ghost function RunCandidates<T>(s: State<T>, allowed: iset<Option<T>>, es: seq<Event<T>>): iset<Option<T>> {
    if es == [] then allowed
    else Candidates(Run(s, es[..|es| - 1]), RunCandidates(s, allowed, es[..|es| - 1]), es[|es| - 1])
  }

  // No write of the run does a harmful thing.
  ghost predicate HarmlessRun<T>(s: State<T>, allowed: iset<Option<T>>, es: seq<Event<T>>) {
    es == [] || (
      var before, e := es[..|es| - 1], es[|es| - 1];
      && HarmlessRun(s, allowed, before)
      && Harmless(Run(s, before), e.io, RunCandidates(s, allowed, before) + iset{Some(e.data)}))
  }

  lemma AfterSafe<T>(s: State<T>, data: T, io: Io, at: nat, allowed: iset<Option<T>>)
    requires Safe(s, allowed) && Harmless(s, io, allowed + iset{Some(data)})
    ensures Safe(After(s, data, io, at), allowed + iset{Some(data)})
    ensures Safe(Final(s, data, io), allowed + iset{Some(data)})
  {
    SafeWeaken(s, allowed, allowed + iset{Some(data)});
    WriteSafe(s, data, io, allowed + iset{Some(data)});
  }

  lemma ReplaceKeepsNext<T>(s: State<T>, io: Io)
    ensures forall st :: st in ReplaceTrace(s, io) ==> st.next == s.next
  {
  }

  lemma NextOnlyGrows<T>(s: State<T>, data: T, io: Io)
    ensures forall st :: st in WriteTrace(s, data, io) ==> st.next <= s.next + 1
  {
    ReplaceKeepsNext(Staged(s, data), io);
    assert s.Create().next <= s.next + 1;
    assert Written(s, data).next == Staged(s, data).next == s.Create().next;
  }

  // Booting after a power cut starts from a safe disk again: what was recovered stays.
  lemma BootSafe<T>(s: State<T>, allowed: iset<Option<T>>, img: Image<T>, next: nat)
    requires Safe(s, allowed) && PowerLoss(s, img) && s.next <= next
    ensures Safe(Boot(img, next), iset{LoadWithFallback(img)})
  {
    assert GoodDir(s, img.dir, allowed);
    assert GoodDir(Boot(img, next), img.dir, iset{LoadWithFallback(img)});
  }

  lemma {:induction false} RunIsSafe<T>(s: State<T>, allowed: iset<Option<T>>, es: seq<Event<T>>)
    requires Safe(s, allowed) && None !in allowed && PossibleRun(s, es) && HarmlessRun(s, allowed, es)
    ensures Safe(Run(s, es), RunCandidates(s, allowed, es)) && None !in RunCandidates(s, allowed, es)
  {
    if es != [] {
      var before := es[..|es| - 1];
      RunIsSafe(s, allowed, before);
      NextIsSafe(Run(s, before), RunCandidates(s, allowed, before), es[|es| - 1]);
    }
  }

  // At every write of the run, every power loss brings back a candidate.
  ghost predicate EveryWriteRecovers<T(!new)>(s: State<T>, allowed: iset<Option<T>>, es: seq<Event<T>>) {
    es == [] || (
      var before, e := es[..|es| - 1], es[|es| - 1];
      && EveryWriteRecovers(s, allowed, before)
      && EveryCrashRecovers(WriteTrace(Run(s, before), e.data, e.io), RunCandidates(s, allowed, before) + iset{Some(e.data)}))
  }

  // Over any run of writes, with power cuts, kills and I/O failures: wherever the power goes, a
  // candidate comes back -- the last completed generation or one attempted since, never older
  // and never an error -- exactly when no write of the run does one of the two harmful things.
  lemma {:induction false} RunIsCrashSafe<T(!new)>(s: State<T>, allowed: iset<Option<T>>, es: seq<Event<T>>)
    requires Safe(s, allowed) && None !in allowed && PossibleRun(s, es)
    ensures EveryWriteRecovers(s, allowed, es) <==> HarmlessRun(s, allowed, es)
  {
    if es != [] {
      var before, e := es[..|es| - 1], es[|es| - 1];
      RunIsCrashSafe(s, allowed, before);
      if HarmlessRun(s, allowed, before) {
        RunIsSafe(s, allowed, before);
        WriteCrashSafe(Run(s, before), e.data, e.io, RunCandidates(s, allowed, before));
      }
    }
  }

  lemma NextIsSafe<T>(s: State<T>, allowed: iset<Option<T>>, e: Event<T>)
    requires Safe(s, allowed) && None !in allowed && Possible(s, e) && Harmless(s, e.io, allowed + iset{Some(e.data)})
    ensures Safe(Next(s, e), Candidates(s, allowed, e)) && None !in Candidates(s, allowed, e)
    ensures e.PowerCut? ==> LoadWithFallback(e.img) in allowed + iset{Some(e.data)}
  {
    match e
    case Completed(data, io) =>
      AfterSafe(s, data, io, 0, allowed);
      if WriteOk(s, io) { WriteOkIsDurable(s, data, io, allowed); }
    case Killed(data, io, at) =>
      AfterSafe(s, data, io, at, allowed);
    case PowerCut(data, io, at, img) =>
      var cut := After(s, data, io, at);
      AfterSafe(s, data, io, at, allowed);
      NextOnlyGrows(s, data, io);
      RecoversAllowed(cut, allowed + iset{Some(data)}, img);
      BootSafe(cut, allowed + iset{Some(data)}, img, s.next + 1);
  }

  // Once a write has returned nil, and until the next one starts, a reader gets exactly it --
  // after a power cut and in the running process alike.
  lemma CompletedWriteReadsBack<T>(s: State<T>, allowed: iset<Option<T>>, data: T, io: Io, img: Image<T>)
    requires Safe(s, allowed) && WriteOk(s, io)
    requires PowerLoss(Final(s, data, io), img) || img == Live(Final(s, data, io))
    ensures LoadWithFallback(img) == Some(data)
  {
    WriteOkIsDurable(s, data, io, allowed);
    OnlyDocument(Final(s, data, io), data, img);
  }

  lemma OnlyDocument<T>(s: State<T>, data: T, img: Image<T>)
    requires Safe(s, iset{Some(data)}) && (PowerLoss(s, img) || img == Live(s))
    ensures LoadWithFallback(img) == Some(data)
  {
    if img == Live(s) {
      SafeNow(s, iset{Some(data)});
    } else {
      RecoversAllowed(s, iset{Some(data)}, img);
    }
  }

  // ---- the object ------------------------------------------------------------------------

  // One state file. Each method also reports the states the disk passed through.
  class StateFile<T> {
    var disk: State<T>

    constructor (initial: State<T>)
      ensures disk == initial
    {
      disk := initial;
    }

    method RemoveTmp(io: Io) returns (ghost steps: seq<State<T>>)
      modifies this
      ensures steps == Cleanup(old(disk), io) && disk == Last(old(disk), steps)
    {
      steps := [];
      if io.remove && Tmp in disk.Now() {
        disk := disk.Journal(Unlink(Tmp));
        steps := [disk];
      }
    }

    method Stage(data: T, io: Io) returns (ok: bool, ghost steps: seq<State<T>>)
      modifies this
      ensures ok == StageOk(io)
      ensures steps == StageTrace(old(disk), data, io) && disk == Last(old(disk), steps)
    {
      if !io.open {
        return false, [];
      }
      disk := disk.Create();
      steps := [disk];
      if !io.write {
        ghost var more := RemoveTmp(io);
        return false, steps + more;
      }
      disk := disk.Fill(Some(data), false);
      steps := steps + [disk];
      if !io.sync {
        ghost var more := RemoveTmp(io);
        return false, steps + more;
      }
      disk := disk.Fill(Some(data), true);
      steps := steps + [disk];
      if !io.close {
        ghost var more := RemoveTmp(io);
        return false, steps + more;
      }
      return true, steps;
    }

    method Replace(io: Io) returns (ok: bool, ghost steps: seq<State<T>>)
      modifies this
      ensures ok == ((StatOk(old(disk), io) ==> io.backup) && io.promote && io.syncDir)
      ensures steps == ReplaceTrace(old(disk), io) && disk == Last(old(disk), steps)
    {
      var seen := io.stat && Main in disk.Now();
      if seen && !io.backup {
        steps := RemoveTmp(io);
        return false, steps;
      }
      if seen {
        disk := disk.Journal(Move(Main, Bak));
      }
      steps := [disk];
      if !io.promote {
        if io.restore && Bak in disk.Now() {
          disk := disk.Journal(Move(Bak, Main));
        }
        steps := steps + [disk];
        ghost var more := RemoveTmp(io);
        return false, steps + more;
      }
      disk := disk.Journal(Move(Tmp, Main));
      steps := steps + [disk];
      if !io.syncDir {
        return false, steps;
      }
      disk := disk.SyncDir();
      return true, steps + [disk];
    }

    // The method as written: tmp, fsync, path -> path.bak, tmp -> path, fsync of the directory.
    method AtomicWriteWithBackup(data: T, io: Io) returns (ok: bool, ghost steps: seq<State<T>>)
      modifies this
      ensures ok == WriteOk(old(disk), io)
      ensures steps == WriteTrace(old(disk), data, io) && disk == Final(old(disk), data, io)
    {
      ghost var staged;
      ok, staged := Stage(data, io);
      if !ok {
        return false, staged;
      }
      StagedOk(old(disk), data, io);
      ghost var replaced;
      ok, replaced := Replace(io);
      return ok, staged + replaced;
    }
  }

  lemma StagedOk<T>(s: State<T>, data: T, io: Io)
    requires StageOk(io)
    ensures var s3 := Last(s, StageTrace(s, data, io));
      && WriteTrace(s, data, io) == StageTrace(s, data, io) + ReplaceTrace(s3, io)
      && Final(s, data, io) == Last(s3, ReplaceTrace(s3, io))
      && (WriteOk(s, io) <==> (StatOk(s3, io) ==> io.backup) && io.promote && io.syncDir)
  {
    StagedFacts(s, data);
    assert Last(s, StageTrace(s, data, io)) == Staged(s, data);
  }
}
