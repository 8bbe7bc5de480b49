/**
 The file system under one state file and `AtomicWriteWithBackup` on top of it.

 A directory maps the names path, path.bak and path.tmp to inodes. Directory operations
 reach the disk in order but late: a power loss keeps some prefix of those made since the
 last successful directory fsync. File contents survive only if they were fsynced.
 */
module Disk {
  import opened Options

  datatype Name = Main | Bak | Tmp

  type Dir = map<Name, nat>

  datatype DirOp = Link(name: Name, ino: nat) | Unlink(name: Name) | Move(from: Name, to: Name)

  function Apply(d: Dir, op: DirOp): Dir {
    match op
    case Link(name, ino) => d[name := ino]
    case Unlink(name) => d - {name}
    case Move(from, to) => if from in d then (d - {from})[to := d[from]] else d
  }

  // A document that does not decode is None.
  datatype Inode<T> = Inode(doc: Option<T>, synced: bool)

  // `dirs` holds the directory as last fsynced, then as it was after each operation since.
  datatype State<T> = State(dirs: seq<Dir>, inodes: map<nat, Inode<T>>, next: nat) {
    // The directory as the running process sees it.
    function Now(): Dir {
      if dirs == [] then map[] else dirs[|dirs| - 1]
    }

    function Journal(op: DirOp): State<T> {
      this.(dirs := dirs + [Apply(Now(), op)])
    }

    // Open path.tmp, truncating whatever an earlier attempt left there.
    function Create(): State<T> {
      if Tmp in Now() then this.(inodes := inodes[Now()[Tmp] := Inode(None, false)])
      else Journal(Link(Tmp, next)).(inodes := inodes[next := Inode(None, false)], next := next + 1)
    }

    function Fill(doc: Option<T>, synced: bool): State<T> {
      if Tmp in Now() then this.(inodes := inodes[Now()[Tmp] := Inode(doc, synced)]) else this
    }

    function SyncDir(): State<T> {
      this.(dirs := [Now()])
    }
  }

  // Which of its system calls succeed in one write.
  datatype Io = Io(open: bool, write: bool, sync: bool, close: bool, stat: bool, backup: bool,
                   promote: bool, restore: bool, remove: bool, syncDir: bool)

  // ---- AtomicWriteWithBackup: the states it passes through, and whether it returns nil ----

  function Cleanup<T>(s: State<T>, io: Io): seq<State<T>> {
    if io.remove && Tmp in s.Now() then [s.Journal(Unlink(Tmp))] else []
  }

  function Written<T>(s: State<T>, data: T): State<T> {
    s.Create().Fill(Some(data), false)
  }

  function Staged<T>(s: State<T>, data: T): State<T> {
    Written(s, data).Fill(Some(data), true)
  }

  predicate StageOk(io: Io) {
    io.open && io.write && io.sync && io.close
  }

  // Write and fsync path.tmp; a failure removes it again.
  function StageTrace<T>(s: State<T>, data: T, io: Io): seq<State<T>> {
    if !io.open then []
    else if !io.write then [s.Create()] + Cleanup(s.Create(), io)
    else if !io.sync then [s.Create(), Written(s, data)] + Cleanup(Written(s, data), io)
    else [s.Create(), Written(s, data), Staged(s, data)] + (if io.close then [] else Cleanup(Staged(s, data), io))
  }

  function WriteTrace<T>(s: State<T>, data: T, io: Io): seq<State<T>> {
    StageTrace(s, data, io) + (if StageOk(io) then ReplaceTrace(Staged(s, data), io) else [])
  }

  // Whether os.Stat(path) succeeds: it may fail although the file is there.
  predicate StatOk<T>(s: State<T>, io: Io) {
    io.stat && Main in s.Now()
  }

  function ReplaceTrace<T>(s: State<T>, io: Io): seq<State<T>> {
    if StatOk(s, io) && !io.backup then Cleanup(s, io)
    else
      var s4 := if StatOk(s, io) then s.Journal(Move(Main, Bak)) else s;
      if io.promote then
        var s5 := s4.Journal(Move(Tmp, Main));
        if io.syncDir then [s4, s5, s5.SyncDir()] else [s4, s5]
      else
        var s5 := if io.restore && Bak in s4.Now() then s4.Journal(Move(Bak, Main)) else s4;
        [s4, s5] + Cleanup(s5, io)
  }

  function WriteOk<T>(s: State<T>, io: Io): bool {
    StageOk(io) && (StatOk(s, io) ==> io.backup) && io.promote && io.syncDir
  }

  function Last<T>(s: State<T>, trace: seq<State<T>>): State<T> {
    if trace == [] then s else trace[|trace| - 1]
  }

  function Final<T>(s: State<T>, data: T, io: Io): State<T> {
    Last(s, WriteTrace(s, data, io))
  }

  // ---- what a reader finds ---------------------------------------------------------

  // What is on the disk when a machine boots: a directory and the files' contents.
  datatype Image<T> = Image(dir: Dir, docs: map<nat, Option<T>>)

  function LoadFile<T>(img: Image<T>, name: Name): Option<T> {
    if name in img.dir && img.dir[name] in img.docs then img.docs[img.dir[name]] else None
  }

  function LoadWithFallback<T>(img: Image<T>): Option<T> {
    var main := LoadFile(img, Main);
    if main.Some? then main else LoadFile(img, Bak)
  }

  // What the running process itself would read.
  function Live<T>(s: State<T>): Image<T> {
    Image(s.Now(), map i | i in s.inodes :: s.inodes[i].doc)
  }

  // A power loss keeps a prefix of the directory operations and the fsynced contents.
  ghost predicate PowerLoss<T>(s: State<T>, img: Image<T>) {
    && img.dir in s.dirs
    && img.docs.Keys == s.inodes.Keys
    && forall i :: i in s.inodes && s.inodes[i].synced ==> img.docs[i] == s.inodes[i].doc
  }

  function Boot<T>(img: Image<T>, next: nat): State<T> {
    State([img.dir], map i | i in img.docs :: Inode(img.docs[i], true), next)
  }

  // ---- the invariant -----------------------------------------------------------------

  ghost predicate Holds<T>(s: State<T>, ino: nat, allowed: iset<Option<T>>) {
    ino in s.inodes && s.inodes[ino].synced && s.inodes[ino].doc.Some? && s.inodes[ino].doc in allowed
  }

  // Durable contents that do not decode, so that a reader turns to the backup.
  predicate Corrupt<T>(s: State<T>, ino: nat) {
    ino in s.inodes && s.inodes[ino].synced && s.inodes[ino].doc.None?
  }

  // A directory from which `loadWithFallback` gets an allowed outcome; None is the outcome of
  // a directory that has neither file.
  ghost predicate GoodDir<T>(s: State<T>, d: Dir, allowed: iset<Option<T>>) {
    && (forall n :: n in d ==> d[n] in s.inodes)
    && (forall n, m :: n in d && m in d && n != m ==> d[n] != d[m])
    && (if Main in d && !Corrupt(s, d[Main]) then Holds(s, d[Main], allowed)
        else if Bak in d then Holds(s, d[Bak], allowed)
        else None in allowed)
    && (Tmp in s.Now() ==> forall n :: n in d && n != Tmp ==> d[n] != s.Now()[Tmp])
  }

  // Whatever prefix of the directory operations survives, the directory is good.
  ghost predicate Safe<T>(s: State<T>, allowed: iset<Option<T>>) {
    && s.dirs != []
    && (forall i :: i in s.inodes ==> i < s.next)
    && forall d :: d in s.dirs ==> GoodDir(s, d, allowed)
  }

  lemma SafeNow<T>(s: State<T>, allowed: iset<Option<T>>)
    requires Safe(s, allowed)
    ensures s.Now() in s.dirs && GoodDir(s, s.Now(), allowed)
  {
  }

  lemma SafeWeaken<T>(s: State<T>, allowed: iset<Option<T>>, more: iset<Option<T>>)
    requires Safe(s, allowed) && allowed <= more
    ensures Safe(s, more)
  {
  }

  // A directory operation that leaves path.tmp alone or removes it keeps the invariant when
  // its outcome is good.
  lemma JournalSafe<T>(s: State<T>, op: DirOp, allowed: iset<Option<T>>)
    requires Safe(s, allowed)
    requires GoodDir(s.Journal(op), Apply(s.Now(), op), allowed)
    requires Tmp in Apply(s.Now(), op) ==> Tmp in s.Now() && Apply(s.Now(), op)[Tmp] == s.Now()[Tmp]
    ensures Safe(s.Journal(op), allowed)
  {
    var s' := s.Journal(op);
    forall d | d in s'.dirs
      ensures GoodDir(s', d, allowed)
    {
      assert d != Apply(s.Now(), op) ==> d in s.dirs && GoodDir(s, d, allowed);
    }
  }

  // Changing the contents of path.tmp disturbs no document a reader could need.
  lemma FillSafe<T>(s: State<T>, doc: Option<T>, synced: bool, allowed: iset<Option<T>>)
    requires Safe(s, allowed) && Tmp in s.Now()
    ensures Safe(s.Fill(doc, synced), allowed)
  {
    SafeNow(s, allowed);
    var s' := s.Fill(doc, synced);
    forall d | d in s'.dirs
      ensures GoodDir(s', d, allowed)
    {
      assert GoodDir(s, d, allowed);
    }
  }

  lemma CreateSafe<T>(s: State<T>, allowed: iset<Option<T>>)
    requires Safe(s, allowed)
    ensures Safe(s.Create(), allowed)
  {
    SafeNow(s, allowed);
    if Tmp in s.Now() {
      FillSafe(s, None, false, allowed);
    } else {
      var s' := s.Create();
      forall d | d in s'.dirs
        ensures GoodDir(s', d, allowed)
      {
        assert d != s'.Now() ==> d in s.dirs && GoodDir(s, d, allowed);
      }
    }
  }

  lemma CleanupSafe<T>(s: State<T>, io: Io, allowed: iset<Option<T>>)
    requires Safe(s, allowed)
    ensures forall st :: st in Cleanup(s, io) ==> Safe(st, allowed)
  {
    SafeNow(s, allowed);
    if io.remove && Tmp in s.Now() {
      JournalSafe(s, Unlink(Tmp), allowed);
    }
  }

  // A failing promote is repaired by renaming path.bak back. If os.Stat had failed although
  // path was there, nothing was moved to path.bak and that rename lands on the live file.
  predicate OverwritesLive<T>(s: State<T>, io: Io) {
    && StageOk(io)
    && Main in s.Now() && !io.stat && !io.promote && io.restore && Bak in s.Now()
  }

  // Renaming a corrupt path to path.bak destroys the backup a reader would have turned to.
  predicate BuriesBackup<T>(s: State<T>, io: Io) {
    StageOk(io) && StatOk(s, io) && io.backup && Corrupt(s, s.Now()[Main])
  }

  lemma BackupSafe<T>(s: State<T>, allowed: iset<Option<T>>)
    requires Safe(s, allowed) && Main in s.Now() && !Corrupt(s, s.Now()[Main])
    ensures Safe(s.Journal(Move(Main, Bak)), allowed)
  {
    SafeNow(s, allowed);
    JournalSafe(s, Move(Main, Bak), allowed);
  }

  lemma PromoteSafe<T>(s: State<T>, allowed: iset<Option<T>>)
    requires Safe(s, allowed) && Tmp in s.Now() && Holds(s, s.Now()[Tmp], allowed)
    ensures Safe(s.Journal(Move(Tmp, Main)), allowed)
    ensures Safe(s.Journal(Move(Tmp, Main)).SyncDir(), allowed)
  {
    SafeNow(s, allowed);
    JournalSafe(s, Move(Tmp, Main), allowed);
    SyncDirSafe(s.Journal(Move(Tmp, Main)), allowed);
  }

  lemma RestoreSafe<T>(s: State<T>, allowed: iset<Option<T>>)
    requires Safe(s, allowed) && Bak in s.Now()
    requires Main in s.Now() && !Corrupt(s, s.Now()[Main]) ==> Holds(s, s.Now()[Bak], allowed)
    ensures Safe(s.Journal(Move(Bak, Main)), allowed)
  {
    SafeNow(s, allowed);
    JournalSafe(s, Move(Bak, Main), allowed);
  }

  lemma ReplaceSafe<T>(s: State<T>, io: Io, allowed: iset<Option<T>>)
    requires Safe(s, allowed)
    requires Tmp in s.Now() && Holds(s, s.Now()[Tmp], allowed)
    requires Main in s.Now() && !io.stat && !io.promote && io.restore && Bak in s.Now() ==> Holds(s, s.Now()[Bak], allowed)
    requires StatOk(s, io) && io.backup ==> !Corrupt(s, s.Now()[Main])
    ensures forall st :: st in ReplaceTrace(s, io) ==> Safe(st, allowed)
  {
    CleanupSafe(s, io, allowed);
    if !(StatOk(s, io) && !io.backup) {
      var s4 := s;
      if StatOk(s, io) {
        s4 := s.Journal(Move(Main, Bak));
        BackupSafe(s, allowed);
      }
      if io.promote {
        PromoteSafe(s4, allowed);
      } else if io.restore && Bak in s4.Now() {
        RestoreSafe(s4, allowed);
        CleanupSafe(s4.Journal(Move(Bak, Main)), io, allowed);
      } else {
        CleanupSafe(s4, io, allowed);
      }
    }
  }

  lemma SyncDirSafe<T>(s: State<T>, allowed: iset<Option<T>>)
    requires Safe(s, allowed)
    ensures Safe(s.SyncDir(), allowed)
  {
    SafeNow(s, allowed);
  }

  // Everything up to the first rename leaves path and path.bak alone; after it path.tmp holds
  // the new document, fsynced.
  lemma StagedSafe<T>(s: State<T>, data: T, allowed: iset<Option<T>>)
    requires Safe(s, allowed)
    ensures Safe(s.Create(), allowed) && Safe(Written(s, data), allowed) && Safe(Staged(s, data), allowed)
  {
    CreateSafe(s, allowed);
    FillSafe(s.Create(), Some(data), false, allowed);
    FillSafe(Written(s, data), Some(data), true, allowed);
  }

  lemma StagedFacts<T>(s: State<T>, data: T)
    ensures Staged(s, data).Now() == if Tmp in s.Now() then s.Now() else s.Now()[Tmp := s.next]
    ensures Staged(s, data).inodes == s.inodes[Staged(s, data).Now()[Tmp] := Inode(Some(data), true)]
  {
  }
}
