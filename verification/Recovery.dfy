/**
 Start-up after a crash. The loaders `os.Stat` path before they call `loadWithFallback`, so
 what they recover depends on whether path itself is there, not on whether a good copy is.
 */
module Recovery {
  import opened Options
  import opened Records
  import opened Disk
  import opened CrashSafety
  import opened SaveOutcome

  // ---- loading one file -----------------------------------------------------------------

  // An error, possibly wrapped by `fmt.Errorf` with %w.
  datatype LoadError = NotExist | Undecodable | Invalid | Wrapped(inner: LoadError)

  datatype Result<T> = Ok(doc: T, fromBackup: bool) | Err(error: LoadError)

  // os.IsNotExist looks at the error itself, not at what it wraps.
  predicate IsNotExist(e: LoadError) {
    e.NotExist?
  }

  function ErrorOf<T>(img: Image<T>, n: Name): LoadError {
    if n in img.dir then Undecodable else NotExist
  }

  // LoadWithFallback with its error: that of the backup, wrapped.
  function LoadOrFail<T>(img: Image<T>): Result<T> {
    var main, bak := LoadFile(img, Main), LoadFile(img, Bak);
    if main.Some? then Ok(main.value, false)
    else if bak.Some? then Ok(bak.value, true)
    else Err(Wrapped(ErrorOf(img, Bak)))
  }

  // Load with fallback, and retry path.bak when validation fails.
  ghost function LoadValid<T>(img: Image<T>, valid: T -> bool): Result<T> {
    var first, bak := LoadOrFail(img), LoadFile(img, Bak);
    if first.Err? || valid(first.doc) then first
    else if bak.Some? && valid(bak.value) then Ok(bak.value, true)
    else Err(Invalid)
  }

  // loadUsersFromDisk: the same, with a branch that is to make a missing file an empty list.
  ghost function LoadUsersFromDisk(img: Image<UsersFile>): Result<UsersFile> {
    var first := LoadOrFail(img);
    if first.Err? then if IsNotExist(first.error) then Ok(UsersFile(0, []), false) else first
    else LoadValid(img, ValidUsersFile)
  }

  // That branch is dead: the wrapped error never passes os.IsNotExist. Whatever the disk
  // holds, loading succeeds only with a valid document from one of the two files, and with
  // both missing it is an error, not an empty list.
  lemma EmptyListIsNeverReached(img: Image<UsersFile>)
    ensures LoadOrFail(img).Err? ==> !IsNotExist(LoadOrFail(img).error)
    ensures LoadUsersFromDisk(img) == LoadValid(img, ValidUsersFile)
    ensures LoadUsersFromDisk(img).Ok? <==>
      exists n :: n in {Main, Bak} && LoadFile(img, n).Some? && ValidUsersFile(LoadFile(img, n).value)
    ensures Main !in img.dir && Bak !in img.dir ==> LoadUsersFromDisk(img) == Err(Wrapped(NotExist))
    ensures LoadFile(img, Main).None? && LoadFile(img, Bak).None? && Bak in img.dir ==>
      LoadUsersFromDisk(img) == Err(Wrapped(Undecodable))
  {
    assert LoadFile(img, Main).Some? && ValidUsersFile(LoadFile(img, Main).value) ==> Main in {Main, Bak};
    assert LoadFile(img, Bak).Some? && ValidUsersFile(LoadFile(img, Bak).value) ==> Bak in {Main, Bak};
  }

  datatype Loaded<T> = Missing | Loaded(doc: T, fromBackup: bool) | Failed

  // loadUsers, loadTraffic and loadSingleNode alike: a missing path means "first start" and
  // yields defaults.
  ghost function GuardedLoad<T>(img: Image<T>, valid: T -> bool): Loaded<T> {
    if Main !in img.dir then Missing
    else
      match LoadValid(img, valid)
      case Ok(doc, fromBackup) => Loaded(doc, fromBackup)
      case Err(_) => Failed
  }

  // After a power loss the disk always holds an allowed document; the loader returns it
  // exactly when path is there. Otherwise it reports a first start, although path.bak holds
  // the document.
  lemma LoaderRecoversExactly<T>(s: State<T>, allowed: iset<Option<T>>, img: Image<T>, valid: T -> bool)
    requires Safe(s, allowed) && PowerLoss(s, img) && None !in allowed
    requires forall d :: Some(d) in allowed ==> valid(d)
    ensures LoadWithFallback(img) in allowed
    ensures GuardedLoad(img, valid) ==
      if Main in img.dir then Loaded(LoadWithFallback(img).value, LoadFile(img, Main).None?) else Missing
    ensures Main !in img.dir ==> LoadFile(img, Bak) in allowed
  {
    RecoversAllowed(s, allowed, img);
    assert GoodDir(s, img.dir, allowed);
  }

  // Every write that replaces a file passes through a state from which a power loss makes
  // the loader report a first start while the last good document sits in path.bak.
  lemma EveryReplacementHasAGap<T>(s: State<T>, allowed: iset<Option<T>>, data: T, io: Io, valid: T -> bool)
    returns (st: State<T>, img: Image<T>)
    requires Safe(s, allowed) && Main in s.Now() && StageOk(io) && io.stat && io.backup
    ensures st in WriteTrace(s, data, io) && PowerLoss(st, img)
    ensures GuardedLoad(img, valid) == Missing
    ensures !Corrupt(s, s.Now()[Main]) ==> LoadFile(img, Bak) in allowed && LoadFile(img, Bak).Some?
  {
    BetweenRenames(s, data, io);
    GapFacts(s, allowed, data, valid);
    st := Gap(s, data);
    img := Live(st);
  }

  // Wherever the power goes during these states, path is still there.
  ghost predicate NeverMissing<T(!new)>(trace: seq<State<T>>) {
    forall st, img: Image<T> :: st in trace && PowerLoss(st, img) ==> Main in img.dir
  }

  ghost predicate MainStays<T>(s: State<T>) {
    s.dirs != [] && forall d :: d in s.dirs ==> Main in d
  }

  // So what the comment in the write promises -- that no power loss leaves path missing --
  // holds of exactly the writes that never get to the first rename, whatever their outcome.
  lemma GapExactly<T(!new)>(s: State<T>, data: T, io: Io)
    requires MainStays(s)
    ensures NeverMissing(WriteTrace(s, data, io)) <==> !(StageOk(io) && io.stat && io.backup)
  {
    if StageOk(io) && io.stat && io.backup {
      BetweenRenames(s, data, io);
      GapHasNoMain(s, data);
    } else {
      NoGap(s, data, io);
      forall st, img: Image<T> | st in WriteTrace(s, data, io) && PowerLoss(st, img)
        ensures Main in img.dir
      {
        assert MainStays(st);
      }
    }
  }

  lemma GapHasNoMain<T>(s: State<T>, data: T)
    requires Main in s.Now()
    ensures PowerLoss(Gap(s, data), Live(Gap(s, data))) && Main !in Live(Gap(s, data)).dir
  {
    StagedFacts(s, data);
  }

  lemma OpKeepsMain<T>(s: State<T>, op: DirOp)
    requires MainStays(s) && (op.Link? || op == Unlink(Tmp) || (op.Move? && op.from != Main))
    ensures MainStays(s.Journal(op))
  {
  }

  lemma CleanupKeepsMain<T>(s: State<T>, io: Io)
    requires MainStays(s)
    ensures forall st :: st in Cleanup(s, io) ==> MainStays(st)
  {
    OpKeepsMain(s, Unlink(Tmp));
  }

  lemma StagingKeepsMain<T>(s: State<T>, data: T)
    requires MainStays(s)
    ensures MainStays(s.Create()) && MainStays(Written(s, data)) && MainStays(Staged(s, data))
  {
  }

  lemma NoGap<T>(s: State<T>, data: T, io: Io)
    requires MainStays(s) && !(StageOk(io) && io.stat && io.backup)
    ensures forall st :: st in WriteTrace(s, data, io) ==> MainStays(st)
  {
    StagingKeepsMain(s, data);
    CleanupKeepsMain(s.Create(), io);
    CleanupKeepsMain(Written(s, data), io);
    CleanupKeepsMain(Staged(s, data), io);
    if StageOk(io) {
      ReplacingKeepsMain(Staged(s, data), io);
    }
  }

  lemma ReplacingKeepsMain<T>(s: State<T>, io: Io)
    requires MainStays(s) && !(io.stat && io.backup)
    ensures forall st :: st in ReplaceTrace(s, io) ==> MainStays(st)
  {
    CleanupKeepsMain(s, io);
    OpKeepsMain(s, Move(Tmp, Main));
    OpKeepsMain(s, Move(Bak, Main));
    CleanupKeepsMain(s.Journal(Move(Bak, Main)), io);
  }

  // path has been renamed to path.bak, and path.tmp not yet to path.
  function Gap<T>(s: State<T>, data: T): State<T> {
    Staged(s, data).Journal(Move(Main, Bak))
  }

  lemma GapFacts<T>(s: State<T>, allowed: iset<Option<T>>, data: T, valid: T -> bool)
    requires Safe(s, allowed) && Main in s.Now()
    ensures var img := Live(Gap(s, data));
      && PowerLoss(Gap(s, data), img) && GuardedLoad(img, valid) == Missing
      && (!Corrupt(s, s.Now()[Main]) ==> LoadFile(img, Bak) in allowed && LoadFile(img, Bak).Some?)
  {
    SafeNow(s, allowed);
    StagedFacts(s, data);
  }

  lemma BetweenRenames<T>(s: State<T>, data: T, io: Io)
    requires Main in s.Now() && StageOk(io) && io.stat && io.backup
    ensures Gap(s, data) in WriteTrace(s, data, io)
  {
    StagedFacts(s, data);
    assert ReplaceTrace(Staged(s, data), io)[0] == Gap(s, data);
  }

  // Two completed writes later, path holds the second document and path.bak the first: each
  // write keeps exactly the previous generation. So a loader that reported a first start and
  // saved its defaults has only one more save to go before the good copy is gone.
  lemma BackupIsPreviousGeneration<T>(s: State<T>, allowed: iset<Option<T>>, first: T, io1: Io, second: T, io2: Io)
    requires Safe(s, allowed) && WriteOk(s, io1)
    requires var s1 := Final(s, first, io1); WriteOk(s1, io2) && io2.stat
    ensures var end := Live(Final(Final(s, first, io1), second, io2));
      LoadFile(end, Main) == Some(second) && LoadFile(end, Bak) == Some(first)
  {
    SafeNow(s, allowed);
    SaveIsWrite(s, first, io1);
    SaveIsWrite(Final(s, first, io1), second, io2);
  }

  // A corrupt path beside a good path.bak: what makes saving harmful, and exactly when. The
  // save that is to restore path first renames the corrupt file over the good backup; if it
  // gets that far, there is a power loss that leaves nothing to load, and only then.
  lemma RestoringCanLoseBoth<T(!new)>(s: State<T>, doc: T, data: T, io: Io)
    requires Safe(s, iset{Some(doc)}) && Main in s.Now() && Corrupt(s, s.Now()[Main])
    ensures LoadWithFallback(Live(s)) == Some(doc)
    ensures EveryCrashRecovers(WriteTrace(s, data, io), iset{Some(doc), Some(data)})
       <==> !(StageOk(io) && io.stat && io.backup)
  {
    var allowed := iset{Some(doc)};
    SafeNow(s, allowed);
    assert allowed + iset{Some(data)} == iset{Some(doc), Some(data)};
    WriteCrashSafe(s, data, io, allowed);
  }
}
