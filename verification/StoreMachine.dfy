/**
 The store under concurrency: any number of request and flusher threads, interleaved at
 their critical sections. `mu` sections are single steps; `saveMu` is held from before a
 snapshot is taken until its write has ended.
 */
module StoreMachine {
  import opened Options
  import opened Records
  import opened Disk
  import opened SaveOutcome

  type Tid = int

  // Where a thread is. A thread without an entry is idle.
  datatype Pc =
    | Idle
    | Marking(save: bool)                        // changed the counters, the flag not yet set
    | FlushArmed                                 // took the flag, waiting for saveMu
    | FlushLocked                                // holds saveMu, no snapshot yet
    | FlushWriting(counters: map<int, Traffic>)  // holds saveMu and a snapshot
    | FlushFailed                                // the write failed, the flag not yet set again
    | SaveArmed                                  // changed the users, waiting for saveMu
    | SaveLocked
    | SaveWriting(saved: Saved)                  // holds saveMu and a snapshot
    | Refreshing(list: seq<User>, fromBackup: bool)  // read users.json, no lock held

  // A list of users in a file, and which of the user sets since start-up it was saved from;
  // NO_VERSION is a file from before.
  datatype Saved = Saved(list: seq<User>, version: int)

  const NO_VERSION := -1

  // The files are what the running process sees: the users they list, and the counters that a
  // loader would make of them.
  datatype System = System(
    mem: Mem,
    dirty: bool,
    saveMu: Option<Tid>,
    users: Files<Saved>,
    traffic: Files<map<int, Traffic>>,
    pcs: map<Tid, Pc>,
    history: seq<map<int, User>>,  // every user set so far, oldest first
    refreshed: int,                // the last of these that a refresh made; 0 if none did
    undisturbed: bool)             // since start-up, or since a successful save of users that no
                                   // refresh had replaced: no save of the users has failed, and
                                   // no refresh has changed them

  datatype Action =
    | Accumulate(uid: int, up: int, down: int)
    | SetFlag
    | AddUser(u: User)
    | DeleteUser(id: int)
    | SetUsers(us: seq<User>)
    | LockSave
    | SnapshotUsers(list: seq<User>)
    | WriteUsers(io: Io)
    | ReadUsers(list: seq<User>, fromBackup: bool)
    | ApplyRefresh
    | TakeFlag
    | LockFlush
    | SnapshotTraffic
    | WriteTraffic(io: Io)
    | Remark

  function At(s: System, t: Tid): Pc {
    if t in s.pcs then s.pcs[t] else Idle
  }

  ghost predicate Enabled(s: System, t: Tid, a: Action) {
    var pc := At(s, t);
    match a
    case Accumulate(uid, up, down) => pc.Idle? && Accepts(s.mem, uid, up, down)
    case SetFlag => pc.Marking?
    case AddUser(u) => pc.Idle? && CanAdd(s.mem, u)
    case DeleteUser(id) => pc.Idle? && id in s.mem.users
    case SetUsers(us) => pc.Idle? && ValidList(us)
    case LockSave => pc.SaveArmed? && s.saveMu.None?
    case SnapshotUsers(list) => pc.SaveLocked? && IsListOf(list, s.mem.users)
    case WriteUsers(_) => pc.SaveWriting?
    case ReadUsers(list, _) => pc.Idle? && ValidList(list)
    case ApplyRefresh => pc.Refreshing?
    case TakeFlag => pc.Idle? && s.dirty
    case LockFlush => pc.FlushArmed? && s.saveMu.None?
    case SnapshotTraffic => pc.FlushLocked?
    case WriteTraffic(_) => pc.FlushWriting?
    case Remark => pc.FlushFailed?
  }

  function Go(s: System, t: Tid, pc: Pc): System {
    s.(pcs := s.pcs[t := pc])
  }

  function NewUsers(s: System, m: Mem): System {
    s.(mem := m, history := s.history + [m.users])
  }

  function Next(s: System, t: Tid, a: Action): System {
    var pc := At(s, t);
    match a
    case Accumulate(uid, up, down) => Go(s.(mem := Records.Accumulate(s.mem, uid, up, down)), t, Marking(false))
    case SetFlag => Go(s.(dirty := true), t, if pc.Marking? && pc.save then SaveArmed else Idle)
    case AddUser(u) => Go(NewUsers(s, Records.AddUser(s.mem, u)), t, SaveArmed)
    case DeleteUser(id) => Go(NewUsers(s, Records.DeleteUser(s.mem, id)), t, SaveArmed)
    case SetUsers(us) => Go(NewUsers(s, ReplaceUsers(s.mem, us)), t, SaveArmed)
    case LockSave => Go(s.(saveMu := Some(t)), t, SaveLocked)
    case SnapshotUsers(list) => Go(s, t, SaveWriting(Saved(list, |s.history| - 1)))
    case WriteUsers(io) =>
      if !pc.SaveWriting? then s
      else
        Go(s.(users := Save(s.users, pc.saved, io), saveMu := None,
              undisturbed := SaveOk(s.users, io) && (s.undisturbed || pc.saved.version >= s.refreshed)), t, Idle)
    case ReadUsers(list, fromBackup) => Go(s, t, Refreshing(list, fromBackup))
    case ApplyRefresh =>
      if !pc.Refreshing? then s
      else
        var m := ReplaceUsers(s.mem, pc.list);
        var pruned := m.traffic != s.mem.traffic;
        Go(NewUsers(s, m).(undisturbed := s.undisturbed && m.users == s.mem.users,
                           refreshed := if m.users == s.mem.users then s.refreshed else |s.history|), t,
           if pruned then Marking(pc.fromBackup) else if pc.fromBackup then SaveArmed else Idle)
    case TakeFlag => Go(s.(dirty := false), t, FlushArmed)
    case LockFlush => Go(s.(saveMu := Some(t)), t, FlushLocked)
    case SnapshotTraffic => Go(s, t, FlushWriting(s.mem.traffic))
    case WriteTraffic(io) =>
      if !pc.FlushWriting? then s
      else
        Go(s.(traffic := Save(s.traffic, pc.counters, io), saveMu := None), t,
           if SaveOk(s.traffic, io) then Idle else FlushFailed)
    case Remark => Go(s.(dirty := true), t, Idle)
  }

  datatype Step = Step(t: Tid, a: Action)

  function Run(s: System, steps: seq<Step>): System {
    if steps == [] then s
    else Next(Run(s, steps[..|steps| - 1]), steps[|steps| - 1].t, steps[|steps| - 1].a)
  }

  ghost predicate IsRun(s: System, steps: seq<Step>) {
    steps == [] || (
      && IsRun(s, steps[..|steps| - 1])
      && Enabled(Run(s, steps[..|steps| - 1]), steps[|steps| - 1].t, steps[|steps| - 1].a))
  }

  // ---- the invariant --------------------------------------------------------------------

  predicate HoldsSaveMu(pc: Pc) {
    pc.FlushLocked? || pc.FlushWriting? || pc.SaveLocked? || pc.SaveWriting?
  }

  ghost predicate MutexInv(s: System) {
    forall t :: HoldsSaveMu(At(s, t)) <==> s.saveMu == Some(t)
  }

  // Threads that will still set the flag, or take a fresh snapshot.
  predicate WillPersist(pc: Pc) {
    pc.Marking? || pc.FlushArmed? || pc.FlushLocked? || pc.FlushFailed?
  }

  ghost predicate FlushPending(s: System) {
    s.dirty || exists t :: WillPersist(At(s, t))
  }

  // The counters in traffic.json; no file, no counters.
  function OnDisk(s: System): map<int, Traffic> {
    if s.traffic.main.Some? then s.traffic.main.value else map[]
  }

  // What traffic.json will hold once the write in progress, if any, has succeeded.
  function TrafficTarget(s: System): map<int, Traffic> {
    if s.saveMu.Some? && At(s, s.saveMu.value).FlushWriting? then At(s, s.saveMu.value).counters else OnDisk(s)
  }

  // Every counter in memory is on disk. The converse fails: DeleteUser and SetUsers drop
  // counters without setting the flag.
  ghost predicate Covered(counters: map<int, Traffic>, disk: map<int, Traffic>) {
    forall id :: id in counters ==> id in disk && disk[id] == counters[id]
  }

  ghost predicate TrafficInv(s: System) {
    FlushPending(s) || Covered(s.mem.traffic, TrafficTarget(s))
  }

  ghost predicate SavePending(s: System) {
    exists t :: At(s, t).SaveArmed? || At(s, t).SaveLocked?
  }

  function UsersTarget(s: System): Option<Saved> {
    if s.saveMu.Some? && At(s, s.saveMu.value).SaveWriting? then Some(At(s, s.saveMu.value).saved) else s.users.main
  }

  ghost predicate Lists(f: Option<Saved>, users: map<int, User>) {
    f.Some? && UsersOf(f.value.list) == users
  }

  // A list is being written that was taken after the last refresh that changed the users.
  predicate WritingCurrent(s: System) {
    && s.saveMu.Some? && At(s, s.saveMu.value).SaveWriting?
    && At(s, s.saveMu.value).saved.version >= s.refreshed
  }

  ghost predicate UsersInv(s: System) {
    s.undisturbed || WritingCurrent(s) ==> SavePending(s) || Lists(UsersTarget(s), s.mem.users)
  }

  // A file of this process is a save of some user set, in ascending id order; the one found at
  // start-up lists the first set in any order.
  ghost predicate SavedFrom(sv: Saved, history: seq<map<int, User>>) {
    && NO_VERSION <= sv.version < |history|
    && (sv.version >= 0 ==> UsersOf(sv.list) == history[sv.version])
    && (sv.version > 0 ==> IsListOf(sv.list, history[sv.version]))
  }

  // How recent the users are that a loader would find.
  function DiskVersion(f: Files<Saved>): int {
    if f.main.Some? then f.main.value.version else if f.bak.Some? then f.bak.value.version else NO_VERSION
  }

  predicate NoNewer(f: Option<Saved>, version: int) {
    f.Some? ==> f.value.version <= version
  }

  // path.bak is never newer than path, and takes its place when path is gone.
  ghost predicate FilesInv(f: Files<Saved>, history: seq<map<int, User>>) {
    && (f.main.Some? ==> SavedFrom(f.main.value, history))
    && (f.bak.Some? ==> SavedFrom(f.bak.value, history))
    && (f.main.Some? && f.bak.Some? ==> f.bak.value.version <= f.main.value.version)
    && (f.main.Some? || f.bak.Some?)
  }

  // Both files and every snapshot in flight are saves of past user sets, and the one in flight
  // is at least as recent as the files.
  ghost predicate VersionInv(s: System) {
    && s.history != [] && s.history[|s.history| - 1] == s.mem.users
    && FilesInv(s.users, s.history)
    && (forall t :: At(s, t).SaveArmed? || At(s, t).SaveLocked? || (At(s, t).Marking? && At(s, t).save) ==> |s.history| > 1)
    && forall t :: At(s, t).SaveWriting? ==>
         var sv := At(s, t).saved;
         SavedFrom(sv, s.history) && NoNewer(s.users.main, sv.version) && NoNewer(s.users.bak, sv.version)
  }

  ghost predicate StateInv(s: System) {
    && Reachable(s.mem)
    && forall t :: At(s, t).Refreshing? ==> ValidList(At(s, t).list)
  }

  ghost predicate Inv(s: System) {
    MutexInv(s) && TrafficInv(s) && UsersInv(s) && VersionInv(s) && StateInv(s)
  }

  // What NewStore leaves: nothing in flight, the users as users.json lists them in whatever
  // order, every counter as traffic.json has it. What the backups hold is older.
  ghost predicate Init(s: System) {
    && Reachable(s.mem) && s.saveMu.None? && s.pcs == map[]
    && s.undisturbed && s.history == [s.mem.users] && s.refreshed == 0
    && Lists(s.users.main, s.mem.users) && s.users.main.value.version == 0
    && (s.users.bak.Some? ==> s.users.bak.value.version == NO_VERSION)
    && Covered(s.mem.traffic, OnDisk(s))
  }

  // ---- one step ------------------------------------------------------------------------

  lemma OthersUnmoved(s: System, t: Tid, a: Action)
    requires Enabled(s, t, a)
    ensures forall u :: u != t ==> At(Next(s, t, a), u) == At(s, u)
  {
  }

  lemma MutexStep(s: System, t: Tid, a: Action)
    requires MutexInv(s) && Enabled(s, t, a)
    ensures MutexInv(Next(s, t, a))
  {
    OthersUnmoved(s, t, a);
    assert HoldsSaveMu(At(s, t)) <==> s.saveMu == Some(t);
  }

  lemma TrafficStep(s: System, t: Tid, a: Action)
    requires MutexInv(s) && TrafficInv(s) && Enabled(s, t, a)
    ensures TrafficInv(Next(s, t, a))
  {
    var s' := Next(s, t, a);
    OthersUnmoved(s, t, a);
    if !FlushPending(s') {
      forall u | u != t
        ensures !WillPersist(At(s, u))
      {
        assert At(s', u) == At(s, u);
      }
      assert !WillPersist(At(s', t));
      assert HoldsSaveMu(At(s, t)) <==> s.saveMu == Some(t);
    }
  }

  lemma UsersStep(s: System, t: Tid, a: Action)
    requires MutexInv(s) && UsersInv(s) && StateInv(s) && Enabled(s, t, a)
    requires forall u :: At(s, u).SaveWriting? ==> At(s, u).saved.version < |s.history|
    ensures UsersInv(Next(s, t, a))
  {
    var s' := Next(s, t, a);
    OthersUnmoved(s, t, a);
    if (s'.undisturbed || WritingCurrent(s')) && !SavePending(s') {
      forall u | u != t
        ensures !At(s, u).SaveArmed? && !At(s, u).SaveLocked?
      {
        assert At(s', u) == At(s, u);
      }
      assert !At(s', t).SaveArmed? && !At(s', t).SaveLocked?;
      assert HoldsSaveMu(At(s, t)) <==> s.saveMu == Some(t);
      if a.SnapshotUsers? {
        UsersRoundTrip(s.mem, a.list);
      }
    }
  }

  lemma SaveKeepsFiles(f: Files<Saved>, sv: Saved, io: Io, history: seq<map<int, User>>)
    requires FilesInv(f, history) && SavedFrom(sv, history)
    requires NoNewer(f.main, sv.version) && NoNewer(f.bak, sv.version)
    ensures FilesInv(Save(f, sv, io), history)
    ensures DiskVersion(Save(f, sv, io)) < DiskVersion(f) <==>
      Overwrites(f, io) && f.bak.value.version < f.main.value.version
  {
  }

  lemma SnapshotsAreOld(s: System)
    requires VersionInv(s)
    ensures forall u :: At(s, u).SaveWriting? ==> At(s, u).saved.version < |s.history|
  {
  }

  // The write puts an older list back over a newer one.
  predicate RestoresOlder(s: System, a: Action) {
    a.WriteUsers? && Overwrites(s.users, a.io) && s.users.bak.value.version < s.users.main.value.version
  }

  lemma SnapshotIsSave(s: System, list: seq<User>)
    requires VersionInv(s) && StateInv(s) && IsListOf(list, s.mem.users) && |s.history| > 1
    ensures SavedFrom(Saved(list, |s.history| - 1), s.history)
    ensures NoNewer(s.users.main, |s.history| - 1) && NoNewer(s.users.bak, |s.history| - 1)
  {
    UsersRoundTrip(s.mem, list);
  }

  lemma WriteVersion(s: System, t: Tid, io: Io)
    requires MutexInv(s) && VersionInv(s) && Enabled(s, t, WriteUsers(io))
    ensures VersionInv(Next(s, t, WriteUsers(io)))
    ensures DiskVersion(Next(s, t, WriteUsers(io)).users) < DiskVersion(s.users) <==> RestoresOlder(s, WriteUsers(io))
  {
    var s' := Next(s, t, WriteUsers(io));
    OthersUnmoved(s, t, WriteUsers(io));
    SaveKeepsFiles(s.users, At(s, t).saved, io, s.history);
    forall u
      ensures !At(s', u).SaveWriting?
    {
      assert HoldsSaveMu(At(s, u)) <==> s.saveMu == Some(u);
      assert HoldsSaveMu(At(s, t)) <==> s.saveMu == Some(t);
    }
  }

  // Steps that do not write the users: a snapshot being written is the one it was, or the one
  // just taken.
  lemma OtherSnapshots(s: System, t: Tid, a: Action, u: Tid)
    requires Enabled(s, t, a) && !a.WriteUsers? && At(Next(s, t, a), u).SaveWriting?
    ensures At(s, u) == At(Next(s, t, a), u)
      || (u == t && a.SnapshotUsers? && At(s, u).SaveLocked? && IsListOf(a.list, s.mem.users)
          && At(Next(s, t, a), u).saved == Saved(a.list, |s.history| - 1))
  {
    OthersUnmoved(s, t, a);
  }

  lemma OtherFiles(s: System, t: Tid, a: Action)
    requires !a.WriteUsers?
    ensures Next(s, t, a).users == s.users
  {
  }

  // Threads on their way to a save have a change of the users behind them.
  lemma SaversFollowChange(s: System, t: Tid, a: Action)
    requires VersionInv(s) && Enabled(s, t, a)
    ensures var s' := Next(s, t, a); forall u ::
      At(s', u).SaveArmed? || At(s', u).SaveLocked? || (At(s', u).Marking? && At(s', u).save) ==> |s'.history| > 1
  {
    OthersUnmoved(s, t, a);
    HistoryGrows(s, t, a);
  }

  lemma OtherVersion(s: System, t: Tid, a: Action)
    requires VersionInv(s) && StateInv(s) && Enabled(s, t, a) && !a.WriteUsers?
    ensures VersionInv(Next(s, t, a)) && Next(s, t, a).users == s.users
  {
    var s' := Next(s, t, a);
    HistoryGrows(s, t, a);
    OtherFiles(s, t, a);
    SaversFollowChange(s, t, a);
    FilesStay(s.users, s.history, s'.history);
    forall u | At(s', u).SaveWriting?
      ensures SavedFrom(At(s', u).saved, s'.history)
      ensures NoNewer(s.users.main, At(s', u).saved.version) && NoNewer(s.users.bak, At(s', u).saved.version)
    {
      SnapshotStays(s, t, a, u);
    }
  }

  lemma SnapshotStays(s: System, t: Tid, a: Action, u: Tid)
    requires VersionInv(s) && StateInv(s) && Enabled(s, t, a) && !a.WriteUsers? && At(Next(s, t, a), u).SaveWriting?
    ensures var sv := At(Next(s, t, a), u).saved;
      SavedFrom(sv, Next(s, t, a).history) && NoNewer(s.users.main, sv.version) && NoNewer(s.users.bak, sv.version)
  {
    HistoryGrows(s, t, a);
    OtherSnapshots(s, t, a, u);
    if At(s, u) != At(Next(s, t, a), u) {
      SnapshotIsSave(s, a.list);
    }
  }

  lemma HistoryGrows(s: System, t: Tid, a: Action)
    requires s.history != [] && s.history[|s.history| - 1] == s.mem.users
    ensures var s' := Next(s, t, a);
      && s.history <= s'.history && s'.history[|s'.history| - 1] == s'.mem.users
      && (a.AddUser? || a.DeleteUser? || a.SetUsers? || (a.ApplyRefresh? && At(s, t).Refreshing?) ==> |s'.history| > 1)
  {
  }

  lemma FilesStay(f: Files<Saved>, history: seq<map<int, User>>, history': seq<map<int, User>>)
    requires FilesInv(f, history) && history <= history'
    ensures FilesInv(f, history')
  {
  }

  lemma VersionStep(s: System, t: Tid, a: Action)
    requires MutexInv(s) && VersionInv(s) && StateInv(s) && Enabled(s, t, a)
    ensures VersionInv(Next(s, t, a)) && s.history <= Next(s, t, a).history
    ensures DiskVersion(Next(s, t, a).users) < DiskVersion(s.users) <==> RestoresOlder(s, a)
  {
    HistoryGrows(s, t, a);
    if a.WriteUsers? {
      WriteVersion(s, t, a.io);
    } else {
      OtherVersion(s, t, a);
    }
  }

  lemma StateStep(s: System, t: Tid, a: Action)
    requires StateInv(s) && Enabled(s, t, a)
    ensures StateInv(Next(s, t, a))
  {
    OthersUnmoved(s, t, a);
    match a
    case Accumulate(uid, up, down) => AccumulateKeepsReachable(s.mem, uid, up, down);
    case AddUser(u) => AddUserKeepsReachable(s.mem, u);
    case DeleteUser(id) => DeleteUserKeepsReachable(s.mem, id);
    case SetUsers(us) => ReplaceUsersKeepsReachable(s.mem, us);
    case ApplyRefresh => ReplaceUsersKeepsReachable(s.mem, At(s, t).list);
    case _ =>
  }

  // ---- whole runs -----------------------------------------------------------------------

  lemma {:induction false} RunKeepsInv(s: System, steps: seq<Step>)
    requires Inv(s) && IsRun(s, steps)
    ensures Inv(Run(s, steps))
  {
    if steps != [] {
      var before, t, a := Run(s, steps[..|steps| - 1]), steps[|steps| - 1].t, steps[|steps| - 1].a;
      RunKeepsInv(s, steps[..|steps| - 1]);
      StepKeepsInv(before, t, a);
    }
  }

  lemma StepKeepsInv(s: System, t: Tid, a: Action)
    requires Inv(s) && Enabled(s, t, a)
    ensures Inv(Next(s, t, a))
  {
    MutexStep(s, t, a);
    TrafficStep(s, t, a);
    SnapshotsAreOld(s);
    UsersStep(s, t, a);
    VersionStep(s, t, a);
    StateStep(s, t, a);
  }

  ghost predicate Quiescent(s: System) {
    forall t :: At(s, t).Idle?
  }

  // No flush is lost: whenever a counter in memory differs from traffic.json, the flag is
  // set, or some thread has yet to set it, to snapshot, to write a snapshot that has the
  // counter, or to set the flag again after a failure. So with nothing in flight and the
  // flag clear, every counter is on disk -- for any number of threads, whatever writes fail
  // and whatever they leave behind.
  lemma NoLostFlush(s0: System, steps: seq<Step>)
    requires Init(s0) && IsRun(s0, steps)
    ensures var s := Run(s0, steps);
      && Reachable(s.mem)
      && (forall id :: id in s.mem.traffic && (id !in OnDisk(s) || OnDisk(s)[id] != s.mem.traffic[id]) ==>
            || s.dirty
            || (exists t :: WillPersist(At(s, t)))
            || (exists t :: At(s, t).FlushWriting? && id in At(s, t).counters && At(s, t).counters[id] == s.mem.traffic[id]))
      && (Quiescent(s) && !s.dirty ==> Covered(s.mem.traffic, OnDisk(s)))
  {
    RunKeepsInv(s0, steps);
    UnsavedIsOnItsWay(Run(s0, steps));
  }

  lemma UnsavedIsOnItsWay(s: System)
    requires MutexInv(s) && TrafficInv(s)
    ensures forall id :: id in s.mem.traffic && (id !in OnDisk(s) || OnDisk(s)[id] != s.mem.traffic[id]) ==>
      || s.dirty
      || (exists t :: WillPersist(At(s, t)))
      || (exists t :: At(s, t).FlushWriting? && id in At(s, t).counters && At(s, t).counters[id] == s.mem.traffic[id])
    ensures Quiescent(s) && !s.dirty ==> Covered(s.mem.traffic, OnDisk(s))
  {
    if s.saveMu.Some? {
      assert HoldsSaveMu(At(s, s.saveMu.value));
    }
  }

  // Whenever nothing is in flight, users.json lists exactly the users in memory -- by
  // ascending id once it has been saved -- as long as no save has failed and no refresh has
  // changed the user set.
  lemma UsersAreDurable(s0: System, steps: seq<Step>)
    requires Init(s0) && IsRun(s0, steps)
    ensures var s := Run(s0, steps);
      s.undisturbed && Quiescent(s) ==>
        && Lists(s.users.main, s.mem.users)
        && (s.users.main.value.version > 0 ==> IsListOf(s.users.main.value.list, s.mem.users))
  {
    RunKeepsInv(s0, steps);
    if Run(s0, steps).undisturbed && Quiescent(Run(s0, steps)) {
      QuiescentLists(Run(s0, steps));
    }
  }

  lemma QuiescentLists(s: System)
    requires Inv(s) && s.undisturbed && Quiescent(s)
    ensures Lists(s.users.main, s.mem.users)
    ensures s.users.main.value.version > 0 ==> IsListOf(s.users.main.value.list, s.mem.users)
  {
    NothingPending(s);
  }

  lemma NothingPending(s: System)
    requires Inv(s) && s.undisturbed && forall t :: !At(s, t).SaveArmed? && !At(s, t).SaveLocked? && !At(s, t).SaveWriting?
    ensures Lists(s.users.main, s.mem.users)
    ensures s.users.main.value.version > 0 ==> IsListOf(s.users.main.value.list, s.mem.users)
  {
    if s.saveMu.Some? {
      assert HoldsSaveMu(At(s, s.saveMu.value));
    }
    var sv := s.users.main.value;
    if sv.version > 0 {
      UsersRoundTrip(Mem(s.history[sv.version], map[]), sv.list);
    }
  }

  // ---- saves and time ----------------------------------------------------------------------

  function Prefix(s0: System, steps: seq<Step>, k: nat): System
    requires k <= |steps|
  {
    Run(s0, steps[..k])
  }

  lemma {:induction false} PrefixIsRun(s0: System, steps: seq<Step>, k: nat)
    requires IsRun(s0, steps) && k <= |steps|
    ensures IsRun(s0, steps[..k])
    decreases |steps|
  {
    if k == |steps| {
      assert steps[..k] == steps;
    } else {
      var front := steps[..|steps| - 1];
      PrefixIsRun(s0, front, k);
      assert front[..k] == steps[..k];
    }
  }

  lemma NextPrefix(s0: System, steps: seq<Step>, k: nat)
    requires IsRun(s0, steps) && k < |steps|
    ensures Prefix(s0, steps, k + 1) == Next(Prefix(s0, steps, k), steps[k].t, steps[k].a)
    ensures Enabled(Prefix(s0, steps, k), steps[k].t, steps[k].a)
  {
    PrefixIsRun(s0, steps, k + 1);
    assert steps[..k + 1][..k] == steps[..k];
  }

  // One step of a run takes users.json back exactly when it restores an older backup.
  lemma PrefixVersion(s0: System, steps: seq<Step>, k: nat)
    requires Init(s0) && IsRun(s0, steps) && k < |steps|
    ensures var before, after := Prefix(s0, steps, k), Prefix(s0, steps, k + 1);
      && (DiskVersion(after.users) < DiskVersion(before.users) <==> RestoresOlder(before, steps[k].a))
      && before.history <= after.history
  {
    PrefixIsRun(s0, steps, k);
    RunKeepsInv(s0, steps[..k]);
    NextPrefix(s0, steps, k);
    VersionStep(Prefix(s0, steps, k), steps[k].t, steps[k].a);
  }

  // A save fails, or a refresh changes the users.
  predicate Disturbs(s: System, t: Tid, a: Action) {
    || (a.WriteUsers? && !SaveOk(s.users, a.io))
    || (a.ApplyRefresh? && At(s, t).Refreshing? && UsersOf(At(s, t).list) != s.mem.users)
  }

  // A save succeeds with a list taken after the last refresh that changed the users.
  predicate Repairs(s: System, t: Tid, a: Action) {
    a.WriteUsers? && SaveOk(s.users, a.io) && At(s, t).SaveWriting? && At(s, t).saved.version >= s.refreshed
  }

  ghost predicate DisturbsAt(s0: System, steps: seq<Step>, j: int) {
    0 <= j < |steps| && Disturbs(Prefix(s0, steps, j), steps[j].t, steps[j].a)
  }

  ghost predicate RepairsAt(s0: System, steps: seq<Step>, j: int) {
    0 <= j < |steps| && Repairs(Prefix(s0, steps, j), steps[j].t, steps[j].a)
  }

  lemma UndisturbedNext(s: System, t: Tid, a: Action)
    requires Enabled(s, t, a)
    ensures Next(s, t, a).undisturbed <==> Repairs(s, t, a) || (s.undisturbed && !Disturbs(s, t, a))
  {
  }

  lemma {:induction false} StaysUndisturbed(s0: System, steps: seq<Step>, i: nat, j: nat)
    requires IsRun(s0, steps) && i <= j <= |steps|
    requires i == 0 ==> s0.undisturbed
    requires i > 0 ==> RepairsAt(s0, steps, i - 1)
    requires forall k :: i <= k < j ==> !DisturbsAt(s0, steps, k)
    ensures Prefix(s0, steps, j).undisturbed
    decreases j
  {
    if j > 0 {
      NextPrefix(s0, steps, j - 1);
      UndisturbedNext(Prefix(s0, steps, j - 1), steps[j - 1].t, steps[j - 1].a);
      if i < j {
        StaysUndisturbed(s0, steps, i, j - 1);
        assert !DisturbsAt(s0, steps, j - 1);
      }
    }
  }

  // So a save that fails, or a refresh that changes the users, costs the guarantee only until
  // the next save that succeeds: from then on users.json again lists exactly the users in
  // memory whenever nothing is in flight, as long as nothing disturbs it again.
  lemma DurableSinceSave(s0: System, steps: seq<Step>, i: nat)
    requires Init(s0) && IsRun(s0, steps) && i < |steps| && RepairsAt(s0, steps, i)
    requires forall k :: i < k < |steps| ==> !DisturbsAt(s0, steps, k)
    ensures var s := Run(s0, steps);
      Quiescent(s) ==>
        && Lists(s.users.main, s.mem.users)
        && (s.users.main.value.version > 0 ==> IsListOf(s.users.main.value.list, s.mem.users))
  {
    assert steps[..|steps|] == steps;
    StaysUndisturbed(s0, steps, i + 1, |steps|);
    UsersAreDurable(s0, steps);
  }

  ghost predicate NeverGoesBack(s0: System, steps: seq<Step>) {
    forall i: nat, j: nat :: i <= j <= |steps| ==>
      DiskVersion(Prefix(s0, steps, i).users) <= DiskVersion(Prefix(s0, steps, j).users)
  }

  ghost predicate RestoresAt(s0: System, steps: seq<Step>, k: int) {
    0 <= k < |steps| && RestoresOlder(Prefix(s0, steps, k), steps[k].a)
  }

  lemma {:induction false} VersionsGrow(s0: System, steps: seq<Step>, i: nat, j: nat)
    requires Init(s0) && IsRun(s0, steps) && i <= j <= |steps|
    requires forall k :: !RestoresAt(s0, steps, k)
    ensures DiskVersion(Prefix(s0, steps, i).users) <= DiskVersion(Prefix(s0, steps, j).users)
    decreases j
  {
    if i < j {
      VersionsGrow(s0, steps, i, j - 1);
      PrefixVersion(s0, steps, j - 1);
      assert !RestoresAt(s0, steps, j - 1);
    }
  }

  // In every run, whatever fails: the users a loader finds on disk are a save of some user set
  // since start-up, or the file of before; and they never become those of an earlier set --
  // exactly as long as no failed write puts an older backup over the live file.
  lemma SavesNeverGoBack(s0: System, steps: seq<Step>)
    requires Init(s0) && IsRun(s0, steps)
    ensures FilesInv(Run(s0, steps).users, Run(s0, steps).history)
    ensures NeverGoesBack(s0, steps) <==> forall k :: !RestoresAt(s0, steps, k)
  {
    RunKeepsInv(s0, steps);
    if k :| RestoresAt(s0, steps, k) {
      PrefixVersion(s0, steps, k);
      assert DiskVersion(Prefix(s0, steps, k + 1).users) < DiskVersion(Prefix(s0, steps, k).users);
    } else {
      forall i: nat, j: nat | i <= j <= |steps|
        ensures DiskVersion(Prefix(s0, steps, i).users) <= DiskVersion(Prefix(s0, steps, j).users)
      {
        VersionsGrow(s0, steps, i, j);
      }
    }
  }

  // ---- the failing family --------------------------------------------------------------

  // One thread adds a user and saves, the write failing as given.
  function AddAndSave(t: Tid, u: User, list: seq<User>, io: Io): seq<Step> {
    [Step(t, AddUser(u)), Step(t, LockSave), Step(t, SnapshotUsers(list)), Step(t, WriteUsers(io))]
  }

  lemma StepRuns(s0: System, steps: seq<Step>, step: Step)
    requires IsRun(s0, steps) && Enabled(Run(s0, steps), step.t, step.a)
    ensures IsRun(s0, steps + [step]) && Run(s0, steps + [step]) == Next(Run(s0, steps), step.t, step.a)
  {
    assert (steps + [step])[..|steps|] == steps;
  }

  lemma FirstThree(s: System, t: Tid, u: User, list: seq<User>)
    requires At(s, t).Idle? && s.saveMu.None? && CanAdd(s.mem, u) && IsListOf(list, s.mem.users[u.id := u])
    ensures var steps := [Step(t, AddUser(u)), Step(t, LockSave), Step(t, SnapshotUsers(list))];
      && IsRun(s, steps) && Run(s, steps).users == s.users && Run(s, steps).mem.users == s.mem.users[u.id := u]
      && At(Run(s, steps), t) == SaveWriting(Saved(list, |s.history|))
  {
    StepRuns(s, [], Step(t, AddUser(u)));
    StepRuns(s, [Step(t, AddUser(u))], Step(t, LockSave));
    StepRuns(s, [Step(t, AddUser(u)), Step(t, LockSave)], Step(t, SnapshotUsers(list)));
    assert [] + [Step(t, AddUser(u))] == [Step(t, AddUser(u))];
    assert [Step(t, AddUser(u))] + [Step(t, LockSave)] == [Step(t, AddUser(u)), Step(t, LockSave)];
    assert [Step(t, AddUser(u)), Step(t, LockSave)] + [Step(t, SnapshotUsers(list))]
        == [Step(t, AddUser(u)), Step(t, LockSave), Step(t, SnapshotUsers(list))];
  }

  lemma SaveRuns(s: System, t: Tid, u: User, list: seq<User>, io: Io)
    requires At(s, t).Idle? && s.saveMu.None? && CanAdd(s.mem, u) && IsListOf(list, s.mem.users[u.id := u])
    ensures var steps := AddAndSave(t, u, list, io); var s' := Run(s, steps);
      && IsRun(s, steps) && s'.mem.users == s.mem.users[u.id := u]
      && s'.users == Save(s.users, Saved(list, |s.history|), io)
  {
    var three := [Step(t, AddUser(u)), Step(t, LockSave), Step(t, SnapshotUsers(list))];
    FirstThree(s, t, u, list);
    StepRuns(s, three, Step(t, WriteUsers(io)));
    assert three + [Step(t, WriteUsers(io))] == AddAndSave(t, u, list, io);
  }

  // It happens from every state that has an older backup, and to every user that can be added:
  // a save whose os.Stat and promote fail and whose repair succeeds takes users.json back to
  // the backup, although the user stays in memory.
  lemma StaleRestoreGoesBack(s: System, t: Tid, u: User, list: seq<User>, io: Io)
    requires VersionInv(s) && At(s, t).Idle? && s.saveMu.None? && CanAdd(s.mem, u)
    requires IsListOf(list, s.mem.users[u.id := u]) && Overwrites(s.users, io)
    ensures var steps := AddAndSave(t, u, list, io); var s' := Run(s, steps);
      && IsRun(s, steps) && s'.users == Files(s.users.bak, None) && u.id in s'.mem.users
      && (DiskVersion(s'.users) < DiskVersion(s.users) <==> s.users.bak.value.version < s.users.main.value.version)
  {
    SaveRuns(s, t, u, list, io);
    FourOutcomes(s.users, Saved(list, |s.history|), io);
  }

  // ---- one flush to its end ------------------------------------------------------------------

  function Flush(t: Tid, io: Io): seq<Step> {
    [Step(t, TakeFlag), Step(t, LockFlush), Step(t, SnapshotTraffic), Step(t, WriteTraffic(io))]
  }

  lemma FlushStarts(s: System, t: Tid)
    requires At(s, t).Idle? && s.saveMu.None? && s.dirty
    ensures var steps := [Step(t, TakeFlag), Step(t, LockFlush), Step(t, SnapshotTraffic)]; var s' := Run(s, steps);
      && IsRun(s, steps) && s'.mem == s.mem && s'.traffic == s.traffic && !s'.dirty
      && At(s', t) == FlushWriting(s.mem.traffic)
  {
    StepRuns(s, [], Step(t, TakeFlag));
    StepRuns(s, [Step(t, TakeFlag)], Step(t, LockFlush));
    StepRuns(s, [Step(t, TakeFlag), Step(t, LockFlush)], Step(t, SnapshotTraffic));
    assert [] + [Step(t, TakeFlag)] == [Step(t, TakeFlag)];
    assert [Step(t, TakeFlag)] + [Step(t, LockFlush)] == [Step(t, TakeFlag), Step(t, LockFlush)];
    assert [Step(t, TakeFlag), Step(t, LockFlush)] + [Step(t, SnapshotTraffic)]
        == [Step(t, TakeFlag), Step(t, LockFlush), Step(t, SnapshotTraffic)];
  }

  // Whenever the flag is set and no save is under way a flush can run, and one that nothing
  // interrupts clears the flag and brings traffic.json to exactly the counters in memory, or
  // else is left to set the flag again.
  lemma FlushReachesDisk(s: System, t: Tid, io: Io)
    requires At(s, t).Idle? && s.saveMu.None? && s.dirty
    ensures var s' := Run(s, Flush(t, io));
      && IsRun(s, Flush(t, io)) && s'.mem == s.mem && !s'.dirty && s'.saveMu.None?
      && (SaveOk(s.traffic, io) ==> s'.traffic.main == Some(s.mem.traffic) && At(s', t).Idle?)
      && (!SaveOk(s.traffic, io) ==> At(s', t).FlushFailed? && Next(s', t, Remark).dirty)
  {
    var three := [Step(t, TakeFlag), Step(t, LockFlush), Step(t, SnapshotTraffic)];
    FlushStarts(s, t);
    StepRuns(s, three, Step(t, WriteTraffic(io)));
    assert three + [Step(t, WriteTraffic(io))] == Flush(t, io);
    FourOutcomes(s.traffic, s.mem.traffic, io);
  }

  // ---- refreshes -------------------------------------------------------------------------

  // A refresh reads the file of the current users when no save has failed, no refresh has
  // changed them, and no save is under way.
  lemma ReadIsCurrent(s: System)
    requires Inv(s) && s.undisturbed
    requires forall t :: !At(s, t).SaveArmed? && !At(s, t).SaveLocked? && !At(s, t).SaveWriting?
    ensures Lists(s.users.main, s.mem.users)
  {
    NothingPending(s);
  }

  // So a refresh that reads the main file then changes nothing exactly when the users are the
  // same again when it applies what it read; otherwise it undoes every change made in between.
  lemma RefreshOfCurrentFile(s: System, t: Tid, steps: seq<Step>)
    requires Inv(s) && s.undisturbed
    requires forall u :: !At(s, u).SaveArmed? && !At(s, u).SaveLocked? && !At(s, u).SaveWriting?
    requires s.users.main.Some? && Enabled(s, t, ReadUsers(s.users.main.value.list, false))
    requires IsRun(Next(s, t, ReadUsers(s.users.main.value.list, false)), steps) && OthersRun(t, steps)
    ensures var before := Run(Next(s, t, ReadUsers(s.users.main.value.list, false)), steps);
      var after := Next(before, t, ApplyRefresh);
      && Enabled(before, t, ApplyRefresh) && after.mem.users == s.mem.users
      && (after.mem == before.mem <==> before.mem.users == s.mem.users)
  {
    ReadIsCurrent(s);
    var read := ReadUsers(s.users.main.value.list, false);
    StepKeepsInv(s, t, read);
    assert At(Next(s, t, read), t) == Refreshing(s.users.main.value.list, false);
    RefreshRestoresRead(Next(s, t, read), steps, t);
  }

  // Thread t has read the file and takes no step until it applies what it read.
  ghost predicate OthersRun(t: Tid, steps: seq<Step>) {
    forall i :: 0 <= i < |steps| ==> steps[i].t != t
  }

  lemma {:induction false} StillRefreshing(s: System, steps: seq<Step>, t: Tid)
    requires IsRun(s, steps) && OthersRun(t, steps)
    ensures At(Run(s, steps), t) == At(s, t)
  {
    if steps != [] {
      var front, last := steps[..|steps| - 1], steps[|steps| - 1];
      StillRefreshing(s, front, t);
      OthersUnmoved(Run(s, front), last.t, last.a);
    }
  }

  // Whatever other threads do between its read and its update, a refresh brings back the users
  // it read. So it changes nothing exactly when the users are still, or again, those it read:
  // then it also drops no counter, and the run stays undisturbed. And when it read the current
  // users, every change of the user set in between is undone.
  lemma RefreshRestoresRead(s: System, steps: seq<Step>, t: Tid)
    requires Inv(s) && IsRun(s, steps) && OthersRun(t, steps) && At(s, t).Refreshing?
    ensures Enabled(Run(s, steps), t, ApplyRefresh)
    ensures var read, before := UsersOf(At(s, t).list), Run(s, steps); var after := Next(before, t, ApplyRefresh);
      && after.mem.users == read
      && (after.mem == before.mem <==> before.mem.users == read)
      && At(after, t) == (if after.mem.traffic != before.mem.traffic then Marking(At(s, t).fromBackup)
                          else if At(s, t).fromBackup then SaveArmed else Idle)
      && (after.undisturbed <==> before.undisturbed && before.mem.users == read)
      && (read == s.mem.users ==> (after.mem.users != before.mem.users <==> before.mem.users != s.mem.users))
  {
    StillRefreshing(s, steps, t);
    RunKeepsInv(s, steps);
    KeepsCounters(Run(s, steps).mem);
  }

  lemma KeepsCounters(m: Mem)
    requires Reachable(m)
    ensures Prune(m.traffic, m.users) == m.traffic
  {
  }

  // So a user that is added and saved while a refresh is under way is lost: the refresh drops
  // it from memory although its save succeeded, for every state, user and file read.
  lemma RefreshLosesUser(s: System, t: Tid, r: Tid, u: User, list: seq<User>, io: Io)
    requires Inv(s) && At(s, t).Idle? && s.saveMu.None? && CanAdd(s.mem, u) && r != t && At(s, r).Refreshing?
    requires IsListOf(list, s.mem.users[u.id := u]) && SaveOk(s.users, io)
    requires UsersOf(At(s, r).list) == s.mem.users
    ensures var steps := AddAndSave(t, u, list, io) + [Step(r, ApplyRefresh)]; var s' := Run(s, steps);
      && IsRun(s, steps) && u.id !in s'.mem.users
      && s'.users.main == Some(Saved(list, |s.history|)) && u in list
  {
    SaveRuns(s, t, u, list, io);
    FourOutcomes(s.users, Saved(list, |s.history|), io);
    RefreshAfter(s, AddAndSave(t, u, list, io), r);
    ListsItsUsers(list, s.mem.users[u.id := u], u.id);
  }

  lemma ListsItsUsers(list: seq<User>, users: map<int, User>, id: int)
    requires IsListOf(list, users) && id in users
    ensures users[id] in list
  {
    var i :| 0 <= i < |list| && list[i].id == id;
  }

  lemma RefreshAfter(s: System, steps: seq<Step>, r: Tid)
    requires Inv(s) && IsRun(s, steps) && OthersRun(r, steps) && At(s, r).Refreshing?
    ensures var s' := Run(s, steps + [Step(r, ApplyRefresh)]);
      && IsRun(s, steps + [Step(r, ApplyRefresh)])
      && s'.mem.users == UsersOf(At(s, r).list) && s'.users == Run(s, steps).users
  {
    RefreshRestoresRead(s, steps, r);
    StepRuns(s, steps, Step(r, ApplyRefresh));
  }
}
