/** `Store`: the fields guarded by the state lock, and the methods that change them. */
module Store {
  import opened Options
  import opened MapRange
  import opened Decimal
  import opened Records
  import opened Push
  import opened Disk
  import opened CrashSafety
  import Recovery

  // One pass over a list of users: every record valid, no id twice.
  method ValidateUsers(us: seq<User>) returns (ok: bool)
    ensures ok <==> ValidList(us)
    ensures ok <==>
      && |us| <= 1000
      && (forall u :: u in us ==> u.id > 0 && !(u.uuid == "" && u.password == "") && u.speedLimit >= 0)
      && forall i, j :: 0 <= i < j < |us| ==> us[i].id != us[j].id
  {
    assert (forall i :: 0 <= i < |us| ==> ValidUser(us[i])) <==> forall u :: u in us ==> ValidUser(u);
    if |us| > MAX_USERS {
      return false;
    }
    var seen: set<int> := {};
    for k := 0 to |us|
      invariant forall i :: 0 <= i < k ==> ValidUser(us[i])
      invariant seen == set i | 0 <= i < k :: us[i].id
      invariant forall i, j :: 0 <= i < j < k ==> us[i].id != us[j].id
    {
      if !ValidUser(us[k]) {
        return false;
      }
      if us[k].id in seen {
        var i :| 0 <= i < k && us[i].id == us[k].id;
        assert us[i].id == us[k].id;
        return false;
      }
      seen := seen + {us[k].id};
    }
    return true;
  }

  // A version from the future is refused; then the list.
  method ValidateUsersFile(uf: UsersFile) returns (ok: bool)
    ensures ok <==> ValidUsersFile(uf)
    ensures ok <==>
      && uf.version <= 1 && |uf.users| <= 1000
      && (forall u :: u in uf.users ==> u.id > 0 && !(u.uuid == "" && u.password == "") && u.speedLimit >= 0)
      && forall i, j :: 0 <= i < j < |uf.users| ==> uf.users[i].id != uf.users[j].id
  {
    if uf.version != 0 && uf.version > KNOWN_VERSION {
      return false;
    }
    ok := ValidateUsers(uf.users);
  }

  method UsersById(us: seq<User>) returns (m: map<int, User>)
    ensures m == UsersOf(us)
  {
    m := map[];
    for k := 0 to |us|
      invariant m == UsersOf(us[..k])
    {
      assert us[..k + 1][..k] == us[..k];
      m := m[us[k].id := us[k]];
    }
    assert us[..|us|] == us;
  }

  // Insertion by ascending id, as sorting the collected users does.
  method InsertById(us: seq<User>, u: User) returns (r: seq<User>)
    requires Ascending(us) && forall i :: 0 <= i < |us| ==> us[i].id != u.id
    ensures Ascending(r)
    ensures forall v :: v in r <==> v == u || v in us
  {
    var k := |us|;
    while k > 0 && u.id < us[k - 1].id
      invariant 0 <= k <= |us|
      invariant forall i :: k <= i < |us| ==> u.id < us[i].id
    {
      k := k - 1;
    }
    r := us[..k] + [u] + us[k..];
    assert forall v :: v in us ==> v in us[..k] || v in us[k..];
  }

  lemma Pruned(before: map<int, Traffic>, after: map<int, Traffic>, m: map<int, User>)
    requires forall id :: id in after <==> id in before && id in m
    requires forall id :: id in after ==> after[id] == before[id]
    ensures after == Prune(before, m)
    ensures after == before <==> forall id :: id in before ==> id in after
  {
    var p := Prune(before, m);
    SameTraffic(after, p);
    if forall id :: id in before ==> id in after {
      SameTraffic(after, before);
    }
  }

  lemma SameTraffic(a: map<int, Traffic>, b: map<int, Traffic>)
    requires forall id :: id in a <==> id in b
    requires forall id :: id in a ==> a[id] == b[id]
    ensures a == b
  {
    forall id
      ensures id in a <==> id in b
      ensures id in a ==> a[id] == b[id]
    {
    }
  }

  // Exactly the counters of the listed users, each as it was.
  ghost predicate KeepsListed(traffic: map<int, Traffic>, traffic': map<int, Traffic>, us: seq<User>) {
    && (forall id :: id in traffic' <==> id in traffic && exists i :: 0 <= i < |us| && us[i].id == id)
    && forall id :: id in traffic' ==> traffic'[id] == traffic[id]
  }

  // Exactly the listed users, each as listed.
  ghost predicate AreListed(users: map<int, User>, us: seq<User>) {
    && (forall i :: 0 <= i < |us| ==> us[i].id in users && users[us[i].id] == us[i])
    && forall id :: id in users ==> exists i :: 0 <= i < |us| && us[i].id == id
  }

  // So this is what SetUsers and RefreshUsers leave.
  lemma ReplacedByList(m: Mem, us: seq<User>)
    requires ValidList(us)
    ensures AreListed(ReplaceUsers(m, us).users, us) && KeepsListed(m.traffic, ReplaceUsers(m, us).traffic, us)
  {
    UsersOfDistinct(us);
    UsersOfFacts(us);
    forall id | id in UsersOf(us)
      ensures exists i :: 0 <= i < |us| && us[i].id == id
    {
      var i :| 0 <= i < |us| && us[i] == UsersOf(us)[id];
    }
  }

  // How a refresh ends; the users can be replaced although saving what was recovered failed.
  datatype Refreshed = Unchanged | NotLoaded | Replaced(saveFailed: bool)

  class Store {
    var users: map<int, User>
    var traffic: map<int, Traffic>
    var dirty: bool
    // The modification time of users.json when it was last loaded, if it was.
    var usersMod: Option<int>

    ghost function State(): Mem
      reads this
    {
      Mem(users, traffic)
    }

    constructor ()
      ensures State() == Mem(map[], map[]) && !dirty && usersMod == None && Reachable(State())
    {
      users, traffic, dirty, usersMod := map[], map[], false, None;
    }

    method Accumulate(uid: int, up: int, down: int) returns (ok: bool)
      modifies this
      ensures ok <==> up >= 0 && down >= 0 && uid in old(users)
      ensures ok && uid !in old(traffic) ==> traffic == old(traffic)[uid := Traffic(up, down)]
      ensures ok && uid in old(traffic) ==>
        traffic == old(traffic)[uid := Traffic(old(traffic)[uid].up + up, old(traffic)[uid].down + down)]
      ensures !ok ==> traffic == old(traffic)
      ensures users == old(users) && State() == Records.Accumulate(old(State()), uid, up, down)
      ensures dirty == (old(dirty) || ok)
      ensures old(Reachable(State())) ==> Reachable(State())
    {
      AccumulateIfReachable(State(), uid, up, down);
      if up < 0 || down < 0 {
        return false;
      }
      if uid !in users {
        return false;
      }
      var t := if uid in traffic then traffic[uid] else Traffic(0, 0);
      traffic := traffic[uid := Traffic(t.up + up, t.down + down)];
      dirty := true;
      return true;
    }

    // AddUser, DeleteUser and SetUsers change the users and then save them, for a caller that
    // has the store to itself. A save that fails is reported, and the change stays in memory.
    method AddUser(u: User, file: StateFile<UsersFile>, io: Io) returns (err: bool)
      requires Reachable(State())
      modifies this, file
      ensures var ok := u.id > 0 && (u.uuid != "" || u.password != "") && u.speedLimit >= 0
                        && u.id !in old(users) && |old(users)| < 1000;
        if ok then
          && users == old(users)[u.id := u] && traffic == old(traffic)
          && SavedAs(old(file.disk), io, file.disk) && err == !WriteOk(old(file.disk), io)
        else
          err && users == old(users) && traffic == old(traffic) && file.disk == old(file.disk)
      ensures CanAdd(old(State()), u) ==> State() == Records.AddUser(old(State()), u)
      ensures Reachable(State()) && dirty == old(dirty) && usersMod == old(usersMod)
    {
      if !ValidUser(u) || u.id in users || |users| >= MAX_USERS {
        return true;
      }
      AddUserKeepsReachable(State(), u);
      users := users[u.id := u];
      err := SaveUsers(file, io);
    }

    method DeleteUser(id: int, file: StateFile<UsersFile>, io: Io) returns (err: bool)
      requires Reachable(State())
      modifies this, file
      ensures State() == Records.DeleteUser(old(State()), id)
      ensures users == old(users) - {id} && traffic == old(traffic) - {id}
      ensures id in old(users) ==> SavedAs(old(file.disk), io, file.disk) && err == !WriteOk(old(file.disk), io)
      ensures id !in old(users) ==> err && State() == old(State()) && file.disk == old(file.disk)
      ensures Reachable(State()) && dirty == old(dirty) && usersMod == old(usersMod)
    {
      var ok := DropUser(id);
      if ok {
        err := SaveUsers(file, io);
      } else {
        err := true;
      }
    }

    // The locked section of DeleteUser.
    method DropUser(id: int) returns (ok: bool)
      requires Reachable(State())
      modifies this`users, this`traffic
      ensures ok == (id in old(users)) && State() == Records.DeleteUser(old(State()), id)
      ensures users == old(users) - {id} && traffic == old(traffic) - {id}
      ensures !ok ==> State() == old(State())
      ensures Reachable(State())
    {
      DeleteUserKeepsReachable(State(), id);
      if id !in users {
        assert users == users - {id} && traffic == traffic - {id};
        return false;
      }
      users := users - {id};
      traffic := traffic - {id};
      return true;
    }

    // The write of a list of the users, all by ascending id, has gone from `before` to `after`.
    ghost predicate SavedAs(before: State<UsersFile>, io: Io, after: State<UsersFile>)
      reads this
    {
      exists us :: IsListOf(us, users) && after == Final(before, UsersFile(KNOWN_VERSION, us), io)
    }

    // Once the write returned nil, whoever loads the file next -- also after a power loss --
    // gets a valid list of exactly these users.
    lemma SavedUsersComeBack(before: State<UsersFile>, io: Io, after: State<UsersFile>, allowed: iset<Option<UsersFile>>,
                             img: Image<UsersFile>)
      requires Reachable(State()) && Safe(before, allowed) && WriteOk(before, io) && SavedAs(before, io, after)
      requires PowerLoss(after, img) || img == Live(after)
      ensures var doc := LoadWithFallback(img); doc.Some? && ValidUsersFile(doc.value) && UsersOf(doc.value.users) == users
    {
      var us :| IsListOf(us, users) && after == Final(before, UsersFile(KNOWN_VERSION, us), io);
      CompletedWriteReadsBack(before, allowed, UsersFile(KNOWN_VERSION, us), io, img);
      UsersRoundTrip(State(), us);
    }

    method SaveUsers(file: StateFile<UsersFile>, io: Io) returns (err: bool)
      requires Reachable(State())
      modifies file
      ensures SavedAs(old(file.disk), io, file.disk) && err == !WriteOk(old(file.disk), io)
      ensures Reachable(State())
    {
      var us := SnapshotUsers();
      var ok, _ := file.AtomicWriteWithBackup(UsersFile(KNOWN_VERSION, us), io);
      return !ok;
    }

    // Delete the counters whose user is gone, and say whether there was one.
    method DropAbsent(m: map<int, User>) returns (pruned: bool)
      modifies this`traffic
      ensures traffic == Prune(old(traffic), m)
      ensures forall id :: id in traffic <==> id in old(traffic) && id in m
      ensures forall id :: id in traffic ==> traffic[id] == old(traffic)[id]
      ensures pruned <==> traffic != old(traffic)
    {
      pruned := false;
      var todo := traffic.Keys;
      while todo != {}
        invariant todo <= old(traffic).Keys
        invariant forall id :: id in traffic <==> id in old(traffic) && (id in todo || id in m)
        invariant forall id :: id in traffic ==> traffic[id] == old(traffic)[id]
        invariant pruned <==> exists id :: id in old(traffic) && id !in traffic
        decreases |todo|
      {
        var id := Pick(todo);
        todo := todo - {id};
        if id !in m {
          traffic := traffic - {id};
          assert id in old(traffic) && id !in traffic;
          pruned := true;
        }
      }
      Pruned(old(traffic), traffic, m);
    }

    method SetUsers(us: seq<User>, file: StateFile<UsersFile>, io: Io) returns (err: bool)
      requires Reachable(State())
      modifies this, file
      ensures ValidList(us) ==>
        && State() == ReplaceUsers(old(State()), us)
        && SavedAs(old(file.disk), io, file.disk) && err == !WriteOk(old(file.disk), io)
      ensures !ValidList(us) ==> err && State() == old(State()) && file.disk == old(file.disk)
      ensures Reachable(State()) && dirty == old(dirty) && usersMod == old(usersMod)
    {
      var ok := ValidateUsers(us);
      if ok {
        var _ := ReplaceWith(us);
        err := SaveUsers(file, io);
      } else {
        err := true;
      }
    }

    // The locked section of SetUsers and of RefreshUsers.
    method ReplaceWith(us: seq<User>) returns (pruned: bool)
      requires Reachable(State()) && ValidList(us)
      modifies this`users, this`traffic
      ensures State() == ReplaceUsers(old(State()), us) && Reachable(State())
      ensures pruned <==> traffic != old(traffic)
    {
      ReplaceUsersKeepsReachable(State(), us);
      var m := UsersById(us);
      pruned := DropAbsent(m);
      users := m;
    }

    // `info` is the modification time os.Stat gives, if it succeeds, and `disk` what
    // loadUsersFromDisk would give. A file that is gone or has not changed is not read; one
    // that does not load changes nothing; and users recovered from the backup are saved.
    method RefreshUsers(info: Option<int>, disk: Recovery.Result<UsersFile>, file: StateFile<UsersFile>, io: Io)
      returns (r: Refreshed)
      requires Reachable(State()) && (disk.Ok? ==> ValidUsersFile(disk.doc))
      modifies this, file
      ensures r == if info.None? || (old(usersMod).Some? && info.value <= old(usersMod).value) then Unchanged
                   else if disk.Err? then NotLoaded
                   else Replaced(disk.fromBackup && !WriteOk(old(file.disk), io))
      ensures r.Replaced? && disk.fromBackup ==> SavedAs(old(file.disk), io, file.disk)
      ensures !(r.Replaced? && disk.fromBackup) ==> file.disk == old(file.disk)
      ensures !r.Replaced? ==> State() == old(State()) && dirty == old(dirty) && usersMod == old(usersMod)
      ensures r.Replaced? ==> State() == ReplaceUsers(old(State()), disk.doc.users) && usersMod == info
      ensures r.Replaced? ==> dirty == (old(dirty) || traffic != old(traffic))
      ensures Reachable(State())
    {
      if info.None? {
        return Unchanged;
      }
      var changed := usersMod.None? || info.value > usersMod.value;
      if !changed {
        return Unchanged;
      }
      if disk.Err? {
        return NotLoaded;
      }
      var pruned := ReplaceWith(disk.doc.users);
      usersMod := info;
      if pruned {
        dirty := true;
      }
      if !disk.fromBackup {
        return Replaced(false);
      }
      var err := SaveUsers(file, io);
      return Replaced(err);
    }

    // The users as SaveUsers writes them: collected in map order, then sorted by id.
    method SnapshotUsers() returns (us: seq<User>)
      requires Reachable(State())
      ensures IsListOf(us, users)
      ensures forall i, j :: 0 <= i < j < |us| ==> us[i].id < us[j].id
      ensures forall u :: u in us <==> u.id in users && users[u.id] == u
    {
      us := [];
      var todo := users.Keys;
      while todo != {}
        invariant todo <= users.Keys && Ascending(us)
        invariant forall u :: u in us ==> u.id in users && u.id !in todo && users[u.id] == u
        invariant forall id :: id in users && id !in todo ==> users[id] in us
        decreases |todo|
      {
        var id := Pick(todo);
        todo := todo - {id};
        us := InsertById(us, users[id]);
      }
      forall id | id in users
        ensures exists i :: 0 <= i < |us| && us[i].id == id
      {
        var i :| 0 <= i < |us| && us[i] == users[id];
      }
    }

    // The array form of a push.
    method PushEntries(entries: seq<Entry>) returns (accepted: nat)
      modifies this
      ensures Push(State(), accepted) == PushAll(Push(old(State()), 0), entries)
      ensures old(Reachable(State())) ==> Reachable(State())
      ensures dirty == (old(dirty) || accepted > 0)
    {
      accepted := 0;
      for k := 0 to |entries|
        invariant Push(State(), accepted) == PushAll(Push(old(State()), 0), entries[..k])
        invariant old(Reachable(State())) ==> Reachable(State())
        invariant dirty == (old(dirty) || accepted > 0)
      {
        assert entries[..k + 1][..k] == entries[..k];
        var e := entries[k];
        var ok := Accumulate(e.uid, e.up, e.down);
        if ok {
          accepted := accepted + 1;
        }
      }
      assert entries[..|entries|] == entries;
    }

    method PushMember(idStr: string, pair: Option<Traffic>, ghost accepted: nat) returns (ok: bool)
      modifies this
      ensures var before, e := Push(old(State()), accepted), ParseMember(idStr, pair);
        Push(State(), if ok then accepted + 1 else accepted) == if e == [] then before else PushOne(before, e[0])
      ensures old(Reachable(State())) ==> Reachable(State())
      ensures dirty == (old(dirty) || ok)
    {
      if pair.None? {
        return false;
      }
      var id := Atoi(idStr);
      if id.None? {
        return false;
      }
      ok := Accumulate(id.value, pair.value.up, pair.value.down);
    }

    // The compact form: a map from id strings, met in any order.
    method PushCompact(raw: map<string, Option<Traffic>>) returns (accepted: nat, ghost order: seq<string>)
      modifies this
      ensures Enumerates(order, raw)
      ensures Push(State(), accepted) == PushAll(Push(old(State()), 0), EntriesFor(raw, order))
      ensures old(Reachable(State())) ==> Reachable(State())
      ensures dirty == (old(dirty) || accepted > 0)
    {
      accepted := 0;
      order := [];
      var todo := raw.Keys;
      ghost var start := Push(State(), 0);
      while todo != {}
        invariant todo <= raw.Keys
        invariant multiset(order) + multiset(todo) == multiset(raw.Keys)
        invariant Push(State(), accepted) == PushAll(start, EntriesFor(raw, order))
        invariant old(Reachable(State())) ==> Reachable(State())
        invariant dirty == (old(dirty) || accepted > 0)
        decreases |todo|
      {
        var idStr := Pick(todo);
        EnumerateNext(order, idStr, todo, raw.Keys);
        todo := todo - {idStr};
        PushNextKey(start, raw, order, idStr);
        order := order + [idStr];
        var ok := PushMember(idStr, raw[idStr], accepted);
        if ok {
          accepted := accepted + 1;
        }
      }
    }
  }

  lemma AccumulateIfReachable(m: Mem, uid: int, up: int, down: int)
    ensures Reachable(m) ==> Reachable(Records.Accumulate(m, uid, up, down))
  {
    if Reachable(m) {
      AccumulateKeepsReachable(m, uid, up, down);
    }
  }
}
