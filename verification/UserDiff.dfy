/**
 The incremental user diff of `ApplyBox`: which entries it deletes from and adds to an
 inbound's user table, and when the outcome is what a rebuild from scratch would give.
 */
module UserDiff {
  datatype PanelUser = PanelUser(id: int, uuid: string, password: string, name: string, speedLimit: int)

  // VLESS tables are keyed by UUID, Hysteria2 tables by password.
  datatype Kind = Vless | Hysteria2 | Other

  datatype Entry =
    | VlessUser(vlessName: string, uuid: string, flow: string)
    | Hysteria2User(name: string, password: string, id: int)

  type Table = map<string, Entry>

  type Users = map<int, PanelUser>

  // One ApplyBox: its list as users by id, and whether an inbound failed, in which case the
  // users stay.
  datatype Call = Call(next: Users, failed: bool)

  function Key(e: Entry): string {
    match e
    case VlessUser(_, uuid, _) => uuid
    case Hysteria2User(_, password, _) => password
  }

  function Secret(kind: Kind, u: PanelUser): string {
    match kind
    case Vless => u.uuid
    case Hysteria2 => u.password
    case Other => ""
  }

  function EntryFor(kind: Kind, u: PanelUser): Entry {
    match kind
    case Vless => VlessUser(u.uuid, u.uuid, "xtls-rprx-vision")
    case _ => Hysteria2User(if u.name == "" then u.password else u.name, u.password, u.id)
  }

  // ---- the diff ---------------------------------------------------------------------

  // The old entry of a user that is gone, or whose secrets or name changed, is deleted.
  predicate Removed(prev: Users, next: Users, id: int) {
    && id in prev
    && (id !in next
        || prev[id].uuid != next[id].uuid || prev[id].password != next[id].password || prev[id].name != next[id].name)
  }

  // The entry of a user that is new or differs in any field is added.
  predicate Added(prev: Users, next: Users, id: int) {
    id in next && !(id in prev && prev[id] == next[id])
  }

  ghost predicate Deletes(kind: Kind, prev: Users, next: Users, key: string) {
    key != "" && exists id :: Removed(prev, next, id) && Secret(kind, prev[id]) == key
  }

  ghost predicate Adds(kind: Kind, prev: Users, next: Users, key: string) {
    key != "" && exists id :: Added(prev, next, id) && Secret(kind, next[id]) == key
  }

  // An entry that a user to be added asks for under this key.
  ghost predicate AddedEntry(kind: Kind, prev: Users, next: Users, key: string, e: Entry) {
    key != "" && exists id :: Added(prev, next, id) && Secret(kind, next[id]) == key && e == EntryFor(kind, next[id])
  }

  predicate SameAt(t: Table, t': Table, key: string) {
    (key in t' <==> key in t) && (key in t ==> t'[key] == t[key])
  }

  // What a successful pass over an inbound does to one key: deletions, then additions, in
  // whatever order the maps were iterated.
  ghost predicate DiffAt(kind: Kind, prev: Users, next: Users, t: Table, t': Table, key: string) {
    if Adds(kind, prev, next, key) then key in t' && AddedEntry(kind, prev, next, key, t'[key])
    else if Deletes(kind, prev, next, key) then key !in t'
    else SameAt(t, t', key)
  }

  ghost predicate IsDiff(kind: Kind, prev: Users, next: Users, t: Table, t': Table) {
    forall key :: DiffAt(kind, prev, next, t, t', key)
  }

  // What a pass that failed somewhere can have done to one key: nothing, a deletion it was to
  // make, or an addition it was to make.
  ghost predicate PartialAt(kind: Kind, prev: Users, next: Users, t: Table, t': Table, key: string) {
    || SameAt(t, t', key)
    || (Deletes(kind, prev, next, key) && key !in t')
    || (key in t' && AddedEntry(kind, prev, next, key, t'[key]))
  }

  ghost predicate IsPartial(kind: Kind, prev: Users, next: Users, t: Table, t': Table) {
    forall key :: PartialAt(kind, prev, next, t, t', key)
  }

  lemma DiffIsPartial(kind: Kind, prev: Users, next: Users, t: Table, t': Table)
    requires IsDiff(kind, prev, next, t, t')
    ensures IsPartial(kind, prev, next, t, t')
  {
    forall key
      ensures PartialAt(kind, prev, next, t, t', key)
    {
      assert DiffAt(kind, prev, next, t, t', key);
    }
  }

  // ---- the list -----------------------------------------------------------------------

  // Users with a positive id, the last of a repeated id winning.
  function UsersById(list: seq<PanelUser>): Users {
    if list == [] then map[]
    else
      var u, rest := list[|list| - 1], UsersById(list[..|list| - 1]);
      if u.id <= 0 then rest else rest[u.id := u]
  }

  function Register(m: map<string, int>, alias: string, id: int): map<string, int> {
    if alias == "" then m else m[alias := id]
  }

  // Every UUID, password and name leads to the id that used it last.
  function AliasesOf(list: seq<PanelUser>): map<string, int> {
    if list == [] then map[]
    else
      var u, rest := list[|list| - 1], AliasesOf(list[..|list| - 1]);
      if u.id <= 0 then rest else Register(Register(Register(rest, u.uuid, u.id), u.password, u.id), u.name, u.id)
  }

  lemma {:induction false} UsersByIdKeys(list: seq<PanelUser>)
    ensures forall id :: id in UsersById(list) ==> UsersById(list)[id].id == id && id > 0 && UsersById(list)[id] in list
    ensures forall u :: u in list && u.id > 0 ==> u.id in UsersById(list)
  {
    if list != [] {
      UsersByIdKeys(list[..|list| - 1]);
      assert list == list[..|list| - 1] + [list[|list| - 1]];
    }
  }

  predicate HasAlias(u: PanelUser, a: string) {
    u.id > 0 && a != "" && (a == u.uuid || a == u.password || a == u.name)
  }

  ghost predicate SomeoneHas(list: seq<PanelUser>, a: string) {
    exists i :: 0 <= i < |list| && HasAlias(list[i], a)
  }

  ghost predicate IsLastWith(list: seq<PanelUser>, a: string, i: int) {
    && 0 <= i < |list| && HasAlias(list[i], a)
    && forall j :: i < j < |list| ==> !HasAlias(list[j], a)
  }

  // One more user takes over its aliases.
  lemma AliasStep(list: seq<PanelUser>, a: string)
    requires list != []
    ensures var front, u := list[..|list| - 1], list[|list| - 1];
      && (HasAlias(u, a) ==> a in AliasesOf(list) && AliasesOf(list)[a] == u.id)
      && (!HasAlias(u, a) ==> (a in AliasesOf(list) <==> a in AliasesOf(front))
                              && (a in AliasesOf(list) ==> AliasesOf(list)[a] == AliasesOf(front)[a]))
  {
  }

  // The aliases are those of the listed users, and each resolves to the last user with it.
  lemma {:induction false} AliasesResolve(list: seq<PanelUser>, a: string)
    ensures a in AliasesOf(list) <==> SomeoneHas(list, a)
    ensures forall i :: IsLastWith(list, a, i) ==> a in AliasesOf(list) && AliasesOf(list)[a] == list[i].id
  {
    if list != [] {
      var last := |list| - 1;
      AliasStep(list, a);
      if !HasAlias(list[last], a) {
        AliasesResolve(list[..last], a);
        ShorterLast(list, a);
      }
    }
  }

  lemma ShorterLast(list: seq<PanelUser>, a: string)
    requires list != [] && !HasAlias(list[|list| - 1], a)
    ensures SomeoneHas(list, a) <==> SomeoneHas(list[..|list| - 1], a)
    ensures forall i :: IsLastWith(list, a, i) ==> i < |list| - 1 && IsLastWith(list[..|list| - 1], a, i)
  {
    var front := list[..|list| - 1];
    assert forall i :: 0 <= i < |front| ==> front[i] == list[i];
    if i :| 0 <= i < |list| && HasAlias(list[i], a) {
      assert HasAlias(front[i], a);
    }
  }

  // ---- the rebuild -------------------------------------------------------------------

  ghost predicate Held(kind: Kind, users: Users, key: string) {
    key != "" && exists id :: id in users && Secret(kind, users[id]) == key
  }

  // The entry of a user who holds this secret.
  ghost predicate EntryOf(kind: Kind, users: Users, key: string, e: Entry) {
    exists id :: id in users && Secret(kind, users[id]) == key && e == EntryFor(kind, users[id])
  }

  // The table has under this key what a rebuild would put there: the entry of one of the
  // users who hold the secret -- which one depends on map order -- or nothing.
  ghost predicate RightAt(kind: Kind, users: Users, t: Table, key: string) {
    if Held(kind, users, key) then key in t && EntryOf(kind, users, key, t[key]) else key !in t
  }

  ghost predicate IsTableOf(kind: Kind, users: Users, t: Table) {
    forall key :: RightAt(kind, users, t, key)
  }

  ghost predicate UniqueSecrets(kind: Kind, users: Users) {
    forall i, j :: i in users && j in users && i != j && Secret(kind, users[i]) != "" ==>
      Secret(kind, users[i]) != Secret(kind, users[j])
  }

  // With unique secrets there is only one such table.
  lemma TableIsUnique(kind: Kind, users: Users, a: Table, b: Table)
    requires UniqueSecrets(kind, users) && IsTableOf(kind, users, a) && IsTableOf(kind, users, b)
    ensures a == b
  {
    forall key
      ensures SameAt(a, b, key)
    {
      assert RightAt(kind, users, a, key) && RightAt(kind, users, b, key);
    }
    assert forall key :: key in a ==> SameAt(a, b, key);
    assert forall key :: key in b ==> SameAt(a, b, key);
  }

  // ---- what a table says, field by field ---------------------------------------------------

  ghost predicate OwnIds(users: Users) {
    forall id :: id in users ==> users[id].id == id
  }

  // Under a UUID its VLESS user, with the Vision flow; under a password a user with it, by its
  // own id and name, or the password where it has no name.
  ghost predicate Describes(kind: Kind, users: Users, key: string, e: Entry) {
    match kind
    case Vless =>
      && e.VlessUser? && e.vlessName == key && e.uuid == key && e.flow == "xtls-rprx-vision"
      && exists id :: id in users && users[id].uuid == key
    case Hysteria2 =>
      && e.Hysteria2User? && e.password == key && e.id in users && users[e.id].password == key
      && e.name == (if users[e.id].name == "" then key else users[e.id].name)
    case Other => false
  }

  ghost predicate HasUser(kind: Kind, users: Users, key: string) {
    match kind
    case Vless => exists id :: id in users && users[id].uuid == key
    case Hysteria2 => exists id :: id in users && users[id].password == key
    case Other => false
  }

  lemma EntryDescribes(kind: Kind, users: Users, key: string, e: Entry)
    requires OwnIds(users) && key != "" && EntryOf(kind, users, key, e)
    ensures Describes(kind, users, key, e)
  {
  }

  // A rebuilt table has exactly the secrets of the users, each with an entry that describes one
  // of its users.
  lemma TableDescribes(kind: Kind, users: Users, t: Table)
    requires OwnIds(users) && IsTableOf(kind, users, t)
    ensures forall key :: key in t <==> key != "" && HasUser(kind, users, key)
    ensures forall key :: key in t ==> Describes(kind, users, key, t[key])
  {
    forall key
      ensures key in t <==> key != "" && HasUser(kind, users, key)
      ensures key in t ==> Describes(kind, users, key, t[key])
    {
      assert RightAt(kind, users, t, key);
      HeldIsUser(kind, users, key);
      if key in t {
        EntryDescribes(kind, users, key, t[key]);
      }
    }
  }

  lemma HeldIsUser(kind: Kind, users: Users, key: string)
    ensures Held(kind, users, key) <==> key != "" && HasUser(kind, users, key)
  {
    if key != "" && HasUser(kind, users, key) {
      match kind
      case Vless => var id :| id in users && users[id].uuid == key; assert Secret(kind, users[id]) == key;
      case Hysteria2 => var id :| id in users && users[id].password == key; assert Secret(kind, users[id]) == key;
    }
  }

  // So does every entry that a diff brings in, whatever was there before.
  lemma NewEntriesDescribe(kind: Kind, prev: Users, next: Users, t: Table, t': Table)
    requires OwnIds(next) && IsDiff(kind, prev, next, t, t')
    ensures forall key :: key in t' && !SameAt(t, t', key) ==> Describes(kind, next, key, t'[key])
  {
    forall key | key in t' && !SameAt(t, t', key)
      ensures Describes(kind, next, key, t'[key])
    {
      assert DiffAt(kind, prev, next, t, t', key);
      assert EntryOf(kind, next, key, t'[key]);
      EntryDescribes(kind, next, key, t'[key]);
    }
  }

  // ---- diff and rebuild --------------------------------------------------------------

  // Users whom a diff leaves alone hold the same secrets, with the same entries, in both lists.
  lemma UntouchedKey(kind: Kind, prev: Users, next: Users, key: string)
    requires !Adds(kind, prev, next, key) && !Deletes(kind, prev, next, key)
    ensures Held(kind, prev, key) <==> Held(kind, next, key)
    ensures key != "" ==> forall e :: EntryOf(kind, prev, key, e) <==> EntryOf(kind, next, key, e)
  {
    forall id | key != "" && id in prev && Secret(kind, prev[id]) == key
      ensures id in next && next[id] == prev[id]
    {
      assert !Removed(prev, next, id);
      assert !Added(prev, next, id);
    }
    forall id | key != "" && id in next && Secret(kind, next[id]) == key
      ensures id in prev && next[id] == prev[id]
    {
      assert !Added(prev, next, id);
    }
  }

  // Key by key, a diff leaves what a rebuild would: always where it adds; where it only
  // deletes, unless the secret is still held; and elsewhere if it was right before.
  lemma RightAfter(kind: Kind, prev: Users, next: Users, t: Table, t': Table, key: string)
    requires DiffAt(kind, prev, next, t, t', key)
    ensures RightAt(kind, next, t', key) <==>
      || Adds(kind, prev, next, key)
      || (if Deletes(kind, prev, next, key) then !Held(kind, next, key) else RightAt(kind, prev, t, key))
  {
    if Adds(kind, prev, next, key) {
      var id :| Added(prev, next, id) && Secret(kind, next[id]) == key && t'[key] == EntryFor(kind, next[id]);
      assert EntryOf(kind, next, key, t'[key]);
    } else if !Deletes(kind, prev, next, key) {
      UntouchedKey(kind, prev, next, key);
    }
  }

  // A secret is deleted on behalf of one user although another, who did not change, holds it.
  ghost predicate DropsAt(kind: Kind, prev: Users, next: Users, key: string) {
    Deletes(kind, prev, next, key) && !Adds(kind, prev, next, key) && Held(kind, next, key)
  }

  ghost predicate DropsKeptSecret(kind: Kind, prev: Users, next: Users) {
    exists key :: DropsAt(kind, prev, next, key)
  }

  // The diff equals a rebuild, exactly when it drops no secret that is still held.
  lemma DiffEqualsRebuild(kind: Kind, prev: Users, next: Users, t: Table, t': Table)
    requires IsTableOf(kind, prev, t) && IsDiff(kind, prev, next, t, t')
    ensures IsTableOf(kind, next, t') <==> !DropsKeptSecret(kind, prev, next)
  {
    forall key
      ensures RightAt(kind, next, t', key) <==> !DropsAt(kind, prev, next, key)
    {
      assert DiffAt(kind, prev, next, t, t', key) && RightAt(kind, prev, t, key);
      RightAfter(kind, prev, next, t, t', key);
    }
  }

  // With secrets unique within the old list nothing is dropped -- even when users swap secrets.
  lemma UniqueSecretsSuffice(kind: Kind, prev: Users, next: Users, t: Table, t': Table)
    requires UniqueSecrets(kind, prev)
    requires IsTableOf(kind, prev, t) && IsDiff(kind, prev, next, t, t')
    ensures IsTableOf(kind, next, t')
  {
    NothingDropped(kind, prev, next);
    DiffEqualsRebuild(kind, prev, next, t, t');
  }

  lemma NothingDropped(kind: Kind, prev: Users, next: Users)
    requires UniqueSecrets(kind, prev)
    ensures !DropsKeptSecret(kind, prev, next)
  {
  }

  // Otherwise an unchanged user can lose its entry, on both kinds of inbound: user 2 leaves,
  // sharing its secret with user 1 who stays, and user 1's entry goes with it.
  lemma SharedSecretIsLost(kind: Kind)
    requires kind != Other
    ensures var u1, u2 := PanelUser(1, "s", "s", "a", 0), PanelUser(2, "s", "s", "b", 0);
      var prev, next: Users := map[1 := u1, 2 := u2], map[1 := u1];
      var t := map["s" := EntryFor(kind, u1)];
      IsTableOf(kind, prev, t) && forall t' :: IsDiff(kind, prev, next, t, t') ==> "s" !in t' && !IsTableOf(kind, next, t')
  {
    var u1, u2 := PanelUser(1, "s", "s", "a", 0), PanelUser(2, "s", "s", "b", 0);
    var prev, next: Users := map[1 := u1, 2 := u2], map[1 := u1];
    var t: Table := map["s" := EntryFor(kind, u1)];
    assert prev[1] == u1 && Secret(kind, prev[1]) == "s";
    assert Removed(prev, next, 2) && !Added(prev, next, 1);
    assert Deletes(kind, prev, next, "s") && !Adds(kind, prev, next, "s");
    assert EntryOf(kind, prev, "s", t["s"]);
    assert 1 in next && Held(kind, next, "s");
    forall t' | IsDiff(kind, prev, next, t, t')
      ensures "s" !in t' && !IsTableOf(kind, next, t')
    {
      assert DiffAt(kind, prev, next, t, t', "s");
      assert !RightAt(kind, next, t', "s");
    }
  }

  // And so, by both, the whole table says what it should.
  lemma AppliedTableDescribes(kind: Kind, prev: Users, next: Users, t: Table, t': Table)
    requires OwnIds(next) && IsTableOf(kind, prev, t) && IsDiff(kind, prev, next, t, t')
    requires !DropsKeptSecret(kind, prev, next)
    ensures forall key :: key in t' <==> key != "" && HasUser(kind, next, key)
    ensures forall key :: key in t' ==> Describes(kind, next, key, t'[key])
  {
    DiffEqualsRebuild(kind, prev, next, t, t');
    TableDescribes(kind, next, t');
  }

  // ---- retries -----------------------------------------------------------------------

  // Retry convergence: a failed pass, whatever it managed to do, followed by a successful one
  // with the same list ends where an error-free pass would have.
  lemma RetryConverges(kind: Kind, prev: Users, next: Users, t: Table, failed: Table, t': Table)
    requires IsPartial(kind, prev, next, t, failed) && IsDiff(kind, prev, next, failed, t')
    ensures IsDiff(kind, prev, next, t, t')
  {
    forall key
      ensures DiffAt(kind, prev, next, t, t', key)
    {
      assert PartialAt(kind, prev, next, t, failed, key) && DiffAt(kind, prev, next, failed, t', key);
    }
  }

  // A pass towards `mid` that stops half-way can leave this key wrong for the old users.
  ghost predicate Harms(kind: Kind, prev: Users, mid: Users, key: string) {
    || Deletes(kind, prev, mid, key)
    || exists e :: AddedEntry(kind, prev, mid, key, e) && !EntryOf(kind, prev, key, e)
  }

  // A partial pass leaves a key right unless it harms it ...
  lemma UnharmedStaysRight(kind: Kind, prev: Users, mid: Users, t: Table, failed: Table, key: string)
    requires RightAt(kind, prev, t, key) && PartialAt(kind, prev, mid, t, failed, key) && !Harms(kind, prev, mid, key)
    ensures RightAt(kind, prev, failed, key)
  {
    if !SameAt(t, failed, key) {
      assert EntryOf(kind, prev, key, failed[key]);
    }
  }

  // ... and some partial pass leaves a harmed key wrong.
  lemma HarmedCanBeWrong(kind: Kind, prev: Users, mid: Users, t: Table, key: string) returns (failed: Table)
    requires IsTableOf(kind, prev, t) && Harms(kind, prev, mid, key)
    ensures IsPartial(kind, prev, mid, t, failed) && !RightAt(kind, prev, failed, key)
  {
    assert RightAt(kind, prev, t, key);
    if Deletes(kind, prev, mid, key) {
      failed := t - {key};
    } else {
      var e :| AddedEntry(kind, prev, mid, key, e) && !EntryOf(kind, prev, key, e);
      failed := t[key := e];
    }
    forall k
      ensures PartialAt(kind, prev, mid, t, failed, k)
    {
      assert k != key ==> SameAt(t, failed, k);
    }
  }

  // There is always some outcome of a successful pass.
  lemma SomeDiff(kind: Kind, prev: Users, next: Users, t: Table) returns (t': Table)
    ensures IsDiff(kind, prev, next, t, t')
  {
    var keys := t.Keys + set id | id in next :: Secret(kind, next[id]);
    var added := map key | key in keys && Adds(kind, prev, next, key) :: SomeAdded(kind, prev, next, key);
    t' := map key | key in keys && (key in added || (key in t && !Deletes(kind, prev, next, key))) ::
      if key in added then added[key] else t[key];
    forall key
      ensures DiffAt(kind, prev, next, t, t', key)
    {
      if Adds(kind, prev, next, key) {
        var id :| Added(prev, next, id) && Secret(kind, next[id]) == key;
        assert key in keys;
      }
    }
  }

  ghost function SomeAdded(kind: Kind, prev: Users, next: Users, key: string): (e: Entry)
    requires Adds(kind, prev, next, key)
    ensures AddedEntry(kind, prev, next, key, e)
  {
    var id :| Added(prev, next, id) && Secret(kind, next[id]) == key;
    EntryFor(kind, next[id])
  }

  ghost predicate Touches(kind: Kind, prev: Users, next: Users, key: string) {
    Adds(kind, prev, next, key) || Deletes(kind, prev, next, key)
  }

  // Whatever a failed pass towards `mid` did, a successful pass to another list converges.
  ghost predicate AlwaysConverges(kind: Kind, prev: Users, mid: Users, next: Users, t: Table) {
    forall failed, t' :: IsPartial(kind, prev, mid, t, failed) && IsDiff(kind, prev, next, failed, t') ==>
      IsTableOf(kind, next, t')
  }

  // A retry with another list converges, whatever the failed pass did, exactly when it drops
  // no secret still held and touches every key the failed pass could harm.
  lemma RetryWithAnotherList(kind: Kind, prev: Users, mid: Users, next: Users, t: Table)
    requires IsTableOf(kind, prev, t)
    ensures AlwaysConverges(kind, prev, mid, next, t) <==>
      && !DropsKeptSecret(kind, prev, next)
      && forall key :: Harms(kind, prev, mid, key) ==> Touches(kind, prev, next, key)
  {
    if key :| Harms(kind, prev, mid, key) && !Touches(kind, prev, next, key) {
      var failed := HarmedCanBeWrong(kind, prev, mid, t, key);
      var t' := SomeDiff(kind, prev, next, failed);
      assert DiffAt(kind, prev, next, failed, t', key);
      RightAfter(kind, prev, next, failed, t', key);
      assert !RightAt(kind, next, t', key);
    } else if key :| DropsAt(kind, prev, next, key) {
      forall k
        ensures PartialAt(kind, prev, mid, t, t, k)
      {
      }
      var t' := SomeDiff(kind, prev, next, t);
      DiffEqualsRebuild(kind, prev, next, t, t');
    } else {
      forall failed, t' | IsPartial(kind, prev, mid, t, failed) && IsDiff(kind, prev, next, failed, t')
        ensures IsTableOf(kind, next, t')
      {
        forall key
          ensures RightAt(kind, next, t', key)
        {
          RetryAt(kind, prev, mid, next, t, failed, t', key);
        }
      }
    }
  }

  lemma RetryAt(kind: Kind, prev: Users, mid: Users, next: Users, t: Table, failed: Table, t': Table, key: string)
    requires IsTableOf(kind, prev, t) && IsPartial(kind, prev, mid, t, failed) && IsDiff(kind, prev, next, failed, t')
    requires !DropsAt(kind, prev, next, key)
    requires Harms(kind, prev, mid, key) ==> Touches(kind, prev, next, key)
    ensures RightAt(kind, next, t', key)
  {
    assert RightAt(kind, prev, t, key) && PartialAt(kind, prev, mid, t, failed, key) && DiffAt(kind, prev, next, failed, t', key);
    RightAfter(kind, prev, next, failed, t', key);
    if !Touches(kind, prev, next, key) {
      UnharmedStaysRight(kind, prev, mid, t, failed, key);
    }
  }

  // The failing family: a user whom only the failed list named. The failed pass can have added
  // its secret, no later pass knows of it, and the inbound goes on accepting it.
  lemma FailedAddStays(kind: Kind, prev: Users, mid: Users, next: Users, t: Table, id: int) returns (failed: Table)
    requires IsTableOf(kind, prev, t) && id in mid && id !in prev && Secret(kind, mid[id]) != ""
    requires !Held(kind, prev, Secret(kind, mid[id])) && !Held(kind, next, Secret(kind, mid[id]))
    ensures IsPartial(kind, prev, mid, t, failed)
    ensures forall t' :: IsDiff(kind, prev, next, failed, t') ==> Secret(kind, mid[id]) in t' && !IsTableOf(kind, next, t')
  {
    var key, e := Secret(kind, mid[id]), EntryFor(kind, mid[id]);
    assert Added(prev, mid, id);
    assert AddedEntry(kind, prev, mid, key, e);
    assert !EntryOf(kind, prev, key, e);
    failed := t[key := e];
    forall k
      ensures PartialAt(kind, prev, mid, t, failed, k)
    {
      assert k != key ==> SameAt(t, failed, k);
    }
    forall t' | IsDiff(kind, prev, next, failed, t')
      ensures key in t' && !IsTableOf(kind, next, t')
    {
      assert DiffAt(kind, prev, next, failed, t', key);
      assert !RightAt(kind, next, t', key);
    }
  }
}
