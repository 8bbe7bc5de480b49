/**
 `UserManager`: the users last applied, their secrets and their limiters, and `ApplyBox`,
 which brings the inbounds and the limiters in line with a new list.
 */
module UserManagers {
  import opened Options
  import opened MapRange
  import opened Decimal
  import opened UserDiff
  import opened LimiterTable

  // An inbound's user table. Its calls may fail after any part of their work.
  class Inbound {
    const kind: Kind
    var table: Table

    constructor (kind: Kind)
      ensures this.kind == kind && table == map[]
    {
      this.kind := kind;
      table := map[];
    }

    method DelUsers(keys: seq<string>) returns (err: bool)
      modifies this
      ensures forall k :: k !in keys ==> (k in table <==> k in old(table))
      ensures forall k :: k in table ==> k in old(table) && table[k] == old(table)[k]
      ensures !err ==> forall k :: k in keys ==> k !in table
    {
      err := *;
      for i := 0 to |keys|
        invariant forall k :: k !in keys ==> (k in table <==> k in old(table))
        invariant forall k :: k in table ==> k in old(table) && table[k] == old(table)[k]
        invariant !err ==> forall j :: 0 <= j < i ==> keys[j] !in table
      {
        var skip: bool := *;
        if !err || !skip {
          table := table - {keys[i]};
        }
      }
    }

    method AddUsers(entries: seq<Entry>) returns (err: bool)
      modifies this
      ensures forall k :: (forall e :: e in entries ==> Key(e) != k) ==>
        (k in table <==> k in old(table)) && (k in table ==> table[k] == old(table)[k])
      ensures forall k :: k in old(table) ==> k in table
      ensures forall k :: k in table && !(k in old(table) && table[k] == old(table)[k]) ==>
        table[k] in entries && Key(table[k]) == k
      ensures !err ==> forall e :: e in entries ==> Key(e) in table && table[Key(e)] in entries && Key(table[Key(e)]) == Key(e)
    {
      err := *;
      for i := 0 to |entries|
        invariant forall k :: (forall e :: e in entries ==> Key(e) != k) ==>
          (k in table <==> k in old(table)) && (k in table ==> table[k] == old(table)[k])
        invariant forall k :: k in old(table) ==> k in table
        invariant forall k :: k in table && !(k in old(table) && table[k] == old(table)[k]) ==>
          table[k] in entries && Key(table[k]) == k
        invariant !err ==> forall j :: 0 <= j < i ==>
          Key(entries[j]) in table && table[Key(entries[j])] in entries && Key(table[Key(entries[j])]) == Key(entries[j])
      {
        var skip: bool := *;
        if !err || !skip {
          table := table[Key(entries[i]) := entries[i]];
        }
      }
    }

    // One inbound's turn: deletions, then additions, stopping at the first error.
    method Update(prev: Users, next: Users, dels: seq<string>, adds: seq<Entry>) returns (err: bool)
      requires ListsDeleted(kind, prev, next, prev.Keys, dels) && ListsAdded(kind, prev, next, next.Keys, adds)
      modifies this
      ensures !err ==> IsDiff(kind, prev, next, old(table), table)
      ensures IsPartial(kind, prev, next, old(table), table)
    {
      DeletesListed(kind, prev, next, dels);
      AddsListed(kind, prev, next, adds);
      if dels != [] {
        err := DelUsers(dels);
        if err {
          DeletionsArePartial(kind, prev, next, dels, old(table), table);
          return;
        }
      }
      ghost var kept := table;
      if adds != [] {
        err := AddUsers(adds);
        if err {
          AdditionsArePartial(kind, prev, next, dels, adds, old(table), kept, table);
          return;
        }
      }
      err := false;
      AdditionsAreDiff(kind, prev, next, dels, adds, old(table), kept, table);
      DiffIsPartial(kind, prev, next, old(table), table);
    }
  }

  // What a call leaves of one inbound: whatever part of the diff if it failed, and otherwise all
  // of it, each entry it brought in saying who its user is.
  ghost predicate Updated(kind: Kind, prev: Users, next: Users, t: Table, t': Table, err: bool) {
    && IsPartial(kind, prev, next, t, t')
    && (!err ==>
          && IsDiff(kind, prev, next, t, t')
          && forall key :: key in t' && !SameAt(t, t', key) ==> Describes(kind, next, key, t'[key]))
  }

  // Some of the listed keys are gone, and nothing else has changed.
  ghost predicate SomeGone(keys: seq<string>, t: Table, t': Table) {
    && (forall k :: k !in keys ==> (k in t' <==> k in t))
    && forall k :: k in t' ==> k in t && t'[k] == t[k]
  }

  // Some of the listed entries are in, and nothing else has changed.
  ghost predicate SomeIn(entries: seq<Entry>, t: Table, t': Table) {
    && (forall k :: k in t ==> k in t')
    && forall k :: k in t' && !(k in t && t'[k] == t[k]) ==> t'[k] in entries && Key(t'[k]) == k
  }

  lemma DeletionsArePartial(kind: Kind, prev: Users, next: Users, dels: seq<string>, t: Table, t': Table)
    requires forall k :: k in dels <==> Deletes(kind, prev, next, k)
    requires SomeGone(dels, t, t')
    ensures IsPartial(kind, prev, next, t, t')
  {
    forall k
      ensures PartialAt(kind, prev, next, t, t', k)
    {
      assert k !in t' ==> k !in t || k in dels;
    }
  }

  lemma AdditionsArePartial(kind: Kind, prev: Users, next: Users, dels: seq<string>, adds: seq<Entry>,
                            t: Table, kept: Table, t': Table)
    requires forall k :: k in dels <==> Deletes(kind, prev, next, k)
    requires forall e :: e in adds ==> AddedEntry(kind, prev, next, Key(e), e)
    requires SomeGone(dels, t, kept) && SomeIn(adds, kept, t')
    ensures IsPartial(kind, prev, next, t, t')
  {
    forall k
      ensures PartialAt(kind, prev, next, t, t', k)
    {
      if k in t' && !(k in kept && t'[k] == kept[k]) {
        assert AddedEntry(kind, prev, next, Key(t'[k]), t'[k]);
      }
    }
  }

  lemma AdditionsAreDiff(kind: Kind, prev: Users, next: Users, dels: seq<string>, adds: seq<Entry>,
                         t: Table, kept: Table, t': Table)
    requires forall k :: k in dels <==> Deletes(kind, prev, next, k)
    requires forall k :: Adds(kind, prev, next, k) <==> exists e :: e in adds && Key(e) == k
    requires forall e :: e in adds ==> AddedEntry(kind, prev, next, Key(e), e)
    requires SomeGone(dels, t, kept) && forall k :: k in dels ==> k !in kept
    requires SomeIn(adds, kept, t') && forall e :: e in adds ==> Key(e) in t' && t'[Key(e)] in adds && Key(t'[Key(e)]) == Key(e)
    ensures IsDiff(kind, prev, next, t, t')
  {
    forall k
      ensures DiffAt(kind, prev, next, t, t', k)
    {
      if Adds(kind, prev, next, k) {
        var e :| e in adds && Key(e) == k;
        assert AddedEntry(kind, prev, next, k, t'[k]);
      } else {
        assert forall e :: e in adds ==> Key(e) != k;
      }
    }
  }

  // Taking one element off the work list adds it to what is done; an empty list means all is done.
  lemma TakeOne<T>(all: set<T>, todo: set<T>, t: T)
    requires todo <= all && t in todo
    ensures all - (todo - {t}) == (all - todo) + {t}
  {
  }

  lemma TakenAll<T>(all: set<T>, todo: set<T>)
    requires todo == {}
    ensures all - todo == all
  {
  }

  // The secrets to delete on behalf of the users in `done`.
  ghost predicate ListsDeleted(kind: Kind, prev: Users, next: Users, done: set<int>, keys: seq<string>) {
    forall k :: k in keys <==> k != "" && exists id :: id in done && Removed(prev, next, id) && Secret(kind, prev[id]) == k
  }

  lemma DeletesListed(kind: Kind, prev: Users, next: Users, keys: seq<string>)
    requires ListsDeleted(kind, prev, next, prev.Keys, keys)
    ensures forall k :: k in keys <==> Deletes(kind, prev, next, k)
  {
  }

  method NoteDeleted(kind: Kind, prev: Users, next: Users, id: int, keys: seq<string>, ghost done: set<int>)
    returns (r: seq<string>)
    requires id in prev && ListsDeleted(kind, prev, next, done, keys)
    ensures ListsDeleted(kind, prev, next, done + {id}, r)
  {
    r := keys;
    if Removed(prev, next, id) && Secret(kind, prev[id]) != "" {
      r := keys + [Secret(kind, prev[id])];
    }
  }

  // The entries to add on behalf of the users in `done`.
  ghost predicate ListsAdded(kind: Kind, prev: Users, next: Users, done: set<int>, entries: seq<Entry>) {
    forall e :: e in entries <==>
      exists id :: id in done && Added(prev, next, id) && Secret(kind, next[id]) != "" && e == EntryFor(kind, next[id])
  }

  lemma AddsListed(kind: Kind, prev: Users, next: Users, entries: seq<Entry>)
    requires ListsAdded(kind, prev, next, next.Keys, entries)
    ensures forall k :: Adds(kind, prev, next, k) <==> exists e :: e in entries && Key(e) == k
    ensures forall e :: e in entries ==> AddedEntry(kind, prev, next, Key(e), e)
  {
    forall k | Adds(kind, prev, next, k)
      ensures exists e :: e in entries && Key(e) == k
    {
      var id :| Added(prev, next, id) && Secret(kind, next[id]) == k;
      assert EntryFor(kind, next[id]) in entries;
      assert Key(EntryFor(kind, next[id])) == k;
    }
  }

  method NoteAdded(kind: Kind, prev: Users, next: Users, id: int, entries: seq<Entry>, ghost done: set<int>)
    returns (r: seq<Entry>)
    requires id in next && ListsAdded(kind, prev, next, done, entries)
    ensures ListsAdded(kind, prev, next, done + {id}, r)
  {
    r := entries;
    if Added(prev, next, id) && Secret(kind, next[id]) != "" {
      r := entries + [EntryFor(kind, next[id])];
    }
  }

  predicate Differs(users: Users, u: PanelUser) {
    !(u.id in users && users[u.id].uuid == u.uuid && users[u.id].password == u.password && users[u.id].name == u.name
      && users[u.id].speedLimit == u.speedLimit)
  }

  // The secrets of users that are gone or have another UUID, password or name: once per kind.
  ghost predicate RemovesSecrets(prev: Users, next: Users, vless: seq<string>, hy2: seq<string>) {
    && (forall k :: k in vless <==> k != "" && exists id :: id in prev && prev[id].uuid == k && GoneOrRenamed(prev, next, id))
    && (forall k :: k in hy2 <==> k != "" && exists id :: id in prev && prev[id].password == k && GoneOrRenamed(prev, next, id))
  }

  predicate GoneOrRenamed(prev: Users, next: Users, id: int)
    requires id in prev
  {
    !(id in next && next[id].uuid == prev[id].uuid && next[id].password == prev[id].password && next[id].name == prev[id].name)
  }

  lemma RemovesListed(prev: Users, next: Users, vless: seq<string>, hy2: seq<string>)
    requires ListsDeleted(Vless, prev, next, prev.Keys, vless) && ListsDeleted(Hysteria2, prev, next, prev.Keys, hy2)
    ensures RemovesSecrets(prev, next, vless, hy2)
  {
    forall k
      ensures k in vless <==> k != "" && exists id :: id in prev && prev[id].uuid == k && GoneOrRenamed(prev, next, id)
      ensures k in hy2 <==> k != "" && exists id :: id in prev && prev[id].password == k && GoneOrRenamed(prev, next, id)
    {
      assert forall id :: id in prev ==> (Removed(prev, next, id) <==> GoneOrRenamed(prev, next, id));
      assert forall id :: id in prev ==> Secret(Vless, prev[id]) == prev[id].uuid && Secret(Hysteria2, prev[id]) == prev[id].password;
    }
  }

  // An entry per user that is new or differs and has the secret: with the Vision flow, or with
  // the user's id and its name -- the password where it has none.
  ghost predicate AddsEntries(prev: Users, next: Users, vless: seq<Entry>, hy2: seq<Entry>) {
    && (forall e :: e in vless ==> e.VlessUser? && NewVless(prev, next, e))
    && (forall e :: e in hy2 ==> e.Hysteria2User? && NewHysteria2(prev, next, e))
    && (forall id :: id in next && Differs(prev, next[id]) && next[id].uuid != "" ==>
          exists e :: e in vless && e.VlessUser? && e.uuid == next[id].uuid)
    && (forall id :: id in next && Differs(prev, next[id]) && next[id].password != "" ==>
          exists e :: e in hy2 && e.Hysteria2User? && e.id == id)
  }

  ghost predicate NewVless(prev: Users, next: Users, e: Entry)
    requires e.VlessUser?
  {
    && e.flow == "xtls-rprx-vision" && e.vlessName == e.uuid != ""
    && exists id :: id in next && Differs(prev, next[id]) && next[id].uuid == e.uuid
  }

  predicate NewHysteria2(prev: Users, next: Users, e: Entry)
    requires e.Hysteria2User?
  {
    && e.id in next && Differs(prev, next[e.id]) && e.password == next[e.id].password != ""
    && e.name == (if next[e.id].name == "" then e.password else next[e.id].name)
  }

  lemma AddsExactly(prev: Users, next: Users, vless: seq<Entry>, hy2: seq<Entry>)
    requires OwnIds(prev) && OwnIds(next)
    requires ListsAdded(Vless, prev, next, next.Keys, vless) && ListsAdded(Hysteria2, prev, next, next.Keys, hy2)
    ensures AddsEntries(prev, next, vless, hy2)
  {
    forall id | id in next
      ensures Added(prev, next, id) <==> Differs(prev, next[id])
    {
    }
    forall e | e in vless
      ensures e.VlessUser? && NewVless(prev, next, e)
    {
      var id :| id in next.Keys && Added(prev, next, id) && Secret(Vless, next[id]) != "" && e == EntryFor(Vless, next[id]);
    }
    forall e | e in hy2
      ensures e.Hysteria2User? && NewHysteria2(prev, next, e)
    {
      var id :| id in next.Keys && Added(prev, next, id) && Secret(Hysteria2, next[id]) != "" && e == EntryFor(Hysteria2, next[id]);
    }
    forall id | id in next && Differs(prev, next[id])
      ensures next[id].uuid != "" ==> exists e :: e in vless && e.VlessUser? && e.uuid == next[id].uuid
      ensures next[id].password != "" ==> exists e :: e in hy2 && e.Hysteria2User? && e.id == id
    {
      assert next[id].uuid != "" ==> EntryFor(Vless, next[id]) in vless;
      assert next[id].password != "" ==> EntryFor(Hysteria2, next[id]) in hy2;
    }
  }

  class UserManager {
    var users: Users
    var bySecret: map<string, int>
    var limiters: Limiters
    const hasNode: bool

    ghost predicate Valid()
      reads this
    {
      Inv(limiters) && forall id :: id in users ==> users[id].id == id
    }

    constructor (now: int, nodeMbps: int)
      ensures Valid() && users == map[] && bySecret == map[]
      ensures limiters == NewLimiters(now, nodeMbps) && hasNode == (nodeMbps > 0)
      ensures InSync(users, limiters)
    {
      users, bySecret, limiters := map[], map[], NewLimiters(now, nodeMbps);
      hasNode := nodeMbps > 0;
    }

    method CloseIfGone(next: Users, id: int, ghost start: Limiters, ghost done: set<int>)
      requires Inv(start) && AfterRemovals(start, next, done, limiters)
      modifies this`limiters
      ensures AfterRemovals(start, next, done + {id}, limiters)
    {
      if id !in next {
        RemoveStep(start, limiters, next, done, id);
        limiters := CloseUser(limiters, id);
      } else {
        KeepStep(start, limiters, next, done, id);
      }
    }

    // One user's turn in the first loop.
    method NoteGone(next: Users, id: int, delVless: seq<string>, delHy2: seq<string>,
                    ghost start: Limiters, ghost done: set<int>)
      returns (delVless': seq<string>, delHy2': seq<string>)
      requires id in users && Inv(start) && AfterRemovals(start, next, done, limiters)
      requires ListsDeleted(Vless, users, next, done, delVless) && ListsDeleted(Hysteria2, users, next, done, delHy2)
      modifies this`limiters
      ensures AfterRemovals(start, next, done + {id}, limiters)
      ensures ListsDeleted(Vless, users, next, done + {id}, delVless')
      ensures ListsDeleted(Hysteria2, users, next, done + {id}, delHy2')
    {
      delVless' := NoteDeleted(Vless, users, next, id, delVless, done);
      delHy2' := NoteDeleted(Hysteria2, users, next, id, delHy2, done);
      CloseIfGone(next, id, start, done);
    }

    // First loop: what to delete, and the limiters of users that are gone.
    method CollectRemoved(next: Users) returns (delVless: seq<string>, delHy2: seq<string>)
      requires Valid()
      modifies this`limiters
      ensures AfterRemovals(old(limiters), next, users.Keys, limiters)
      ensures ListsDeleted(Vless, users, next, users.Keys, delVless)
      ensures ListsDeleted(Hysteria2, users, next, users.Keys, delHy2)
      ensures RemovesSecrets(users, next, delVless, delHy2)
    {
      delVless, delHy2 := [], [];
      ghost var all := users.Keys;
      var todo := users.Keys;
      ghost var done: set<int> := {};
      while todo != {}
        invariant todo <= all && done == all - todo
        invariant AfterRemovals(old(limiters), next, done, limiters)
        invariant ListsDeleted(Vless, users, next, done, delVless)
        invariant ListsDeleted(Hysteria2, users, next, done, delHy2)
        decreases |todo|
      {
        var id := Pick(todo);
        TakeOne(all, todo, id);
        todo := todo - {id};
        delVless, delHy2 := NoteGone(next, id, delVless, delHy2, old(limiters), done);
        done := done + {id};
      }
      TakenAll(all, todo);
      RemovesListed(users, next, delVless, delHy2);
    }

    // One user's turn in the second loop.
    method NoteListed(next: Users, id: int, addVless: seq<Entry>, addHy2: seq<Entry>, now: int,
                      ghost start: Limiters, ghost done: set<int>)
      returns (addVless': seq<Entry>, addHy2': seq<Entry>)
      requires id in next && id !in done && next[id].id == id && Inv(start) && AfterUpdates(start, next, done, limiters)
      requires ListsAdded(Vless, users, next, done, addVless) && ListsAdded(Hysteria2, users, next, done, addHy2)
      modifies this`limiters
      ensures AfterUpdates(start, next, done + {id}, limiters)
      ensures ListsAdded(Vless, users, next, done + {id}, addVless')
      ensures ListsAdded(Hysteria2, users, next, done + {id}, addHy2')
    {
      addVless' := NoteAdded(Vless, users, next, id, addVless, done);
      addHy2' := NoteAdded(Hysteria2, users, next, id, addHy2, done);
      UpdateStep(start, limiters, next, done, id, now);
      limiters := UpdateUser(limiters, next[id], now);
    }

    // Second loop: what to add, and the limiters of the users in the list.
    method CollectAdded(next: Users, now: int) returns (addVless: seq<Entry>, addHy2: seq<Entry>)
      requires Valid() && forall id :: id in next ==> next[id].id == id
      modifies this`limiters
      ensures AfterUpdates(old(limiters), next, next.Keys, limiters)
      ensures ListsAdded(Vless, users, next, next.Keys, addVless)
      ensures ListsAdded(Hysteria2, users, next, next.Keys, addHy2)
      ensures AddsEntries(users, next, addVless, addHy2)
    {
      addVless, addHy2 := [], [];
      ghost var all := next.Keys;
      var todo := next.Keys;
      ghost var done: set<int> := {};
      while todo != {}
        invariant todo <= all && done == all - todo
        invariant AfterUpdates(old(limiters), next, done, limiters)
        invariant ListsAdded(Vless, users, next, done, addVless)
        invariant ListsAdded(Hysteria2, users, next, done, addHy2)
        decreases |todo|
      {
        var id := Pick(todo);
        TakeOne(all, todo, id);
        todo := todo - {id};
        addVless, addHy2 := NoteListed(next, id, addVless, addHy2, now, old(limiters), done);
        done := done + {id};
      }
      TakenAll(all, todo);
      AddsExactly(users, next, addVless, addHy2);
    }

    method Reconcile(next: Users, now: int)
      returns (delVless: seq<string>, delHy2: seq<string>, addVless: seq<Entry>, addHy2: seq<Entry>)
      requires Valid() && forall id :: id in next ==> next[id].id == id
      modifies this`limiters
      ensures Valid() && Reconciled(users, next, old(limiters), limiters)
      ensures ListsDeleted(Vless, users, next, users.Keys, delVless) && ListsDeleted(Hysteria2, users, next, users.Keys, delHy2)
      ensures ListsAdded(Vless, users, next, next.Keys, addVless) && ListsAdded(Hysteria2, users, next, next.Keys, addHy2)
    {
      delVless, delHy2 := CollectRemoved(next);
      ghost var middle := limiters;
      addVless, addHy2 := CollectAdded(next, now);
      LoopsReconcile(users, next, old(limiters), middle, limiters);
    }

    // Inbounds in any order; the first error ends the call with the users unchanged.
    method ApplyBox(inbounds: map<string, Inbound>, list: seq<PanelUser>, now: int) returns (err: bool)
      requires Valid()
      requires forall a, b :: a in inbounds && b in inbounds && a != b ==> inbounds[a] != inbounds[b]
      modifies this, inbounds.Values
      ensures Valid()
      ensures users == if err then old(users) else UsersById(list)
      ensures bySecret == if err then old(bySecret) else AliasesOf(list)
      ensures Reconciled(old(users), UsersById(list), old(limiters), limiters)
      ensures forall tag :: tag in inbounds ==>
        Updated(inbounds[tag].kind, old(users), UsersById(list), old(inbounds[tag].table), inbounds[tag].table, err)
    {
      var next := BuildNext(list);
      var aliases := BuildAliases(list);
      UsersByIdKeys(list);
      err := ApplyNext(inbounds, next, now);
      if err {
        return;
      }
      users := next;
      bySecret := aliases;
    }

    method ApplyNext(inbounds: map<string, Inbound>, next: Users, now: int) returns (err: bool)
      requires Valid() && forall id :: id in next ==> next[id].id == id
      requires forall a, b :: a in inbounds && b in inbounds && a != b ==> inbounds[a] != inbounds[b]
      modifies this`limiters, inbounds.Values
      ensures Inv(limiters) && Reconciled(users, next, old(limiters), limiters)
      ensures forall tag :: tag in inbounds ==>
        Updated(inbounds[tag].kind, users, next, old(inbounds[tag].table), inbounds[tag].table, err)
    {
      var delVless, delHy2, addVless, addHy2 := Reconcile(next, now);
      err := UpdateInbounds(inbounds, next, delVless, delHy2, addVless, addHy2);
      forall tag | tag in inbounds
        ensures Updated(inbounds[tag].kind, users, next, old(inbounds[tag].table), inbounds[tag].table, err)
      {
        if !err {
          NewEntriesDescribe(inbounds[tag].kind, users, next, old(inbounds[tag].table), inbounds[tag].table);
        }
      }
    }

    method UpdateInbounds(inbounds: map<string, Inbound>, next: Users, delVless: seq<string>, delHy2: seq<string>,
                          addVless: seq<Entry>, addHy2: seq<Entry>) returns (err: bool)
      requires forall a, b :: a in inbounds && b in inbounds && a != b ==> inbounds[a] != inbounds[b]
      requires ListsDeleted(Vless, users, next, users.Keys, delVless) && ListsDeleted(Hysteria2, users, next, users.Keys, delHy2)
      requires ListsAdded(Vless, users, next, next.Keys, addVless) && ListsAdded(Hysteria2, users, next, next.Keys, addHy2)
      modifies inbounds.Values
      ensures !err ==> forall tag :: tag in inbounds ==>
        IsDiff(inbounds[tag].kind, users, next, old(inbounds[tag].table), inbounds[tag].table)
      ensures forall tag :: tag in inbounds ==>
        IsPartial(inbounds[tag].kind, users, next, old(inbounds[tag].table), inbounds[tag].table)
    {
      var todo := inbounds.Keys;
      while todo != {}
        invariant todo <= inbounds.Keys
        invariant forall tag :: tag in inbounds && tag !in todo ==>
          IsDiff(inbounds[tag].kind, users, next, old(inbounds[tag].table), inbounds[tag].table)
        invariant forall tag :: tag in inbounds ==>
          IsPartial(inbounds[tag].kind, users, next, old(inbounds[tag].table), inbounds[tag].table)
        invariant forall tag :: tag in todo ==> inbounds[tag].table == old(inbounds[tag].table)
        decreases |todo|
      {
        var tag := Pick(todo);
        todo := todo - {tag};
        assert inbounds[tag] in inbounds.Values;
        err := UpdateOne(inbounds[tag], next, delVless, delHy2, addVless, addHy2);
        if err {
          return;
        }
      }
      err := false;
    }

    method UpdateOne(inbound: Inbound, next: Users, delVless: seq<string>, delHy2: seq<string>,
                     addVless: seq<Entry>, addHy2: seq<Entry>) returns (err: bool)
      requires ListsDeleted(Vless, users, next, users.Keys, delVless) && ListsDeleted(Hysteria2, users, next, users.Keys, delHy2)
      requires ListsAdded(Vless, users, next, next.Keys, addVless) && ListsAdded(Hysteria2, users, next, next.Keys, addHy2)
      modifies inbound
      ensures !err ==> IsDiff(inbound.kind, users, next, old(inbound.table), inbound.table)
      ensures IsPartial(inbound.kind, users, next, old(inbound.table), inbound.table)
    {
      match inbound.kind
      case Vless => err := inbound.Update(users, next, delVless, addVless);
      case Hysteria2 => err := inbound.Update(users, next, delHy2, addHy2);
      case Other => err := false;
    }

    // The numeric id behind an alias, or the alias itself.
    method Resolve(user: string) returns (r: string)
      ensures r == if user in bySecret && user != "" then Itoa(bySecret[user]) else user
    {
      if user == "" {
        return "";
      }
      if user in bySecret {
        return Itoa(bySecret[user]);
      }
      return user;
    }

    // The keys under which the users' bytes are counted; RemoveAbsent keeps these.
    method ActiveIds() returns (active: set<string>)
      ensures forall key :: key in active <==> exists id :: id in users && Itoa(id) == key
      ensures forall user :: user in bySecret && bySecret[user] in users ==> Itoa(bySecret[user]) in active
    {
      active := {};
      var todo := users.Keys;
      while todo != {}
        invariant todo <= users.Keys
        invariant forall key :: key in active <==> exists id :: id in users && id !in todo && Itoa(id) == key
        decreases |todo|
      {
        var id := Pick(todo);
        todo := todo - {id};
        active := active + {Itoa(id)};
      }
    }

    // The limiters a new connection gets to read and to write by: the node's, and the user's own,
    // which are always open.
    method DirectionalLimiters(user: string)
      returns (nodeRead: Option<Handle>, nodeWrite: Option<Handle>, userRead: Option<Handle>, userWrite: Option<Handle>)
      requires Valid()
      ensures hasNode ==> nodeRead == Some(limiters.node.rx) && nodeWrite == Some(limiters.node.tx)
      ensures !hasNode ==> nodeRead == nodeWrite == None
      ensures var limited := user in bySecret && bySecret[user] in limiters.pairs;
        && (limited ==> userRead == Some(limiters.pairs[bySecret[user]].rx) && userWrite == Some(limiters.pairs[bySecret[user]].tx))
        && (!limited ==> userRead == userWrite == None)
      ensures userRead.Some? ==> userWrite.Some? && Enabled(limiters, Pair(userRead.value, userWrite.value))
    {
      nodeRead, nodeWrite, userRead, userWrite := None, None, None, None;
      if hasNode {
        nodeRead, nodeWrite := Some(limiters.node.rx), Some(limiters.node.tx);
      }
      if user in bySecret && bySecret[user] in limiters.pairs {
        var p := limiters.pairs[bySecret[user]];
        PairEnabled(limiters, bySecret[user]);
        userRead, userWrite := Some(p.rx), Some(p.tx);
      }
    }
  }

  method BuildNext(list: seq<PanelUser>) returns (next: Users)
    ensures next == UsersById(list)
  {
    next := map[];
    for k := 0 to |list|
      invariant next == UsersById(list[..k])
    {
      assert list[..k + 1][..k] == list[..k];
      if list[k].id <= 0 {
        continue;
      }
      next := next[list[k].id := list[k]];
    }
    assert list[..|list|] == list;
  }

  method BuildAliases(list: seq<PanelUser>) returns (aliases: map<string, int>)
    ensures aliases == AliasesOf(list)
  {
    aliases := map[];
    for k := 0 to |list|
      invariant aliases == AliasesOf(list[..k])
    {
      assert list[..k + 1][..k] == list[..k];
      var u := list[k];
      if u.id <= 0 {
        continue;
      }
      if u.uuid != "" { aliases := aliases[u.uuid := u.id]; }
      if u.password != "" { aliases := aliases[u.password := u.id]; }
      if u.name != "" { aliases := aliases[u.name := u.id]; }
    }
    assert list[..|list|] == list;
  }
}
