/**
 Who a connection is: the name an inbound reports for a secret, and the id that the user
 manager resolves it to.
 */
module Identity {
  import opened UserDiff
  import opened InboundRuns

  // The name an inbound reports for a connection that authenticated with this entry.
  function NameOf(e: Entry): string {
    match e
    case VlessUser(name, _, _) => name
    case Hysteria2User(name, _, _) => name
  }

  // No UUID, password or name of one user is one of another user's.
  ghost predicate AliasesApart(list: seq<PanelUser>) {
    forall i, j, a :: 0 <= i < |list| && 0 <= j < |list| && HasAlias(list[i], a) && HasAlias(list[j], a) ==>
      list[i].id == list[j].id
  }

  lemma {:induction false} SomeLast(list: seq<PanelUser>, a: string) returns (i: int)
    requires SomeoneHas(list, a)
    ensures IsLastWith(list, a, i)
  {
    var last := |list| - 1;
    if HasAlias(list[last], a) {
      i := last;
    } else {
      ShorterLast(list, a);
      i := SomeLast(list[..last], a);
      assert forall j :: 0 <= j < last ==> list[..last][j] == list[j];
    }
  }

  // Every alias of a user resolves to it.
  lemma AliasIsOwn(list: seq<PanelUser>, u: PanelUser, a: string)
    requires AliasesApart(list) && u in list && HasAlias(u, a)
    ensures a in AliasesOf(list) && AliasesOf(list)[a] == u.id
  {
    var k :| 0 <= k < |list| && list[k] == u;
    assert HasAlias(list[k], a);
    var i := SomeLast(list, a);
    AliasesResolve(list, a);
  }

  lemma ApartIsUnique(kind: Kind, list: seq<PanelUser>)
    requires AliasesApart(list)
    ensures UniqueSecrets(kind, UsersById(list))
  {
    UsersByIdKeys(list);
    var users := UsersById(list);
    forall i, j | i in users && j in users && i != j && Secret(kind, users[i]) != ""
      ensures Secret(kind, users[i]) != Secret(kind, users[j])
    {
      if Secret(kind, users[i]) == Secret(kind, users[j]) {
        AliasIsOwn(list, users[i], Secret(kind, users[i]));
        AliasIsOwn(list, users[j], Secret(kind, users[i]));
      }
    }
  }

  // The id behind a reported name is the one user with the secret, and on Hysteria2 also the
  // id of the entry.
  ghost predicate ResolvesTo(kind: Kind, users: Users, aliases: map<string, int>, key: string, e: Entry) {
    && NameOf(e) in aliases
    && var id := aliases[NameOf(e)];
       && id in users && (if kind == Vless then users[id].uuid == key else users[id].password == key)
       && (kind == Hysteria2 ==> e.Hysteria2User? && e.id == id)
       && forall other :: other in users && other != id ==>
            if kind == Vless then users[other].uuid != key else users[other].password != key
  }

  lemma EntryResolves(kind: Kind, list: seq<PanelUser>, key: string, e: Entry)
    requires AliasesApart(list) && key != "" && Describes(kind, UsersById(list), key, e)
    ensures ResolvesTo(kind, UsersById(list), AliasesOf(list), key, e)
  {
    UsersByIdKeys(list);
    var users := UsersById(list);
    var id: int;
    match kind {
      case Vless =>
        id :| id in users && users[id].uuid == key;
      case Hysteria2 =>
        id := e.id;
    }
    AliasIsOwn(list, users[id], NameOf(e));
    forall other | other in users && other != id
      ensures if kind == Vless then users[other].uuid != key else users[other].password != key
    {
      if HasAlias(users[other], key) {
        AliasIsOwn(list, users[id], key);
        AliasIsOwn(list, users[other], key);
      }
    }
  }

  // Over every error-free run of lists whose users share no alias: whoever authenticates on an
  // inbound, with whatever secret, is resolved to the one user of the last list who has it.
  lemma AuthenticatedIsResolved(kind: Kind, stages: seq<TableStage>, calls: seq<Call>, lists: seq<seq<PanelUser>>, j: nat)
    requires IsTableRun(kind, stages, calls) && 0 < j <= |calls| == |lists|
    requires IsTableOf(kind, stages[0].users, stages[0].table) && UniqueSecrets(kind, stages[0].users)
    requires forall i :: 0 <= i < j ==> !calls[i].failed && calls[i].next == UsersById(lists[i]) && AliasesApart(lists[i])
    ensures var users, t := UsersById(lists[j - 1]), stages[j].table;
      && stages[j].users == users
      && (forall key :: key in t <==> key != "" && HasUser(kind, users, key))
      && forall key :: key in t ==> ResolvesTo(kind, users, AliasesOf(lists[j - 1]), key, t[key])
  {
    forall i | 0 <= i < j
      ensures UniqueSecrets(kind, stages[i].users)
    {
      UniqueAt(kind, stages, calls, lists, i);
    }
    ErrorFreeRunIsRebuild(kind, stages, calls, j);
    assert AppliedAt(kind, stages, calls, j - 1);
    var list, t := lists[j - 1], stages[j].table;
    UsersByIdKeys(list);
    TableDescribes(kind, UsersById(list), t);
    forall key | key in t
      ensures ResolvesTo(kind, UsersById(list), AliasesOf(list), key, t[key])
    {
      EntryResolves(kind, list, key, t[key]);
    }
  }

  lemma UniqueAt(kind: Kind, stages: seq<TableStage>, calls: seq<Call>, lists: seq<seq<PanelUser>>, i: nat)
    requires IsTableRun(kind, stages, calls) && i < |calls| == |lists| && UniqueSecrets(kind, stages[0].users)
    requires forall k :: 0 <= k < i ==> !calls[k].failed && calls[k].next == UsersById(lists[k]) && AliasesApart(lists[k])
    ensures UniqueSecrets(kind, stages[i].users)
  {
    if i > 0 {
      assert AppliedAt(kind, stages, calls, i - 1);
      ApartIsUnique(kind, lists[i - 1]);
    }
  }
}
