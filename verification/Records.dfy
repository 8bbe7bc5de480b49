/**
 The state tiny-xboard keeps in memory -- users and their cumulative traffic -- and what
 each section under the state lock does to it.
 */
module Records {

  const KNOWN_VERSION := 1
  const MAX_USERS := 1000

  datatype User = User(id: int, uuid: string, password: string, name: string, speedLimit: int, enabled: bool)

  datatype Traffic = Traffic(up: int, down: int)

  datatype Mem = Mem(users: map<int, User>, traffic: map<int, Traffic>)

  predicate ValidUser(u: User) {
    u.id > 0 && (u.uuid != "" || u.password != "") && u.speedLimit >= 0
  }

  // What `validateUsersFile` and `SetUsers` demand of a list.
  ghost predicate ValidList(us: seq<User>) {
    && |us| <= MAX_USERS
    && (forall i :: 0 <= i < |us| ==> ValidUser(us[i]))
    && forall i, j :: 0 <= i < j < |us| ==> us[i].id != us[j].id
  }

  // What every reachable state satisfies.
  ghost predicate Reachable(m: Mem) {
    && |m.users| <= MAX_USERS
    && (forall id :: id in m.users ==> m.users[id].id == id && ValidUser(m.users[id]))
    && m.traffic.Keys <= m.users.Keys
    && forall id :: id in m.traffic ==> m.traffic[id].up >= 0 && m.traffic[id].down >= 0
  }

  function UsersOf(us: seq<User>): map<int, User> {
    if us == [] then map[] else UsersOf(us[..|us| - 1])[us[|us| - 1].id := us[|us| - 1]]
  }

  function Prune(traffic: map<int, Traffic>, users: map<int, User>): map<int, Traffic> {
    map id | id in traffic && id in users :: traffic[id]
  }

  // ---- the sections under the state lock ----------------------------------------

  predicate Accepts(m: Mem, uid: int, up: int, down: int) {
    up >= 0 && down >= 0 && uid in m.users
  }

  function CounterOf(m: Mem, uid: int): Traffic {
    if uid in m.traffic then m.traffic[uid] else Traffic(0, 0)
  }

  function Accumulate(m: Mem, uid: int, up: int, down: int): Mem {
    if !Accepts(m, uid, up, down) then m
    else
      var t := CounterOf(m, uid);
      m.(traffic := m.traffic[uid := Traffic(t.up + up, t.down + down)])
  }

  predicate CanAdd(m: Mem, u: User) {
    ValidUser(u) && u.id !in m.users && |m.users| < MAX_USERS
  }

  function AddUser(m: Mem, u: User): Mem {
    m.(users := m.users[u.id := u])
  }

  function DeleteUser(m: Mem, id: int): Mem {
    Mem(m.users - {id}, m.traffic - {id})
  }

  // Both `SetUsers` and a refresh that found a changed file.
  function ReplaceUsers(m: Mem, us: seq<User>): Mem {
    Mem(UsersOf(us), Prune(m.traffic, UsersOf(us)))
  }

  // ---- lists of users -------------------------------------------------------------

  lemma {:induction false} UsersOfFacts(us: seq<User>)
    ensures |UsersOf(us)| <= |us|
    ensures forall id :: id in UsersOf(us) ==> UsersOf(us)[id] in us && UsersOf(us)[id].id == id
    ensures forall u :: u in us ==> u.id in UsersOf(us)
  {
    if us != [] {
      var rest, u := us[..|us| - 1], us[|us| - 1];
      UsersOfFacts(rest);
      assert us == rest + [u];
      assert UsersOf(us).Keys == UsersOf(rest).Keys + {u.id};
    }
  }

  lemma {:induction false} UsersOfDistinct(us: seq<User>)
    requires forall i, j :: 0 <= i < j < |us| ==> us[i].id != us[j].id
    ensures |UsersOf(us)| == |us|
    ensures forall i :: 0 <= i < |us| ==> us[i].id in UsersOf(us) && UsersOf(us)[us[i].id] == us[i]
  {
    if us != [] {
      var rest, u := us[..|us| - 1], us[|us| - 1];
      UsersOfDistinct(rest);
      UsersOfFacts(rest);
      assert u.id !in UsersOf(rest);
      assert UsersOf(us).Keys == UsersOf(rest).Keys + {u.id};
      assert forall i :: 0 <= i < |rest| ==> rest[i] == us[i];
    }
  }

  // Every section keeps the state reachable.
  lemma AccumulateKeepsReachable(m: Mem, uid: int, up: int, down: int)
    requires Reachable(m)
    ensures Reachable(Accumulate(m, uid, up, down))
  {
  }

  lemma AddUserKeepsReachable(m: Mem, u: User)
    requires Reachable(m) && CanAdd(m, u)
    ensures Reachable(AddUser(m, u))
  {
    assert AddUser(m, u).users.Keys == m.users.Keys + {u.id};
  }

  lemma DeleteUserKeepsReachable(m: Mem, id: int)
    requires Reachable(m)
    ensures Reachable(DeleteUser(m, id))
  {
    SubsetSize(DeleteUser(m, id).users.Keys, m.users.Keys);
  }

  lemma SubsetSize<T>(a: set<T>, b: set<T>)
    requires a <= b
    ensures |a| <= |b|
  {
    assert b == a + (b - a);
  }

  lemma ReplaceUsersKeepsReachable(m: Mem, us: seq<User>)
    requires Reachable(m) && ValidList(us)
    ensures Reachable(ReplaceUsers(m, us))
  {
    UsersOfFacts(us);
  }

  // ---- users.json -------------------------------------------------------------------

  datatype UsersFile = UsersFile(version: int, users: seq<User>)

  ghost predicate ValidUsersFile(uf: UsersFile) {
    (uf.version == 0 || uf.version <= KNOWN_VERSION) && ValidList(uf.users)
  }

  ghost predicate Ascending(us: seq<User>) {
    forall i, j :: 0 <= i < j < |us| ==> us[i].id < us[j].id
  }

  // The list `SaveUsers` writes: the in-memory users in ascending id order.
  ghost predicate IsListOf(us: seq<User>, users: map<int, User>) {
    && Ascending(us)
    && (forall i :: 0 <= i < |us| ==> us[i].id in users && users[us[i].id] == us[i])
    && forall id :: id in users ==> exists i :: 0 <= i < |us| && us[i].id == id
  }

  // Loading what was saved gives back the users, and what a reachable state saves always
  // passes validation on load.
  lemma UsersRoundTrip(m: Mem, us: seq<User>)
    requires Reachable(m) && IsListOf(us, m.users)
    ensures UsersOf(us) == m.users
    ensures ValidUsersFile(UsersFile(KNOWN_VERSION, us))
  {
    UsersOfDistinct(us);
    UsersOfFacts(us);
    forall id
      ensures id in UsersOf(us) <==> id in m.users
      ensures id in m.users ==> UsersOf(us)[id] == m.users[id]
    {
      ListedUser(us, m.users, id);
    }
    SameMaps(UsersOf(us), m.users);
  }

  lemma ListedUser(us: seq<User>, users: map<int, User>, id: int)
    requires IsListOf(us, users)
    requires forall i :: 0 <= i < |us| ==> us[i].id in UsersOf(us) && UsersOf(us)[us[i].id] == us[i]
    requires forall i :: i in UsersOf(us) ==> UsersOf(us)[i] in us && UsersOf(us)[i].id == i
    ensures id in UsersOf(us) <==> id in users
    ensures id in users ==> UsersOf(us)[id] == users[id]
  {
    assert id in UsersOf(us) ==> UsersOf(us)[id] in us;
    assert forall u :: u in us ==> u.id in users;
    if id in users {
      var i :| 0 <= i < |us| && us[i].id == id;
    }
  }

  lemma SameMaps<K(!new), V>(a: map<K, V>, b: map<K, V>)
    requires forall k :: k in a <==> k in b
    requires forall k :: k in a && k in b ==> a[k] == b[k]
    ensures a == b
  {
  }

  // The saved list does not depend on the order in which the map was iterated.
  lemma {:induction false} ListIsUnique(a: seq<User>, b: seq<User>, users: map<int, User>)
    requires IsListOf(a, users) && IsListOf(b, users)
    ensures a == b
    decreases |a|
  {
    SameLast(a, b, users);
    if a != [] {
      ListWithoutLast(a, users);
      ListWithoutLast(b, users);
      ListIsUnique(a[..|a| - 1], b[..|b| - 1], users - {a[|a| - 1].id});
      assert a == a[..|a| - 1] + [a[|a| - 1]] && b == b[..|b| - 1] + [b[|b| - 1]];
    }
  }

  // Both end with the user of the greatest id.
  lemma SameLast(a: seq<User>, b: seq<User>, users: map<int, User>)
    requires IsListOf(a, users) && IsListOf(b, users)
    ensures a == [] <==> b == []
    ensures a != [] ==> a[|a| - 1] == b[|b| - 1]
  {
    if a != [] {
      AtMostLast(b, users, a[|a| - 1].id);
    }
    if b != [] {
      AtMostLast(a, users, b[|b| - 1].id);
    }
  }

  lemma AtMostLast(us: seq<User>, users: map<int, User>, id: int)
    requires IsListOf(us, users) && id in users
    ensures us != [] && id <= us[|us| - 1].id && us[|us| - 1] == users[us[|us| - 1].id]
  {
    var i :| 0 <= i < |us| && us[i].id == id;
  }

  lemma ListWithoutLast(us: seq<User>, users: map<int, User>)
    requires IsListOf(us, users) && us != []
    ensures IsListOf(us[..|us| - 1], users - {us[|us| - 1].id})
  {
    var front, last := us[..|us| - 1], us[|us| - 1];
    forall id | id in users && id != last.id
      ensures exists i :: 0 <= i < |front| && front[i].id == id
    {
      var i :| 0 <= i < |us| && us[i].id == id;
      assert front[i].id == id;
    }
  }
}
