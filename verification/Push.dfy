/**
 A traffic push as a fold of accumulations, and why the order of its entries -- the
 iteration order of a Go map -- cannot matter.
 */
module Push {
  import opened Options
  import opened Decimal
  import opened Records

  datatype Entry = Entry(uid: int, up: int, down: int)

  datatype Push = Push(mem: Mem, accepted: nat)

  function PushOne(p: Push, e: Entry): Push {
    Push(Accumulate(p.mem, e.uid, e.up, e.down),
         if Accepts(p.mem, e.uid, e.up, e.down) then p.accepted + 1 else p.accepted)
  }

  function PushAll(p: Push, es: seq<Entry>): Push {
    if es == [] then p else PushOne(PushAll(p, es[..|es| - 1]), es[|es| - 1])
  }

  function Without<T>(s: seq<T>, j: nat): seq<T>
    requires j < |s|
  {
    s[..j] + s[j + 1..]
  }

  lemma PushOneCommutes(p: Push, a: Entry, b: Entry)
    ensures PushOne(PushOne(p, a), b) == PushOne(PushOne(p, b), a)
  {
    assert PushOne(PushOne(p, a), b).mem.traffic == PushOne(PushOne(p, b), a).mem.traffic;
  }

  // Any entry may be moved to the end.
  lemma {:induction false} MoveToEnd(p: Push, es: seq<Entry>, j: nat)
    requires j < |es|
    ensures PushAll(p, es) == PushOne(PushAll(p, Without(es, j)), es[j])
    decreases |es|
  {
    var front, last := es[..|es| - 1], es[|es| - 1];
    if j == |es| - 1 {
      assert Without(es, j) == front;
    } else {
      MoveToEnd(p, front, j);
      assert Without(es, j)[..|es| - 2] == Without(front, j);
      PushOneCommutes(PushAll(p, Without(front, j)), es[j], last);
    }
  }

  lemma WithoutMultiset<T>(s: seq<T>, j: nat)
    requires j < |s|
    ensures multiset(Without(s, j)) == multiset(s) - multiset{s[j]}
  {
    assert s == s[..j] + [s[j]] + s[j + 1..];
  }

  // The traffic and the accepted count depend only on which entries the push carries.
  lemma {:induction false} PushIgnoresOrder(p: Push, a: seq<Entry>, b: seq<Entry>)
    requires multiset(a) == multiset(b)
    ensures PushAll(p, a) == PushAll(p, b)
    decreases |a|
  {
    assert |a| == |multiset(a)| == |multiset(b)| == |b|;
    if a != [] {
      var j := |a| - 1;
      assert a[j] in multiset(b);
      var k :| 0 <= k < |b| && b[k] == a[j];
      WithoutMultiset(a, j);
      WithoutMultiset(b, k);
      PushIgnoresOrder(p, Without(a, j), Without(b, k));
      MoveToEnd(p, a, j);
      MoveToEnd(p, b, k);
    }
  }

  // ---- what a push adds up to --------------------------------------------------------

  // The entries for one user that pass the sign check.
  function SumFor(es: seq<Entry>, uid: int): Traffic {
    if es == [] then Traffic(0, 0)
    else
      var e, rest := es[|es| - 1], SumFor(es[..|es| - 1], uid);
      if e.uid == uid && e.up >= 0 && e.down >= 0 then Traffic(rest.up + e.up, rest.down + e.down) else rest
  }

  function CountFor(es: seq<Entry>, users: set<int>): nat {
    if es == [] then 0
    else
      var e := es[|es| - 1];
      CountFor(es[..|es| - 1], users) + (if e.uid in users && e.up >= 0 && e.down >= 0 then 1 else 0)
  }

  // A push leaves the users alone, adds to each known user's counters exactly the sum of its
  // accepted entries, touches no other counter, and counts what it accepted.
  lemma {:induction false} PushAddsUp(p: Push, es: seq<Entry>)
    ensures PushAll(p, es).mem.users == p.mem.users
    ensures PushAll(p, es).accepted == p.accepted + CountFor(es, p.mem.users.Keys)
    ensures forall uid :: uid in p.mem.users ==>
      var t, u, s := CounterOf(PushAll(p, es).mem, uid), CounterOf(p.mem, uid), SumFor(es, uid);
      t.up == u.up + s.up && t.down == u.down + s.down
    ensures forall uid :: uid !in p.mem.users ==>
      CounterOf(PushAll(p, es).mem, uid) == CounterOf(p.mem, uid)
  {
    if es != [] {
      PushAddsUp(p, es[..|es| - 1]);
    }
  }

  // On the map itself: a user that had no counter has one exactly if an entry of it was
  // accepted, and then it holds the sum and nothing else.
  lemma {:induction false} FirstPush(p: Push, es: seq<Entry>, uid: int)
    requires uid !in p.mem.traffic
    ensures var traffic := PushAll(p, es).mem.traffic;
      && (uid in traffic <==> uid in p.mem.users && exists i :: 0 <= i < |es| && es[i].uid == uid && es[i].up >= 0 && es[i].down >= 0)
      && (uid in traffic ==> traffic[uid] == SumFor(es, uid))
  {
    if es != [] {
      var front, e := es[..|es| - 1], es[|es| - 1];
      FirstPush(p, front, uid);
      PushAddsUp(p, front);
      assert forall i :: 0 <= i < |front| ==> front[i] == es[i];
      if uid !in PushAll(p, front).mem.traffic && uid in p.mem.users {
        NothingAccepted(front, uid);
      }
    }
  }

  lemma {:induction false} NothingAccepted(es: seq<Entry>, uid: int)
    requires forall i :: 0 <= i < |es| && es[i].uid == uid ==> es[i].up < 0 || es[i].down < 0
    ensures SumFor(es, uid) == Traffic(0, 0)
  {
    if es != [] {
      NothingAccepted(es[..|es| - 1], uid);
    }
  }

  // ---- the compact payload -----------------------------------------------------------

  // One member of the payload: a pair of counters that may not decode, under an id string.
  function ParseMember(idStr: string, pair: Option<Traffic>): seq<Entry> {
    if pair.Some? && Atoi(idStr).Some? then [Entry(Atoi(idStr).value, pair.value.up, pair.value.down)] else []
  }

  function Parse(raw: map<string, Option<Traffic>>, idStr: string): seq<Entry> {
    if idStr in raw then ParseMember(idStr, raw[idStr]) else []
  }

  // A member is an entry exactly when its pair decodes and its name is a number; any other
  // member is skipped.
  lemma ParseExactly(raw: map<string, Option<Traffic>>, idStr: string)
    ensures |Parse(raw, idStr)| <= 1
    ensures Parse(raw, idStr) != [] <==> idStr in raw && raw[idStr].Some? && Atoi(idStr).Some?
    ensures Parse(raw, idStr) != [] ==>
      var e := Parse(raw, idStr)[0];
      Some(e.uid) == Atoi(idStr) && e.up == raw[idStr].value.up && e.down == raw[idStr].value.down
  {
  }

  function EntriesFor(raw: map<string, Option<Traffic>>, keys: seq<string>): seq<Entry> {
    FlatMap(key => Parse(raw, key), keys)
  }

  // `keys` lists the members of a map once each.
  ghost predicate Enumerates<K, V>(keys: seq<K>, m: map<K, V>) {
    multiset(keys) == multiset(m.Keys)
  }

  lemma EnumerateNext<K>(order: seq<K>, key: K, todo: set<K>, all: set<K>)
    requires multiset(order) + multiset(todo) == multiset(all) && key in todo
    ensures multiset(order + [key]) + multiset(todo - {key}) == multiset(all)
  {
    assert todo == (todo - {key}) + {key};
    assert multiset(todo) == multiset(todo - {key}) + multiset{key};
  }

  function FlatMap<K, E>(f: K -> seq<E>, keys: seq<K>): seq<E> {
    if keys == [] then [] else FlatMap(f, keys[..|keys| - 1]) + f(keys[|keys| - 1])
  }

  lemma {:induction false} FlatMapWithout<K, E>(f: K -> seq<E>, keys: seq<K>, j: nat)
    requires j < |keys|
    ensures multiset(FlatMap(f, keys)) == multiset(FlatMap(f, Without(keys, j))) + multiset(f(keys[j]))
    decreases |keys|
  {
    var last := |keys| - 1;
    var front := keys[..last];
    if j == last {
      assert Without(keys, j) == front;
    } else {
      var shorter := Without(keys, j);
      FlatMapWithout(f, front, j);
      assert shorter[..last - 1] == Without(front, j) && shorter[last - 1] == keys[last];
    }
  }

  lemma {:induction false} FlatMapIgnoresOrder<K, E>(f: K -> seq<E>, a: seq<K>, b: seq<K>)
    requires multiset(a) == multiset(b)
    ensures multiset(FlatMap(f, a)) == multiset(FlatMap(f, b))
    decreases |a|
  {
    assert |a| == |multiset(a)| == |multiset(b)| == |b|;
    if a != [] {
      var j := |a| - 1;
      assert a[j] in multiset(b);
      var k :| 0 <= k < |b| && b[k] == a[j];
      WithoutMultiset(a, j);
      WithoutMultiset(b, k);
      FlatMapIgnoresOrder(f, Without(a, j), Without(b, k));
      FlatMapWithout(f, a, j);
      FlatMapWithout(f, b, k);
    }
  }

  lemma EntriesAppend(raw: map<string, Option<Traffic>>, done: seq<string>, key: string)
    ensures EntriesFor(raw, done + [key]) == EntriesFor(raw, done) + Parse(raw, key)
  {
    assert (done + [key])[..|done|] == done;
  }

  lemma PushNextKey(p: Push, raw: map<string, Option<Traffic>>, done: seq<string>, key: string)
    ensures var before, e := PushAll(p, EntriesFor(raw, done)), Parse(raw, key);
      PushAll(p, EntriesFor(raw, done + [key])) == if e == [] then before else PushOne(before, e[0])
  {
    var f := key => Parse(raw, key);
    assert (done + [key])[..|done|] == done;
    var es, e := FlatMap(f, done), f(key);
    assert e == [] ==> es + e == es;
    assert e != [] ==> (es + e)[..|es|] == es;
  }

  // Whatever order the compact map is iterated in, and in whatever order the array form
  // lists the same entries, the outcome is the same.
  lemma CompactEqualsArray(p: Push, raw: map<string, Option<Traffic>>, a: seq<string>, b: seq<string>, es: seq<Entry>)
    requires Enumerates(a, raw) && Enumerates(b, raw)
    requires multiset(es) == multiset(EntriesFor(raw, a))
    ensures PushAll(p, EntriesFor(raw, a)) == PushAll(p, EntriesFor(raw, b)) == PushAll(p, es)
  {
    FlatMapIgnoresOrder(key => Parse(raw, key), a, b);
    PushIgnoresOrder(p, EntriesFor(raw, a), EntriesFor(raw, b));
    PushIgnoresOrder(p, EntriesFor(raw, a), es);
  }
}
