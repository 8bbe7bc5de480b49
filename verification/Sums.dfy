/** Byte counts in two directions, and their sums over finite sets in any order. */
module Sums {
  datatype Bytes = Bytes(up: int, down: int) {
    function Plus(b: Bytes): Bytes {
      Bytes(up + b.up, down + b.down)
    }

    function Minus(b: Bytes): Bytes {
      Bytes(up - b.up, down - b.down)
    }

    // Added up n times.
    function Times(n: nat): Bytes {
      if n == 0 then ZERO else Times(n - 1).Plus(this)
    }

    predicate AtLeast(b: Bytes) {
      up >= b.up && down >= b.down
    }
  }

  const ZERO := Bytes(0, 0)

  function Lookup<K>(m: map<K, Bytes>, k: K): Bytes {
    if k in m then m[k] else ZERO
  }

  // The counts of the keys in s, added up; a key that is not in m counts nothing.
  ghost function Sum<K(!new)>(s: set<K>, m: map<K, Bytes>): Bytes {
    if s == {} then ZERO else Lookup(m, AnElement(s)).Plus(Sum(s - {AnElement(s)}, m))
  }

  ghost function AnElement<K(!new)>(s: set<K>): (k: K)
    requires s != {}
    ensures k in s
  {
    var k :| k in s; k
  }

  // Any element may be taken out first.
  lemma {:induction false} SumRemove<K(!new)>(s: set<K>, m: map<K, Bytes>, k: K)
    requires k in s
    ensures Sum(s, m) == Lookup(m, k).Plus(Sum(s - {k}, m))
    decreases |s|
  {
    var c := AnElement(s);
    if c != k {
      SumRemove(s - {c}, m, k);
      SumRemove(s - {k}, m, c);
      WithoutBoth(s, c, k);
      Exchange(Lookup(m, c), Lookup(m, k), Sum(s - {c} - {k}, m));
    }
  }

  lemma WithoutBoth<K>(s: set<K>, c: K, k: K)
    ensures s - {c} - {k} == s - {k} - {c}
  {
  }

  lemma Exchange(a: Bytes, b: Bytes, c: Bytes)
    ensures a.Plus(b.Plus(c)) == b.Plus(a.Plus(c))
  {
  }

  lemma SumInsert<K(!new)>(s: set<K>, m: map<K, Bytes>, k: K)
    requires k !in s
    ensures Sum(s + {k}, m) == Lookup(m, k).Plus(Sum(s, m))
  {
    SumRemove(s + {k}, m, k);
    assert s + {k} - {k} == s;
  }

  lemma {:induction false} SumPlus<K(!new)>(s: set<K>, a: map<K, Bytes>, b: map<K, Bytes>, c: map<K, Bytes>)
    requires forall k :: k in s ==> Lookup(c, k) == Lookup(a, k).Plus(Lookup(b, k))
    ensures Sum(s, c) == Sum(s, a).Plus(Sum(s, b))
    decreases |s|
  {
    if s != {} {
      var k := AnElement(s);
      SumPlus(s - {k}, a, b, c);
      Regroup(Lookup(a, k), Lookup(b, k), Sum(s - {k}, a), Sum(s - {k}, b));
    }
  }

  lemma Regroup(a: Bytes, b: Bytes, c: Bytes, d: Bytes)
    ensures a.Plus(b).Plus(c.Plus(d)) == a.Plus(c).Plus(b.Plus(d))
  {
  }

  lemma {:induction false} SumEqual<K(!new)>(s: set<K>, a: map<K, Bytes>, b: map<K, Bytes>)
    requires forall k :: k in s ==> Lookup(a, k) == Lookup(b, k)
    ensures Sum(s, a) == Sum(s, b)
    decreases |s|
  {
    if s != {} {
      var k := AnElement(s);
      SumRemove(s, a, k);
      SumRemove(s, b, k);
      SumEqual(s - {k}, a, b);
    }
  }

  lemma {:induction false} SumZero<K(!new)>(s: set<K>, m: map<K, Bytes>)
    requires forall k :: k in s ==> Lookup(m, k) == ZERO
    ensures Sum(s, m) == ZERO
    decreases |s|
  {
    if s != {} {
      var k := AnElement(s);
      SumRemove(s, m, k);
      SumZero(s - {k}, m);
    }
  }

  // ---- sums over several selections of the keys ------------------------------------------

  // How many selections contain a key.
  function CountOf<K>(selections: seq<set<K>>, k: K): nat {
    if selections == [] then 0
    else CountOf(selections[1..], k) + (if k in selections[0] then 1 else 0)
  }

  // The sums over the selections, added up.
  ghost function SumOfSums<K(!new)>(selections: seq<set<K>>, m: map<K, Bytes>): Bytes {
    if selections == [] then ZERO
    else SumOfSums(selections[1..], m).Plus(Sum(selections[0], m))
  }

  // Keys outside the selection count nothing.
  lemma {:induction false} SumSelection<K(!new)>(selection: set<K>, all: set<K>, m: map<K, Bytes>, only: map<K, Bytes>)
    requires selection <= all
    requires forall k :: k in all ==> Lookup(only, k) == if k in selection then Lookup(m, k) else ZERO
    ensures Sum(selection, m) == Sum(all, only)
    decreases |all|
  {
    if k :| k in all && k !in selection {
      SumSelection(selection, all - {k}, m, only);
      SumRemove(all, only, k);
    } else {
      assert selection == all;
      SumEqual(all, m, only);
    }
  }

  // What each key counts over all selections together.
  function Weighted<K>(selections: seq<set<K>>, all: set<K>, m: map<K, Bytes>): map<K, Bytes> {
    if selections == [] then map[]
    else
      var rest := Weighted(selections[1..], all, m);
      map k | k in all :: Lookup(rest, k).Plus(if k in selections[0] then Lookup(m, k) else ZERO)
  }

  // A key counts as often as it is selected.
  lemma {:induction false} WeightIsCount<K>(selections: seq<set<K>>, all: set<K>, m: map<K, Bytes>, k: K)
    requires k in all
    ensures Lookup(Weighted(selections, all, m), k) == Lookup(m, k).Times(CountOf(selections, k))
  {
    if selections != [] {
      WeightIsCount(selections[1..], all, m, k);
      TimesMore(Lookup(m, k), CountOf(selections[1..], k), k in selections[0]);
    }
  }

  lemma TimesMore(b: Bytes, n: nat, again: bool)
    ensures b.Times(n + (if again then 1 else 0)) == b.Times(n).Plus(if again then b else ZERO)
  {
    if again {
      assert b.Times(n + 1) == b.Times(n).Plus(b);
    } else {
      PlusNothing(b.Times(n));
    }
  }

  lemma PlusNothing(b: Bytes)
    ensures b.Plus(ZERO) == b
  {
  }

  lemma {:induction false} TimesIsProduct(b: Bytes, n: nat)
    ensures b.Times(n).up == n * b.up && b.Times(n).down == n * b.down
  {
    if n > 0 {
      TimesIsProduct(b, n - 1);
    }
  }

  lemma {:induction false} SumOfSumsIsWeighted<K(!new)>(selections: seq<set<K>>, all: set<K>, m: map<K, Bytes>)
    requires forall i :: 0 <= i < |selections| ==> selections[i] <= all
    ensures SumOfSums(selections, m) == Sum(all, Weighted(selections, all, m))
  {
    if selections == [] {
      SumZero(all, Weighted(selections, all, m));
    } else {
      SumOfSumsIsWeighted(selections[1..], all, m);
      OneMoreSelection(selections[0], all, m, Weighted(selections[1..], all, m), Weighted(selections, all, m));
    }
  }

  lemma OneMoreSelection<K(!new)>(selection: set<K>, all: set<K>, m: map<K, Bytes>,
                                  before: map<K, Bytes>, after: map<K, Bytes>)
    requires selection <= all
    requires forall k :: k in all ==>
      Lookup(after, k) == Lookup(before, k).Plus(if k in selection then Lookup(m, k) else ZERO)
    ensures Sum(all, after) == Sum(all, before).Plus(Sum(selection, m))
  {
    var only := map k | k in all :: if k in selection then Lookup(m, k) else ZERO;
    SumSelection(selection, all, m, only);
    SumPlus(all, before, only, after);
  }
}
