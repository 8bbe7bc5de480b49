/** All inbounds' counters behind one hook, and the syncer's flush over them. */
module Hooks {
  import opened MapRange
  import opened Decimal
  import opened Sums
  import opened Panel
  import opened Counters

  class Hook {
    var byInbound: map<string, TrafficCounter>

    ghost predicate Valid()
      reads this, byInbound.Values
    {
      && (forall tag :: tag in byInbound ==> byInbound[tag].Valid())
      && (forall a, b :: a in byInbound && b in byInbound && a != b ==> byInbound[a] != byInbound[b])
      && forall a, b, x, y ::
        (a in byInbound && b in byInbound && a != b && x in byInbound[a].counters && y in byInbound[b].counters) ==>
        byInbound[a].counters[x] != byInbound[b].counters[y]
    }

    ghost predicate Has(tag: string, user: string)
      reads this, byInbound.Values
    {
      tag in byInbound && user in byInbound[tag].counters
    }

    ghost function StorageOf(tag: string, user: string): TrafficStorage
      requires Has(tag, user)
      reads this, byInbound.Values
    {
      byInbound[tag].counters[user]
    }

    ghost function Storages(): set<TrafficStorage>
      reads this, byInbound.Values
    {
      set tag, user | tag in byInbound && user in byInbound[tag].counters :: byInbound[tag].counters[user]
    }

    constructor ()
      ensures Valid() && byInbound == map[]
    {
      byInbound := map[];
    }

    // The counter of an inbound; the untagged one is called "default".
    method Tc(tag: string) returns (c: TrafficCounter)
      requires Valid()
      modifies this
      ensures Valid()
      ensures var name := if tag == "" then "default" else tag;
        && name in byInbound && byInbound[name] == c
        && (name in old(byInbound) ==> byInbound == old(byInbound))
        && (name !in old(byInbound) ==> byInbound == old(byInbound)[name := c] && fresh(c) && c.counters == map[])
    {
      var name := if tag == "" then "default" else tag;
      if name in byInbound {
        return byInbound[name];
      }
      c := new TrafficCounter();
      byInbound := byInbound[name := c];
    }

    // Exactly what is pending, per inbound and user; inbounds with nothing pending are left out.
    ghost predicate IsDelta(delta: Delta)
      reads this, byInbound.Values, Storages()
    {
      && (forall tag :: tag in delta ==> tag in byInbound && delta[tag] != map[])
      && forall tag :: tag in byInbound ==> byInbound[tag].IsDelta(if tag in delta then delta[tag] else map[])
    }

    method SnapshotDelta() returns (delta: Delta)
      ensures IsDelta(delta)
    {
      delta := map[];
      var todo := byInbound.Keys;
      while todo != {}
        invariant todo <= byInbound.Keys
        invariant forall tag :: tag in delta ==> tag in byInbound && tag !in todo && delta[tag] != map[]
        invariant forall tag :: tag in byInbound && tag !in todo ==>
          byInbound[tag].IsDelta(if tag in delta then delta[tag] else map[])
        decreases |todo|
      {
        var tag := Pick(todo);
        todo := todo - {tag};
        var users := byInbound[tag].SnapshotDelta();
        if users != map[] {
          delta := delta[tag := users];
        }
      }
    }

    method CommitSnapshot(snapshot: Delta)
      requires Valid()
      modifies Storages()`committedUp, Storages()`committedDown
      ensures forall tag, user :: Has(tag, user) ==>
        (&& StorageOf(tag, user).committedUp == old(StorageOf(tag, user).committedUp) + Get(snapshot, tag, user).up
         && StorageOf(tag, user).committedDown == old(StorageOf(tag, user).committedDown) + Get(snapshot, tag, user).down)
    {
      var todo := snapshot.Keys;
      while todo != {}
        invariant todo <= snapshot.Keys
        invariant forall tag, user :: Has(tag, user) ==>
          (&& StorageOf(tag, user).committedUp == old(StorageOf(tag, user).committedUp)
                + (if tag in todo then 0 else Get(snapshot, tag, user).up)
           && StorageOf(tag, user).committedDown == old(StorageOf(tag, user).committedDown)
                + (if tag in todo then 0 else Get(snapshot, tag, user).down))
        decreases |todo|
      {
        var tag := Pick(todo);
        todo := todo - {tag};
        if tag in byInbound {
          CommitInbound(tag, snapshot[tag]);
        }
      }
    }

    method CommitInbound(tag: string, users: map<string, Bytes>)
      requires Valid() && tag in byInbound
      modifies Storages()`committedUp, Storages()`committedDown
      ensures forall other, user :: Has(other, user) ==>
        (&& StorageOf(other, user).committedUp == old(StorageOf(other, user).committedUp)
              + (if other == tag then Lookup(users, user).up else 0)
         && StorageOf(other, user).committedDown == old(StorageOf(other, user).committedDown)
              + (if other == tag then Lookup(users, user).down else 0))
    {
      assert forall user :: user in byInbound[tag].counters ==> StorageOf(tag, user) in Storages();
      byInbound[tag].CommitSnapshot(users);
    }

    method RemoveAbsent(active: set<string>)
      requires Valid()
      modifies byInbound.Values
      ensures Valid()
      ensures forall tag, user :: Has(tag, user) <==>
        old(Has(tag, user)) && (user in active || !old(StorageOf(tag, user).Settled()))
      ensures forall tag, user :: Has(tag, user) ==> StorageOf(tag, user) == old(StorageOf(tag, user))
    {
      var todo := byInbound.Keys;
      while todo != {}
        invariant todo <= byInbound.Keys && Valid()
        invariant forall tag, user :: Has(tag, user) <==>
          old(Has(tag, user)) && (tag in todo || user in active || !old(StorageOf(tag, user).Settled()))
        invariant forall tag, user :: Has(tag, user) ==> StorageOf(tag, user) == old(StorageOf(tag, user))
        decreases |todo|
      {
        var tag := Pick(todo);
        todo := todo - {tag};
        RemoveInbound(tag, active);
      }
    }

    method RemoveInbound(tag: string, active: set<string>)
      requires Valid() && tag in byInbound
      modifies byInbound.Values
      ensures Valid()
      ensures forall other, user :: Has(other, user) <==>
        old(Has(other, user)) && (other != tag || user in active || !old(StorageOf(other, user).Settled()))
      ensures forall other, user :: Has(other, user) ==> StorageOf(other, user) == old(StorageOf(other, user))
    {
      assert byInbound[tag] in byInbound.Values;
      byInbound[tag].RemoveAbsent(active);
    }

    // What is committed is all that is pending of the numeric users.
    lemma CommitIsPending(delta: Delta, commit: Delta)
      requires IsDelta(delta) && IsCommit(delta, commit)
      ensures forall tag, user :: Has(tag, user) ==>
        var s, all := StorageOf(tag, user), Numeric(user) && byInbound[tag].IsPending(user);
        && Get(commit, tag, user).up == (if all then s.up - s.committedUp else 0)
        && Get(commit, tag, user).down == (if all then s.down - s.committedDown else 0)
    {
      forall tag, user | Has(tag, user)
        ensures var s, all := StorageOf(tag, user), Numeric(user) && byInbound[tag].IsPending(user);
          && Get(commit, tag, user).up == (if all then s.up - s.committedUp else 0)
          && Get(commit, tag, user).down == (if all then s.down - s.committedDown else 0)
      {
        CommitGets(delta, commit, tag, user);
        assert byInbound[tag].IsDelta(if tag in delta then delta[tag] else map[]);
      }
    }

    // Committing a snapshot with nothing counted since: every numeric user in it has nothing
    // pending any more, and nothing changes for the others.
    method CommitNumeric(delta: Delta)
      requires Valid() && IsDelta(delta)
      modifies Storages()`committedUp, Storages()`committedDown
      ensures forall tag, user :: Has(tag, user) ==>
        var s, all := StorageOf(tag, user), Numeric(user) && old(byInbound[tag].IsPending(user));
        && s.committedUp == (if all then s.up else old(s.committedUp))
        && s.committedDown == (if all then s.down else old(s.committedDown))
    {
      var commit := PendingCommit(delta);
      CommitSnapshot(commit);
    }

    method PendingCommit(delta: Delta) returns (commit: Delta)
      requires IsDelta(delta)
      ensures forall tag, user :: Has(tag, user) ==>
        var s, all := StorageOf(tag, user), Numeric(user) && byInbound[tag].IsPending(user);
        && Get(commit, tag, user).up == (if all then s.up - s.committedUp else 0)
        && Get(commit, tag, user).down == (if all then s.down - s.committedDown else 0)
    {
      commit := CommitDelta(delta);
      CommitIsPending(delta, commit);
    }

    ghost predicate NumericPending()
      reads this, byInbound.Values, Storages()
    {
      exists tag, user :: tag in byInbound && byInbound[tag].IsPending(user) && Numeric(user)
    }

    method SnapshotTraffic() returns (delta: Delta, traffic: bool)
      ensures IsDelta(delta) && (traffic <==> NumericPending())
    {
      delta := SnapshotDelta();
      PendingInDelta(delta);
      traffic := HasNumericUser(delta);
    }

    // A flush pushes unless no numeric user has anything pending. It commits all of what the
    // panels accepted, or else nothing at all.
    method Flush(accepted: bool) returns (pushed: bool)
      requires Valid()
      modifies Storages()`committedUp, Storages()`committedDown
      ensures pushed <==> old(NumericPending())
      ensures pushed && accepted ==> forall tag, user :: Has(tag, user) ==>
        var s, all := StorageOf(tag, user), Numeric(user) && old(byInbound[tag].IsPending(user));
        && s.committedUp == (if all then s.up else old(s.committedUp))
        && s.committedDown == (if all then s.down else old(s.committedDown))
      ensures !pushed || !accepted ==> forall tag, user :: Has(tag, user) ==>
        && StorageOf(tag, user).committedUp == old(StorageOf(tag, user).committedUp)
        && StorageOf(tag, user).committedDown == old(StorageOf(tag, user).committedDown)
    {
      var delta;
      delta, pushed := SnapshotTraffic();
      if pushed && accepted {
        CommitNumeric(delta);
      }
    }

    lemma PendingInDelta(delta: Delta)
      requires IsDelta(delta)
      ensures forall tag, user :: tag in delta && user in delta[tag] <==> tag in byInbound && byInbound[tag].IsPending(user)
    {
      forall tag, user
        ensures (tag in delta && user in delta[tag]) <==> tag in byInbound && byInbound[tag].IsPending(user)
      {
        if tag in byInbound {
          assert byInbound[tag].IsDelta(if tag in delta then delta[tag] else map[]);
        }
      }
    }
  }

  method HasNumericUser(delta: Delta) returns (found: bool)
    ensures found <==> exists tag, user :: tag in delta && user in delta[tag] && Numeric(user)
  {
    var todo := delta.Keys;
    while todo != {}
      invariant todo <= delta.Keys
      invariant forall tag, user :: tag in delta && tag !in todo && user in delta[tag] ==> !Numeric(user)
      decreases |todo|
    {
      var tag := Pick(todo);
      todo := todo - {tag};
      var users := delta[tag].Keys;
      while users != {}
        invariant users <= delta[tag].Keys
        invariant forall user :: user in delta[tag] && user !in users ==> !Numeric(user)
        decreases |users|
      {
        var user := Pick(users);
        users := users - {user};
        var numeric := IsNumericUser(user);
        if numeric {
          return true;
        }
      }
    }
    return false;
  }

  ghost predicate IsNumericRow(users: map<string, Bytes>, row: map<string, Bytes>) {
    && (forall user :: user in row <==> user in users && Numeric(user))
    && forall user :: user in row ==> row[user] == users[user]
  }

  // The numeric users of a delta; inbounds without one are left out.
  ghost predicate IsCommit(delta: Delta, out: Delta) {
    && (forall tag :: tag in out ==> tag in delta && out[tag] != map[])
    && forall tag :: tag in delta ==> IsNumericRow(delta[tag], if tag in out then out[tag] else map[])
  }

  method CommitDelta(delta: Delta) returns (out: Delta)
    ensures IsCommit(delta, out)
  {
    out := map[];
    var todo := delta.Keys;
    while todo != {}
      invariant todo <= delta.Keys
      invariant forall tag :: tag in out ==> tag in delta && tag !in todo && out[tag] != map[]
      invariant forall tag :: tag in delta && tag !in todo ==> IsNumericRow(delta[tag], if tag in out then out[tag] else map[])
      decreases |todo|
    {
      var tag := Pick(todo);
      todo := todo - {tag};
      var row := NumericRow(delta[tag]);
      if row != map[] {
        out := out[tag := row];
      }
    }
  }

  method NumericRow(users: map<string, Bytes>) returns (row: map<string, Bytes>)
    ensures IsNumericRow(users, row)
  {
    row := map[];
    var todo := users.Keys;
    while todo != {}
      invariant todo <= users.Keys
      invariant forall user :: user in row <==> user in users && user !in todo && Numeric(user)
      invariant forall user :: user in row ==> row[user] == users[user]
      decreases |todo|
    {
      var user := Pick(todo);
      todo := todo - {user};
      var numeric := IsNumericUser(user);
      if numeric {
        row := row[user := users[user]];
      }
    }
  }

  lemma CommitGets(delta: Delta, out: Delta, tag: string, user: string)
    requires IsCommit(delta, out)
    ensures Get(out, tag, user) == if Numeric(user) then Get(delta, tag, user) else ZERO
  {
    if tag in delta {
      assert IsNumericRow(delta[tag], if tag in out then out[tag] else map[]);
    }
  }
}
