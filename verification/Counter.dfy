/**
 Byte counters: a storage per inbound and user, which connections count into and the syncer
 snapshots, commits and removes. These are the operations run one at a time; SyncMachine
 interleaves their single loads and stores.
 */
module Counters {
  import opened MapRange
  import opened Sums

  class TrafficStorage {
    var up: int
    var down: int
    var committedUp: int
    var committedDown: int

    constructor ()
      ensures up == 0 && down == 0 && committedUp == 0 && committedDown == 0
    {
      up, down, committedUp, committedDown := 0, 0, 0, 0;
    }

    function Pending(): Bytes
      reads this
    {
      Bytes(up - committedUp, down - committedDown)
    }

    predicate Settled()
      reads this
    {
      up == committedUp && down == committedDown
    }
  }

  // One counter: the users of one inbound.
  class TrafficCounter {
    var counters: map<string, TrafficStorage>

    ghost predicate Valid()
      reads this
    {
      forall a, b :: a in counters && b in counters && a != b ==> counters[a] != counters[b]
    }

    constructor ()
      ensures Valid() && counters == map[]
    {
      counters := map[];
    }

    // The same user gets the same storage as long as it is not removed.
    method GetCounter(user: string) returns (s: TrafficStorage)
      requires Valid()
      modifies this
      ensures Valid() && user in counters && counters[user] == s
      ensures user in old(counters) ==> counters == old(counters)
      ensures user !in old(counters) ==> counters == old(counters)[user := s] && fresh(s)
      ensures user !in old(counters) ==> s.up == s.down == s.committedUp == s.committedDown == 0
    {
      if user in counters {
        return counters[user];
      }
      s := new TrafficStorage();
      counters := counters[user := s];
    }

    ghost predicate IsPending(user: string)
      reads this, counters.Values
    {
      user in counters && (counters[user].Pending().up > 0 || counters[user].Pending().down > 0)
    }

    // Every user with something pending, and nothing else.
    ghost predicate IsDelta(delta: map<string, Bytes>)
      reads this, counters.Values
    {
      && (forall user :: user in delta <==> IsPending(user))
      && forall user :: user in delta ==> delta[user] == counters[user].Pending()
    }

    method SnapshotDelta() returns (delta: map<string, Bytes>)
      ensures IsDelta(delta)
      ensures forall user :: user in delta <==>
        user in counters && (counters[user].up > counters[user].committedUp || counters[user].down > counters[user].committedDown)
      ensures forall user :: user in delta ==>
        && delta[user].up == counters[user].up - counters[user].committedUp
        && delta[user].down == counters[user].down - counters[user].committedDown
    {
      delta := map[];
      var todo := counters.Keys;
      while todo != {}
        invariant todo <= counters.Keys
        invariant forall user :: user in delta <==> user !in todo && IsPending(user)
        invariant forall user :: user in delta ==> delta[user] == counters[user].Pending()
        decreases |todo|
      {
        var user := Pick(todo);
        todo := todo - {user};
        var s := counters[user];
        var up, down := s.up - s.committedUp, s.down - s.committedDown;
        if up > 0 || down > 0 {
          delta := delta[user := Bytes(up, down)];
        }
      }
    }

    method CommitSnapshot(snapshot: map<string, Bytes>)
      requires Valid()
      modifies counters.Values`committedUp, counters.Values`committedDown
      ensures forall user :: user in counters ==>
        && counters[user].committedUp == old(counters[user].committedUp) + Lookup(snapshot, user).up
        && counters[user].committedDown == old(counters[user].committedDown) + Lookup(snapshot, user).down
    {
      var todo := snapshot.Keys;
      while todo != {}
        invariant todo <= snapshot.Keys
        invariant forall user :: user in counters ==>
          (&& counters[user].committedUp
              == old(counters[user].committedUp) + (if user in todo then 0 else Lookup(snapshot, user).up)
           && counters[user].committedDown
              == old(counters[user].committedDown) + (if user in todo then 0 else Lookup(snapshot, user).down))
        decreases |todo|
      {
        var user := Pick(todo);
        todo := todo - {user};
        if user in counters {
          var s := counters[user];
          assert s in counters.Values;
          s.committedUp := s.committedUp + snapshot[user].up;
          s.committedDown := s.committedDown + snapshot[user].down;
        }
      }
    }

    // Exactly the absent users with nothing pending go.
    method RemoveAbsent(active: set<string>)
      requires Valid()
      modifies this
      ensures Valid()
      ensures forall user :: user in counters <==>
        user in old(counters) && (user in active || !old(counters[user].Settled()))
      ensures forall user :: user in counters <==>
        user in old(counters) && (user in active || old(counters)[user].up != old(counters)[user].committedUp
                                  || old(counters)[user].down != old(counters)[user].committedDown)
      ensures forall user :: user in counters ==> counters[user] == old(counters[user])
    {
      var todo := counters.Keys;
      while todo != {}
        invariant Valid() && todo <= old(counters).Keys
        invariant forall user :: user in counters <==>
          user in old(counters) && (user in todo || user in active || !old(counters[user].Settled()))
        invariant forall user :: user in counters ==> counters[user] == old(counters[user])
        decreases |todo|
      {
        var user := Pick(todo);
        todo := todo - {user};
        if user !in active {
          var s := counters[user];
          if s.up == s.committedUp && s.down == s.committedDown {
            counters := counters - {user};
          }
        }
      }
    }
  }
}
