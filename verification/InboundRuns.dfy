/** An inbound's table over whole runs of ApplyBox calls, some of which fail half-way. */
module InboundRuns {
  import opened UserDiff

  // The users last applied, and one inbound's table.
  datatype TableStage = TableStage(users: Users, table: Table)

  ghost predicate TableApplied(kind: Kind, before: TableStage, call: Call, after: TableStage) {
    if call.failed then
      after.users == before.users && IsPartial(kind, before.users, call.next, before.table, after.table)
    else
      after.users == call.next && IsDiff(kind, before.users, call.next, before.table, after.table)
  }

  ghost predicate AppliedAt(kind: Kind, stages: seq<TableStage>, calls: seq<Call>, i: int) {
    0 <= i < |calls| && i + 1 < |stages| ==> TableApplied(kind, stages[i], calls[i], stages[i + 1])
  }

  ghost predicate IsTableRun(kind: Kind, stages: seq<TableStage>, calls: seq<Call>) {
    |stages| == |calls| + 1 && forall i :: AppliedAt(kind, stages, calls, i)
  }

  // Whether a key may be wrong after the first j calls: a failed call may leave a key wrong
  // that it harms; a successful one rights the keys it adds, wrongs the secrets it drops
  // although they are held, rights those it deletes otherwise, and leaves the rest as they are.
  ghost predicate MayBeWrong(kind: Kind, stages: seq<TableStage>, calls: seq<Call>, j: nat, key: string)
    requires j <= |calls| && |stages| == |calls| + 1
  {
    j > 0
    && var users, call, before := stages[j - 1].users, calls[j - 1], MayBeWrong(kind, stages, calls, j - 1, key);
       if call.failed then before || Harms(kind, users, call.next, key)
       else if Adds(kind, users, call.next, key) then false
       else if Deletes(kind, users, call.next, key) then Held(kind, call.next, key)
       else before
  }

  // Over any run, whatever the failed calls did: a key that cannot be wrong is right.
  lemma {:induction false} RightUnlessDisturbed(kind: Kind, stages: seq<TableStage>, calls: seq<Call>, j: nat, key: string)
    requires IsTableRun(kind, stages, calls) && j <= |calls| && RightAt(kind, stages[0].users, stages[0].table, key)
    requires !MayBeWrong(kind, stages, calls, j, key)
    ensures RightAt(kind, stages[j].users, stages[j].table, key)
  {
    if j > 0 {
      var before, call, after := stages[j - 1], calls[j - 1], stages[j];
      assert AppliedAt(kind, stages, calls, j - 1);
      if call.failed {
        RightUnlessDisturbed(kind, stages, calls, j - 1, key);
        assert PartialAt(kind, before.users, call.next, before.table, after.table, key);
        UnharmedStaysRight(kind, before.users, call.next, before.table, after.table, key);
      } else {
        assert DiffAt(kind, before.users, call.next, before.table, after.table, key);
        RightAfter(kind, before.users, call.next, before.table, after.table, key);
        if !Touches(kind, before.users, call.next, key) {
          RightUnlessDisturbed(kind, stages, calls, j - 1, key);
        }
      }
    }
  }

  // Over an error-free run it is right exactly then: only a dropped secret goes wrong, and
  // only until some list adds the key again, or deletes it with nobody left to hold it.
  lemma {:induction false} ErrorFreeRunIsExact(kind: Kind, stages: seq<TableStage>, calls: seq<Call>, j: nat, key: string)
    requires IsTableRun(kind, stages, calls) && j <= |calls| && RightAt(kind, stages[0].users, stages[0].table, key)
    requires forall i :: 0 <= i < j ==> !calls[i].failed
    ensures RightAt(kind, stages[j].users, stages[j].table, key) <==> !MayBeWrong(kind, stages, calls, j, key)
  {
    if j > 0 {
      var before, call, after := stages[j - 1], calls[j - 1], stages[j];
      ErrorFreeRunIsExact(kind, stages, calls, j - 1, key);
      assert AppliedAt(kind, stages, calls, j - 1);
      assert DiffAt(kind, before.users, call.next, before.table, after.table, key);
      RightAfter(kind, before.users, call.next, before.table, after.table, key);
    }
  }

  // As long as no call fails and no list but the last has two users with the same secret, the
  // inbound is after every call what a rebuild from that call's list would make it.
  lemma {:induction false} ErrorFreeRunIsRebuild(kind: Kind, stages: seq<TableStage>, calls: seq<Call>, j: nat)
    requires IsTableRun(kind, stages, calls) && j <= |calls| && IsTableOf(kind, stages[0].users, stages[0].table)
    requires forall i :: 0 <= i < j ==> !calls[i].failed && UniqueSecrets(kind, stages[i].users)
    ensures IsTableOf(kind, stages[j].users, stages[j].table)
  {
    if j > 0 {
      ErrorFreeRunIsRebuild(kind, stages, calls, j - 1);
      assert AppliedAt(kind, stages, calls, j - 1);
      UniqueSecretsSuffice(kind, stages[j - 1].users, calls[j - 1].next, stages[j - 1].table, stages[j].table);
    }
  }

  // After any number of failed calls from a right table, the next successful one makes the
  // table right again if it drops nothing and touches every key the failed calls could harm.
  lemma SuccessRepairs(kind: Kind, stages: seq<TableStage>, calls: seq<Call>)
    requires IsTableRun(kind, stages, calls) && calls != [] && IsTableOf(kind, stages[0].users, stages[0].table)
    requires var n := |calls| - 1;
      && !calls[n].failed && (forall i :: 0 <= i < n ==> calls[i].failed)
      && !DropsKeptSecret(kind, stages[0].users, calls[n].next)
      && forall i, key :: 0 <= i < n && Harms(kind, stages[0].users, calls[i].next, key) ==>
           Touches(kind, stages[0].users, calls[n].next, key)
    ensures IsTableOf(kind, stages[|calls|].users, stages[|calls|].table)
  {
    var n := |calls| - 1;
    FailuresKeepUsers(kind, stages, calls, n);
    forall key
      ensures RightAt(kind, stages[|calls|].users, stages[|calls|].table, key)
    {
      assert RightAt(kind, stages[0].users, stages[0].table, key);
      assert !DropsAt(kind, stages[0].users, calls[n].next, key);
      if !Touches(kind, stages[0].users, calls[n].next, key) {
        UnharmedByFailures(kind, stages, calls, n, key);
      }
      RightUnlessDisturbed(kind, stages, calls, |calls|, key);
    }
  }

  // A secret on the inbound that no user holds -- as a failed call can leave it -- stays there
  // over every run, failures included, until some list names a user with it.
  lemma {:induction false} StrandedStays(kind: Kind, stages: seq<TableStage>, calls: seq<Call>, j: nat, key: string)
    requires IsTableRun(kind, stages, calls) && j <= |calls|
    requires key in stages[0].table && key != "" && !Held(kind, stages[0].users, key)
    requires forall i :: 0 <= i < j ==> !Held(kind, calls[i].next, key)
    ensures key in stages[j].table && !Held(kind, stages[j].users, key)
    ensures stages[j].table[key] == stages[0].table[key]
  {
    if j > 0 {
      StrandedStays(kind, stages, calls, j - 1, key);
      assert AppliedAt(kind, stages, calls, j - 1);
      StrandedStep(kind, stages[j - 1], calls[j - 1], stages[j], key);
    }
  }

  lemma StrandedStep(kind: Kind, before: TableStage, call: Call, after: TableStage, key: string)
    requires TableApplied(kind, before, call, after) && key in before.table && key != ""
    requires !Held(kind, before.users, key) && !Held(kind, call.next, key)
    ensures key in after.table && after.table[key] == before.table[key] && !Held(kind, after.users, key)
  {
    assert !Deletes(kind, before.users, call.next, key) && !Adds(kind, before.users, call.next, key);
    if call.failed {
      assert PartialAt(kind, before.users, call.next, before.table, after.table, key);
    } else {
      assert DiffAt(kind, before.users, call.next, before.table, after.table, key);
    }
  }

  lemma {:induction false} FailuresKeepUsers(kind: Kind, stages: seq<TableStage>, calls: seq<Call>, j: nat)
    requires IsTableRun(kind, stages, calls) && j <= |calls| && forall i :: 0 <= i < j ==> calls[i].failed
    ensures stages[j].users == stages[0].users
  {
    if j > 0 {
      FailuresKeepUsers(kind, stages, calls, j - 1);
      assert AppliedAt(kind, stages, calls, j - 1);
    }
  }

  lemma {:induction false} UnharmedByFailures(kind: Kind, stages: seq<TableStage>, calls: seq<Call>, j: nat, key: string)
    requires IsTableRun(kind, stages, calls) && j <= |calls| && forall i :: 0 <= i < j ==> calls[i].failed
    requires forall i :: 0 <= i < j ==> !Harms(kind, stages[0].users, calls[i].next, key)
    ensures !MayBeWrong(kind, stages, calls, j, key)
  {
    if j > 0 {
      UnharmedByFailures(kind, stages, calls, j - 1, key);
      FailuresKeepUsers(kind, stages, calls, j - 1);
    }
  }
}
