/**
 The counters of the concurrent store as a law over runs: what is stored for a user is what was
 accumulated for it since start-up, or since it was last removed from the users.
 */
module CounterLaw {
  import opened Records
  import opened StoreMachine

  predicate Names(us: seq<User>, uid: int) {
    exists i :: 0 <= i < |us| && us[i].id == uid
  }

  // The step removes the user: it is deleted, or a new list does not name it.
  predicate Removes(s: System, step: Step, uid: int) {
    match step.a
    case DeleteUser(id) => id == uid
    case SetUsers(us) => !Names(us, uid)
    case ApplyRefresh => At(s, step.t).Refreshing? && !Names(At(s, step.t).list, uid)
    case _ => false
  }

  // The sums of the amounts accumulated for a user since it was last removed, or beside the
  // given ones since the start.
  function TallyUp(s0: System, steps: seq<Step>, uid: int, first: int): int {
    if steps == [] then first
    else
      var front, last := steps[..|steps| - 1], steps[|steps| - 1];
      if Removes(Run(s0, front), last, uid) then 0
      else TallyUp(s0, front, uid, first) + (if last.a.Accumulate? && last.a.uid == uid then last.a.up else 0)
  }

  function TallyDown(s0: System, steps: seq<Step>, uid: int, first: int): int {
    if steps == [] then first
    else
      var front, last := steps[..|steps| - 1], steps[|steps| - 1];
      if Removes(Run(s0, front), last, uid) then 0
      else TallyDown(s0, front, uid, first) + (if last.a.Accumulate? && last.a.uid == uid then last.a.down else 0)
  }

  // A stored counter is these two numbers; no entry stands for nothing.
  ghost predicate Stores(traffic: map<int, Traffic>, uid: int, up: int, down: int) {
    if uid in traffic then traffic[uid].up == up && traffic[uid].down == down else up == 0 && down == 0
  }

  // The users named by a list.
  lemma NamedAreUsers(us: seq<User>, uid: int)
    ensures uid in UsersOf(us) <==> Names(us, uid)
  {
    UsersOfFacts(us);
    if uid in UsersOf(us) {
      var i :| 0 <= i < |us| && us[i] == UsersOf(us)[uid];
    }
  }

  lemma StepStores(s: System, step: Step, uid: int, up: int, down: int)
    requires Enabled(s, step.t, step.a) && Stores(s.mem.traffic, uid, up, down)
    ensures Stores(Next(s, step.t, step.a).mem.traffic, uid,
                   if Removes(s, step, uid) then 0 else up + (if step.a.Accumulate? && step.a.uid == uid then step.a.up else 0),
                   if Removes(s, step, uid) then 0 else down + (if step.a.Accumulate? && step.a.uid == uid then step.a.down else 0))
  {
    match step.a
    case SetUsers(us) => NamedAreUsers(us, uid);
    case ApplyRefresh => NamedAreUsers(At(s, step.t).list, uid);
    case _ =>
  }

  lemma {:induction false} RunStores(s0: System, steps: seq<Step>, uid: int, up: int, down: int)
    requires IsRun(s0, steps) && Stores(s0.mem.traffic, uid, up, down)
    ensures Stores(Run(s0, steps).mem.traffic, uid, TallyUp(s0, steps, uid, up), TallyDown(s0, steps, uid, down))
  {
    if steps != [] {
      var front := steps[..|steps| - 1];
      RunStores(s0, front, uid, up, down);
      StepStores(Run(s0, front), steps[|steps| - 1], uid, TallyUp(s0, front, uid, up), TallyDown(s0, front, uid, down));
    }
  }

  // For any number of threads: the stored counter of every user is exactly the sum of what was
  // accumulated for it since it was last removed from the users -- or since the start, beside
  // what it had then.
  lemma CounterIsWhatWasAccumulated(s0: System, steps: seq<Step>, uid: int)
    requires IsRun(s0, steps)
    ensures var first := if uid in s0.mem.traffic then s0.mem.traffic[uid] else Traffic(0, 0);
      var traffic := Run(s0, steps).mem.traffic;
      var up, down := TallyUp(s0, steps, uid, first.up), TallyDown(s0, steps, uid, first.down);
      if uid in traffic then traffic[uid] == Traffic(up, down) else up == 0 && down == 0
  {
    var first := if uid in s0.mem.traffic then s0.mem.traffic[uid] else Traffic(0, 0);
    RunStores(s0, steps, uid, first.up, first.down);
  }

  // The users likewise: a step changes only the users it names.
  lemma StepUsers(s: System, step: Step, id: int)
    requires Enabled(s, step.t, step.a)
    ensures var users, users' := s.mem.users, Next(s, step.t, step.a).mem.users;
      && (step.a.AddUser? ==> users' == users[step.a.u.id := step.a.u])
      && (step.a.DeleteUser? && id != step.a.id ==>
            (id in users' <==> id in users) && (id in users ==> users'[id] == users[id]))
      && (step.a.DeleteUser? ==> step.a.id !in users')
      && (step.a.SetUsers? ==> (id in users' <==> Names(step.a.us, id)) && (id in users' ==> users'[id] in step.a.us))
      && (step.a.ApplyRefresh? ==>
            (id in users' <==> Names(At(s, step.t).list, id)) && (id in users' ==> users'[id] in At(s, step.t).list))
      && (!step.a.AddUser? && !step.a.DeleteUser? && !step.a.SetUsers? && !step.a.ApplyRefresh? ==> users' == users)
  {
    if step.a.SetUsers? {
      NamedAreUsers(step.a.us, id);
      UsersOfFacts(step.a.us);
    } else if step.a.ApplyRefresh? {
      NamedAreUsers(At(s, step.t).list, id);
      UsersOfFacts(At(s, step.t).list);
    }
  }
}
