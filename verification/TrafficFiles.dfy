/** traffic.json: counters under decimal id strings, and reading them back. */
module TrafficFiles {
  import opened Options
  import opened MapRange
  import opened Decimal
  import opened Records

  datatype TrafficFile = TrafficFile(version: int, users: map<string, Traffic>)

  predicate ValidTrafficFile(tf: TrafficFile) {
    tf.version == 0 || tf.version <= KNOWN_VERSION
  }

  function Clamp(t: Traffic): Traffic {
    Traffic(if t.up < 0 then 0 else t.up, if t.down < 0 then 0 else t.down)
  }

  // What `SaveTraffic` makes of the counters, with ids printed by `show`.
  ghost predicate PrintedForm(show: int -> string, f: map<string, Traffic>, traffic: map<int, Traffic>) {
    && (forall id :: id in traffic ==> show(id) in f && f[show(id)] == traffic[id])
    && forall s :: s in f ==> exists id :: id in traffic && show(id) == s
  }

  // What `normalizeTrafficFile` makes of a file, in whatever order it meets the entries, with
  // id strings read by `parse`.
  ghost predicate ParsedForm(parse: string -> Option<int>, f: map<string, Traffic>, m: map<int, Traffic>) {
    && (forall s :: s in f && parse(s).Some? && parse(s).value > 0 ==> parse(s).value in m)
    && forall id :: id in m ==> id > 0 && exists s :: s in f && parse(s) == Some(id) && m[id] == Clamp(f[s])
  }

  ghost predicate IsFileForm(f: map<string, Traffic>, traffic: map<int, Traffic>) {
    PrintedForm(Itoa, f, traffic)
  }

  ghost predicate Normalizes(f: map<string, Traffic>, m: map<int, Traffic>) {
    ParsedForm(Atoi, f, m)
  }

  lemma ParseUndoesPrint(show: int -> string, parse: string -> Option<int>, traffic: map<int, Traffic>,
                         f: map<string, Traffic>, m: map<int, Traffic>)
    requires forall id :: id in traffic ==> 0 < id && traffic[id].up >= 0 && traffic[id].down >= 0
    requires forall id :: id in traffic ==> parse(show(id)) == Some(id)
    requires PrintedForm(show, f, traffic) && ParsedForm(parse, f, m)
    ensures m == traffic
  {
    NothingDropped(show, parse, traffic, f, m);
    forall id | id in m
      ensures id in traffic && m[id] == traffic[id]
    {
      NothingElse(show, parse, traffic, f, m, id);
    }
  }

  lemma NothingDropped(show: int -> string, parse: string -> Option<int>, traffic: map<int, Traffic>,
                       f: map<string, Traffic>, m: map<int, Traffic>)
    requires forall id :: id in traffic ==> 0 < id && parse(show(id)) == Some(id)
    requires PrintedForm(show, f, traffic) && ParsedForm(parse, f, m)
    ensures forall id :: id in traffic ==> id in m
  {
    forall id | id in traffic
      ensures id in m
    {
      assert show(id) in f;
    }
  }

  lemma NothingElse(show: int -> string, parse: string -> Option<int>, traffic: map<int, Traffic>,
                    f: map<string, Traffic>, m: map<int, Traffic>, id: int)
    requires forall id :: id in traffic ==> parse(show(id)) == Some(id) && traffic[id].up >= 0 && traffic[id].down >= 0
    requires PrintedForm(show, f, traffic) && ParsedForm(parse, f, m) && id in m
    ensures id in traffic && m[id] == traffic[id]
  {
    var s :| s in f && parse(s) == Some(id) && m[id] == Clamp(f[s]);
    var id' :| id' in traffic && show(id') == s;
  }

  // Saved and loaded, the counters of positive 64-bit ids come back unchanged: printing an
  // id and parsing it are inverse, and nothing is clamped, dropped or merged.
  lemma TrafficRoundTrip(traffic: map<int, Traffic>, f: map<string, Traffic>, m: map<int, Traffic>)
    requires forall id :: id in traffic ==> 0 < id <= MAX_INT && traffic[id].up >= 0 && traffic[id].down >= 0
    requires IsFileForm(f, traffic) && Normalizes(f, m)
    ensures m == traffic
  {
    forall id | id in traffic
      ensures Atoi(Itoa(id)) == Some(id)
    {
      AtoiItoa(id);
    }
    ParseUndoesPrint(Itoa, Atoi, traffic, f, m);
  }

  // Only the version is checked: negative counters are clamped, not refused.
  method ValidateTrafficFile(tf: TrafficFile) returns (ok: bool)
    ensures ok <==> ValidTrafficFile(tf)
    ensures ok <==> tf.version <= 1
  {
    ok := !(tf.version != 0 && tf.version > KNOWN_VERSION);
  }

  // The loop over the file's entries.
  method NormalizeTrafficFile(tf: TrafficFile) returns (m: map<int, Traffic>)
    ensures Normalizes(tf.users, m)
    ensures forall id :: id in m ==> id > 0 && m[id].up >= 0 && m[id].down >= 0
    ensures forall id :: id in m ==> exists s ::
      && s in tf.users && Atoi(s) == Some(id)
      && m[id].up == (if tf.users[s].up < 0 then 0 else tf.users[s].up)
      && m[id].down == (if tf.users[s].down < 0 then 0 else tf.users[s].down)
  {
    m := map[];
    var todo := tf.users.Keys;
    while todo != {}
      invariant todo <= tf.users.Keys
      invariant forall s :: s in tf.users && s !in todo && Atoi(s).Some? && Atoi(s).value > 0 ==> Atoi(s).value in m
      invariant forall id :: id in m ==> id > 0 && exists s :: s in tf.users && Atoi(s) == Some(id) && m[id] == Clamp(tf.users[s])
      decreases |todo|
    {
      var idStr := Pick(todo);
      todo := todo - {idStr};
      var id := Atoi(idStr);
      if id.None? || id.value <= 0 {
        continue;
      }
      var v := tf.users[idStr];
      if v.up < 0 {
        v := v.(up := 0);
      }
      if v.down < 0 {
        v := v.(down := 0);
      }
      assert v == Clamp(tf.users[idStr]);
      m := m[id.value := v];
    }
  }

  // The loop over the counters.
  method FileFormOf(traffic: map<int, Traffic>) returns (f: map<string, Traffic>)
    requires forall id :: id in traffic ==> -MAX_INT <= id <= MAX_INT
    ensures IsFileForm(f, traffic)
  {
    f := map[];
    var todo := traffic.Keys;
    while todo != {}
      invariant todo <= traffic.Keys
      invariant forall id :: id in traffic && id !in todo ==> Itoa(id) in f && f[Itoa(id)] == traffic[id]
      invariant forall s :: s in f ==> exists id :: id in traffic && Itoa(id) == s
      decreases |todo|
    {
      var id := Pick(todo);
      forall other | other in traffic && other != id
        ensures Itoa(other) != Itoa(id)
      {
        AtoiItoa(other);
        AtoiItoa(id);
      }
      f := f[Itoa(id) := traffic[id]];
      todo := todo - {id};
    }
  }
}
