/**
 Talking to the panels: merging the user lists of several panels, and flattening a traffic
 delta -- bytes per inbound tag and user key -- into what each panel is sent.
 */
module Panel {
  import opened Options
  import opened MapRange
  import opened Decimal
  import opened Sums
  import opened UserDiff

  // ---- which inbounds a client reports -------------------------------------------------

  function LowerChar(c: char): char {
    if 'A' <= c <= 'Z' then c - 'A' + 'a' else c
  }

  function Lower(s: string): string {
    seq(|s|, i requires 0 <= i < |s| => LowerChar(s[i]))
  }

  function Contains(s: string, part: string): bool {
    part <= s || (s != "" && Contains(s[1..], part))
  }

  datatype Client = Client(nodeType: string) {
    predicate MatchesInbound(tag: string) {
      var t := Lower(nodeType);
      if t == "vless" || t == "vless-reality" || t == "reality" then tag == "vless-in"
      else if t == "hy2" || t == "hysteria" || t == "hysteria2" then tag == "hy2-in"
      else Contains(Lower(tag), t)
    }
  }

  // The same word in any letter case; the second is in lower case.
  predicate SameWord(s: string, word: string) {
    |s| == |word| && forall i :: 0 <= i < |s| ==> SameLetter(s[i], word[i])
  }

  predicate SameLetter(c: char, small: char) {
    c == small || ('a' <= small <= 'z' && c as int == small as int - 32)
  }

  lemma {:induction false} ContainsIsSlice(s: string, part: string)
    ensures Contains(s, part) <==> exists i :: 0 <= i <= |s| - |part| && s[i..][..|part|] == part
  {
    if part <= s {
      assert s[0..][..|part|] == part;
    } else if s != [] {
      ContainsIsSlice(s[1..], part);
      if i :| 0 <= i <= |s| - |part| && s[i..][..|part|] == part {
        assert i > 0;
        assert s[1..][i - 1..] == s[i..];
      }
      if j :| 0 <= j <= |s[1..]| - |part| && s[1..][j..][..|part|] == part {
        assert s[1..][j..] == s[j + 1..];
        assert s[j + 1..][..|part|] == part;
      }
    } else {
      assert part != [];
    }
  }

  lemma LowerIsSameWord(s: string, word: string)
    requires forall i :: 0 <= i < |word| ==> !('A' <= word[i] <= 'Z')
    ensures Lower(s) == word <==> SameWord(s, word)
  {
    if SameWord(s, word) {
      assert forall i :: 0 <= i < |s| ==> LowerChar(s[i]) == word[i];
      assert |Lower(s)| == |word|;
    }
    if Lower(s) == word {
      forall i | 0 <= i < |s|
        ensures SameLetter(s[i], word[i])
      {
        assert Lower(s)[i] == word[i] == LowerChar(s[i]);
      }
    }
  }

  // The node types a client knows, in any letter case, and the one inbound each reports; for
  // another type, the inbounds whose tag has it as a part, letter case aside.
  lemma MatchesExactly(c: Client, tag: string)
    ensures var t := c.nodeType;
      if SameWord(t, "vless") || SameWord(t, "vless-reality") || SameWord(t, "reality") then
        c.MatchesInbound(tag) <==> tag == "vless-in"
      else if SameWord(t, "hy2") || SameWord(t, "hysteria") || SameWord(t, "hysteria2") then
        c.MatchesInbound(tag) <==> tag == "hy2-in"
      else
        c.MatchesInbound(tag) <==>
          exists i :: 0 <= i <= |tag| - |t| && Lower(tag)[i..][..|t|] == Lower(t)
  {
    LowerIsSameWord(c.nodeType, "vless");
    LowerIsSameWord(c.nodeType, "vless-reality");
    LowerIsSameWord(c.nodeType, "reality");
    LowerIsSameWord(c.nodeType, "hy2");
    LowerIsSameWord(c.nodeType, "hysteria");
    LowerIsSameWord(c.nodeType, "hysteria2");
    ContainsIsSlice(Lower(tag), Lower(c.nodeType));
  }

  // ---- PushTraffic -----------------------------------------------------------------------

  type Delta = map<string, map<string, Bytes>>

  function Get(delta: Delta, tag: string, user: string): Bytes {
    if tag in delta then Lookup(delta[tag], user) else ZERO
  }

  // One user's bytes per inbound.
  function Column(delta: Delta, user: string): (column: map<string, Bytes>)
    ensures forall tag :: Lookup(column, tag) == Get(delta, tag, user)
  {
    map tag | tag in delta && user in delta[tag] :: delta[tag][user]
  }

  ghost function Matched(c: Client, delta: Delta): (tags: set<string>)
    ensures forall tag :: tag in tags <==> tag in delta && c.MatchesInbound(tag)
  {
    set tag | tag in delta && c.MatchesInbound(tag)
  }

  // The first loop of PushTraffic: numeric users only, matching inbounds only, summed over
  // the inbounds.
  ghost predicate IsFlat(tags: set<string>, delta: Delta, flat: map<string, Bytes>) {
    && (forall user :: user in flat ==> Numeric(user) && flat[user] == Sum(tags, Column(delta, user)))
    && (forall user :: user in flat <==> Numeric(user) && exists tag :: tag in tags && tag in delta && user in delta[tag])
  }

  // The second loop: parse the keys; a later key overwrites an earlier one with the same id.
  ghost predicate IsPayload(flat: map<string, Bytes>, payload: map<int, Bytes>) {
    && (forall user :: user in flat && Atoi(user).Some? ==> Atoi(user).value in payload)
    && forall uid :: uid in payload ==> exists user :: user in flat && Atoi(user) == Some(uid) && payload[uid] == flat[user]
  }

  // One inbound's users added to the sums so far.
  ghost predicate AddsInbound(flat: map<string, Bytes>, users: map<string, Bytes>, r: map<string, Bytes>) {
    && (forall user :: user in r <==> user in flat || (Numeric(user) && user in users))
    && forall user :: user in r ==> r[user] == Lookup(flat, user).Plus(if Numeric(user) then Lookup(users, user) else ZERO)
  }

  method AddInbound(flat: map<string, Bytes>, users: map<string, Bytes>) returns (r: map<string, Bytes>)
    ensures AddsInbound(flat, users, r)
  {
    r := flat;
    var todo := users.Keys;
    while todo != {}
      invariant todo <= users.Keys
      invariant forall user :: user in r <==> user in flat || (Numeric(user) && user in users && user !in todo)
      invariant forall user :: user in r ==>
        r[user] == Lookup(flat, user).Plus(if Numeric(user) && user !in todo then Lookup(users, user) else ZERO)
      decreases |todo|
    {
      var user := Pick(todo);
      todo := todo - {user};
      var numeric := IsNumericUser(user);
      if !numeric {
        continue;
      }
      r := r[user := Lookup(r, user).Plus(users[user])];
    }
  }

  method Flatten(c: Client, delta: Delta) returns (flat: map<string, Bytes>)
    ensures IsFlat(Matched(c, delta), delta, flat)
  {
    flat := map[];
    var todo := delta.Keys;
    ghost var done: set<string> := {};
    while todo != {}
      invariant todo <= delta.Keys
      invariant forall tag :: tag in done <==> tag in delta && tag !in todo && c.MatchesInbound(tag)
      invariant IsFlat(done, delta, flat)
      decreases |todo|
    {
      var tag := Pick(todo);
      todo := todo - {tag};
      if !c.MatchesInbound(tag) {
        continue;
      }
      var next := AddInbound(flat, delta[tag]);
      FlatNext(done, delta, flat, tag, next);
      flat := next;
      done := done + {tag};
    }
    assert done == Matched(c, delta);
  }

  lemma FlatNext(done: set<string>, delta: Delta, flat: map<string, Bytes>, tag: string, next: map<string, Bytes>)
    requires IsFlat(done, delta, flat) && tag in delta && tag !in done
    requires AddsInbound(flat, delta[tag], next)
    ensures IsFlat(done + {tag}, delta, next)
  {
    forall user | user in next
      ensures next[user] == Sum(done + {tag}, Column(delta, user))
    {
      if user !in flat {
        SumZero(done, Column(delta, user));
      }
      OneMoreInbound(done, Column(delta, user), tag, Lookup(flat, user), next[user]);
    }
  }

  lemma OneMoreInbound(done: set<string>, column: map<string, Bytes>, tag: string, before: Bytes, after: Bytes)
    requires tag !in done && before == Sum(done, column) && after == before.Plus(Lookup(column, tag))
    ensures after == Sum(done + {tag}, column)
  {
    SumInsert(done, column, tag);
  }

  ghost predicate Sends(c: Client, delta: Delta, payload: map<int, Bytes>) {
    exists flat :: IsFlat(Matched(c, delta), delta, flat) && IsPayload(flat, payload)
  }

  // What a client sends; an empty payload is not sent at all.
  method PushTraffic(c: Client, delta: Delta) returns (payload: map<int, Bytes>)
    ensures Sends(c, delta, payload)
  {
    var sums := Flatten(c, delta);
    payload := PayloadOf(sums);
  }

  method PayloadOf(sums: map<string, Bytes>) returns (payload: map<int, Bytes>)
    ensures IsPayload(sums, payload)
  {
    payload := map[];
    var todo := sums.Keys;
    while todo != {}
      invariant todo <= sums.Keys
      invariant forall user :: user in sums && user !in todo && Atoi(user).Some? ==> Atoi(user).value in payload
      invariant forall uid :: uid in payload ==> exists user :: user in sums && Atoi(user) == Some(uid) && payload[uid] == sums[user]
      decreases |todo|
    {
      var user := Pick(todo);
      todo := todo - {user};
      var uid := Atoi(user);
      if uid.None? {
        continue;
      }
      payload := payload[uid.value := sums[user]];
    }
  }

  // ---- what all panels are sent ----------------------------------------------------------

  // Numeric user keys are as the agent prints ids: canonical decimals in range.
  ghost predicate CanonicalKeys(delta: Delta) {
    forall tag, user :: tag in delta && user in delta[tag] && Numeric(user) ==> Canonical(user)
  }

  // A payload carries for each id exactly what the delta has under that id's key, summed over
  // the matching inbounds.
  lemma PayloadIsExact(c: Client, delta: Delta, flat: map<string, Bytes>, payload: map<int, Bytes>, uid: int)
    requires CanonicalKeys(delta) && 0 <= uid <= MAX_INT
    requires IsFlat(Matched(c, delta), delta, flat) && IsPayload(flat, payload)
    ensures Lookup(payload, uid) == Sum(Matched(c, delta), Column(delta, Itoa(uid)))
  {
    AtoiItoa(uid);
    if uid in payload {
      var user :| user in flat && Atoi(user) == Some(uid) && payload[uid] == flat[user];
      assert Canonical(user);
    } else {
      assert Itoa(uid) !in flat;
      SumZero(Matched(c, delta), Column(delta, Itoa(uid)));
    }
  }

  // The keys of the sums all parse, each to an id of its own.
  ghost predicate ParseApart(flat: map<string, Bytes>) {
    && (forall user :: user in flat ==> Atoi(user).Some?)
    && forall u, v :: u in flat && v in flat && Atoi(u) == Atoi(v) ==> u == v
  }

  // Nothing is lost on the way into the payload exactly when they do: a key that does not
  // parse, although numeric, is never sent, and of two keys with the same id one is dropped.
  lemma PayloadLosesNothing(flat: map<string, Bytes>, payload: map<int, Bytes>)
    requires IsPayload(flat, payload)
    requires forall user :: user in flat ==> Positive(flat[user])
    ensures Sum(payload.Keys, payload) == Sum(flat.Keys, flat) <==> ParseApart(flat)
  {
    var senders := map uid | uid in payload :: Sender(flat, payload, uid);
    var sent := set uid | uid in payload :: senders[uid];
    SumOfSenders(payload.Keys, payload, senders, sent, flat);
    AllAreSent(flat, payload, senders, sent);
    if sent != flat.Keys {
      SomeAreLost(flat, sent);
    }
  }

  lemma SomeAreLost(flat: map<string, Bytes>, sent: set<string>)
    requires sent <= flat.Keys && sent != flat.Keys && forall user :: user in flat ==> Positive(flat[user])
    ensures Sum(sent, flat) != Sum(flat.Keys, flat)
  {
    var lost := flat.Keys - sent;
    assert flat.Keys == sent + lost;
    SumSplit(flat.Keys, sent, lost, flat);
    SumPositive(lost, flat);
  }

  lemma AllAreSent(flat: map<string, Bytes>, payload: map<int, Bytes>, senders: map<int, string>, sent: set<string>)
    requires IsPayload(flat, payload)
    requires forall uid :: uid in payload ==>
      uid in senders && senders[uid] in flat && Atoi(senders[uid]) == Some(uid)
    requires forall user :: user in sent <==> exists uid :: uid in payload && senders[uid] == user
    ensures sent <= flat.Keys
    ensures sent == flat.Keys <==> ParseApart(flat)
  {
    if ParseApart(flat) {
      forall user | user in flat
        ensures user in sent
      {
        assert senders[Atoi(user).value] == user;
      }
    } else if sent == flat.Keys {
      forall u, v | u in flat && v in flat && Atoi(u) == Atoi(v)
        ensures u == v
      {
        assert u in sent && v in sent;
      }
      forall user | user in flat
        ensures Atoi(user).Some?
      {
        assert user in sent;
      }
    }
  }

  predicate Positive(b: Bytes) {
    b.up >= 0 && b.down >= 0 && (b.up > 0 || b.down > 0)
  }

  // The key whose bytes an id carries.
  ghost function Sender(flat: map<string, Bytes>, payload: map<int, Bytes>, uid: int): (user: string)
    requires IsPayload(flat, payload) && uid in payload
    ensures user in flat && Atoi(user) == Some(uid) && payload[uid] == flat[user]
  {
    var user :| user in flat && Atoi(user) == Some(uid) && payload[uid] == flat[user];
    user
  }

  lemma {:induction false} SumOfSenders(uids: set<int>, payload: map<int, Bytes>, senders: map<int, string>,
                                        sent: set<string>, flat: map<string, Bytes>)
    requires forall uid :: uid in uids ==>
      (&& uid in senders && senders[uid] in flat && uid in payload && payload[uid] == flat[senders[uid]]
       && Atoi(senders[uid]) == Some(uid))
    requires sent == set uid | uid in uids :: senders[uid]
    ensures Sum(uids, payload) == Sum(sent, flat)
    decreases |uids|
  {
    if uids == {} {
      assert sent == {};
    } else {
      var uid := AnElement(uids);
      assert sent - {senders[uid]} == set u | u in uids - {uid} :: senders[u];
      SumRemove(uids, payload, uid);
      SumRemove(sent, flat, senders[uid]);
      SumOfSenders(uids - {uid}, payload, senders, sent - {senders[uid]}, flat);
    }
  }

  lemma {:induction false} SumSplit(all: set<string>, part: set<string>, rest: set<string>, m: map<string, Bytes>)
    requires part !! rest && all == part + rest
    ensures Sum(all, m).up == Sum(part, m).up + Sum(rest, m).up
    ensures Sum(all, m).down == Sum(part, m).down + Sum(rest, m).down
    decreases |part|
  {
    if part == {} {
      SumOfNothing(part, m);
      assert all == rest;
    } else {
      var k := AnElement(part);
      assert all - {k} == part - {k} + rest;
      SumSplit(all - {k}, part - {k}, rest, m);
      SplitOff(all, part, rest, m, k);
    }
  }

  lemma SumOfNothing(s: set<string>, m: map<string, Bytes>)
    requires s == {}
    ensures Sum(s, m).up == 0 && Sum(s, m).down == 0
  {
  }

  lemma SplitOff(all: set<string>, part: set<string>, rest: set<string>, m: map<string, Bytes>, k: string)
    requires k in all && k in part
    requires Sum(all - {k}, m).up == Sum(part - {k}, m).up + Sum(rest, m).up
    requires Sum(all - {k}, m).down == Sum(part - {k}, m).down + Sum(rest, m).down
    ensures Sum(all, m).up == Sum(part, m).up + Sum(rest, m).up
    ensures Sum(all, m).down == Sum(part, m).down + Sum(rest, m).down
  {
    SumRemove(all, m, k);
    SumRemove(part, m, k);
  }

  lemma {:induction false} SumPositive(s: set<string>, m: map<string, Bytes>)
    requires s != {} && forall k :: k in s ==> k in m && Positive(m[k])
    ensures Positive(Sum(s, m))
    decreases |s|
  {
    var k := AnElement(s);
    SumRemove(s, m, k);
    if s - {k} != {} {
      SumPositive(s - {k}, m);
    }
  }

  // The inbounds each panel reports.
  ghost function Selections(panels: seq<Client>, delta: Delta): (selections: seq<set<string>>)
    ensures |selections| == |panels|
    ensures forall i :: 0 <= i < |panels| ==> selections[i] == Matched(panels[i], delta)
  {
    if panels == [] then [] else [Matched(panels[0], delta)] + Selections(panels[1..], delta)
  }

  // How many panels report an inbound.
  function MatchCount(panels: seq<Client>, tag: string): nat {
    if panels == [] then 0
    else MatchCount(panels[1..], tag) + (if panels[0].MatchesInbound(tag) then 1 else 0)
  }

  // What the panels from the n-th on are sent under one user key.
  ghost function SentFrom(panels: seq<Client>, n: nat, delta: Delta, user: string): Bytes
    decreases |panels| - n
  {
    if n >= |panels| then ZERO
    else Sum(Matched(panels[n], delta), Column(delta, user)).Plus(SentFrom(panels, n + 1, delta, user))
  }

  // What all panels together are sent under one user key.
  ghost function SentTo(panels: seq<Client>, delta: Delta, user: string): Bytes {
    SentFrom(panels, 0, delta, user)
  }

  // What a flush commits under one user key, all inbounds together.
  ghost function CommittedFor(delta: Delta, user: string): Bytes {
    Sum(delta.Keys, Column(delta, user))
  }

  lemma {:induction false} SentIsSumOfSums(panels: seq<Client>, n: nat, delta: Delta, user: string)
    requires n <= |panels|
    ensures SentFrom(panels, n, delta, user) == SumOfSums(Selections(panels, delta)[n..], Column(delta, user))
    decreases |panels| - n
  {
    if n < |panels| {
      var rest := Selections(panels, delta)[n..];
      SentIsSumOfSums(panels, n + 1, delta, user);
      assert rest[1..] == Selections(panels, delta)[n + 1..];
    }
  }

  lemma {:induction false} SelectionCounts(panels: seq<Client>, delta: Delta)
    ensures forall tag :: tag in delta ==> CountOf(Selections(panels, delta), tag) == MatchCount(panels, tag)
  {
    if panels != [] {
      SelectionCounts(panels[1..], delta);
      assert Selections(panels, delta)[1..] == Selections(panels[1..], delta);
    }
  }

  // All panels together are sent each inbound's bytes as many times as panels match it: an
  // inbound that no panel matches is never sent, and one matched twice is sent twice.
  lemma SentIsMatchCount(panels: seq<Client>, delta: Delta, user: string, times: map<string, Bytes>)
    requires forall tag :: tag in delta ==>
      Lookup(times, tag) == Get(delta, tag, user).Times(MatchCount(panels, tag))
    ensures SentTo(panels, delta, user) == Sum(delta.Keys, times)
  {
    var selections, column := Selections(panels, delta), Column(delta, user);
    SentIsSumOfSums(panels, 0, delta, user);
    SelectionCounts(panels, delta);
    assert selections[0..] == selections;
    SumOfSumsIsWeighted(selections, delta.Keys, column);
    forall tag | tag in delta.Keys
      ensures Lookup(Weighted(selections, delta.Keys, column), tag) == Lookup(times, tag)
    {
      WeightIsCount(selections, delta.Keys, column, tag);
    }
    SumEqual(delta.Keys, Weighted(selections, delta.Keys, column), times);
  }

  ghost predicate MatchedOnce(panels: seq<Client>, delta: Delta) {
    forall tag :: tag in delta ==> MatchCount(panels, tag) == 1
  }

  // When every inbound is reported by exactly one panel, the panels together are sent, under
  // every key, exactly what the flush commits.
  lemma SentEqualsCommitted(panels: seq<Client>, delta: Delta, user: string)
    requires MatchedOnce(panels, delta)
    ensures SentTo(panels, delta, user) == CommittedFor(delta, user)
  {
    forall tag | tag in delta
      ensures Get(delta, tag, user).Times(MatchCount(panels, tag)) == Get(delta, tag, user)
    {
      Once(Get(delta, tag, user));
    }
    SentIsMatchCount(panels, delta, user, Column(delta, user));
  }

  lemma Once(b: Bytes)
    ensures b.Times(1) == b
  {
    assert b.Times(0) == ZERO;
  }

  // One user with traffic on one inbound.
  function Single(tag: string, user: string, b: Bytes): Delta {
    map[tag := map[user := b]]
  }

  // ... and only then: an inbound that no panel reports is committed but never sent, and one
  // that several report is sent several times over.
  lemma MatchedOnceIsNeeded(panels: seq<Client>, tag: string, user: string, b: Bytes)
    requires b.up > 0 || b.down > 0
    ensures SentTo(panels, Single(tag, user, b), user) == CommittedFor(Single(tag, user, b), user)
      <==> MatchCount(panels, tag) == 1
  {
    var delta, n := Single(tag, user, b), MatchCount(panels, tag);
    var times := map[tag := b.Times(n)];
    SentIsMatchCount(panels, delta, user, times);
    SumOfOne(delta.Keys, tag, times);
    SumOfOne(delta.Keys, tag, Column(delta, user));
    TimesIsProduct(b, n);
    OnlyOnce(b, n);
  }

  lemma SumOfOne(keys: set<string>, tag: string, m: map<string, Bytes>)
    requires keys == {tag}
    ensures Sum(keys, m) == Lookup(m, tag)
  {
    SumRemove(keys, m, tag);
    assert keys - {tag} == {};
  }

  lemma OnlyOnce(b: Bytes, n: nat)
    requires b.up > 0 || b.down > 0
    ensures (n * b.up == b.up && n * b.down == b.down) <==> n == 1
  {
  }

  // The agent's panels with their default node types report its two inbounds once each, and
  // no others.
  lemma DefaultPanelsMatchOnce(tag: string)
    ensures MatchCount([Client("vless"), Client("hysteria")], tag) == if tag == "vless-in" || tag == "hy2-in" then 1 else 0
  {
    var panels := [Client("vless"), Client("hysteria")];
    assert Lower("vless") == "vless" && Lower("hysteria") == "hysteria";
    assert panels[0].MatchesInbound(tag) == (tag == "vless-in") && panels[1].MatchesInbound(tag) == (tag == "hy2-in");
    assert panels[1..] == [panels[1]] && panels[1..][1..] == [];
    assert MatchCount(panels[1..], tag) == MatchCount([], tag) + (if tag == "hy2-in" then 1 else 0);
  }

  // ---- MultiPanel.FetchUsers -------------------------------------------------------------

  predicate HasId(users: seq<PanelUser>, id: int) {
    exists i :: 0 <= i < |users| && users[i].id == id
  }

  // Keep a user unless its id is positive and was met before.
  function FirstOnly(users: seq<PanelUser>): seq<PanelUser> {
    if users == [] then []
    else
      var front, u := users[..|users| - 1], users[|users| - 1];
      if u.id > 0 && HasId(front, u.id) then FirstOnly(front) else FirstOnly(front) + [u]
  }

  function Concat(lists: seq<seq<PanelUser>>): seq<PanelUser> {
    if lists == [] then [] else Concat(lists[..|lists| - 1]) + lists[|lists| - 1]
  }

  // The lists one after the other, the first panel's first.
  lemma {:induction false} ConcatInOrder(lists: seq<seq<PanelUser>>)
    requires lists != []
    ensures Concat(lists) == lists[0] + Concat(lists[1..])
  {
    if |lists| > 1 {
      var front, tail, l := lists[..|lists| - 1], lists[1..], lists[|lists| - 1];
      ConcatInOrder(front);
      assert front[1..] == tail[..|tail| - 1];
      Associative(lists[0], Concat(front[1..]), l);
    } else {
      assert lists[..0] == lists[1..] == [];
    }
  }

  lemma Associative<T>(a: seq<T>, b: seq<T>, c: seq<T>)
    ensures a + b + c == a + (b + c)
  {
  }

  lemma HasIdAppend(users: seq<PanelUser>, u: PanelUser)
    ensures forall id :: HasId(users + [u], id) <==> id == u.id || HasId(users, id)
    ensures (users + [u])[..|users|] == users
  {
    forall id
      ensures HasId(users + [u], id) <==> id == u.id || HasId(users, id)
    {
      assert (users + [u])[|users|] == u;
      if HasId(users, id) {
        var i :| 0 <= i < |users| && users[i].id == id;
        assert (users + [u])[i].id == id;
      }
    }
  }

  // The ids met so far.
  ghost predicate Seen(seen: set<int>, all: seq<PanelUser>) {
    forall id :: id in seen <==> id > 0 && HasId(all, id)
  }

  // One list per panel; None is a panel whose fetch failed, and fails the whole fetch.
  method FetchUsers(lists: seq<Option<seq<PanelUser>>>)
    returns (merged: Option<seq<PanelUser>>, ghost fetched: seq<seq<PanelUser>>)
    ensures merged.None? <==> None in lists
    ensures merged.Some? ==> |fetched| == |lists| && forall i :: 0 <= i < |lists| ==> lists[i] == Some(fetched[i])
    ensures merged.Some? ==> merged.value == FirstOnly(Concat(fetched))
  {
    var out := [];
    var seen: set<int> := {};
    fetched := [];
    for k := 0 to |lists|
      invariant |fetched| == k && forall i :: 0 <= i < k ==> lists[i] == Some(fetched[i])
      invariant out == FirstOnly(Concat(fetched)) && Seen(seen, Concat(fetched))
    {
      if lists[k].None? {
        return None, fetched;
      }
      out, seen := MergeList(out, seen, Concat(fetched), lists[k].value);
      assert (fetched + [lists[k].value])[..|fetched|] == fetched;
      fetched := fetched + [lists[k].value];
    }
    return Some(out), fetched;
  }

  method MergeList(out: seq<PanelUser>, seen: set<int>, ghost all: seq<PanelUser>, users: seq<PanelUser>)
    returns (out': seq<PanelUser>, seen': set<int>)
    requires out == FirstOnly(all) && Seen(seen, all)
    ensures out' == FirstOnly(all + users) && Seen(seen', all + users)
  {
    out', seen' := out, seen;
    ghost var met := all;
    for k := 0 to |users|
      invariant met == all + users[..k]
      invariant out' == FirstOnly(met) && Seen(seen', met)
    {
      var u := users[k];
      HasIdAppend(met, u);
      assert all + users[..k + 1] == met + [u];
      met := met + [u];
      if u.id > 0 {
        if u.id in seen' {
          continue;
        }
        seen' := seen' + {u.id};
      }
      out' := out' + [u];
    }
    assert users[..|users|] == users;
  }

  // The merged list covers every positive id that any panel returned, and each only once.
  lemma {:induction false} MergedIdsAreUnique(all: seq<PanelUser>)
    ensures forall id :: id > 0 ==> (HasId(FirstOnly(all), id) <==> HasId(all, id))
    ensures forall i, j :: 0 <= i < j < |FirstOnly(all)| && FirstOnly(all)[i].id > 0 ==>
      FirstOnly(all)[i].id != FirstOnly(all)[j].id
  {
    if all != [] {
      var front, u := all[..|all| - 1], all[|all| - 1];
      MergedIdsAreUnique(front);
      HasIdAppend(front, u);
      HasIdAppend(FirstOnly(front), u);
      assert all == front + [u];
    }
  }

  // Ascending places in a list at which these users stand.
  ghost predicate Located(all: seq<PanelUser>, users: seq<PanelUser>, places: seq<int>) {
    && |places| == |users|
    && (forall k :: 0 <= k < |places| ==> 0 <= places[k] < |all| && users[k] == all[places[k]])
    && forall k, l :: 0 <= k < l < |places| ==> places[k] < places[l]
  }

  // The user at this place has no positive id, or one that was not met before.
  predicate IsFirst(all: seq<PanelUser>, i: int) {
    0 <= i < |all| && (all[i].id <= 0 || !HasId(all[..i], all[i].id))
  }

  // The merged list has exactly these users of the concatenation, in the same order.
  lemma {:induction false} MergedKeepsOrder(all: seq<PanelUser>) returns (places: seq<int>)
    ensures Located(all, FirstOnly(all), places) && forall i :: i in places <==> IsFirst(all, i)
  {
    if all == [] {
      places := [];
    } else {
      var front, last := all[..|all| - 1], |all| - 1;
      var before := MergedKeepsOrder(front);
      assert forall i :: 0 <= i < last ==> front[..i] == all[..i];
      assert forall i :: i != last ==> (IsFirst(front, i) <==> IsFirst(all, i));
      places := if IsFirst(all, last) then before + [last] else before;
      LocatedNext(front, all[last], FirstOnly(front), before);
      assert all == front + [all[last]];
    }
  }

  lemma LocatedNext(front: seq<PanelUser>, u: PanelUser, users: seq<PanelUser>, places: seq<int>)
    requires Located(front, users, places)
    ensures Located(front + [u], users, places)
    ensures Located(front + [u], users + [u], places + [|front|])
  {
  }

  // Each id keeps the record of its first occurrence, and that is the record ApplyBox applies:
  // for a merged list it makes no difference that a repeated id would be overwritten.
  lemma {:induction false} FirstRecordWins(all: seq<PanelUser>, i: nat)
    requires i < |all| && all[i].id > 0 && !HasId(all[..i], all[i].id)
    ensures all[i] in FirstOnly(all)
    ensures all[i].id in UsersById(FirstOnly(all)) && UsersById(FirstOnly(all))[all[i].id] == all[i]
    decreases |all|
  {
    var front, u := all[..|all| - 1], all[|all| - 1];
    var merged := FirstOnly(front);
    assert (merged + [u])[..|merged|] == merged;
    assert all == front + [u];
    if i < |front| {
      assert front[..i] == all[..i];
      FirstRecordWins(front, i);
      assert front[i].id == all[i].id;
      assert u.id == all[i].id ==> HasId(front, u.id);
    } else {
      assert front == all[..i];
    }
  }
}
