/**
 `NewStore`: which configuration, users and counters it comes up with after a crash, and the
 state in which the concurrent store starts.
 */
module Startup {
  import opened Options
  import opened Records
  import opened TrafficFiles
  import opened Decimal
  import opened Disk
  import opened SaveOutcome
  import opened Recovery
  import M = StoreMachine

  // ---- the node configuration: nodes.json, or else node.json ------------------------------

  // Several nodes, a single one, or a default one with a new random token.
  datatype NodeConfig<N, S> = Multi(nodes: N) | Single(node: S) | Fresh

  datatype NodeStart<N, S> = Node(config: NodeConfig<N, S>, fromBackup: bool) | NodeFailed

  // Any failure of os.Stat on nodes.json, not only its absence, means node.json.
  ghost function LoadNode<N, S>(stat: bool, nodes: Image<N>, node: Image<S>, validNodes: N -> bool, validNode: S -> bool)
    : NodeStart<N, S>
  {
    if stat && Main in nodes.dir then
      match LoadValid(nodes, validNodes)
      case Ok(doc, fromBackup) => Node(Multi(doc), fromBackup)
      case Err(_) => NodeFailed
    else
      match GuardedLoad(node, validNode)
      case Missing => Node(Fresh, false)
      case Loaded(doc, fromBackup) => Node(Single(doc), fromBackup)
      case Failed => NodeFailed
  }

  // After a power loss the saved nodes come back exactly when nodes.json is there and os.Stat
  // succeeds on it. Otherwise the server comes up on whatever node.json gives, although the
  // saved nodes are still on the disk.
  lemma NodesComeBack<N, S>(s: State<N>, allowed: iset<Option<N>>, stat: bool, nodes: Image<N>, node: Image<S>,
                            validNodes: N -> bool, validNode: S -> bool)
    requires Safe(s, allowed) && PowerLoss(s, nodes) && None !in allowed
    requires forall d :: Some(d) in allowed ==> validNodes(d)
    ensures LoadWithFallback(nodes) in allowed
    ensures var start := LoadNode(stat, nodes, node, validNodes, validNode);
      && (start.Node? && start.config.Multi? <==> stat && Main in nodes.dir)
      && (start.Node? && start.config.Multi? ==> Some(start.config.nodes) == LoadWithFallback(nodes))
      && (start.Node? && start.config.Fresh? <==> !(stat && Main in nodes.dir) && Main !in node.dir)
  {
    LoaderRecoversExactly(s, allowed, nodes, validNodes);
  }

  // In single-node mode the saved node comes back exactly when node.json is there; otherwise
  // the server makes up a default node with a new token.
  lemma NodeComesBack<N, S>(nodes: Image<N>, stat: bool, s: State<S>, allowed: iset<Option<S>>, node: Image<S>,
                            validNodes: N -> bool, validNode: S -> bool)
    requires Safe(s, allowed) && PowerLoss(s, node) && None !in allowed && !(stat && Main in nodes.dir)
    requires forall d :: Some(d) in allowed ==> validNode(d)
    ensures LoadWithFallback(node) in allowed
    ensures LoadNode(stat, nodes, node, validNodes, validNode) ==
      if Main in node.dir then Node(Single(LoadWithFallback(node).value), LoadFile(node, Main).None?) else Node(Fresh, false)
  {
    LoaderRecoversExactly(s, allowed, node, validNode);
  }

  // Every save of nodes.json that replaces a file passes through a state after which a power
  // loss brings the server up on node.json, or on defaults, with the nodes in the backup.
  lemma NodesGap<N, S>(s: State<N>, allowed: iset<Option<N>>, data: N, io: Io, node: Image<S>,
                       validNodes: N -> bool, validNode: S -> bool)
    returns (st: State<N>, img: Image<N>)
    requires Safe(s, allowed) && Main in s.Now() && !Corrupt(s, s.Now()[Main]) && StageOk(io) && io.stat && io.backup
    ensures st in WriteTrace(s, data, io) && PowerLoss(st, img)
    ensures LoadFile(img, Bak) in allowed && LoadFile(img, Bak).Some?
    ensures Main !in node.dir ==> LoadNode(true, img, node, validNodes, validNode) == Node(Fresh, false)
    ensures LoadFile(node, Main).Some? && validNode(LoadFile(node, Main).value) ==>
      LoadNode(true, img, node, validNodes, validNode) == Node(Single(LoadFile(node, Main).value), false)
  {
    st, img := EveryReplacementHasAGap(s, allowed, data, io, validNodes);
  }

  // ---- users and counters ------------------------------------------------------------------

  // The counters loadTraffic makes of what it loaded; a bad traffic.json starts from nothing.
  ghost predicate CountersOf(traffic: Loaded<TrafficFile>, counters: map<int, Traffic>) {
    if traffic.Loaded? then Normalizes(traffic.doc.users, counters) else counters == map[]
  }

  // The state NewStore ends in; a bad users.json is fatal.
  ghost predicate StartsWith(users: Loaded<UsersFile>, traffic: Loaded<TrafficFile>, m: Mem) {
    && !users.Failed?
    && m.users == (if users.Loaded? then UsersOf(users.doc.users) else map[])
    && exists counters :: CountersOf(traffic, counters) && m.traffic == Prune(counters, m.users)
  }

  // The documents on disk are saves of the generations in `gens`.
  ghost predicate UserSaves(docs: iset<Option<UsersFile>>, gens: iset<map<int, User>>) {
    && (forall g :: g in gens ==> Reachable(Mem(g, map[])))
    && forall d :: d in docs ==> (
         && d.Some? && d.value.version == KNOWN_VERSION
         && exists g :: g in gens && IsListOf(d.value.users, g))
  }

  ghost predicate TrafficSaves(docs: iset<Option<TrafficFile>>, gens: iset<map<int, Traffic>>) {
    && (forall g, id :: g in gens && id in g ==> 0 < id <= MAX_INT && g[id].up >= 0 && g[id].down >= 0)
    && forall d :: d in docs ==> (
         && d.Some? && d.value.version == KNOWN_VERSION
         && exists g :: g in gens && IsFileForm(d.value.users, g))
  }

  // From a power loss that left both files in place, NewStore comes back with the users of a
  // candidate generation and the counters of one, restricted to those users. If users.json
  // was caught between its two renames, it comes back with no users -- and so drops every
  // counter too, whatever traffic.json holds; a traffic.json caught there loses the counters.
  lemma EndToEndRecovery(u: State<UsersFile>, uDocs: iset<Option<UsersFile>>, uGens: iset<map<int, User>>, uImg: Image<UsersFile>,
                         t: State<TrafficFile>, tDocs: iset<Option<TrafficFile>>, tGens: iset<map<int, Traffic>>,
                         tImg: Image<TrafficFile>, m: Mem)
    requires Safe(u, uDocs) && PowerLoss(u, uImg) && UserSaves(uDocs, uGens)
    requires Safe(t, tDocs) && PowerLoss(t, tImg) && TrafficSaves(tDocs, tGens)
    requires StartsWith(GuardedLoad(uImg, ValidUsersFile), GuardedLoad(tImg, ValidTrafficFile), m)
    ensures Main in uImg.dir ==> m.users in uGens
    ensures Main in uImg.dir && Main in tImg.dir ==> exists g :: g in tGens && m.traffic == Prune(g, m.users)
    ensures Main !in uImg.dir ==> m == Mem(map[], map[])
    ensures Main !in tImg.dir ==> m.traffic == map[]
  {
    forall d | Some(d) in uDocs
      ensures ValidUsersFile(d)
    {
      var g :| g in uGens && IsListOf(d.users, g);
      UsersRoundTrip(Mem(g, map[]), d.users);
    }
    LoaderRecoversExactly(u, uDocs, uImg, ValidUsersFile);
    LoaderRecoversExactly(t, tDocs, tImg, ValidTrafficFile);
    if Main in uImg.dir {
      var d := LoadWithFallback(uImg).value;
      var g :| g in uGens && IsListOf(d.users, g);
      UsersRoundTrip(Mem(g, map[]), d.users);
    }
    if Main in tImg.dir {
      var d := LoadWithFallback(tImg).value;
      var g :| g in tGens && IsFileForm(d.users, g);
      var counters :| Normalizes(d.users, counters) && m.traffic == Prune(counters, m.users);
      TrafficRoundTrip(g, d.users, counters);
    }
  }

  // ---- NewStore ----------------------------------------------------------------------------

  // How the saves during start-up end, and whether every node has or gets its key pair.
  datatype Saves = Saves(keys: bool, keysChanged: bool, node: bool, users: bool)

  // The data directory, which has to be there or be made, and then the loaders in turn, each
  // saving again what it had to make up or recover, then pruning. Nothing that happens to
  // traffic.json can fail it.
  method NewStore<N, S>(made: bool, node: NodeStart<N, S>, users: Loaded<UsersFile>, traffic: Loaded<TrafficFile>,
                        saves: Saves)
    returns (r: Option<(NodeConfig<N, S>, Mem)>)
    ensures r.Some? <==>
      && made && node.Node? && saves.keys && !users.Failed?
      && (node.config.Fresh? || node.fromBackup || saves.keysChanged ==> saves.node)
      && (users.Missing? || users.fromBackup ==> saves.users)
    ensures r.Some? ==> r.value.0 == node.config && StartsWith(users, traffic, r.value.1)
  {
    if !made {
      return None;
    }
    if node.NodeFailed? || !saves.keys {
      return None;
    }
    if (node.config.Fresh? || node.fromBackup || saves.keysChanged) && !saves.node {
      return None;
    }
    if users.Failed? {
      return None;
    }
    if (users.Missing? || users.fromBackup) && !saves.users {
      return None;
    }
    var byId := map[];
    if users.Loaded? {
      byId := UsersOf(users.doc.users);
    }
    var counters := map[];
    if traffic.Loaded? {
      counters := NormalizeTrafficFile(traffic.doc);
    }
    r := Some((node.config, Mem(byId, Prune(counters, byId))));
  }

  // ---- the state in which the concurrent store starts --------------------------------------

  // What NewStore leaves in memory and on disk: users.json as it was found, or saved again;
  // traffic.json likewise, except that its save may fail. `before` is what path and path.bak
  // of traffic.json held.
  ghost predicate StartedUp(users: Loaded<UsersFile>, traffic: Loaded<TrafficFile>, counters: map<int, Traffic>,
                            before: Files<map<int, Traffic>>, io: Io, s: M.System) {
    && (users.Loaded? ==> ValidUsersFile(users.doc)) && StartsWith(users, traffic, s.mem)
    && CountersOf(traffic, counters) && s.mem.traffic == Prune(counters, s.mem.users)
    && s.saveMu.None? && s.pcs == map[] && s.undisturbed && !s.dirty && s.history == [s.mem.users] && s.refreshed == 0
    && s.users.main.Some? && s.users.main.value.version == 0
    && (if users.Loaded? && !users.fromBackup then s.users.main.value.list == users.doc.users
        else IsListOf(s.users.main.value.list, s.mem.users))
    && (s.users.bak.Some? ==> s.users.bak.value.version == M.NO_VERSION)
    && (traffic.Loaded? ==>
          if traffic.fromBackup then before == Files(Some(map[]), Some(counters)) else before.main == Some(counters))
    && s.traffic == (if traffic.Missing? || (traffic.Loaded? && traffic.fromBackup) then Save(before, counters, io) else before)
  }

  // Saving recovered counters again puts them on disk: as the new document, or by a failing
  // write that restores the backup they came from.
  predicate ResaveReaches(before: Files<map<int, Traffic>>, io: Io) {
    (StageOk(io) && (io.stat ==> io.backup) && io.promote) || Overwrites(before, io)
  }

  // The concurrent store starts as its theorems assume -- unless counters were recovered from
  // the backup and saving them again does not put them on disk: exactly then they are in
  // memory only although the dirty flag is clear.
  lemma StartIsInit(users: Loaded<UsersFile>, traffic: Loaded<TrafficFile>, counters: map<int, Traffic>,
                    before: Files<map<int, Traffic>>, io: Io, s: M.System)
    requires StartedUp(users, traffic, counters, before, io, s)
    ensures M.Init(s) <==> !(traffic.Loaded? && traffic.fromBackup) || s.mem.traffic == map[] || ResaveReaches(before, io)
  {
    StartIsReachable(users, traffic, counters, s.mem);
    if !(users.Loaded? && !users.fromBackup) {
      UsersRoundTrip(s.mem, s.users.main.value.list);
    }
    StartIsCovered(users, traffic, counters, before, io, s);
  }

  lemma StartIsCovered(users: Loaded<UsersFile>, traffic: Loaded<TrafficFile>, counters: map<int, Traffic>,
                       before: Files<map<int, Traffic>>, io: Io, s: M.System)
    requires StartedUp(users, traffic, counters, before, io, s)
    ensures M.Covered(s.mem.traffic, M.OnDisk(s)) <==>
      !(traffic.Loaded? && traffic.fromBackup) || s.mem.traffic == map[] || ResaveReaches(before, io)
  {
    PrunedIsCovered(counters, s.mem.users);
    if traffic.Loaded? && traffic.fromBackup {
      ResavedOnDisk(counters, io);
      if !ResaveReaches(before, io) && M.Covered(s.mem.traffic, map[]) {
        CoveredByNothing(s.mem.traffic);
      }
    }
  }

  lemma PrunedIsCovered(counters: map<int, Traffic>, users: map<int, User>)
    ensures M.Covered(Prune(counters, users), counters)
  {
  }

  // What the loader would find in traffic.json once the counters of the backup were saved again.
  lemma ResavedOnDisk(counters: map<int, Traffic>, io: Io)
    ensures var before := Files(Some(map[]), Some(counters)); var after := Save(before, counters, io).main;
      if ResaveReaches(before, io) then after == Some(counters) else after == Some(map[]) || after == None
  {
  }

  lemma StartIsReachable(users: Loaded<UsersFile>, traffic: Loaded<TrafficFile>, counters: map<int, Traffic>, m: Mem)
    requires (users.Loaded? ==> ValidUsersFile(users.doc)) && StartsWith(users, traffic, m)
    requires CountersOf(traffic, counters) && m.traffic == Prune(counters, m.users)
    ensures Reachable(m)
  {
    if users.Loaded? {
      ListedAreReachable(users.doc.users);
    }
    PrunedIsReachable(m.users, counters);
    assert m == Mem(m.users, Prune(counters, m.users));
  }

  lemma ListedAreReachable(list: seq<User>)
    requires ValidList(list)
    ensures Reachable(Mem(UsersOf(list), map[]))
  {
    ReplaceUsersKeepsReachable(Mem(map[], map[]), list);
    assert Prune(map[], UsersOf(list)) == map[];
  }

  lemma PrunedIsReachable(users: map<int, User>, counters: map<int, Traffic>)
    requires Reachable(Mem(users, map[]))
    requires forall id :: id in counters ==> counters[id].up >= 0 && counters[id].down >= 0
    ensures Reachable(Mem(users, Prune(counters, users)))
  {
  }

  // Then nothing is in flight and the flag is clear, so nothing is going to save them.
  lemma RecoveredCountersUnsaved(users: Loaded<UsersFile>, traffic: Loaded<TrafficFile>, counters: map<int, Traffic>,
                                 before: Files<map<int, Traffic>>, io: Io, s: M.System)
    requires StartedUp(users, traffic, counters, before, io, s)
    requires traffic.Loaded? && traffic.fromBackup && !ResaveReaches(before, io) && s.mem.traffic != map[]
    ensures M.Quiescent(s) && !s.dirty && !M.Covered(s.mem.traffic, M.OnDisk(s))
  {
    StartIsCovered(users, traffic, counters, before, io, s);
  }

  lemma CoveredByNothing(counters: map<int, Traffic>)
    requires M.Covered(counters, map[])
    ensures counters == map[]
  {
    assert forall id :: id !in counters;
  }
}
