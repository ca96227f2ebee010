/** The configuration that holds the loaded settings, and its refresh
    (internal/conversation/mcp_config.go), proved to take exactly the steps of the protocol. */
module McpConfig {
  import opened Text
  import opened HotReload
  import opened HotReloadTheorems
  import opened SettingsFiles

  function SettingsOf(docs: seq<Doc>): seq<Settings> {
    seq(|docs|, i requires 0 <= i < |docs| => docs[i].settings)
  }

  /** loadOptionalSettings for each path in turn; `s'` is where the protocol is then. */
  method LoadSettingsFiles(cache: SettingsFileCache, world: World, paths: seq<Path>, ghost s: State)
    returns (docs: Option<seq<Doc>>, ghost s': State)
    requires s.pc.Loading? && s.pc.staged == [] && s.pc.call == AtStat
    requires s.paths == paths && s.files == world.files && s.cache == cache.files
    modifies cache, world
    ensures Refreshing(s) && Refreshing(s') && Under(s, world.at, old(world.t)) == Under(s', world.at, world.t)
    ensures s' ==
            s.(files := world.files, cache := cache.files, early := s'.early, lastAnswer := s'.lastAnswer, pc := s'.pc)
    ensures s'.pc == if docs.Some? then Loading(s.pc.boot, docs.value, AtStat) else GaveUp(s.pc)
    ensures docs.Some? ==> |docs.value| == |paths|
  {
    hide Under;
    var staged: seq<Doc> := [];
    s' := s;
    for k := 0 to |paths|
      invariant |staged| == k && s'.pc == Loading(s.pc.boot, staged, AtStat)
      invariant s' == s.(files := world.files, cache := cache.files, early := s'.early,
                         lastAnswer := s'.lastAnswer, pc := s'.pc)
      invariant Under(s, world.at, old(world.t)) == Under(s', world.at, world.t)
    {
      s' := CallIsUnder(s', world.at, world.t);
      var outcome := cache.ReadSettingsFile(paths[k], world);
      match outcome {
        case NotExist(version) => staged := staged + [Doc(ZERO, version)];
        case Got(Json(settings), readAt, _, _) => staged := staged + [Doc(settings, readAt)];
        case Got(Malformed, _, _, _) => return None, s';
        case IOError => return None, s';
      }
    }
    docs := Some(staged);
  }

  /** The steps of one call, taken together. */
  lemma {:induction false} CallIsUnder(s: State, at: nat -> Instant, t: nat) returns (s': State)
    requires s.pc.Loading? && |s.pc.staged| < |s.paths|
    ensures var p := s.paths[|s.pc.staged|];
      var end := CallUnder(s.files, s.cache, p, s.pc.call, at, t);
      && s' == s.(files := end.files, cache := end.cache, early := s'.early,
                  lastAnswer := Answered(p, end.progress, s.lastAnswer),
                  pc := LoadOn(s.pc.boot, s.pc.staged, end.progress))
      && Refreshing(s) && Refreshing(s') && Under(s, at, t) == Under(s', at, end.t)
    decreases Rank(s.pc.call)
  {
    hide Under, CallUnder, AdvanceCall, EarlyAfter;
    var p, files := s.paths[|s.pc.staged|], Written(s.files, at(t).writes);
    CallUnderSteps(s.files, s.cache, p, s.pc.call, at, t);
    UnderStep(s, at, t);
    LoadActs(s, at(t));
    var (progress, cache) := AdvanceCall(History(files, p), s.cache, p, s.pc.call, at(t).fails);
    CallProgresses(History(files, p), s.cache, p, s.pc.call, at(t).fails);
    s' := Act(s, at(t));
    if progress.Running? {
      s' := CallIsUnder(s', at, t + 1);
    }
  }

  lemma LoadActs(s: State, i: Instant)
    requires s.pc.Loading? && |s.pc.staged| < |s.paths|
    ensures var files, p := Written(s.files, i.writes), s.paths[|s.pc.staged|];
      var (progress, cache) := AdvanceCall(History(files, p), s.cache, p, s.pc.call, i.fails);
      Act(s, i) == s.(files := files, cache := cache, early := EarlyAfter(s.early, p, s.pc.call, s.pc.boot),
                      lastAnswer := Answered(p, progress, s.lastAnswer), pc := LoadOn(s.pc.boot, s.pc.staged, progress))
  {
    hide AdvanceCall, LoadOn, Answered, Written, EarlyAfter;
  }

  lemma LoadEndActs(s: State, i: Instant)
    requires s.pc.Loading? && |s.pc.staged| == |s.paths|
    ensures var files := Written(s.files, i.writes);
      Act(s, i) == if s.pc.boot then s.(files := files, pc := Snapshotting(true, s.pc.staged, 0, map[], map[]))
                   else s.(files := files, loaded := s.pc.staged, synced := true, pc := Idle)
  {
    hide Written;
  }

  class MCPConfig {
    const paths: seq<Path>
    const cache: SettingsFileCache
    const detector: Detector
    var loaded: seq<Doc>

    /** The protocol's state `s` is that of this object and of the files. */
    ghost predicate Matches(s: State, world: World)
      reads this, cache, detector, world
    {
      && s.pc == Idle && s.paths == paths && s.files == world.files
      && s.cache == cache.files && s.snapshot == detector.snapshot && s.loaded == loaded
    }

    constructor (paths: seq<Path>, cache: SettingsFileCache, detector: Detector, loaded: seq<Doc>)
      ensures this.paths == paths && this.cache == cache && this.detector == detector && this.loaded == loaded
    {
      this.paths, this.cache, this.detector, this.loaded := paths, cache, detector, loaded;
    }

    /** RefreshSettingsFiles, whatever others do meanwhile; `s'` is where the protocol's refresh ends. */
    method RefreshSettingsFiles(world: World, ghost s: State) returns (changed: bool, ok: bool, ghost s': State)
      requires Matches(s, world)
      modifies this, cache, detector, world
      ensures Refreshing(Next(s, StartRefresh))
      ensures (s', world.t) == Under(Next(s, StartRefresh), world.at, old(world.t))
      ensures Matches(s', world)
      ensures changed <==> SettingsOf(loaded) != SettingsOf(old(loaded))
      ensures !ok ==> loaded == old(loaded)
      ensures ok && s.synced ==> s'.synced
      ensures ok && Inv(s) && LoadedFresh(s) ==> LoadedFresh(s')
      ensures Reachable(s) ==> Reachable(s')
    {
      hide Under, Reachable, Inv, LoadedFresh;
      ghost var s0 := Next(s, StartRefresh);
      RefreshReaches(s, world.at, world.t);
      RefreshKeepsFresh(s, world.at, world.t);
      hide Next;
      var changes;
      ok, changes, s' := detector.DetectChanges(cache, world, paths, s0);
      if !ok || |changes| == 0 {
        UnderEnds(s', world.at, world.t);
        return false, ok, s';
      }
      var docs;
      docs, s' := LoadSettingsFiles(cache, world, paths, s');
      if docs.None? {
        UnderEnds(s', world.at, world.t);
        return false, false, s';
      }
      UnderStep(s', world.at, world.t);
      LoadEndActs(s', world.at(world.t));
      s' := Act(s', world.at(world.t));
      hide Act;
      var fails := world.Tick();
      changed := SettingsOf(loaded) != SettingsOf(docs.value);
      loaded := docs.value;
      UnderEnds(s', world.at, world.t);
    }
  }

  /** A refresh that finds no change, or loads, leaves the loaded versions at least the snapshot's. */
  lemma RefreshKeepsFresh(s: State, at: nat -> Instant, t: nat)
    requires s.pc.Idle?
    ensures Refreshing(Next(s, StartRefresh))
    ensures var r := Under(Next(s, StartRefresh), at, t).0;
      Inv(s) && LoadedFresh(s) && (r.synced || !Changed(s.snapshot, r.snapshot)) ==> LoadedFresh(r)
  {
    hide Inv, Under, Fresh, Changed;
    if Inv(s) && LoadedFresh(s) {
      var s0 := Next(s, StartRefresh);
      StepKeepsInv(s, StartRefresh);
      UnderFresh(s, s0, at, t);
      hide Next;
      if Under(s0, at, t).0.synced {
        SyncedIsFresh(Under(s0, at, t).0);
      }
      UnderOver(s0, at, t);
    }
  }

  lemma SyncedIsFresh(s: State)
    requires Inv(s) && s.synced
    ensures LoadedFresh(s)
  {
    hide PcOk, CacheOk, SnapshotOk, AnswerOk, CacheSettled, DocOk, Fresh, WatchOk;
  }

  lemma RefreshReaches(s: State, at: nat -> Instant, t: nat)
    requires s.pc.Idle?
    ensures Refreshing(Next(s, StartRefresh))
    ensures Next(s, StartRefresh) == s.(pc := Snapshotting(false, [], 0, map[], map[]))
    ensures Reachable(s) ==> Reachable(Under(Next(s, StartRefresh), at, t).0)
  {
    hide Reachable, Under;
    if Reachable(s) {
      StepReaches(s, StartRefresh);
      UnderReaches(Next(s, StartRefresh), at, t);
    }
  }

  ghost predicate QuietFrom(at: nat -> Instant, t: nat) {
    forall u: nat | u >= t :: at(u) == Instant([], false)
  }

  lemma {:induction false} QuietUnder(s: State, at: nat -> Instant, t: nat)
    requires Refreshing(s) && QuietFrom(at, t)
    ensures Under(s, at, t).0 == Finish(s)
    decreases Phase(s.pc), Remaining(s), CallsLeft(s.pc)
  {
    hide Next;
    if !Over(s.pc) {
      UnderStep(s, at, t);
      ActProgresses(s, at(t));
      assert s.(files := Written(s.files, [])) == s;
      QuietUnder(Act(s, at(t)), at, t + 1);
    }
  }

  /** Once writes stop, the settings the next refresh leaves equal the files under the exact condition
      of the protocol. */
  lemma RefreshConvergesExactly(s: State, at: nat -> Instant, t: nat)
    requires Reachable(s) && s.pc.Idle? && QuietFrom(at, t)
    ensures Refreshing(Next(s, StartRefresh))
    ensures var r := Under(Next(s, StartRefresh), at, t).0;
      && (Converged(r) <==> if Detects(s) then Ready(s) else Converged(s))
      && (LoadedFresh(s) ==>
          |s.loaded| == |s.paths| && (Converged(r) <==> if Detects(s) then Ready(s) else NoneVanished(s)))
  {
    hide Next, Reachable, Under, Converged, Detects, Ready, LoadedFresh;
    RefreshReaches(s, at, t);
    QuietUnder(Next(s, StartRefresh), at, t);
    ConvergesExactly(s);
  }

  /** An undisturbed constructor, whatever others had cached before. */
  lemma ConstructorConverges(paths: seq<Path>, files: Files, cache: map<Path, Entry>, at: nat -> Instant, t: nat)
    requires CacheOk(files, cache) && QuietFrom(at, t)
    ensures Booted(paths, files, cache, Under(Init(paths, files, cache), at, t).0)
  {
    hide Under, Booted;
    QuietUnder(Init(paths, files, cache), at, t);
    QuietConstructor(paths, files, cache);
  }

  /** The constructor: it loads first and snapshots second. Other readers may have filled the cache before. */
  method LoadMCPConfigFromSettingsFiles(world: World, cache: SettingsFileCache, paths: seq<Path>)
    returns (config: Option<MCPConfig>, ghost s': State)
    requires CacheOk(world.files, cache.files)
    modifies cache, world
    ensures var s0 := Init(paths, old(world.files), old(cache.files));
      Refreshing(s0) && (s', world.t) == Under(s0, world.at, old(world.t)) && Reachable(s')
    ensures config.Some? <==> s'.pc == Idle
    ensures config.Some? ==> fresh(config.value) && fresh(config.value.detector) && config.value.cache == cache
                             && config.value.paths == paths && config.value.Matches(s', world)
  {
    hide Under, Reachable;
    ghost var s0 := Init(paths, world.files, cache.files);
    InitReachable(paths, world.files, cache.files);
    UnderReaches(s0, world.at, world.t);
    var docs;
    docs, s' := LoadSettingsFiles(cache, world, paths, s0);
    if docs.None? {
      UnderEnds(s', world.at, world.t);
      return None, s';
    }
    UnderStep(s', world.at, world.t);
    LoadEndActs(s', world.at(world.t));
    s' := Act(s', world.at(world.t));
    hide Act;
    var fails := world.Tick();
    var detector := new Detector();
    var ok;
    ok, s' := detector.Reset(world, paths, s');
    if !ok {
      return None, s';
    }
    var made := new MCPConfig(paths, cache, detector, docs.value);
    config := Some(made);
  }
}
