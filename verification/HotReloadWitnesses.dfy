/** Runs of the hot-reload protocol after which a refresh does not bring the files' settings in. */
module HotReloadWitnesses {
  import opened HotReload
  import opened HotReloadTheorems

  /** n undisturbed steps of the reading thread. */
  ghost function Advances(s: State, n: nat): State
    decreases n
  {
    if n == 0 then s else Advances(Next(s, Advance(false)), n - 1)
  }

  lemma {:induction false} AdvancesReach(s: State, n: nat)
    requires Reachable(s)
    ensures Reachable(Advances(s, n))
    decreases n
  {
    hide Reachable, Next;
    if n > 0 {
      StepReaches(s, Advance(false));
      AdvancesReach(Next(s, Advance(false)), n - 1);
    }
  }

  /** A step that stays inside the call for the current path. */
  lemma CallRuns(s: State, call: Call)
    requires s.pc.Loading? && |s.pc.staged| < |s.paths| && !s.pc.call.AtStore?
    requires var p := s.paths[|s.pc.staged|];
      AdvanceCall(History(s.files, p), s.cache, p, s.pc.call, false) == (Running(call), s.cache)
    ensures Next(s, Advance(false)) == s.(pc := Loading(s.pc.boot, s.pc.staged, call))
  {
    hide AdvanceCall;
  }

  /** Five steps load a file that is not in the cache. */
  lemma LoadsFile(s: State, settings: Settings)
    requires s.pc.Loading? && |s.pc.staged| < |s.paths| && s.pc.call == AtStat
    requires var p := s.paths[|s.pc.staged|];
      p !in s.cache && ContentAt(History(s.files, p), Now(s.files, p), Json(settings))
    ensures var p := s.paths[|s.pc.staged|];
      var s' := Advances(s, 5);
      && s'.pc == Loading(s.pc.boot, s.pc.staged + [Doc(settings, Now(s.files, p))], AtStat)
      && s' == s.(pc := s'.pc, cache := s'.cache, early := s'.early, lastAnswer := s'.lastAnswer)
      && s'.cache.Keys == s.cache.Keys + {p}
  {
    var p, v := s.paths[|s.pc.staged|], Now(s.files, s.paths[|s.pc.staged|]);
    var Loading(boot, staged, _) := s.pc;
    var s1 := s.(pc := Loading(boot, staged, AtLookup(Stamp(v), v)));
    var s2 := s.(pc := Loading(boot, staged, AtRead(v)));
    var s3 := s.(pc := Loading(boot, staged, AtRestat(Json(settings), v, v)));
    var s4 := s.(pc := Loading(boot, staged, AtStore(Stamp(v), Json(settings), v, v)));
    hide Next;
    CallRuns(s, s1.pc.call);
    CallRuns(s1, s2.pc.call);
    CallRuns(s2, s3.pc.call);
    CallRuns(s3, s4.pc.call);
    LoadEnds(s4, v, settings);
    assert Advances(s, 5) == Advances(s1, 4) == Advances(s2, 3);
    assert Advances(s2, 3) == Advances(s3, 2) == Advances(s4, 1) == Advances(Next(s4, Advance(false)), 0);
  }

  lemma LoadEnds(s: State, v: nat, settings: Settings)
    requires s.pc.Loading? && |s.pc.staged| < |s.paths| && s.pc.call == AtStore(Stamp(v), Json(settings), v, v)
    ensures var p, s' := s.paths[|s.pc.staged|], Next(s, Advance(false));
      && s'.pc == Loading(s.pc.boot, s.pc.staged + [Doc(settings, v)], AtStat)
      && s' == s.(pc := s'.pc, cache := s'.cache, early := s'.early, lastAnswer := s'.lastAnswer)
      && s'.cache.Keys == s.cache.Keys + {p}
  {
  }

  /** The constructor with one settings file that says `settings`, up to its snapshot. */
  ghost function LoadedOnce(settings: Settings): State {
    Advances(Next(Init(["user"], map[], map[]), Write("user", Json(settings))), 5)
  }

  lemma LoadedOnceIs(settings: Settings)
    ensures var s := LoadedOnce(settings);
      && Reachable(s) && s.paths == ["user"] && s.files == map["user" := [Absent, Present(Json(settings))]]
      && s.pc == Loading(true, [Doc(settings, 1)], AtStat) && s.snapVersion == map[] && s.snapshot == map[]
  {
    InitReachable(["user"], map[], map[]);
    StepReaches(Init(["user"], map[], map[]), Write("user", Json(settings)));
    var s := Next(Init(["user"], map[], map[]), Write("user", Json(settings)));
    AdvancesReach(s, 5);
    hide Reachable;
    assert History(s.files, "user") == [Absent, Present(Json(settings))];
    hide Next;
    LoadsFile(s, settings);
  }

  /** Three steps take the constructor's snapshot of its one file. */
  lemma SnapshotsOnce(s: State, v: nat)
    requires s.paths == ["user"] && s.pc.Loading? && s.pc.boot && |s.pc.staged| == 1
    requires Now(s.files, "user") == v && History(s.files, "user")[v].Present?
    ensures var s' := Advances(s, 3);
      && s'.pc == Idle && s'.loaded == s.pc.staged && s'.paths == s.paths && s'.files == s.files
      && s'.snapshot == map["user" := Stamp(v)] && s'.cache == s.cache && s'.snapVersion == map["user" := v]
      && s'.synced == (v <= s.pc.staged[0].version)
  {
    hide CacheSettled;
    var s1 := Next(s, Advance(false));
    assert s1 == s.(pc := Snapshotting(true, s.pc.staged, 0, map[], map[]));
    var s2 := Next(s1, Advance(false));
    assert s2 == s.(pc := Snapshotting(true, s.pc.staged, 1, map["user" := Stamp(v)], map["user" := v]));
    var s3 := Next(s2, Advance(false));
    assert s3 == CommitBoot(s2);
    hide Next;
    assert Advances(s, 3) == Advances(s1, 2) == Advances(s2, 1) == Advances(s3, 0);
  }

  /** The constructor loads before it snapshots: a write in between is already in the first snapshot, so
      a later refresh has nothing to detect. */
  lemma ConstructorRace() returns (s: State)
    ensures Reachable(s) && s.pc.Idle? && !s.synced && !Detects(s) && Ready(s)
    ensures !Converged(QuietRefresh(s))
  {
    LoadedOnceIs(1);
    var t := LoadedOnce(1);
    var u := Next(t, Write("user", Json(2)));
    StepReaches(t, Write("user", Json(2)));
    AdvancesReach(u, 3);
    hide Reachable;
    assert History(u.files, "user") == [Absent, Present(Json(1)), Present(Json(2))];
    SnapshotsOnce(u, 2);
    s := Advances(u, 3);
    assert FingerprintNow(s.files, "user") == Stamp(2);
    StaleStays(s);
  }

  /** Nothing to detect and something not loaded: a refresh cannot help. */
  lemma StaleStays(s: State)
    requires Reachable(s) && s.pc.Idle? && !Detects(s)
    requires |s.paths| > 0 && |s.loaded| > 0 && DataNow(History(s.files, s.paths[0])) != Json(s.loaded[0].settings)
    ensures !Converged(QuietRefresh(s))
  {
    QuietRefreshOutcome(s);
    hide QuietRefresh, Detects, Reachable;
  }

  /** A refresh whose load fails has already advanced the snapshot: the change is not seen again. */
  lemma FailedLoadForgetsChange() returns (s: State)
    ensures Reachable(s) && s.pc.Idle? && !s.synced && !Detects(s) && Ready(s)
    ensures !Converged(QuietRefresh(s))
  {
    LoadedOnceIs(1);
    var t := LoadedOnce(1);
    AdvancesReach(t, 3);
    SnapshotsOnce(t, 1);
    var idle := Advances(t, 3);
    var u := Next(idle, Write("user", Json(2)));
    StepReaches(idle, Write("user", Json(2)));
    assert History(u.files, "user") == [Absent, Present(Json(1)), Present(Json(2))];
    s := FailingRefresh(u);
    StaleStays(s);
  }

  lemma FailingRefresh(u: State) returns (s: State)
    requires Reachable(u) && u.pc.Idle? && u.paths == ["user"] && u.loaded == [Doc(1, 1)]
    requires History(u.files, "user") == [Absent, Present(Json(1)), Present(Json(2))]
    requires u.snapshot == map["user" := Stamp(1)]
    ensures Reachable(s) && s.pc.Idle? && !s.synced && s.paths == u.paths && s.loaded == u.loaded && s.files == u.files
    ensures s.snapshot == map["user" := Stamp(2)]
    ensures !Detects(s) && Ready(s)
  {
    hide Reachable;
    var u1 := Next(u, StartRefresh);
    StepReaches(u, StartRefresh);
    var u2 := Next(u1, Advance(false));
    StepReaches(u1, Advance(false));
    var u3 := Next(u2, Advance(false));
    StepReaches(u2, Advance(false));
    s := Next(u3, Advance(true));
    StepReaches(u3, Advance(true));
    assert u2 == u.(pc := Snapshotting(false, [], 1, map["user" := Stamp(2)], map["user" := 2]));
    DetectsOne(u2);
    assert FingerprintNow(s.files, "user") == Stamp(2);
  }

  lemma DetectsOne(s: State)
    requires s.snapshot == map["user" := Stamp(1)] && s.paths == ["user"]
    requires s.pc == Snapshotting(false, [], 1, map["user" := Stamp(2)], map["user" := 2])
    ensures var s' := Next(s, Advance(false));
      && s'.pc == Loading(false, [], AtStat) && !s'.synced && s'.snapshot == map["user" := Stamp(2)]
      && s'.loaded == s.loaded && s'.files == s.files && s'.paths == s.paths
      && Next(s', Advance(true)) == s'.(pc := Idle)
  {
    assert "user" in s.snapshot.Keys + s.pc.next.Keys;
  }

  // ---------- A cache poisoned by the constructor ----------

  const POISON: Entry := Entry(Stamp(2), Json(1), 1)

  /** A write between the constructor's read and its second stat: the old bytes are cached under the new
      fingerprint, and the first snapshot takes that fingerprint. A refresh detects nothing, and a later read
      serves the old bytes. */
  lemma PoisonedConstructor() returns (s: State)
    ensures Reachable(s) && s.pc.Idle? && !Detects(s) && Ready(s)
    ensures "user" in s.cache && Poisoned(s.cache["user"])
    ensures s.cache["user"].fp == Lookup(s.snapshot, "user") == FingerprintNow(s.files, "user")
    ensures !Converged(QuietRefresh(s))
    ensures var served := Advances(Next(s, StartRead("user")), 2);
      Reachable(served) && served.lastAnswer == Answer("user", Json(1), 1, 2, true)
  {
    var t := StoresPoison();
    AdvancesReach(t, 3);
    hide Reachable, Ready;
    SnapshotsOnce(t, 2);
    s := Advances(t, 3);
    hide Advances;
    assert FingerprintNow(s.files, "user") == Stamp(2);
    OneIsReady(s);
    StaleStays(s);
    ServesPoison(s);
  }

  lemma OneIsReady(s: State)
    requires s.paths == ["user"] && s.snapshot == map["user" := Stamp(2)]
    requires s.files == map["user" := [Absent, Present(Json(1)), Present(Json(2))]]
    ensures Ready(s) && !Detects(s)
  {
    assert FingerprintNow(s.files, "user") == Stamp(2);
  }

  /** The constructor up to its read. */
  lemma ReadsOne() returns (t: State)
    ensures Reachable(t) && t.paths == ["user"] && t.pc == Loading(true, [], AtRestat(Json(1), 1, 1))
    ensures t.files == map["user" := [Absent, Present(Json(1))]] && t.cache == map[]
  {
    var s0 := Init(["user"], map["user" := [Absent, Present(Json(1))]], map[]);
    InitReachable(s0.paths, s0.files, map[]);
    hide Reachable, Next;
    CallRuns(s0, AtLookup(Stamp(1), 1));
    var s1 := StepOn(s0);
    CallRuns(s1, AtRead(1));
    var s2 := StepOn(s1);
    CallRuns(s2, AtRestat(Json(1), 1, 1));
    t := StepOn(s2);
  }

  /** The constructor up to the end of its load. */
  lemma StoresPoison() returns (t: State)
    ensures Reachable(t) && t.paths == ["user"] && t.pc == Loading(true, [Doc(1, 1)], AtStat)
    ensures t.files == map["user" := [Absent, Present(Json(1)), Present(Json(2))]] && t.cache == map["user" := POISON]
  {
    var s3 := ReadsOne();
    hide Reachable, Next;
    StepReaches(s3, Write("user", Json(2)));
    WritesTwo(s3);
    var s4 := Next(s3, Write("user", Json(2)));
    CallRuns(s4, AtStore(Stamp(2), Json(1), 1, 1));
    var s5 := StepOn(s4);
    StoreEnds(s5);
    t := StepOn(s5);
  }

  lemma StepOn(s: State) returns (s': State)
    requires Reachable(s)
    ensures s' == Next(s, Advance(false)) && Reachable(s')
  {
    StepReaches(s, Advance(false));
    s' := Next(s, Advance(false));
  }

  lemma WritesTwo(s: State)
    requires s.files == map["user" := [Absent, Present(Json(1))]]
    ensures Next(s, Write("user", Json(2))) ==
            s.(files := map["user" := [Absent, Present(Json(1)), Present(Json(2))]])
  {
    assert [Absent, Present(Json(1))] + [Present(Json(2))] == [Absent, Present(Json(1)), Present(Json(2))];
  }

  lemma StoreEnds(s: State)
    requires s.pc == Loading(true, [], AtStore(Stamp(2), Json(1), 1, 1)) && s.paths == ["user"]
    ensures var s' := Next(s, Advance(false));
      && s'.pc == Loading(true, [Doc(1, 1)], AtStat) && s'.cache == s.cache["user" := POISON]
      && s'.paths == s.paths && s'.files == s.files
  {
  }

  lemma ServesPoison(s: State)
    requires Reachable(s) && s.pc.Idle? && s.cache == map["user" := POISON]
    requires s.files == map["user" := [Absent, Present(Json(1)), Present(Json(2))]]
    ensures var served := Advances(Next(s, StartRead("user")), 2);
      Reachable(served) && served.lastAnswer == Answer("user", Json(1), 1, 2, true)
  {
    hide Reachable;
    StepReaches(s, StartRead("user"));
    var s1 := Next(s, StartRead("user"));
    AdvancesReach(s1, 2);
    var s2 := Next(s1, Advance(false));
    assert s2 == s1.(pc := Reading("user", AtLookup(Stamp(2), 2)));
    assert Next(s2, Advance(false)).lastAnswer == Answer("user", Json(1), 1, 2, true);
    hide Next;
    assert Advances(s1, 2) == Advances(s2, 1) == Advances(Next(s2, Advance(false)), 0);
  }

  /** A poisoned entry that another reader left behind: even an undisturbed constructor loads the old bytes,
      and the next refresh detects nothing. */
  lemma InheritedPoison() returns (s: State)
    ensures Reachable(s) && s.pc.Idle? && Ready(s) && !Detects(s) && !s.synced && !LoadedFresh(s)
    ensures s == Finish(Init(["user"], s.files, map["user" := POISON]))
    ensures !Converged(s) && !Converged(QuietRefresh(s))
  {
    var files: Files := map["user" := [Absent, Present(Json(1)), Present(Json(2))]];
    var paths, cache := ["user"], map["user" := POISON];
    assert CacheOk(files, cache);
    InitReachable(paths, files, cache);
    QuietConstructor(paths, files, cache);
    hide Reachable, Finish;
    FinishReaches(Init(paths, files, cache));
    s := Finish(Init(paths, files, cache));
    assert Meets(files, cache, paths[0]) == Json(1) && DataNow(History(files, paths[0])) == Json(2);
    assert MeetsVersion(files, cache, paths[0]) == 1 && Now(files, paths[0]) == 2;
    hide Converged, LoadedFresh, Detects, Met, QuietRefresh;
    ConvergesExactly(s);
  }

  // ---------- A file that comes and goes between two snapshots ----------

  const TWO: seq<Path> := ["user", "project"]

  /** The constructor when neither file exists. */
  lemma BootsEmpty() returns (s: State)
    ensures Reachable(s) && s.pc.Idle? && s.synced && s.paths == TWO && s.files == map[] && s.cache == map[]
    ensures s.snapshot == map["user" := NoFile, "project" := NoFile]
    ensures s.snapVersion == map["user" := 0, "project" := 0]
  {
    var s0 := Init(TWO, map[], map[]);
    InitReachable(TWO, map[], map[]);
    AdvancesReach(s0, 6);
    s := Advances(s0, 6);
    hide Reachable, Next;
    LoadsNothing(s0);
    var s1 := Next(s0, Advance(false));
    LoadsNothing(s1);
    var s2 := Next(s1, Advance(false));
    assert s2.pc.staged == [Doc(ZERO, 0), Doc(ZERO, 0)];
    BootLoadEnds(s2);
    var s3 := Next(s2, Advance(false));
    SnapshotsEmpty(s3);
    assert Advances(s0, 6) == Advances(s1, 5) == Advances(s2, 4) == Advances(s3, 3);
  }

  /** One step loads a file that was never there. */
  lemma LoadsNothing(s: State)
    requires s.pc.Loading? && |s.pc.staged| < |s.paths| && s.pc.call == AtStat && s.paths[|s.pc.staged|] !in s.files
    ensures Next(s, Advance(false)) == s.(pc := Loading(s.pc.boot, s.pc.staged + [Doc(ZERO, 0)], AtStat))
  {
  }

  lemma BootLoadEnds(s: State)
    requires s.pc.Loading? && s.pc.boot && |s.pc.staged| == |s.paths|
    ensures Next(s, Advance(false)) == s.(pc := Snapshotting(true, s.pc.staged, 0, map[], map[]))
  {
  }

  /** One step takes the fingerprint of one path. */
  lemma StatsOne(s: State)
    requires s.pc.Snapshotting? && s.pc.k < |s.paths|
    ensures var p := s.paths[s.pc.k];
      Next(s, Advance(false)) ==
      s.(pc := Snapshotting(s.pc.booting, s.pc.docs, s.pc.k + 1, s.pc.next[p := FingerprintNow(s.files, p)],
                            s.pc.nextVersion[p := Now(s.files, p)]))
  {
    hide FingerprintAt;
  }

  lemma SnapshotsEmpty(s: State)
    requires s.pc == Snapshotting(true, [Doc(ZERO, 0), Doc(ZERO, 0)], 0, map[], map[])
    requires s.paths == TWO && s.files == map[] && s.cache == map[]
    ensures var s' := Advances(s, 3);
      && s'.pc.Idle? && s'.synced && s'.paths == TWO && s'.files == map[] && s'.cache == map[]
      && s'.snapshot == map["user" := NoFile, "project" := NoFile] && s'.snapVersion == map["user" := 0, "project" := 0]
  {
    StatsOne(s);
    var s1 := Next(s, Advance(false));
    StatsOne(s1);
    var s2 := Next(s1, Advance(false));
    assert s2.pc.next == map["user" := NoFile, "project" := NoFile]
        && s2.pc.nextVersion == map["user" := 0, "project" := 0];
    var s3 := Next(s2, Advance(false));
    assert s3 == CommitBoot(s2);
    hide Next;
    assert Advances(s, 3) == Advances(s1, 2) == Advances(s2, 1) == Advances(s3, 0);
  }

  /** A refresh up to its load, after the user file was created. */
  lemma DetectsUser(s: State) returns (r: State)
    requires Reachable(s) && s.pc.Idle? && s.paths == TWO && s.files == map["user" := [Absent, Present(Json(1))]]
    requires s.snapshot == map["user" := NoFile, "project" := NoFile]
    ensures Reachable(r) && r.pc == Loading(false, [], AtStat) && r.cache == map[] && r.files == s.files
    ensures r.paths == TWO
    ensures r.snapshot == map["user" := Stamp(1), "project" := NoFile]
  {
    hide Reachable;
    var s1 := Next(s, StartRefresh);
    StepReaches(s, StartRefresh);
    hide Next;
    StatsOne(s1);
    var s2 := Next(s1, Advance(false));
    StepReaches(s1, Advance(false));
    StatsOne(s2);
    var s3 := Next(s2, Advance(false));
    StepReaches(s2, Advance(false));
    assert s3.pc.next == map["user" := Stamp(1), "project" := NoFile];
    assert "user" in s3.snapshot.Keys + s3.pc.next.Keys;
    CommitDrops(s3);
    r := Next(s3, Advance(false));
    StepReaches(s3, Advance(false));
  }

  lemma CommitDrops(s: State)
    requires s.pc.Snapshotting? && !s.pc.booting && s.pc.k == |s.paths| && Changed(s.snapshot, s.pc.next)
    ensures var s' := Next(s, Advance(false));
      && s'.pc == Loading(false, [], AtStat) && s'.cache == map[] && s'.files == s.files && s'.paths == s.paths
      && s'.snapshot == s.pc.next
  {
    hide Changed, Versions;
  }

  /** The load: the project file is created once the user file is in. */
  lemma LoadsBoth(s: State) returns (r: State)
    requires Reachable(s) && s.pc == Loading(false, [], AtStat) && s.cache == map[] && s.paths == TWO
    requires s.files == map["user" := [Absent, Present(Json(1))]]
    ensures Reachable(r) && r.pc.Idle? && r.synced && r.paths == TWO && r.snapshot == s.snapshot
    ensures r.loaded == [Doc(1, 1), Doc(7, 1)]
    ensures r.files == map["user" := [Absent, Present(Json(1))], "project" := [Absent, Present(Json(7))]]
  {
    AdvancesReach(s, 5);
    hide Reachable, Inv, FingerprintAt;
    LoadsFile(s, 1);
    var s1 := Advances(s, 5);
    var s2 := Next(s1, Write("project", Json(7)));
    StepReaches(s1, Write("project", Json(7)));
    WritesProject(s1);
    r := LoadsProject(s2);
  }

  lemma WritesProject(s: State)
    requires s.files == map["user" := [Absent, Present(Json(1))]]
    ensures Next(s, Write("project", Json(7))) ==
            s.(files := map["user" := [Absent, Present(Json(1))], "project" := [Absent, Present(Json(7))]])
  {
    assert [Absent] + [Present(Json(7))] == [Absent, Present(Json(7))];
  }

  lemma LoadsProject(s: State) returns (r: State)
    requires Reachable(s) && s.pc == Loading(false, [Doc(1, 1)], AtStat) && "project" !in s.cache && s.paths == TWO
    requires s.files == map["user" := [Absent, Present(Json(1))], "project" := [Absent, Present(Json(7))]]
    ensures Reachable(r) && r.pc.Idle? && r.synced && r.paths == TWO && r.snapshot == s.snapshot && r.files == s.files
    ensures r.loaded == [Doc(1, 1), Doc(7, 1)]
  {
    AdvancesReach(s, 5);
    hide Reachable, Inv, FingerprintAt;
    LoadsFile(s, 7);
    var s' := Advances(s, 5);
    hide Advances, Next, History;
    StepReaches(s', Advance(false));
    ReloadEnds(s');
    r := Next(s', Advance(false));
  }

  lemma ReloadEnds(s: State)
    requires s.pc.Loading? && !s.pc.boot && |s.pc.staged| == |s.paths|
    ensures Next(s, Advance(false)) == s.(loaded := s.pc.staged, synced := true, pc := Idle)
  {
  }

  /** A file created after a snapshot, loaded, and deleted before the next one: both snapshots say that
      there is no file, so its settings stay loaded, although every refresh succeeded. */
  lemma VanishedFileStays() returns (s: State)
    ensures Reachable(s) && s.pc.Idle? && s.synced && Ready(s) && !Detects(s)
    ensures |s.loaded| == |s.paths| && !NoneVanished(s)
    ensures !Converged(QuietRefresh(s))
  {
    var s0 := BootsEmpty();
    hide Reachable, QuietRefresh, Detects, NoneVanished, Ready;
    CreatesUser(s0);
    var s1 := Next(s0, Write("user", Json(1)));
    StepReaches(s0, Write("user", Json(1)));
    var s2 := DetectsUser(s1);
    var s3 := LoadsBoth(s2);
    DeletesProject(s3);
    s := Next(s3, Delete("project"));
    StepReaches(s3, Delete("project"));
    hide Next;
    Vanished(s);
    ConvergesExactly(s);
  }

  lemma CreatesUser(s: State)
    requires s.files == map[]
    ensures Next(s, Write("user", Json(1))) == s.(files := map["user" := [Absent, Present(Json(1))]])
  {
    assert [Absent] + [Present(Json(1))] == [Absent, Present(Json(1))];
  }

  lemma DeletesProject(s: State)
    requires s.files == map["user" := [Absent, Present(Json(1))], "project" := [Absent, Present(Json(7))]]
    ensures Next(s, Delete("project")) ==
            s.(files := map["user" := [Absent, Present(Json(1))], "project" := [Absent, Present(Json(7)), Absent]])
  {
    assert [Absent, Present(Json(7))] + [Absent] == [Absent, Present(Json(7)), Absent];
  }

  lemma Vanished(s: State)
    requires s.files == map["user" := [Absent, Present(Json(1))], "project" := [Absent, Present(Json(7)), Absent]]
    requires s.paths == TWO && s.snapshot == map["user" := Stamp(1), "project" := NoFile]
    requires s.loaded == [Doc(1, 1), Doc(7, 1)]
    ensures Ready(s) && !Detects(s) && !NoneVanished(s)
  {
    assert FingerprintNow(s.files, "user") == Stamp(1) && FingerprintNow(s.files, "project") == NoFile;
    assert s.paths[1] == "project" && s.loaded[1].settings == 7;
  }
}
