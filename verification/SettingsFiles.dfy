/** The reading thread's code in its own imperative form, run beside the protocol it takes part in
    (internal/config/settings_cache.go, internal/config/settings_change_detector.go). */
module SettingsFiles {
  import opened HotReload
  import opened HotReloadTheorems
  import opened FirstSeen

  // ---------- The outside world ----------

  /** What others do until the reading thread acts next, and whether the system call it then makes fails. */
  datatype Instant = Instant(writes: seq<(Path, File)>, fails: bool)

  function Written(files: Files, writes: seq<(Path, File)>): Files
    decreases |writes|
  {
    if writes == [] then files else Written(Append(files, writes[0].0, writes[0].1), writes[1..])
  }

  class World {
    const at: nat -> Instant
    var t: nat
    var files: Files

    constructor (files: Files, at: nat -> Instant)
      ensures this.at == at && t == 0 && this.files == files
    {
      this.at, t, this.files := at, 0, files;
    }

    /** The thread's next system call or critical section. */
    method Tick() returns (fails: bool)
      modifies this
      ensures t == old(t) + 1 && fails == at(old(t)).fails && files == Written(old(files), at(old(t)).writes)
    {
      files := Written(files, at(t).writes);
      fails := at(t).fails;
      t := t + 1;
    }
  }

  /** The protocol: others write, then the reading thread takes a step. */
  ghost function Act(s: State, i: Instant): State {
    Next(s.(files := Written(s.files, i.writes)), Advance(i.fails))
  }

  lemma {:induction false} WritesReach(s: State, writes: seq<(Path, File)>)
    requires Reachable(s)
    ensures Reachable(s.(files := Written(s.files, writes)))
    decreases |writes|
  {
    hide Reachable, Append;
    if writes == [] {
      assert s.(files := s.files) == s;
    } else {
      var (p, f) := writes[0];
      var step := if f.Absent? then Delete(p) else Write(p, f.data);
      StepReaches(s, step);
      WritesReach(Next(s, step), writes[1..]);
    }
  }

  lemma ActReaches(s: State, i: Instant)
    requires Reachable(s)
    ensures Reachable(Act(s, i))
  {
    hide Reachable, Next;
    WritesReach(s, i.writes);
    StepReaches(s.(files := Written(s.files, i.writes)), Advance(i.fails));
  }

  lemma ActProgresses(s: State, i: Instant)
    requires Refreshing(s) && !Over(s.pc)
    ensures Progressed(s, Act(s, i))
  {
    hide Next;
    AdvanceProgresses(s.(files := Written(s.files, i.writes)), i.fails);
  }

  /** The constructor or a refresh, disturbed at will, run to its end; and when that is. */
  ghost function Under(s: State, at: nat -> Instant, t: nat): (State, nat)
    requires Refreshing(s)
    decreases Phase(s.pc), Remaining(s), CallsLeft(s.pc)
  {
    if Over(s.pc) then (s, t)
    else ActProgresses(s, at(t)); Under(Act(s, at(t)), at, t + 1)
  }

  lemma UnderStep(s: State, at: nat -> Instant, t: nat)
    requires Refreshing(s) && !Over(s.pc)
    ensures Refreshing(Act(s, at(t))) && Under(s, at, t) == Under(Act(s, at(t)), at, t + 1)
  {
    hide Act;
    ActProgresses(s, at(t));
  }

  /** Whatever happens meanwhile, it ends, and in a state the theorems speak about. */
  lemma {:induction false} UnderReaches(s: State, at: nat -> Instant, t: nat)
    requires Refreshing(s) && Reachable(s)
    ensures Reachable(Under(s, at, t).0) && Over(Under(s, at, t).0.pc)
    decreases Phase(s.pc), Remaining(s), CallsLeft(s.pc)
  {
    hide Reachable, Act;
    if !Over(s.pc) {
      UnderStep(s, at, t);
      ActProgresses(s, at(t));
      ActReaches(s, at(t));
      UnderReaches(Act(s, at(t)), at, t + 1);
    }
  }

  lemma {:induction false} WritesKeepInv(s: State, writes: seq<(Path, File)>)
    requires Inv(s)
    ensures Inv(s.(files := Written(s.files, writes)))
    decreases |writes|
  {
    hide Inv, Append;
    if writes == [] {
      assert s.(files := s.files) == s;
    } else {
      var (p, f) := writes[0];
      WriteKeepsInv(s, p, f);
      WritesKeepInv(s.(files := Append(s.files, p, f)), writes[1..]);
    }
  }

  lemma {:induction false} UnderOver(s: State, at: nat -> Instant, t: nat)
    requires Refreshing(s)
    ensures Over(Under(s, at, t).0.pc)
    decreases Phase(s.pc), Remaining(s), CallsLeft(s.pc)
  {
    hide Act;
    if !Over(s.pc) {
      UnderStep(s, at, t);
      ActProgresses(s, at(t));
      UnderOver(Act(s, at(t)), at, t + 1);
    }
  }

  /** As long as a refresh that began in `s0` has found no change, the loaded versions stay at least the
      snapshot's. */
  ghost predicate FreshOrChanged(s0: State, s: State) {
    match s.pc
    case Snapshotting(booting, _, k, _, _) => !booting && k <= |s.paths| && s.snapshot == s0.snapshot && LoadedFresh(s)
    case Loading(boot, _, _) => !boot && Changed(s0.snapshot, s.snapshot)
    case Idle => Changed(s0.snapshot, s.snapshot) || LoadedFresh(s)
    case _ => false
  }

  lemma AdvanceFresh(s0: State, s: State, fails: bool)
    requires FreshOrChanged(s0, s) && Inv(s) && Refreshing(s) && !Over(s.pc)
    ensures FreshOrChanged(s0, Next(s, Advance(fails)))
  {
    hide Inv, Changed, Commit, CommitBoot, LoadedFresh, AdvanceSnapshotting, AdvanceLoading;
    if s.pc.Snapshotting? {
      if s.pc.k == |s.paths| {
        CommitFresh(s);
        SnapshotEnds(s, fails);
      } else {
        StatFresh(s, fails);
      }
    } else {
      LoadFresh(s, fails);
    }
  }

  lemma StatFresh(s: State, fails: bool)
    requires LoadedFresh(s) && s.pc.Snapshotting? && !s.pc.booting && s.pc.k < |s.paths|
    ensures var s' := AdvanceSnapshotting(s, fails);
      && LoadedFresh(s') && s'.snapshot == s.snapshot && s'.paths == s.paths
      && (s'.pc.Idle? || (s'.pc.Snapshotting? && !s'.pc.booting && s'.pc.k == s.pc.k + 1))
  {
    hide Fresh, FingerprintAt;
  }

  lemma LoadFresh(s: State, fails: bool)
    requires s.pc.Loading? && !s.pc.boot
    ensures var s' := AdvanceLoading(s, fails);
      s'.snapshot == s.snapshot && (s'.pc.Idle? || (s'.pc.Loading? && !s'.pc.boot))
  {
    hide AdvanceCall, EarlyAfter;
  }

  lemma SnapshotParts(s: State)
    requires Inv(s) && s.pc.Snapshotting? && !s.pc.booting && s.pc.k == |s.paths|
    ensures SnapshotOk(s.files, s.snapshot, s.snapVersion) && s.snapVersion.Keys == Watched(s.paths)
    ensures SnapOk(s.files, s.paths, s.snapVersion, |s.paths|, s.pc.next, s.pc.nextVersion)
  {
    hide SnapshotOk, SnapOk, DocsOk, CacheOk, CacheSettled, AnswerOk, LoadedOk, Watched;
  }

  lemma CommitFresh(s: State)
    requires LoadedFresh(s) && Inv(s) && s.pc.Snapshotting? && !s.pc.booting && s.pc.k == |s.paths|
    ensures var s' := Commit(s);
      s'.snapshot == s.pc.next
      && (if Changed(s.snapshot, s.pc.next) then s'.pc == Loading(false, [], AtStat)
          else s'.pc.Idle? && LoadedFresh(s'))
  {
    SnapshotParts(s);
    hide Inv, Changed, Versions, Fresh, SnapshotOk, SnapOk, Watched;
    VersionsOk(s.files, s.paths, s.snapshot, s.snapVersion, s.pc.next, s.pc.nextVersion);
  }

  lemma {:induction false} UnderFresh(s0: State, s: State, at: nat -> Instant, t: nat)
    requires FreshOrChanged(s0, s) && Inv(s) && Refreshing(s)
    ensures FreshOrChanged(s0, Under(s, at, t).0) && Inv(Under(s, at, t).0)
    decreases Phase(s.pc), Remaining(s), CallsLeft(s.pc)
  {
    if !Over(s.pc) {
      var w := s.(files := Written(s.files, at(t).writes));
      WritesKeepInv(s, at(t).writes);
      assert FreshOrChanged(s0, w);
      hide Inv, FreshOrChanged, Next, Written;
      AdvanceFresh(s0, w, at(t).fails);
      StepKeepsInv(w, Advance(at(t).fails));
      UnderStep(s, at, t);
      ActProgresses(s, at(t));
      UnderFresh(s0, Act(s, at(t)), at, t + 1);
    }
  }

  // ---------- The cache ----------

  datatype CallEnd = CallEnd(progress: Progress, cache: map<Path, Entry>, t: nat, files: Files)

  /** A call of readSettingsFile from `call` on, as steps of the protocol. */
  function CallUnder(files: Files, cache: map<Path, Entry>, p: Path, call: Call, at: nat -> Instant, t: nat)
    : (end: CallEnd)
    ensures !end.progress.Running?
    decreases Rank(call)
  {
    var files' := Written(files, at(t).writes);
    var (progress, cache') := AdvanceCall(History(files', p), cache, p, call, at(t).fails);
    CallProgresses(History(files', p), cache, p, call, at(t).fails);
    if progress.Running? then CallUnder(files', cache', p, progress.call, at, t + 1)
    else CallEnd(progress, cache', t + 1, files')
  }

  lemma CallUnderSteps(files: Files, cache: map<Path, Entry>, p: Path, call: Call, at: nat -> Instant, t: nat)
    ensures var files' := Written(files, at(t).writes);
      var (progress, cache') := AdvanceCall(History(files', p), cache, p, call, at(t).fails);
      CallUnder(files, cache, p, call, at, t) ==
      if progress.Running? then CallUnder(files', cache', p, progress.call, at, t + 1)
      else CallEnd(progress, cache', t + 1, files')
  {
  }

  /** A read that nobody disturbs, whichever of its system calls fail: it fails with the first stat, or with the read
      itself if it gets that far; a second stat that fails only costs the cache entry. */
  lemma ReadFailsExactly(files: Files, cache: map<Path, Entry>, p: Path, at: nat -> Instant, t: nat)
    requires forall u | t <= u :: at(u).writes == []
    ensures var end, now := CallUnder(files, cache, p, AtStat, at, t), Now(files, p);
      var file, hit := History(files, p)[now], p in cache && cache[p].fp == Stamp(now);
      if at(t).fails then end.progress == IOError && end.cache == cache
      else if file.Absent? then end.progress == NotExist(now) && end.cache == cache
      else if hit then end.progress.Got? && end.progress.data == cache[p].data && end.cache == cache
      else if at(t + 2).fails then end.progress == IOError && end.cache == cache
      else end.progress == Got(file.data, now, now, false)
           && end.cache == if at(t + 3).fails then cache else cache[p := Entry(Stamp(now), file.data, now)]
  {
    var now := Now(files, p);
    var file := History(files, p)[now];
    hide CallUnder;
    CallUnderSteps(files, cache, p, AtStat, at, t);
    if file.Present? {
      CallUnderSteps(files, cache, p, AtLookup(Stamp(now), now), at, t + 1);
      CallUnderSteps(files, cache, p, AtRead(now), at, t + 2);
      CallUnderSteps(files, cache, p, AtRestat(file.data, now, now), at, t + 3);
      CallUnderSteps(files, cache, p, AtStore(Stamp(now), file.data, now, now), at, t + 4);
    }
  }

  class SettingsFileCache {
    var files: map<Path, Entry>

    constructor ()
      ensures files == map[]
    {
      files := map[];
    }

    /** Stat, lookup, read, stat again, store: between any two of them anyone may write. */
    method ReadSettingsFile(p: Path, world: World) returns (outcome: Progress)
      modifies this, world
      ensures CallEnd(outcome, files, world.t, world.files)
           == CallUnder(old(world.files), old(files), p, AtStat, world.at, old(world.t))
    {
      hide CallUnder, Written;
      CallUnderSteps(world.files, files, p, AtStat, world.at, world.t);
      var fails := world.Tick();
      var past := History(world.files, p);
      var began := |past| - 1;
      if fails {
        return IOError;
      }
      if past[began].Absent? {
        return NotExist(began);
      }
      CallUnderSteps(world.files, files, p, AtLookup(Stamp(began), began), world.at, world.t);
      fails := world.Tick();
      if p in files && files[p].fp == Stamp(began) {
        return Got(files[p].data, files[p].readAt, began, Stamp(began) != Stamp(files[p].readAt));
      }
      outcome := ReadThrough(p, world, began);
    }

    /** The rest of the call, for a path that is not cached under the fingerprint just seen. */
    method ReadThrough(p: Path, world: World, began: nat) returns (outcome: Progress)
      modifies this, world
      ensures CallEnd(outcome, files, world.t, world.files)
           == CallUnder(old(world.files), old(files), p, AtRead(began), world.at, old(world.t))
    {
      hide CallUnder, Written;
      CallUnderSteps(world.files, files, p, AtRead(began), world.at, world.t);
      var fails := world.Tick();
      var past := History(world.files, p);
      var readAt := |past| - 1;
      if fails {
        return IOError;
      }
      if past[readAt].Absent? {
        return NotExist(readAt);
      }
      var data := past[readAt].data;
      CallUnderSteps(world.files, files, p, AtRestat(data, readAt, began), world.at, world.t);
      fails := world.Tick();
      past := History(world.files, p);
      var latest := |past| - 1;
      if fails || past[latest].Absent? {
        return Got(data, readAt, began, false);
      }
      CallUnderSteps(world.files, files, p, AtStore(Stamp(latest), data, readAt, began), world.at, world.t);
      fails := world.Tick();
      files := files[p := Entry(Stamp(latest), data, readAt)];
      outcome := Got(data, readAt, began, false);
    }

    method Reset()
      modifies this
      ensures files == map[]
    {
      files := map[];
    }
  }

  // ---------- The diff ----------

  datatype ChangeKind = Created | Modified | Deleted

  datatype Change = Change(path: Path, kind: ChangeKind)

  datatype Verdict = Same | Differs(kind: ChangeKind)

  /** classifySettingsFileChange. */
  function Classify(previous: Fingerprint, current: Fingerprint): Verdict {
    if previous.NoFile? && current.Stamp? then Differs(Created)
    else if previous.Stamp? && current.NoFile? then Differs(Deleted)
    else if previous.Stamp? && current.Stamp? && previous != current then Differs(Modified)
    else Same
  }

  /** What a change of each kind means: no file before, none after, or another content. */
  predicate Happened(kind: ChangeKind, previous: Fingerprint, current: Fingerprint) {
    match kind
    case Created => previous.NoFile? && current.Stamp?
    case Deleted => previous.Stamp? && current.NoFile?
    case Modified => previous.Stamp? && current.Stamp? && previous != current
  }

  /** The reported changes are exactly those that happened among `keys`, each once. */
  ghost predicate Reports(changes: seq<Change>, before: map<Path, Fingerprint>, after: map<Path, Fingerprint>,
                          keys: set<Path>)
  {
    && NoRepeats(changes)
    && forall p, kind ::
         Change(p, kind) in changes <==>
         p in keys && Happened(kind, Lookup(before, p), Lookup(after, p))
  }

  method DiffSnapshots(before: map<Path, Fingerprint>, after: map<Path, Fingerprint>) returns (changes: seq<Change>)
    ensures Reports(changes, before, after, before.Keys + after.Keys)
    ensures changes != [] <==> Changed(before, after)
  {
    changes := [];
    var seen: set<Path>, left := {}, after.Keys;
    while left != {}
      invariant seen + left == after.Keys && seen !! left
      invariant Reports(changes, before, after, seen)
      decreases left
    {
      var p :| p in left;
      var verdict := Classify(Lookup(before, p), after[p]);
      if verdict.Differs? {
        ReportsSnoc(changes, before, after, seen, Change(p, verdict.kind));
        changes := changes + [Change(p, verdict.kind)];
      }
      seen, left := seen + {p}, left - {p};
    }
    left := before.Keys;
    while left != {}
      invariant left <= before.Keys
      invariant Reports(changes, before, after, after.Keys + (before.Keys - left))
      decreases left
    {
      var p :| p in left;
      if p !in after && before[p].Stamp? {
        ReportsSnoc(changes, before, after, after.Keys + (before.Keys - left), Change(p, Deleted));
        changes := changes + [Change(p, Deleted)];
      }
      assert after.Keys + (before.Keys - (left - {p})) == (after.Keys + (before.Keys - left)) + {p};
      left := left - {p};
    }
    assert after.Keys + (before.Keys - left) == before.Keys + after.Keys;
    ReportsChanged(changes, before, after);
  }

  lemma ReportsSnoc(changes: seq<Change>, before: map<Path, Fingerprint>, after: map<Path, Fingerprint>,
                    keys: set<Path>, c: Change)
    requires Reports(changes, before, after, keys) && c.path !in keys
    requires Classify(Lookup(before, c.path), Lookup(after, c.path)) == Differs(c.kind)
    ensures Reports(changes + [c], before, after, keys + {c.path})
  {
    assert c !in changes;
  }

  lemma ReportsChanged(changes: seq<Change>, before: map<Path, Fingerprint>, after: map<Path, Fingerprint>)
    requires Reports(changes, before, after, before.Keys + after.Keys)
    ensures changes != [] <==> Changed(before, after)
  {
    if changes != [] {
      var c := changes[0];
      assert Change(c.path, c.kind) in changes;
      assert Lookup(before, c.path) != Lookup(after, c.path);
    }
    if Changed(before, after) {
      var p :| p in before.Keys + after.Keys && Lookup(before, p) != Lookup(after, p);
      assert Change(p, Classify(Lookup(before, p), Lookup(after, p)).kind) in changes;
    }
  }

  // ---------- The detector ----------

  /** Takes the snapshot of the paths; `s'` is where the protocol is then. */
  method SnapshotFiles(world: World, paths: seq<Path>, ghost s: State)
    returns (ok: bool, out: map<Path, Fingerprint>, ghost s': State)
    requires s.pc.Snapshotting? && s.pc.k == 0 && s.pc.next == map[] && s.paths == paths && s.files == world.files
    modifies world
    ensures Refreshing(s) && Refreshing(s') && Under(s, world.at, old(world.t)) == Under(s', world.at, world.t)
    ensures s' == s.(files := world.files, pc := s'.pc)
    ensures if ok then s'.pc.Snapshotting? && s'.pc.booting == s.pc.booting && s'.pc.docs == s.pc.docs
                       && s'.pc.k == |paths| && s'.pc.next == out
            else s'.pc == GaveUp(s.pc)
  {
    hide Under, Act, Written, FingerprintAt;
    out, s' := map[], s;
    for k := 0 to |paths|
      invariant s'.pc.Snapshotting? && s'.pc.booting == s.pc.booting && s'.pc.docs == s.pc.docs
      invariant s'.pc.k == k && s'.pc.next == out && s' == s.(files := world.files, pc := s'.pc)
      invariant Under(s, world.at, old(world.t)) == Under(s', world.at, world.t)
    {
      UnderStep(s', world.at, world.t);
      SnapshotActs(s', world.at(world.t));
      s' := Act(s', world.at(world.t));
      var fails := world.Tick();
      if fails {
        return false, map[], s';
      }
      var past := History(world.files, paths[k]);
      out := out[paths[k] := FingerprintAt(past, |past| - 1)];
    }
    ok := true;
  }

  lemma SnapshotActs(s: State, i: Instant)
    requires s.pc.Snapshotting? && s.pc.k < |s.paths|
    ensures var files, p := Written(s.files, i.writes), s.paths[s.pc.k];
      Act(s, i) == s.(files := files,
        pc := if i.fails then GaveUp(s.pc)
              else Snapshotting(s.pc.booting, s.pc.docs, s.pc.k + 1, s.pc.next[p := FingerprintNow(files, p)],
                                s.pc.nextVersion[p := Now(files, p)]))
  {
    hide FingerprintAt, Written;
  }

  class Detector {
    var snapshot: map<Path, Fingerprint>

    constructor ()
      ensures snapshot == map[]
    {
      snapshot := map[];
    }

    /** The first snapshot, at the end of the constructor. */
    method Reset(world: World, paths: seq<Path>, ghost s: State) returns (ok: bool, ghost s': State)
      requires s.pc.Snapshotting? && s.pc.booting && s.pc.k == 0 && s.pc.next == map[]
      requires s.paths == paths && s.files == world.files
      modifies this, world
      ensures Refreshing(s) && Under(s, world.at, old(world.t)) == (s', world.t)
      ensures s'.paths == s.paths && s'.files == world.files && s'.cache == s.cache
      ensures if ok then s'.pc == Idle && s'.snapshot == snapshot && s'.loaded == s.pc.docs
              else s'.pc == Stopped && snapshot == old(snapshot)
    {
      hide Under;
      var next;
      ok, next, s' := SnapshotFiles(world, paths, s);
      if ok {
        UnderStep(s', world.at, world.t);
        CommitActs(s', world.at(world.t));
        s' := Act(s', world.at(world.t));
        hide Act;
        var fails := world.Tick();
        snapshot := next;
      }
      UnderEnds(s', world.at, world.t);
    }

    /** The snapshot is replaced whether or not anything changed; the cache is dropped only on a change. */
    method DetectChanges(cache: SettingsFileCache, world: World, paths: seq<Path>, ghost s: State)
      returns (ok: bool, changes: seq<Change>, ghost s': State)
      requires s.pc == Snapshotting(false, [], 0, map[], map[]) && s.paths == paths
      requires s.files == world.files && s.cache == cache.files && s.snapshot == snapshot
      modifies this, cache, world
      ensures Refreshing(s) && Refreshing(s') && Under(s, world.at, old(world.t)) == Under(s', world.at, world.t)
      ensures s'.paths == s.paths && s'.files == world.files && s'.cache == cache.files && s'.snapshot == snapshot
      ensures s'.loaded == s.loaded && (!ok ==> snapshot == old(snapshot) && changes == [])
      ensures changes == [] ==> s'.synced == s.synced
      ensures changes != [] <==> Changed(old(snapshot), snapshot)
      ensures ok ==> Reports(changes, old(snapshot), snapshot, old(snapshot).Keys + snapshot.Keys)
      ensures s'.pc == if changes != [] then Loading(false, [], AtStat) else Idle
    {
      hide Under;
      var next;
      ok, next, s' := SnapshotFiles(world, paths, s);
      if !ok {
        SameSnapshot(snapshot);
        return false, [], s';
      }
      UnderStep(s', world.at, world.t);
      CommitActs(s', world.at(world.t));
      s' := Act(s', world.at(world.t));
      hide Act;
      var fails := world.Tick();
      changes := DiffSnapshots(snapshot, next);
      snapshot := next;
      if |changes| > 0 {
        cache.Reset();
      }
    }
  }

  lemma SameSnapshot(snapshot: map<Path, Fingerprint>)
    ensures !Changed(snapshot, snapshot)
  {
  }

  lemma CommitActs(s: State, i: Instant)
    requires s.pc.Snapshotting? && s.pc.k == |s.paths|
    ensures var s', files := Act(s, i), Written(s.files, i.writes);
      && s'.files == files && s'.paths == s.paths && s'.snapshot == s.pc.next
      && (if s.pc.booting then s'.pc == Idle && s'.cache == s.cache && s'.loaded == s.pc.docs
          else s'.loaded == s.loaded
               && (if Changed(s.snapshot, s.pc.next) then s'.pc == Loading(false, [], AtStat) && s'.cache == map[]
                   else s'.pc == Idle && s'.cache == s.cache && s'.synced == s.synced))
  {
    hide Changed, Versions, CacheSettled, Fresh, Written;
  }

  lemma UnderEnds(s: State, at: nat -> Instant, t: nat)
    requires Over(s.pc)
    ensures Under(s, at, t) == (s, t)
  {
  }
}
