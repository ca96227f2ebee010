/** What every run of the hot-reload protocol guarantees, and where it falls short. */
module HotReloadTheorems {
  import opened HotReload

  // ---------- Every run ----------

  ghost function Run(s: State, steps: seq<Step>): State
    requires Inv(s)
    decreases |steps|
  {
    if steps == [] then s
    else StepKeepsInv(s, steps[0]); Run(Next(s, steps[0]), steps[1..])
  }

  lemma {:induction false} RunKeepsInv(s: State, steps: seq<Step>)
    requires Inv(s)
    ensures Inv(Run(s, steps))
    decreases |steps|
  {
    hide Inv, Next;
    if steps != [] {
      StepKeepsInv(s, steps[0]);
      RunKeepsInv(Next(s, steps[0]), steps[1..]);
    }
  }

  /** The state after any interleaving of reads, refreshes and outside writes, whatever the files were and
      other readers had cached when the constructor began. */
  ghost predicate Reachable(s: State) {
    exists paths, files, cache, steps :: ReachedBy(s, paths, files, cache, steps)
  }

  ghost predicate ReachedBy(s: State, paths: seq<Path>, files: Files, cache: map<Path, Entry>, steps: seq<Step>) {
    CacheOk(files, cache) && (InitInv(paths, files, cache); s == Run(Init(paths, files, cache), steps))
  }

  lemma ReachableInv(s: State)
    requires Reachable(s)
    ensures Inv(s)
  {
    hide Inv;
    var paths, files, cache, steps :| ReachedBy(s, paths, files, cache, steps);
    InitInv(paths, files, cache);
    RunKeepsInv(Init(paths, files, cache), steps);
  }

  lemma {:induction false} RunSnoc(s: State, steps: seq<Step>, step: Step)
    requires Inv(s)
    ensures Inv(Run(s, steps)) && Run(s, steps + [step]) == Next(Run(s, steps), step)
    decreases |steps|
  {
    hide Inv, Next;
    RunKeepsInv(s, steps);
    if steps == [] {
      assert steps + [step] == [step];
      assert [step][1..] == [];
    } else {
      assert (steps + [step])[1..] == steps[1..] + [step];
      StepKeepsInv(s, steps[0]);
      RunSnoc(Next(s, steps[0]), steps[1..], step);
    }
  }

  lemma StepReaches(s: State, step: Step)
    requires Reachable(s)
    ensures Reachable(Next(s, step))
  {
    hide Inv, Next;
    var paths, files, cache, steps :| ReachedBy(s, paths, files, cache, steps);
    InitInv(paths, files, cache);
    RunSnoc(Init(paths, files, cache), steps, step);
    assert ReachedBy(Next(s, step), paths, files, cache, steps + [step]);
  }

  lemma InitReachable(paths: seq<Path>, files: Files, cache: map<Path, Entry>)
    requires CacheOk(files, cache)
    ensures Reachable(Init(paths, files, cache))
  {
    InitInv(paths, files, cache);
    assert ReachedBy(Init(paths, files, cache), paths, files, cache, []);
  }

  /** Once the constructor is done and as long as no refresh that found a change has failed since, every
      loaded version is at least the version of the detector's snapshot. */
  lemma LoadedIsNoOlderThanSnapshot(s: State, k: nat)
    requires Reachable(s) && s.synced && k < |s.paths|
    ensures |s.loaded| == |s.paths| && s.paths[k] in s.snapVersion
    ensures s.snapVersion[s.paths[k]] <= s.loaded[k].version < |History(s.files, s.paths[k])|
    ensures DocOk(History(s.files, s.paths[k]), s.loaded[k])
  {
    ReachableInv(s);
    assert s.paths[k] in Watched(s.paths);
    hide PcOk, CacheOk, CacheSettled, AnswerOk;
  }

  /** Bytes returned without a poisoned hit were the file's content at some instant of the call. */
  lemma CallReturnsContent(s: State)
    requires Reachable(s) && s.lastAnswer.Answer?
    ensures ContentAt(History(s.files, s.lastAnswer.path), s.lastAnswer.version, s.lastAnswer.data)
    ensures !s.lastAnswer.poisoned ==>
              s.lastAnswer.began <= s.lastAnswer.version < |History(s.files, s.lastAnswer.path)|
  {
    ReachableInv(s);
    hide PcOk, CacheOk, CacheSettled, SnapshotOk, WatchOk, LoadedOk;
  }

  /** Bytes cached under a fingerprint that is not theirs. */
  predicate Poisoned(e: Entry) {
    e.fp != Stamp(e.readAt)
  }

  /** The fingerprint a stat of `p` returns now. */
  function FingerprintNow(files: Files, p: Path): Fingerprint
  {
    FingerprintAt(History(files, p), Now(files, p))
  }

  /** Some watched file differs from the snapshot. */
  ghost predicate Detects(s: State)
  {
    exists k :: 0 <= k < |s.paths| && Lookup(s.snapshot, s.paths[k]) != FingerprintNow(s.files, s.paths[k])
  }

  /** A poisoned entry of a watched file carries the snapshot's fingerprint exactly when it was stored before
      the first snapshot, is still there, and that snapshot saw the version its fingerprint is of. Any other
      poisoned entry that a stat can still meet makes the next refresh detect a change, and drop it. */
  lemma PoisonIsDetected(s: State, p: Path)
    requires Reachable(s) && p in s.cache && p in s.snapVersion && Poisoned(s.cache[p])
    ensures s.cache[p].fp.Stamp?
    ensures s.cache[p].fp == Lookup(s.snapshot, p) <==>
            p in s.early && s.cache[p].readAt < s.snapVersion[p] == s.cache[p].fp.version
    ensures s.cache[p].fp != Lookup(s.snapshot, p) && s.cache[p].fp == FingerprintNow(s.files, p) ==> Detects(s)
  {
    ReachableInv(s);
    assert p !in s.early ==> EntrySettled(s.cache[p], s.snapVersion[p]);
    assert EntryOk(History(s.files, p), s.cache[p]);
    assert s.snapshot[p] == FingerprintAt(History(s.files, p), s.snapVersion[p]);
    assert p in Watched(s.paths);
    hide Inv, Reachable, History;
    var k :| 0 <= k < |s.paths| && s.paths[k] == p;
  }

  // ---------- A refresh that nobody disturbs ----------

  function Rank(call: Call): nat {
    match call
    case AtStat => 4
    case AtLookup(_, _) => 3
    case AtRead(_) => 2
    case AtRestat(_, _, _) => 1
    case AtStore(_, _, _, _) => 0
  }

  /** The constructor or a refresh on its way, within the bounds of its loops. */
  predicate Refreshing(s: State) {
    match s.pc
    case Idle => true
    case Stopped => true
    case Snapshotting(_, _, k, _, _) => k <= |s.paths|
    case Loading(_, staged, _) => |staged| <= |s.paths|
    case Reading(_, _) => false
  }

  predicate Over(pc: Pc) {
    pc.Idle? || pc.Stopped?
  }

  /** A refresh snapshots first and loads second; the constructor does it the other way around. */
  function Phase(pc: Pc): nat {
    match pc
    case Snapshotting(booting, _, _, _, _) => if booting then 1 else 2
    case Loading(boot, _, _) => if boot then 2 else 1
    case _ => 0
  }

  function Remaining(s: State): nat
    requires Refreshing(s)
  {
    match s.pc
    case Snapshotting(_, _, k, _, _) => |s.paths| - k
    case Loading(_, staged, _) => |s.paths| - |staged|
    case _ => 0
  }

  function CallsLeft(pc: Pc): nat {
    if pc.Loading? then Rank(pc.call) else 0
  }

  /** `s'` is further on in the same run of the loops. */
  predicate Progressed(s: State, s': State) {
    && s'.paths == s.paths && Refreshing(s) && Refreshing(s')
    && (Phase(s'.pc) < Phase(s.pc)
        || (Phase(s'.pc) == Phase(s.pc)
            && (Remaining(s') < Remaining(s) || (Remaining(s') == Remaining(s) && CallsLeft(s'.pc) < CallsLeft(s.pc)))))
  }

  lemma SnapshotProgresses(s: State, fails: bool)
    requires Refreshing(s) && s.pc.Snapshotting?
    ensures Progressed(s, AdvanceSnapshotting(s, fails))
  {
    hide Commit, CommitBoot;
    if s.pc.k == |s.paths| {
      CommitIs(s);
    }
    hide FingerprintAt, History;
  }

  lemma CallProgresses(h: seq<File>, cache: map<Path, Entry>, p: Path, call: Call, fails: bool)
    requires h != []
    ensures var progress := AdvanceCall(h, cache, p, call, fails).0;
      progress.Running? ==> Rank(progress.call) < Rank(call)
  {
  }

  lemma LoadProgresses(s: State, fails: bool)
    requires Refreshing(s) && s.pc.Loading?
    ensures Progressed(s, AdvanceLoading(s, fails))
  {
    if |s.pc.staged| < |s.paths| {
      var p := s.paths[|s.pc.staged|];
      CallProgresses(History(s.files, p), s.cache, p, s.pc.call, fails);
    }
    hide AdvanceCall, Rank;
  }

  lemma AdvanceProgresses(s: State, fails: bool)
    requires Refreshing(s) && !Over(s.pc)
    ensures Progressed(s, Next(s, Advance(fails)))
  {
    hide Progressed, AdvanceSnapshotting, AdvanceLoading;
    if s.pc.Snapshotting? { SnapshotProgresses(s, fails); } else { LoadProgresses(s, fails); }
  }

  /** Lets the refresh run to its end. */
  ghost function Finish(s: State): State
    requires Refreshing(s)
    decreases Phase(s.pc), Remaining(s), CallsLeft(s.pc)
  {
    if Over(s.pc) then s
    else AdvanceProgresses(s, false); Finish(Next(s, Advance(false)))
  }

  ghost function QuietRefresh(s: State): State
    requires s.pc.Idle?
  {
    Finish(Next(s, StartRefresh))
  }

  /** What a load of the file's present content yields; no file loads as the zero settings. */
  function DataNow(h: seq<File>): Data
    requires h != []
  {
    if h[|h| - 1].Absent? then Json(ZERO) else h[|h| - 1].data
  }

  ghost predicate Ready(s: State)
  {
    forall k | 0 <= k < |s.paths| :: DataNow(History(s.files, s.paths[k])).Json?
  }

  ghost predicate UpToDate(files: Files, paths: seq<Path>, docs: seq<Doc>)
  {
    |docs| <= |paths| && forall k | 0 <= k < |docs| :: DataNow(History(files, paths[k])) == Json(docs[k].settings)
  }

  /** The loaded settings equal the files. */
  ghost predicate Converged(s: State)
  {
    |s.loaded| == |s.paths| && UpToDate(s.files, s.paths, s.loaded)
  }

  predicate CallNow(h: seq<File>, call: Call)
    requires h != []
  {
    match call
    case AtStat => true
    case AtLookup(fp, _) => fp == Stamp(|h| - 1)
    case AtRead(_) => true
    case AtRestat(data, readAt, _) => DataNow(h) == data && readAt == |h| - 1
    case AtStore(fp, data, readAt, _) => DataNow(h) == data && readAt == |h| - 1 && fp == Stamp(|h| - 1)
  }

  /** Whatever a stat can still meet in the cache is the present content. */
  ghost predicate CacheNow(files: Files, cache: map<Path, Entry>)
  {
    forall p | p in cache && cache[p].fp == Stamp(Now(files, p)) ::
      DataNow(History(files, p)) == cache[p].data && cache[p].readAt == Now(files, p)
  }

  /** Every document is what a load of the file's present content yields. */
  ghost predicate Latest(files: Files, paths: seq<Path>, docs: seq<Doc>)
  {
    |docs| <= |paths| && forall k | 0 <= k < |docs| :: LatestDoc(History(files, paths[k]), docs[k])
  }

  predicate LatestDoc(h: seq<File>, d: Doc)
    requires h != []
  {
    DataNow(h) == Json(d.settings) && d.version == |h| - 1
  }

  /** Where an undisturbed refresh that began in `s0` may be. */
  ghost predicate QuietAt(s0: State, s: State)
  {
    && s.files == s0.files && s.paths == s0.paths
    && match s.pc
       case Snapshotting(boot, _, k, next, _) =>
         && !boot && k <= |s.paths| && SnapNow(s.files, s.paths, k, next)
         && s.loaded == s0.loaded && s.synced == s0.synced && s.snapshot == s0.snapshot
       case Loading(boot, staged, call) =>
         && !boot && Detects(s0) && Latest(s.files, s.paths, staged) && CacheNow(s.files, s.cache)
         && (|staged| < |s.paths| ==> CallNow(History(s.files, s.paths[|staged|]), call))
         && s.loaded == s0.loaded && !s.synced
       case Idle =>
         if !Detects(s0) then s.loaded == s0.loaded && s.synced == s0.synced
         else if Ready(s0) then Converged(s) && s.synced
         else s.loaded == s0.loaded && !s.synced
       case _ => false
  }

  ghost predicate SnapNow(files: Files, paths: seq<Path>, k: nat, next: map<Path, Fingerprint>)
    requires k <= |paths|
  {
    next.Keys == Watched(paths[..k]) && forall p | p in next :: next[p] == FingerprintNow(files, p)
  }

  lemma SnapNowStep(files: Files, paths: seq<Path>, k: nat, next: map<Path, Fingerprint>)
    requires k < |paths| && SnapNow(files, paths, k, next)
    ensures SnapNow(files, paths, k + 1, next[paths[k] := FingerprintNow(files, paths[k])])
  {
    assert paths[..k + 1] == paths[..k] + [paths[k]];
  }

  /** Comparing the two snapshots is comparing the old one with the files. */
  lemma ChangedIsDetects(s0: State, next: map<Path, Fingerprint>)
    requires SnapNow(s0.files, s0.paths, |s0.paths|, next)
    requires s0.snapshot.Keys == Watched(s0.paths)
    ensures Changed(s0.snapshot, next) <==> Detects(s0)
  {
    assert s0.paths[..|s0.paths|] == s0.paths;
    if Changed(s0.snapshot, next) {
      var p :| p in s0.snapshot.Keys + next.Keys && Lookup(s0.snapshot, p) != Lookup(next, p);
      assert p in Watched(s0.paths);
      var k :| 0 <= k < |s0.paths| && s0.paths[k] == p;
    }
    if Detects(s0) {
      var k :| 0 <= k < |s0.paths| && Lookup(s0.snapshot, s0.paths[k]) != FingerprintNow(s0.files, s0.paths[k]);
      assert s0.paths[k] in Watched(s0.paths);
    }
  }

  lemma QuietStat(s0: State, s: State)
    requires QuietAt(s0, s) && s.pc.Snapshotting? && s.pc.k < |s.paths|
    ensures QuietAt(s0, Next(s, Advance(false)))
  {
    SnapNowStep(s.files, s.paths, s.pc.k, s.pc.next);
    hide SnapNow, Detects;
  }

  lemma QuietCommit(s0: State, s: State)
    requires s0.snapshot.Keys == Watched(s0.paths) && QuietAt(s0, s) && s.pc.Snapshotting? && s.pc.k == |s.paths|
    ensures QuietAt(s0, Next(s, Advance(false)))
  {
    hide SnapNow, Changed, Detects, Versions, Ready, Converged, FingerprintNow;
    ChangedIsDetects(s0, s.pc.next);
    var s' := Commit(s);
    assert Next(s, Advance(false)) == s';
    NothingCached(s.files, s.paths);
    hide Commit;
    CommitIs(s);
  }

  lemma NothingCached(files: Files, paths: seq<Path>)
    ensures CacheNow(files, map[]) && Latest(files, paths, [])
  {
  }

  lemma CommitIs(s: State)
    requires s.pc.Snapshotting?
    ensures var s' := Commit(s);
      && s'.files == s.files && s'.paths == s.paths && s'.loaded == s.loaded
      && (if Changed(s.snapshot, s.pc.next) then s'.pc == Loading(false, [], AtStat) && s'.cache == map[] && !s'.synced
          else s'.pc == Idle && s'.synced == s.synced)
    ensures CommitBoot(s).files == s.files && CommitBoot(s).paths == s.paths && CommitBoot(s).pc == Idle
  {
    hide Changed, Versions, CacheSettled, Fresh;
  }

  lemma QuietCall(files: Files, cache: map<Path, Entry>, p: Path, call: Call)
    requires CacheNow(files, cache) && CallNow(History(files, p), call)
    ensures var (progress, cache') := AdvanceCall(History(files, p), cache, p, call, false);
      && CacheNow(files, cache')
      && match progress
         case Running(call') => CallNow(History(files, p), call')
         case Got(data, readAt, _, _) => DataNow(History(files, p)) == data && readAt == Now(files, p)
         case NotExist(version) => DataNow(History(files, p)) == Json(ZERO) && version == Now(files, p)
         case IOError => false
  {
  }

  lemma LatestSnoc(files: Files, paths: seq<Path>, docs: seq<Doc>, d: Doc)
    requires Latest(files, paths, docs) && |docs| < |paths| && LatestDoc(History(files, paths[|docs|]), d)
    ensures Latest(files, paths, docs + [d])
  {
  }

  lemma LatestIsReady(files: Files, paths: seq<Path>, docs: seq<Doc>)
    requires Latest(files, paths, docs) && |docs| == |paths|
    ensures UpToDate(files, paths, docs)
    ensures forall k | 0 <= k < |paths| :: DataNow(History(files, paths[k])).Json?
  {
    forall k | 0 <= k < |paths|
      ensures DataNow(History(files, paths[k])) == Json(docs[k].settings)
    {
      assert LatestDoc(History(files, paths[k]), docs[k]);
    }
  }

  lemma QuietLoad(s0: State, s: State)
    requires QuietAt(s0, s) && s.pc.Loading? && |s.pc.staged| < |s.paths|
    ensures QuietAt(s0, Next(s, Advance(false)))
  {
    var Loading(_, staged, call) := s.pc;
    var p := s.paths[|staged|];
    QuietCall(s.files, s.cache, p, call);
    var progress := AdvanceCall(History(s.files, p), s.cache, p, call, false).0;
    match progress
    case NotExist(version) => LatestSnoc(s.files, s.paths, staged, Doc(ZERO, version));
    case Got(Json(settings), readAt, _, _) => LatestSnoc(s.files, s.paths, staged, Doc(settings, readAt));
    case Got(Malformed, _, _, _) => assert !Ready(s0);
    case _ =>
    hide AdvanceCall, Latest, CacheNow, Detects, Ready, DataNow;
  }

  lemma QuietLoaded(s0: State, s: State)
    requires QuietAt(s0, s) && s.pc.Loading? && |s.pc.staged| == |s.paths|
    ensures QuietAt(s0, Next(s, Advance(false)))
  {
    LatestIsReady(s.files, s.paths, s.pc.staged);
    hide Detects, CacheNow, Latest;
  }

  lemma {:induction false} QuietFinish(s0: State, s: State)
    requires s0.snapshot.Keys == Watched(s0.paths) && QuietAt(s0, s)
    requires Refreshing(s)
    ensures QuietAt(s0, Finish(s)) && Finish(s).pc.Idle?
    decreases Phase(s.pc), Remaining(s), CallsLeft(s.pc)
  {
    if !s.pc.Idle? {
      AdvanceProgresses(s, false);
      if s.pc.Snapshotting? {
        if s.pc.k < |s.paths| { QuietStat(s0, s); } else { QuietCommit(s0, s); }
      } else if |s.pc.staged| < |s.paths| {
        QuietLoad(s0, s);
      } else {
        QuietLoaded(s0, s);
      }
      hide QuietAt, Next;
      QuietFinish(s0, Next(s, Advance(false)));
    }
  }

  lemma QuietStarts(s: State)
    requires s.pc.Idle?
    ensures QuietAt(s, Next(s, StartRefresh)) && Refreshing(Next(s, StartRefresh))
  {
    assert s.paths[..0] == [];
  }

  /** What an undisturbed refresh does, from any idle state. */
  lemma QuietRefreshOutcome(s: State)
    requires Reachable(s) && s.pc.Idle?
    ensures var r := QuietRefresh(s);
      && r.pc.Idle? && r.files == s.files && r.paths == s.paths
      && (Detects(s) && Ready(s) ==> Converged(r) && r.synced)
      && (Detects(s) && !Ready(s) ==> r.loaded == s.loaded && !r.synced)
      && (!Detects(s) ==> r.loaded == s.loaded && r.synced == s.synced)
  {
    ReachableInv(s);
    assert s.snapshot.Keys == Watched(s.paths);
    hide Inv, Reachable, Detects, Ready, Converged;
    QuietStarts(s);
    hide Next;
    QuietFinish(s, Next(s, StartRefresh));
  }

  /** No file whose settings are loaded has vanished. */
  ghost predicate NoneVanished(s: State)
    requires |s.loaded| == |s.paths|
  {
    forall k | 0 <= k < |s.paths| :: FingerprintNow(s.files, s.paths[k]) == NoFile ==> s.loaded[k].settings == ZERO
  }

  /** Every loaded version is at least the detector's snapshot's. */
  ghost predicate LoadedFresh(s: State) {
    |s.loaded| <= |s.paths| && Fresh(s.paths, s.snapVersion, s.loaded)
  }

  /** When nothing changed since the snapshot, the loaded settings equal the files, save for those of a
      file that came and went unseen. */
  lemma UnchangedIsConverged(s: State)
    requires Reachable(s) && s.pc.Idle? && LoadedFresh(s)
    ensures |s.loaded| == |s.paths|
    ensures !Detects(s) ==> (Converged(s) <==> NoneVanished(s))
  {
    ReachableInv(s);
    assert |s.loaded| == |s.paths| && s.snapVersion.Keys == Watched(s.paths);
    hide Reachable;
    if !Detects(s) && NoneVanished(s) {
      forall k | 0 <= k < |s.paths|
        ensures DataNow(History(s.files, s.paths[k])) == Json(s.loaded[k].settings)
      {
        assert s.paths[k] in Watched(s.paths);
        SameStampSameDoc(s, k);
      }
    }
    hide PcOk, CacheOk, CacheSettled, AnswerOk, SnapshotOk, Reachable;
  }

  lemma SameStampSameDoc(s: State, k: nat)
    requires Inv(s) && k < |s.paths| == |s.loaded| && s.paths[k] in s.snapVersion
    requires s.snapVersion[s.paths[k]] <= s.loaded[k].version < |History(s.files, s.paths[k])|
    requires DocOk(History(s.files, s.paths[k]), s.loaded[k])
    requires Lookup(s.snapshot, s.paths[k]) == FingerprintNow(s.files, s.paths[k])
    requires FingerprintNow(s.files, s.paths[k]) == NoFile ==> s.loaded[k].settings == ZERO
    ensures DataNow(History(s.files, s.paths[k])) == Json(s.loaded[k].settings)
  {
    hide PcOk, CacheOk, CacheSettled, AnswerOk, LoadedOk, WatchOk;
  }

  /** Once writes stop, the next refresh makes the loaded settings equal the files exactly when it detects a
      change and every file parses, or detects none and they are equal already. If the loaded versions are at
      least the snapshot's, the latter means that no loaded file has vanished. */
  lemma ConvergesExactly(s: State)
    requires Reachable(s) && s.pc.Idle?
    ensures Converged(QuietRefresh(s)) <==> if Detects(s) then Ready(s) else Converged(s)
    ensures LoadedFresh(s) ==>
      && |s.loaded| == |s.paths|
      && (Converged(QuietRefresh(s)) <==> if Detects(s) then Ready(s) else NoneVanished(s))
    ensures s.synced ==> LoadedFresh(s)
  {
    QuietRefreshOutcome(s);
    ReachableInv(s);
    if LoadedFresh(s) {
      UnchangedIsConverged(s);
    }
    var r := QuietRefresh(s);
    if Converged(r) {
      ConvergedIsReady(r);
    }
    hide Detects, NoneVanished, QuietRefresh, SnapshotOk, PcOk, CacheOk, CacheSettled, Reachable;
  }

  lemma ConvergedIsReady(s: State)
    requires Converged(s)
    ensures Ready(s)
  {
    forall k | 0 <= k < |s.paths|
      ensures DataNow(History(s.files, s.paths[k])).Json?
    {
      assert DataNow(History(s.files, s.paths[k])) == Json(s.loaded[k].settings);
    }
  }

  // ---------- A constructor that nobody disturbs ----------

  /** A stat of `p` meets the cached entry. */
  predicate Hits(files: Files, cache: map<Path, Entry>, p: Path) {
    p in cache && cache[p].fp == Stamp(Now(files, p))
  }

  /** What an undisturbed read of `p` yields: the cached bytes if it hits, else the file's. */
  function Meets(files: Files, cache: map<Path, Entry>, p: Path): Data {
    if Hits(files, cache, p) then cache[p].data else DataNow(History(files, p))
  }

  /** The version they are from. */
  function MeetsVersion(files: Files, cache: map<Path, Entry>, p: Path): nat {
    if Hits(files, cache, p) then cache[p].readAt else Now(files, p)
  }

  /** Both caches serve the same. */
  ghost predicate ServesAlike(files: Files, cache: map<Path, Entry>, cache': map<Path, Entry>) {
    forall p ::
      && Meets(files, cache', p) == Meets(files, cache, p)
      && MeetsVersion(files, cache', p) == MeetsVersion(files, cache, p)
  }

  /** What is loaded is what the reads met. */
  ghost predicate Met(files: Files, cache: map<Path, Entry>, paths: seq<Path>, docs: seq<Doc>) {
    |docs| <= |paths| && forall k | 0 <= k < |docs| :: MetDoc(files, cache, paths[k], docs[k])
  }

  predicate MetDoc(files: Files, cache: map<Path, Entry>, p: Path, d: Doc) {
    Meets(files, cache, p) == Json(d.settings) && d.version == MeetsVersion(files, cache, p)
  }

  /** Where an undisturbed call for `p` may be. */
  predicate CallMeets(files: Files, cache: map<Path, Entry>, p: Path, call: Call) {
    var h := History(files, p);
    match call
    case AtStat => true
    case AtLookup(fp, _) => fp == Stamp(|h| - 1)
    case AtRead(_) => !Hits(files, cache, p)
    case AtRestat(data, readAt, _) => !Hits(files, cache, p) && DataNow(h) == data && readAt == |h| - 1
    case AtStore(fp, data, readAt, _) =>
      !Hits(files, cache, p) && DataNow(h) == data && readAt == |h| - 1 && fp == Stamp(|h| - 1)
  }

  lemma MeetCall(files: Files, cache: map<Path, Entry>, p: Path, call: Call)
    requires CacheOk(files, cache) && CallMeets(files, cache, p, call)
    ensures var (progress, cache') := AdvanceCall(History(files, p), cache, p, call, false);
      && ServesAlike(files, cache, cache')
      && match progress
         case Running(call') => CallMeets(files, cache', p, call')
         case Got(data, readAt, _, _) => Meets(files, cache, p) == data && MeetsVersion(files, cache, p) == readAt
         case NotExist(version) => MetDoc(files, cache, p, Doc(ZERO, version))
         case IOError => false
  {
    if p in cache {
      assert EntryOk(History(files, p), cache[p]);
    }
  }

  /** Where an undisturbed constructor that began in `s0` may be. */
  ghost predicate BootAt(s0: State, s: State)
  {
    && s.files == s0.files && s.paths == s0.paths && ServesAlike(s.files, s0.cache, s.cache)
    && match s.pc
       case Loading(boot, staged, call) =>
         && boot && Met(s.files, s0.cache, s.paths, staged)
         && (|staged| < |s.paths| ==> CallMeets(s.files, s.cache, s.paths[|staged|], call))
       case Snapshotting(boot, docs, k, next, nextVersion) =>
         && boot && Met(s.files, s0.cache, s.paths, docs) && |docs| == |s.paths| && k <= |s.paths|
         && SnapNow(s.files, s.paths, k, next) && SnapVersionsNow(s.files, next, nextVersion)
       case Idle =>
         && Met(s.files, s0.cache, s.paths, s.loaded) && |s.loaded| == |s.paths|
         && SnapNow(s.files, s.paths, |s.paths|, s.snapshot) && SnapVersionsNow(s.files, s.snapshot, s.snapVersion)
         && s.synced == Fresh(s.paths, s.snapVersion, s.loaded)
       case Stopped => exists k :: 0 <= k < |s.paths| && Meets(s.files, s0.cache, s.paths[k]).Malformed?
       case _ => false
  }

  ghost predicate SnapVersionsNow(files: Files, next: map<Path, Fingerprint>, nextVersion: map<Path, nat>) {
    next.Keys == nextVersion.Keys && forall p | p in nextVersion :: nextVersion[p] == Now(files, p)
  }

  lemma ServesAlikeTrans(files: Files, a: map<Path, Entry>, b: map<Path, Entry>, c: map<Path, Entry>)
    requires ServesAlike(files, a, b) && ServesAlike(files, b, c)
    ensures ServesAlike(files, a, c)
  {
    forall p
      ensures Meets(files, c, p) == Meets(files, a, p) && MeetsVersion(files, c, p) == MeetsVersion(files, a, p)
    {
      assert Meets(files, c, p) == Meets(files, b, p) && MeetsVersion(files, c, p) == MeetsVersion(files, b, p);
    }
  }

  lemma MetSnoc(files: Files, cache: map<Path, Entry>, paths: seq<Path>, docs: seq<Doc>, d: Doc)
    requires Met(files, cache, paths, docs) && |docs| < |paths| && MetDoc(files, cache, paths[|docs|], d)
    ensures Met(files, cache, paths, docs + [d])
  {
    hide MetDoc;
  }

  lemma AlikeAt(files: Files, a: map<Path, Entry>, b: map<Path, Entry>, p: Path)
    requires ServesAlike(files, a, b)
    ensures Meets(files, b, p) == Meets(files, a, p) && MeetsVersion(files, b, p) == MeetsVersion(files, a, p)
  {
  }

  lemma BootLoad(s0: State, s: State)
    requires BootAt(s0, s) && CacheOk(s.files, s.cache) && s.pc.Loading? && |s.pc.staged| < |s.paths|
    ensures BootAt(s0, Next(s, Advance(false)))
  {
    var Loading(_, staged, call) := s.pc;
    var p := s.paths[|staged|];
    MeetCall(s.files, s.cache, p, call);
    var (progress, cache) := AdvanceCall(History(s.files, p), s.cache, p, call, false);
    ServesAlikeTrans(s.files, s0.cache, s.cache, cache);
    AlikeAt(s.files, s0.cache, s.cache, p);
    hide CacheOk, AdvanceCall, EarlyAfter, ServesAlike, Met;
    BootOn(s.files, s0.cache, cache, s.paths, staged, progress);
    hide CallMeets, Meets, MeetsVersion, LoadOn;
  }

  /** Where the load goes on from what the call met. */
  lemma BootOn(files: Files, cache0: map<Path, Entry>, cache: map<Path, Entry>, paths: seq<Path>, staged: seq<Doc>,
               progress: Progress)
    requires Met(files, cache0, paths, staged) && |staged| < |paths|
    requires match progress
             case Running(call) => CallMeets(files, cache, paths[|staged|], call)
             case Got(data, readAt, _, _) =>
               Meets(files, cache0, paths[|staged|]) == data && MeetsVersion(files, cache0, paths[|staged|]) == readAt
             case NotExist(version) => MetDoc(files, cache0, paths[|staged|], Doc(ZERO, version))
             case IOError => false
    ensures match LoadOn(true, staged, progress)
            case Loading(boot, docs, call) =>
              && boot && Met(files, cache0, paths, docs)
              && (|docs| < |paths| ==> CallMeets(files, cache, paths[|docs|], call))
            case Stopped => exists k :: 0 <= k < |paths| && Meets(files, cache0, paths[k]).Malformed?
            case _ => false
  {
    hide Met, Meets, MeetsVersion;
    match progress
    case NotExist(version) => MetSnoc(files, cache0, paths, staged, Doc(ZERO, version));
    case Got(Json(settings), readAt, _, _) => MetSnoc(files, cache0, paths, staged, Doc(settings, readAt));
    case _ =>
  }

  lemma BootLoaded(s0: State, s: State)
    requires BootAt(s0, s) && s.pc.Loading? && |s.pc.staged| == |s.paths|
    ensures BootAt(s0, Next(s, Advance(false)))
  {
    assert s.paths[..0] == [];
    hide ServesAlike, Met;
  }

  lemma SnapVersionsStep(files: Files, next: map<Path, Fingerprint>, versions: map<Path, nat>, p: Path)
    requires SnapVersionsNow(files, next, versions)
    ensures SnapVersionsNow(files, next[p := FingerprintNow(files, p)], versions[p := Now(files, p)])
  {
  }

  lemma BootStat(s0: State, s: State)
    requires BootAt(s0, s) && s.pc.Snapshotting? && s.pc.k < |s.paths|
    ensures BootAt(s0, Next(s, Advance(false)))
  {
    SnapNowStep(s.files, s.paths, s.pc.k, s.pc.next);
    SnapVersionsStep(s.files, s.pc.next, s.pc.nextVersion, s.paths[s.pc.k]);
    hide SnapNow, ServesAlike, Met, SnapVersionsNow, FingerprintAt, History;
  }

  lemma BootCommit(s0: State, s: State)
    requires BootAt(s0, s) && s.pc.Snapshotting? && s.pc.k == |s.paths|
    ensures BootAt(s0, Next(s, Advance(false)))
  {
    hide ServesAlike, SnapNow, Met, SnapVersionsNow, Fresh;
  }

  lemma {:induction false} BootFinish(s0: State, s: State)
    requires BootAt(s0, s) && Refreshing(s) && Inv(s)
    ensures BootAt(s0, Finish(s)) && Over(Finish(s).pc) && Inv(Finish(s))
    decreases Phase(s.pc), Remaining(s), CallsLeft(s.pc)
  {
    if !Over(s.pc) {
      AdvanceProgresses(s, false);
      StepKeepsInv(s, Advance(false));
      if s.pc.Snapshotting? {
        hide Inv;
        if s.pc.k < |s.paths| { BootStat(s0, s); } else { BootCommit(s0, s); }
      } else if |s.pc.staged| < |s.paths| {
        assert CacheOk(s.files, s.cache);
        hide Inv;
        BootLoad(s0, s);
      } else {
        hide Inv;
        BootLoaded(s0, s);
      }
      hide BootAt, Next;
      hide Inv;
      BootFinish(s0, Next(s, Advance(false)));
    }
  }

  /** Every file, as the constructor's reads meet it, parses. */
  ghost predicate AllParse(files: Files, cache: map<Path, Entry>, paths: seq<Path>) {
    forall k | 0 <= k < |paths| :: Meets(files, cache, paths[k]).Json?
  }

  /** Every read meets what the file says now. */
  ghost predicate AllTrue(files: Files, cache: map<Path, Entry>, paths: seq<Path>) {
    forall k | 0 <= k < |paths| :: Meets(files, cache, paths[k]) == DataNow(History(files, paths[k]))
  }

  /** No read meets bytes older than the file. */
  ghost predicate NoneStale(files: Files, cache: map<Path, Entry>, paths: seq<Path>) {
    forall k | 0 <= k < |paths| :: MeetsVersion(files, cache, paths[k]) == Now(files, paths[k])
  }

  lemma MetIsConverged(files: Files, cache: map<Path, Entry>, paths: seq<Path>, docs: seq<Doc>)
    requires Met(files, cache, paths, docs) && |docs| == |paths|
    ensures AllParse(files, cache, paths)
    ensures UpToDate(files, paths, docs) <==> AllTrue(files, cache, paths)
  {
    forall k | 0 <= k < |paths|
      ensures Meets(files, cache, paths[k]) == Json(docs[k].settings)
    {
      assert MetDoc(files, cache, paths[k], docs[k]);
    }
    hide Meets, DataNow, Met;
  }

  lemma MetIsFresh(files: Files, cache: map<Path, Entry>, paths: seq<Path>, docs: seq<Doc>,
                   snapshot: map<Path, Fingerprint>, versions: map<Path, nat>)
    requires CacheOk(files, cache) && Met(files, cache, paths, docs) && |docs| == |paths|
    requires SnapNow(files, paths, |paths|, snapshot) && SnapVersionsNow(files, snapshot, versions)
    ensures Fresh(paths, versions, docs) <==> NoneStale(files, cache, paths)
  {
    assert paths[..|paths|] == paths;
    forall k | 0 <= k < |paths|
      ensures Floor(versions, paths[k]) == Now(files, paths[k])
      ensures docs[k].version == MeetsVersion(files, cache, paths[k]) <= Now(files, paths[k])
    {
      assert MetDoc(files, cache, paths[k], docs[k]) && paths[k] in Watched(paths);
      assert Hits(files, cache, paths[k]) ==> EntryOk(History(files, paths[k]), cache[paths[k]]);
    }
    hide Met, SnapNow, SnapVersionsNow, CacheOk, MeetsVersion, Floor;
  }

  lemma SnapNowDetectsNothing(s: State)
    requires SnapNow(s.files, s.paths, |s.paths|, s.snapshot)
    ensures !Detects(s)
  {
    assert s.paths[..|s.paths|] == s.paths;
    forall k | 0 <= k < |s.paths|
      ensures Lookup(s.snapshot, s.paths[k]) == FingerprintNow(s.files, s.paths[k])
    {
      assert s.paths[k] in Watched(s.paths);
    }
  }

  /** What an undisturbed constructor does, whatever others had cached before. It fails exactly when some file
      does not parse as its read meets it; otherwise it has loaded what the reads met, and nothing is left to
      detect. Then the loaded settings equal the files exactly when every read met what the file says, and are
      no older than the snapshot exactly when none met older bytes. */
  lemma QuietConstructor(paths: seq<Path>, files: Files, cache: map<Path, Entry>)
    requires CacheOk(files, cache)
    ensures Booted(paths, files, cache, Finish(Init(paths, files, cache)))
  {
    var s0 := Init(paths, files, cache);
    InitInv(paths, files, cache);
    assert BootAt(s0, s0) && Refreshing(s0) by { hide Inv; }
    hide Finish;
    BootFinish(s0, s0);
    assert CacheOk(Finish(s0).files, Finish(s0).cache);
    hide Inv;
    BootOutcome(s0, Finish(s0));
  }

  /** The outcome of an undisturbed constructor. */
  ghost predicate Booted(paths: seq<Path>, files: Files, cache: map<Path, Entry>, r: State) {
    && r.files == files && r.paths == paths
    && r.pc == (if AllParse(files, cache, paths) then Idle else Stopped)
    && (r.pc.Idle? ==>
          && Met(files, cache, paths, r.loaded) && |r.loaded| == |paths| && !Detects(r)
          && (Converged(r) <==> AllTrue(files, cache, paths))
          && (r.synced <==> NoneStale(files, cache, paths))
          && (LoadedFresh(r) <==> NoneStale(files, cache, paths))
          && PoisonLeft(files, cache, r))
  }

  /** A watched entry is left under the snapshot's fingerprint, poisoned, exactly where a read met older bytes. */
  ghost predicate PoisonLeft(files: Files, cache: map<Path, Entry>, r: State) {
    forall p | p in r.cache && p in r.snapVersion && r.cache[p].fp == Lookup(r.snapshot, p) ::
      Poisoned(r.cache[p]) <==> MeetsVersion(files, cache, p) < Now(files, p)
  }

  lemma BootPoison(s0: State, r: State)
    requires BootAt(s0, r) && r.pc.Idle? && CacheOk(r.files, r.cache)
    ensures PoisonLeft(r.files, s0.cache, r)
  {
    forall p | p in r.cache && p in r.snapVersion && r.cache[p].fp == Lookup(r.snapshot, p)
      ensures Poisoned(r.cache[p]) <==> MeetsVersion(r.files, s0.cache, p) < Now(r.files, p)
    {
      assert p in r.snapshot && r.snapshot[p] == FingerprintNow(r.files, p);
      assert EntryOk(History(r.files, p), r.cache[p]);
      AlikeAt(r.files, s0.cache, r.cache, p);
      hide BootAt, CacheOk, MeetsVersion;
      EntryMet(r.files, r.cache, p);
    }
    hide BootAt, CacheOk;
  }

  lemma EntryMet(files: Files, cache: map<Path, Entry>, p: Path)
    requires p in cache && EntryOk(History(files, p), cache[p]) && cache[p].fp == FingerprintNow(files, p)
    ensures Poisoned(cache[p]) <==> MeetsVersion(files, cache, p) < Now(files, p)
  {
  }

  lemma BootOutcome(s0: State, r: State)
    requires BootAt(s0, r) && Over(r.pc) && CacheOk(s0.files, s0.cache) && CacheOk(r.files, r.cache)
    ensures Booted(s0.paths, s0.files, s0.cache, r)
  {
    if r.pc.Idle? {
      MetIsConverged(r.files, s0.cache, r.paths, r.loaded);
      MetIsFresh(r.files, s0.cache, r.paths, r.loaded, r.snapshot, r.snapVersion);
      SnapNowDetectsNothing(r);
      BootPoison(s0, r);
    }
    hide ServesAlike, Met, SnapNow, SnapVersionsNow, Meets, MeetsVersion, CacheOk, UpToDate, Fresh, Detects,
         NoneStale, AllTrue, PoisonLeft;
  }

  /** No poisoned entry can be met by a stat. */
  ghost predicate NoPoison(files: Files, cache: map<Path, Entry>) {
    forall p | Hits(files, cache, p) :: !Poisoned(cache[p])
  }

  /** Without poison every read meets what the file says. */
  lemma NoPoisonIsTrue(paths: seq<Path>, files: Files, cache: map<Path, Entry>)
    requires CacheOk(files, cache) && NoPoison(files, cache)
    ensures AllTrue(files, cache, paths) && NoneStale(files, cache, paths)
  {
    forall p
      ensures Meets(files, cache, p) == DataNow(History(files, p)) && MeetsVersion(files, cache, p) == Now(files, p)
    {
      if Hits(files, cache, p) {
        assert EntryOk(History(files, p), cache[p]) && !Poisoned(cache[p]);
      }
    }
    hide Meets, MeetsVersion, CacheOk, NoPoison;
  }

  lemma {:induction false} FinishReaches(s: State)
    requires Reachable(s) && Refreshing(s)
    ensures Reachable(Finish(s))
    decreases Phase(s.pc), Remaining(s), CallsLeft(s.pc)
  {
    hide Reachable, Next;
    if !Over(s.pc) {
      AdvanceProgresses(s, false);
      StepReaches(s, Advance(false));
      FinishReaches(Next(s, Advance(false)));
    }
  }
}
