/** Hot reload of settings files as a protocol: a fingerprint-keyed byte cache, a snapshot/diff
    detector and a refresh that snapshots first and loads second, interleaved with an outside process
    that writes the files (internal/config/settings_cache.go, settings_change_detector.go,
    internal/conversation/mcp_config.go). One thread reads; any number of processes write.

    A file's history lists its contents since the start; the fingerprint of existing content is its
    place in that history, so no two contents of a file share one. The fields `readAt`, `began`,
    `version`, `snapVersion`, `synced` and `early` record history and steer nothing. */
module HotReload {

  type Path = string

  /** The contents a file has had, oldest first. */
  type Past = h: seq<File> | h != [] witness [Absent]

  type Files = map<Path, Past>

  /** 0 is the zero value of Settings. */
  type Settings = nat

  const ZERO: Settings := 0

  datatype Data = Json(settings: Settings) | Malformed

  datatype File = Absent | Present(data: Data)

  datatype Fingerprint = NoFile | Stamp(version: nat)

  /** A cache entry; `readAt` is the version its bytes come from. */
  datatype Entry = Entry(fp: Fingerprint, data: Data, readAt: nat)

  /** Loaded settings and the version they were loaded from. */
  datatype Doc = Doc(settings: Settings, version: nat)

  /** Where a readSettingsFile call is; `began` is the version its first stat saw. */
  datatype Call =
    | AtStat
    | AtLookup(fp: Fingerprint, began: nat)
    | AtRead(began: nat)
    | AtRestat(data: Data, readAt: nat, began: nat)
    | AtStore(fp: Fingerprint, data: Data, readAt: nat, began: nat)

  datatype Pc =
    | Idle
    | Stopped
    | Snapshotting(booting: bool, docs: seq<Doc>, k: nat, next: map<Path, Fingerprint>, nextVersion: map<Path, nat>)
    | Loading(boot: bool, staged: seq<Doc>, call: Call)
    | Reading(target: Path, read: Call)

  /** The bytes a call returned; `poisoned` when a cache hit served bytes older than their fingerprint. */
  datatype Answer = Nothing | Answer(path: Path, data: Data, version: nat, began: nat, poisoned: bool)

  /** `early` are the paths whose cached bytes were stored before the detector's first snapshot, in a cache
      that has not been dropped since. */
  datatype State = State(
    paths: seq<Path>,
    files: Files,
    cache: map<Path, Entry>,
    snapshot: map<Path, Fingerprint>,
    snapVersion: map<Path, nat>,
    loaded: seq<Doc>,
    synced: bool,
    early: set<Path>,
    lastAnswer: Answer,
    pc: Pc)

  datatype Step =
    | Write(path: Path, data: Data)   // an outside process
    | Delete(path: Path)              // an outside process
    | StartRefresh                    // RefreshSettingsFiles
    | StartRead(path: Path)           // any other readSettingsFile of the same thread
    | ResetCache                      // ResetSettingsCache
    | Advance(fails: bool)            // the next system call or critical section; `fails`: it reports an I/O error

  /** Files start out absent. */
  function History(files: Files, p: Path): Past {
    if p in files then files[p] else [Absent]
  }

  /** The version of `p` now on disk. */
  function Now(files: Files, p: Path): (v: nat)
    ensures v == |History(files, p)| - 1
  {
    |History(files, p)| - 1
  }

  function FingerprintAt(h: seq<File>, i: nat): Fingerprint
    requires i < |h|
  {
    if h[i].Absent? then NoFile else Stamp(i)
  }

  /** The zero fingerprint of a missing key says that there is no file. */
  function Lookup(m: map<Path, Fingerprint>, p: Path): Fingerprint {
    if p in m then m[p] else NoFile
  }

  ghost predicate Changed(before: map<Path, Fingerprint>, after: map<Path, Fingerprint>) {
    exists p | p in before.Keys + after.Keys :: Lookup(before, p) != Lookup(after, p)
  }

  /** The constructor begins; other readers of the process may have filled the cache before. */
  function Init(paths: seq<Path>, files: Files, cache: map<Path, Entry>): State {
    State(paths, files, cache, map[], map[], [], false, cache.Keys, Nothing, Loading(true, [], AtStat))
  }

  // ---------- One step ----------

  datatype Progress =
    | Running(call: Call)
    | Got(data: Data, readAt: nat, began: nat, poisoned: bool)
    | NotExist(version: nat)
    | IOError

  /** The next system call or critical section of readSettingsFile, and the cache after it. */
  function AdvanceCall(h: seq<File>, cache: map<Path, Entry>, p: Path, call: Call, fails: bool)
    : (Progress, map<Path, Entry>)
    requires h != []
  {
    var now := |h| - 1;
    match call
    case AtStat =>
      (if fails then IOError else if h[now].Absent? then NotExist(now)
       else Running(AtLookup(Stamp(now), now)), cache)
    case AtLookup(fp, began) =>
      (if p in cache && cache[p].fp == fp
       then Got(cache[p].data, cache[p].readAt, began, fp != Stamp(cache[p].readAt))
       else Running(AtRead(began)), cache)
    case AtRead(began) =>
      (if fails then IOError else if h[now].Absent? then NotExist(now)
       else Running(AtRestat(h[now].data, now, began)), cache)
    case AtRestat(data, readAt, began) =>
      (if fails || h[now].Absent? then Got(data, readAt, began, false)
       else Running(AtStore(Stamp(now), data, readAt, began)), cache)
    case AtStore(fp, data, readAt, began) =>
      (Got(data, readAt, began, false), cache[p := Entry(fp, data, readAt)])
  }

  predicate Booting(pc: Pc) {
    pc.Stopped? || (pc.Loading? && pc.boot) || (pc.Snapshotting? && pc.booting)
  }

  /** After an error a refresh or read gives up, and the constructor returns no configuration. */
  function GaveUp(pc: Pc): Pc {
    if Booting(pc) then Stopped else Idle
  }

  /** Where a load goes on once the call for the current path has made this progress. */
  function LoadOn(boot: bool, staged: seq<Doc>, progress: Progress): Pc {
    var gaveUp := if boot then Stopped else Idle;
    match progress
    case Running(call) => Loading(boot, staged, call)
    case NotExist(version) => Loading(boot, staged + [Doc(ZERO, version)], AtStat)
    case IOError => gaveUp
    case Got(Malformed, _, _, _) => gaveUp
    case Got(Json(settings), readAt, _, _) => Loading(boot, staged + [Doc(settings, readAt)], AtStat)
  }

  function ReadOn(p: Path, progress: Progress): Pc {
    if progress.Running? then Reading(p, progress.call) else Idle
  }

  function Answered(p: Path, progress: Progress, answer: Answer): Answer {
    if progress.Got? then Answer(p, progress.data, progress.readAt, progress.began, progress.poisoned) else answer
  }

  /** What a step of a call for `p` stores is early while the constructor runs. */
  function EarlyAfter(early: set<Path>, p: Path, call: Call, boot: bool): set<Path> {
    if !call.AtStore? then early else if boot then early + {p} else early - {p}
  }

  ghost function AdvanceLoading(s: State, fails: bool): State
    requires s.pc.Loading?
  {
    var Loading(boot, staged, call) := s.pc;
    if |staged| < |s.paths| then
      var p := s.paths[|staged|];
      var (progress, cache) := AdvanceCall(History(s.files, p), s.cache, p, call, fails);
      s.(cache := cache, early := EarlyAfter(s.early, p, call, boot),
         lastAnswer := Answered(p, progress, s.lastAnswer), pc := LoadOn(boot, staged, progress))
    else if boot then s.(pc := Snapshotting(true, staged, 0, map[], map[]))
    else s.(loaded := staged, synced := true, pc := Idle)
  }

  ghost function AdvanceReading(s: State, fails: bool): State
    requires s.pc.Reading?
  {
    var Reading(p, call) := s.pc;
    var (progress, cache) := AdvanceCall(History(s.files, p), s.cache, p, call, fails);
    s.(cache := cache, early := EarlyAfter(s.early, p, call, false),
       lastAnswer := Answered(p, progress, s.lastAnswer), pc := ReadOn(p, progress))
  }

  /** A watched entry whose bytes are older than its fingerprint was read after the snapshot, or its
      fingerprint is older than the snapshot and can never be met again. */
  predicate EntrySettled(e: Entry, snapVersion: nat) {
    e.fp.Stamp? && (e.readAt == e.fp.version || snapVersion <= e.readAt || e.fp.version < snapVersion)
  }

  predicate CacheSettled(cache: map<Path, Entry>, snapVersion: map<Path, nat>, early: set<Path>) {
    forall p | p in cache && p in snapVersion && p !in early :: EntrySettled(cache[p], snapVersion[p])
  }

  /** Everything cached while the constructor runs is early. */
  predicate EarlyOk(cache: map<Path, Entry>, early: set<Path>, booting: bool) {
    early <= cache.Keys && (booting ==> early == cache.Keys)
  }

  /** A path whose fingerprint did not change keeps the version it was first seen at. */
  function Versions(snapshot: map<Path, Fingerprint>, snapVersion: map<Path, nat>,
                    next: map<Path, Fingerprint>, nextVersion: map<Path, nat>): map<Path, nat> {
    map p | p in nextVersion ::
      if p in snapVersion && Lookup(snapshot, p) == Lookup(next, p) then snapVersion[p] else nextVersion[p]
  }

  /** The end of the constructor: the detector's first snapshot. */
  ghost function CommitBoot(s: State): State
    requires s.pc.Snapshotting?
  {
    s.(snapshot := s.pc.next, snapVersion := s.pc.nextVersion, loaded := s.pc.docs, pc := Idle,
       synced := |s.pc.docs| <= |s.paths| && Fresh(s.paths, s.pc.nextVersion, s.pc.docs))
  }

  /** The end of DetectChanges. */
  ghost function Commit(s: State): State
    requires s.pc.Snapshotting?
  {
    var next := s.pc.next;
    var s' := s.(snapshot := next, snapVersion := Versions(s.snapshot, s.snapVersion, next, s.pc.nextVersion));
    if Changed(s.snapshot, next) then
      s'.(cache := map[], synced := false, early := {}, pc := Loading(false, [], AtStat))
    else s'.(pc := Idle)
  }

  ghost function AdvanceSnapshotting(s: State, fails: bool): State
    requires s.pc.Snapshotting?
  {
    var Snapshotting(boot, docs, k, next, nextVersion) := s.pc;
    if k >= |s.paths| then if boot then CommitBoot(s) else Commit(s)
    else if fails then s.(pc := GaveUp(s.pc))
    else
      var p := s.paths[k];
      var now := Now(s.files, p);
      s.(pc := Snapshotting(boot, docs, k + 1, next[p := FingerprintAt(History(s.files, p), now)],
                            nextVersion[p := now]))
  }

  function Append(files: Files, p: Path, f: File): Files {
    files[p := History(files, p) + [f]]
  }

  ghost function Next(s: State, step: Step): State
  {
    match step
    case Write(p, data) => s.(files := Append(s.files, p, Present(data)))
    case Delete(p) => s.(files := Append(s.files, p, Absent))
    case StartRefresh => if s.pc.Idle? then s.(pc := Snapshotting(false, [], 0, map[], map[])) else s
    case StartRead(p) => if s.pc.Idle? then s.(pc := Reading(p, AtStat)) else s
    case ResetCache => if s.pc.Idle? then s.(cache := map[], early := {}) else s
    case Advance(fails) =>
      match s.pc
      case Loading(_, _, _) => AdvanceLoading(s, fails)
      case Reading(_, _) => AdvanceReading(s, fails)
      case Snapshotting(_, _, _, _, _) => AdvanceSnapshotting(s, fails)
      case _ => s
  }

  // ---------- The invariant ----------

  predicate ContentAt(h: seq<File>, i: nat, data: Data) {
    i < |h| && h[i] == Present(data)
  }

  predicate EntryOk(h: seq<File>, e: Entry) {
    && e.fp.Stamp? && e.readAt <= e.fp.version < |h| && h[e.fp.version].Present?
    && ContentAt(h, e.readAt, e.data)
  }

  predicate DocOk(h: seq<File>, d: Doc) {
    d.version < |h| && (if h[d.version].Absent? then d.settings == ZERO else h[d.version].data == Json(d.settings))
  }

  /** Everything a call in flight holds is content of the file, seen no earlier than version `floor`. */
  predicate CallOk(h: seq<File>, call: Call, floor: nat) {
    match call
    case AtStat => floor < |h|
    case AtLookup(fp, began) => floor <= began < |h| && fp == Stamp(began) && h[began].Present?
    case AtRead(began) => floor <= began < |h|
    case AtRestat(data, readAt, began) => floor <= began <= readAt && ContentAt(h, readAt, data)
    case AtStore(fp, data, readAt, began) => floor <= began <= readAt && EntryOk(h, Entry(fp, data, readAt))
  }

  /** The version of the last snapshot; 0 for a path that is not watched. */
  function Floor(snapVersion: map<Path, nat>, p: Path): nat {
    if p in snapVersion then snapVersion[p] else 0
  }

  ghost predicate SnapshotOk(files: Files, snapshot: map<Path, Fingerprint>, snapVersion: map<Path, nat>) {
    && snapshot.Keys == snapVersion.Keys
    && forall p | p in snapVersion ::
         snapVersion[p] < |History(files, p)| && snapshot[p] == FingerprintAt(History(files, p), snapVersion[p])
  }

  /** Once the constructor is done, exactly the configured paths are watched. */
  ghost predicate WatchOk(s: State) {
    if Booting(s.pc) then s.snapVersion == map[] && !s.synced
    else s.snapVersion.Keys == Watched(s.paths) && |s.loaded| == |s.paths|
  }

  function Watched(paths: seq<Path>): set<Path> {
    set p | p in paths
  }

  ghost predicate DocsOk(files: Files, paths: seq<Path>, docs: seq<Doc>) {
    |docs| <= |paths| && forall k | 0 <= k < |docs| :: DocOk(History(files, paths[k]), docs[k])
  }

  /** Every document's version is at least the snapshot's. */
  ghost predicate Fresh(paths: seq<Path>, snapVersion: map<Path, nat>, docs: seq<Doc>)
    requires |docs| <= |paths|
  {
    forall k | 0 <= k < |docs| :: Floor(snapVersion, paths[k]) <= docs[k].version
  }

  ghost predicate SnapOk(files: Files, paths: seq<Path>, snapVersion: map<Path, nat>,
                         k: nat, next: map<Path, Fingerprint>, nextVersion: map<Path, nat>) {
    && k <= |paths| && nextVersion.Keys == Watched(paths[..k])
    && SnapshotOk(files, next, nextVersion)
    && forall p | p in nextVersion :: Floor(snapVersion, p) <= nextVersion[p]
  }

  ghost predicate PcOk(files: Files, paths: seq<Path>, snapVersion: map<Path, nat>, dropped: bool, pc: Pc) {
    match pc
    case Idle => true
    case Stopped => true
    case Reading(p, call) => CallOk(History(files, p), call, Floor(snapVersion, p))
    case Loading(boot, staged, call) =>
      && DocsOk(files, paths, staged) && Fresh(paths, snapVersion, staged) && (boot || dropped)
      && (|staged| < |paths| ==> CallOk(History(files, paths[|staged|]), call, Floor(snapVersion, paths[|staged|])))
    case Snapshotting(boot, docs, k, next, nextVersion) =>
      && DocsOk(files, paths, docs) && (boot ==> |docs| == |paths|)
      && SnapOk(files, paths, snapVersion, k, next, nextVersion)
  }

  ghost predicate CacheOk(files: Files, cache: map<Path, Entry>) {
    forall p | p in cache :: EntryOk(History(files, p), cache[p])
  }

  ghost predicate LoadedOk(s: State) {
    DocsOk(s.files, s.paths, s.loaded) && (s.synced ==> Fresh(s.paths, s.snapVersion, s.loaded))
  }

  predicate AnswerOk(files: Files, answer: Answer) {
    answer.Answer? ==>
      && ContentAt(History(files, answer.path), answer.version, answer.data)
      && (!answer.poisoned ==> answer.began <= answer.version)
  }

  ghost predicate Inv(s: State) {
    && SnapshotOk(s.files, s.snapshot, s.snapVersion) && WatchOk(s)
    && PcOk(s.files, s.paths, s.snapVersion, s.early == {}, s.pc)
    && CacheOk(s.files, s.cache) && CacheSettled(s.cache, s.snapVersion, s.early)
    && EarlyOk(s.cache, s.early, Booting(s.pc))
    && LoadedOk(s) && AnswerOk(s.files, s.lastAnswer)
  }

  lemma InitInv(paths: seq<Path>, files: Files, cache: map<Path, Entry>)
    requires CacheOk(files, cache)
    ensures Inv(Init(paths, files, cache))
  {
  }

  // ---------- Writes ----------

  ghost predicate Grows(files: Files, files': Files) {
    forall p :: History(files, p) <= History(files', p)
  }

  lemma PcGrows(files: Files, files': Files, paths: seq<Path>, snapVersion: map<Path, nat>, dropped: bool, pc: Pc)
    requires Grows(files, files') && PcOk(files, paths, snapVersion, dropped, pc)
    ensures PcOk(files', paths, snapVersion, dropped, pc)
  {
    match pc
    case Reading(p, call) => CallGrows(History(files, p), History(files', p), call, Floor(snapVersion, p));
    case Loading(boot, staged, call) =>
      DocsGrow(files, files', paths, staged);
      if |staged| < |paths| {
        var p := paths[|staged|];
        CallGrows(History(files, p), History(files', p), call, Floor(snapVersion, p));
      }
    case Snapshotting(boot, docs, k, next, nextVersion) =>
      DocsGrow(files, files', paths, docs);
      SnapshotGrows(files, files', next, nextVersion);
    case _ =>
  }

  lemma CallGrows(h: seq<File>, h': seq<File>, call: Call, floor: nat)
    requires h <= h' && CallOk(h, call, floor)
    ensures CallOk(h', call, floor)
  {
  }

  lemma DocsGrow(files: Files, files': Files, paths: seq<Path>, docs: seq<Doc>)
    requires Grows(files, files') && DocsOk(files, paths, docs)
    ensures DocsOk(files', paths, docs)
  {
    forall k | 0 <= k < |docs|
      ensures DocOk(History(files', paths[k]), docs[k])
    {
      assert History(files, paths[k]) <= History(files', paths[k]);
    }
  }

  lemma SnapshotGrows(files: Files, files': Files, snapshot: map<Path, Fingerprint>, snapVersion: map<Path, nat>)
    requires Grows(files, files') && SnapshotOk(files, snapshot, snapVersion)
    ensures SnapshotOk(files', snapshot, snapVersion)
  {
    forall p | p in snapVersion
      ensures snapVersion[p] < |History(files', p)| && snapshot[p] == FingerprintAt(History(files', p), snapVersion[p])
    {
      assert History(files, p) <= History(files', p);
    }
  }

  lemma CacheGrows(files: Files, files': Files, cache: map<Path, Entry>)
    requires Grows(files, files') && CacheOk(files, cache)
    ensures CacheOk(files', cache)
  {
    forall p | p in cache
      ensures EntryOk(History(files', p), cache[p])
    {
      assert History(files, p) <= History(files', p);
    }
  }

  lemma AppendGrows(files: Files, p: Path, f: File)
    ensures Grows(files, Append(files, p, f))
  {
  }

  lemma AnswerGrows(files: Files, files': Files, answer: Answer)
    requires Grows(files, files') && AnswerOk(files, answer)
    ensures AnswerOk(files', answer)
  {
    if answer.Answer? {
      assert History(files, answer.path) <= History(files', answer.path);
    }
  }

  lemma WriteKeepsInv(s: State, p: Path, f: File)
    requires Inv(s)
    ensures Inv(s.(files := Append(s.files, p, f)))
  {
    hide SnapshotOk, PcOk, CacheOk, DocsOk, CacheSettled, Fresh, Append, Grows, AnswerOk;
    var files' := Append(s.files, p, f);
    AppendGrows(s.files, p, f);
    SnapshotGrows(s.files, files', s.snapshot, s.snapVersion);
    PcGrows(s.files, files', s.paths, s.snapVersion, s.early == {}, s.pc);
    CacheGrows(s.files, files', s.cache);
    DocsGrow(s.files, files', s.paths, s.loaded);
    AnswerGrows(s.files, files', s.lastAnswer);
  }

  // ---------- The reading thread ----------

  /** A step that leaves the files, the snapshot and the loaded settings alone. */
  lemma ThreadFrame(s: State, cache: map<Path, Entry>, early: set<Path>, answer: Answer, pc: Pc)
    requires Inv(s) && Booting(pc) == Booting(s.pc)
    requires CacheOk(s.files, cache) && CacheSettled(cache, s.snapVersion, early) && EarlyOk(cache, early, Booting(pc))
    requires PcOk(s.files, s.paths, s.snapVersion, early == {}, pc) && AnswerOk(s.files, answer)
    ensures Inv(s.(cache := cache, early := early, lastAnswer := answer, pc := pc))
  {
    hide SnapshotOk, PcOk, CacheOk, DocsOk, CacheSettled, Fresh, AnswerOk, Booting, EarlyOk;
  }

  /** One step of a call keeps the cache in order; what it returns is content of the file, and no
      older than the snapshot unless it was cached before the first one. */
  lemma CallStep(files: Files, cache: map<Path, Entry>, snapVersion: map<Path, nat>, early: set<Path>, p: Path,
                 call: Call, boot: bool, fails: bool)
    requires CacheOk(files, cache) && CacheSettled(cache, snapVersion, early) && EarlyOk(cache, early, boot)
    requires CallOk(History(files, p), call, Floor(snapVersion, p))
    ensures var (progress, cache') := AdvanceCall(History(files, p), cache, p, call, fails);
      var early' := EarlyAfter(early, p, call, boot);
      && CacheOk(files, cache') && CacheSettled(cache', snapVersion, early') && EarlyOk(cache', early', boot)
      && ProgressOk(History(files, p), progress, Floor(snapVersion, p), p !in early)
  {
    if call.AtLookup? && p !in early && p in cache && p in snapVersion {
      assert EntrySettled(cache[p], snapVersion[p]);
    }
    StoreKeepsCache(cache, snapVersion, early, p, call, boot);
    hide CacheSettled, EarlyOk;
  }

  lemma StoreKeepsCache(cache: map<Path, Entry>, snapVersion: map<Path, nat>, early: set<Path>, p: Path, call: Call,
                        boot: bool)
    requires CacheSettled(cache, snapVersion, early) && EarlyOk(cache, early, boot)
    requires call.AtStore? ==> call.fp.Stamp? && Floor(snapVersion, p) <= call.readAt
    ensures var cache' := if call.AtStore? then cache[p := Entry(call.fp, call.data, call.readAt)] else cache;
      var early' := EarlyAfter(early, p, call, boot);
      CacheSettled(cache', snapVersion, early') && EarlyOk(cache', early', boot)
  {
  }

  /** `late`: nothing is served that was cached before the first snapshot. */
  predicate ProgressOk(h: seq<File>, progress: Progress, floor: nat, late: bool) {
    match progress
    case Running(call) => CallOk(h, call, floor)
    case NotExist(version) => DocOk(h, Doc(ZERO, version)) && floor <= version
    case IOError => true
    case Got(data, readAt, began, poisoned) =>
      ContentAt(h, readAt, data) && (!poisoned ==> began <= readAt) && (late || floor == 0 ==> floor <= readAt)
  }

  lemma ReadingKeepsInv(s: State, fails: bool)
    requires Inv(s) && s.pc.Reading?
    ensures Inv(AdvanceReading(s, fails))
  {
    var Reading(p, call) := s.pc;
    var s' := AdvanceReading(s, fails);
    CallStep(s.files, s.cache, s.snapVersion, s.early, p, call, false, fails);
    hide SnapshotOk, CacheOk, DocsOk, CacheSettled, Fresh, AdvanceCall, CallOk, EarlyOk, EarlyAfter;
    ThreadFrame(s, s'.cache, s'.early, s'.lastAnswer, s'.pc);
  }

  lemma DocsSnoc(files: Files, paths: seq<Path>, snapVersion: map<Path, nat>, docs: seq<Doc>, d: Doc)
    requires DocsOk(files, paths, docs) && |docs| < |paths| && DocOk(History(files, paths[|docs|]), d)
    requires Fresh(paths, snapVersion, docs) && Floor(snapVersion, paths[|docs|]) <= d.version
    ensures DocsOk(files, paths, docs + [d]) && Fresh(paths, snapVersion, docs + [d])
  {
  }

  lemma LoadOnOk(files: Files, paths: seq<Path>, snapVersion: map<Path, nat>, dropped: bool,
                 boot: bool, staged: seq<Doc>, progress: Progress)
    requires DocsOk(files, paths, staged) && Fresh(paths, snapVersion, staged) && (boot || dropped)
    requires |staged| < |paths| && (boot ==> Floor(snapVersion, paths[|staged|]) == 0)
    requires ProgressOk(History(files, paths[|staged|]), progress, Floor(snapVersion, paths[|staged|]), dropped)
    requires forall p :: CallOk(History(files, p), AtStat, Floor(snapVersion, p))
    ensures PcOk(files, paths, snapVersion, dropped, LoadOn(boot, staged, progress))
  {
    match progress
    case NotExist(version) => DocsSnoc(files, paths, snapVersion, staged, Doc(ZERO, version));
    case Got(Json(settings), readAt, _, _) => DocsSnoc(files, paths, snapVersion, staged, Doc(settings, readAt));
    case _ =>
  }

  lemma LoadCallKeepsInv(s: State, fails: bool)
    requires Inv(s) && s.pc.Loading? && |s.pc.staged| < |s.paths|
    ensures Inv(AdvanceLoading(s, fails))
  {
    hide SnapshotOk, CacheOk, DocsOk, CacheSettled, Fresh, AdvanceCall, CallOk, ProgressOk, AnswerOk;
    var Loading(boot, staged, call) := s.pc;
    var p := s.paths[|staged|];
    CallStep(s.files, s.cache, s.snapVersion, s.early, p, call, boot, fails);
    NextCallOk(s.files, s.snapshot, s.snapVersion);
    var (progress, cache) := AdvanceCall(History(s.files, p), s.cache, p, call, fails);
    var early := EarlyAfter(s.early, p, call, boot);
    LateProgress(History(s.files, p), progress, Floor(s.snapVersion, p), p !in s.early, early == {});
    LoadOnOk(s.files, s.paths, s.snapVersion, early == {}, boot, staged, progress);
    AnsweredOk(s.files, p, progress, s.lastAnswer, Floor(s.snapVersion, p), p !in s.early);
    hide PcOk, EarlyOk;
    ThreadFrame(s, cache, early, Answered(p, progress, s.lastAnswer), LoadOn(boot, staged, progress));
  }

  /** Before the first snapshot, and in a refresh, it does not matter what is early. */
  lemma LateProgress(h: seq<File>, progress: Progress, floor: nat, late: bool, dropped: bool)
    requires ProgressOk(h, progress, floor, late) && (floor == 0 || (dropped ==> late))
    ensures ProgressOk(h, progress, floor, dropped)
  {
  }

  lemma LoadEndKeepsInv(s: State, fails: bool)
    requires Inv(s) && s.pc.Loading? && |s.pc.staged| >= |s.paths|
    ensures Inv(AdvanceLoading(s, fails))
  {
    hide SnapshotOk, CacheOk, DocOk, CacheSettled, Fresh, AnswerOk, CallOk, EarlyOk;
    if s.pc.boot {
      NoSnapshotOk(s.files, s.paths, s.snapVersion);
      ThreadFrame(s, s.cache, s.early, s.lastAnswer, Snapshotting(true, s.pc.staged, 0, map[], map[]));
    } else {
      NotBooting(s.cache, s.early);
    }
  }

  lemma NotBooting(cache: map<Path, Entry>, early: set<Path>)
    requires EarlyOk(cache, early, false) || EarlyOk(cache, early, true)
    ensures EarlyOk(cache, early, false)
  {
  }

  lemma AnsweredOk(files: Files, p: Path, progress: Progress, answer: Answer, floor: nat, late: bool)
    requires ProgressOk(History(files, p), progress, floor, late) && AnswerOk(files, answer)
    ensures AnswerOk(files, Answered(p, progress, answer))
  {
  }

  /** A snapshot that has not looked at any path yet. */
  lemma NoSnapshotOk(files: Files, paths: seq<Path>, snapVersion: map<Path, nat>)
    ensures SnapOk(files, paths, snapVersion, 0, map[], map[])
  {
  }

  /** A call may always begin. */
  lemma NextCallOk(files: Files, snapshot: map<Path, Fingerprint>, snapVersion: map<Path, nat>)
    requires SnapshotOk(files, snapshot, snapVersion)
    ensures forall p :: CallOk(History(files, p), AtStat, Floor(snapVersion, p))
  {
  }

  // ---------- The detector ----------

  lemma SnapshotSnoc(files: Files, next: map<Path, Fingerprint>, nextVersion: map<Path, nat>, p: Path, v: nat)
    requires SnapshotOk(files, next, nextVersion) && v < |History(files, p)|
    ensures SnapshotOk(files, next[p := FingerprintAt(History(files, p), v)], nextVersion[p := v])
  {
  }

  lemma SnapshotStep(files: Files, paths: seq<Path>, snapVersion: map<Path, nat>, snapshot: map<Path, Fingerprint>,
                     k: nat, next: map<Path, Fingerprint>, nextVersion: map<Path, nat>)
    requires SnapshotOk(files, snapshot, snapVersion)
    requires SnapOk(files, paths, snapVersion, k, next, nextVersion) && k < |paths|
    ensures var p := paths[k];
      SnapOk(files, paths, snapVersion, k + 1, next[p := FingerprintAt(History(files, p), Now(files, p))],
             nextVersion[p := Now(files, p)])
  {
    var p := paths[k];
    SnapshotSnoc(files, next, nextVersion, p, Now(files, p));
    assert Floor(snapVersion, p) <= Now(files, p);
    hide SnapshotOk;
    assert paths[..k + 1] == paths[..k] + [p];
    assert nextVersion[p := Now(files, p)].Keys == Watched(paths[..k + 1]);
  }

  lemma SnapshotPcOk(files: Files, paths: seq<Path>, snapVersion: map<Path, nat>, snapshot: map<Path, Fingerprint>,
                     dropped: bool, pc: Pc)
    requires SnapshotOk(files, snapshot, snapVersion)
    requires pc.Snapshotting? && pc.k < |paths| && PcOk(files, paths, snapVersion, dropped, pc)
    ensures var p := paths[pc.k];
      PcOk(files, paths, snapVersion, dropped,
           Snapshotting(pc.booting, pc.docs, pc.k + 1, pc.next[p := FingerprintAt(History(files, p), Now(files, p))],
                        pc.nextVersion[p := Now(files, p)]))
  {
    SnapshotStep(files, paths, snapVersion, snapshot, pc.k, pc.next, pc.nextVersion);
    hide SnapshotOk, DocsOk, SnapOk;
  }

  lemma SnapshottingKeepsInv(s: State, fails: bool)
    requires Inv(s) && s.pc.Snapshotting? && s.pc.k < |s.paths|
    ensures Inv(AdvanceSnapshotting(s, fails))
  {
    hide PcOk, SnapshotOk, DocsOk, SnapOk, CacheOk, CacheSettled, Fresh, AnswerOk, WatchOk, LoadedOk;
    SnapshotPcOk(s.files, s.paths, s.snapVersion, s.snapshot, s.early == {}, s.pc);
    if fails {
      IdleOk(s.files, s.paths, s.snapVersion, s.early == {});
    }
    ThreadFrame(s, s.cache, s.early, s.lastAnswer, AdvanceSnapshotting(s, fails).pc);
  }

  lemma IdleOk(files: Files, paths: seq<Path>, snapVersion: map<Path, nat>, dropped: bool)
    ensures PcOk(files, paths, snapVersion, dropped, Idle) && PcOk(files, paths, snapVersion, dropped, Stopped)
  {
  }

  lemma CommitBootKeepsInv(s: State)
    requires Inv(s) && s.pc.Snapshotting? && s.pc.booting && s.pc.k == |s.paths|
    ensures Inv(CommitBoot(s))
  {
    assert s.paths[..|s.paths|] == s.paths;
    AllEarly(s.cache, s.pc.nextVersion, s.early);
    hide SnapshotOk, CacheOk, DocsOk, CacheSettled, Fresh, AnswerOk, EarlyOk;
  }

  lemma AllEarly(cache: map<Path, Entry>, snapVersion: map<Path, nat>, early: set<Path>)
    requires EarlyOk(cache, early, true)
    ensures CacheSettled(cache, snapVersion, early) && EarlyOk(cache, early, false)
  {
  }

  lemma UnchangedVersions(snapshot: map<Path, Fingerprint>, snapVersion: map<Path, nat>,
                          next: map<Path, Fingerprint>, nextVersion: map<Path, nat>)
    requires snapshot.Keys == snapVersion.Keys == nextVersion.Keys && !Changed(snapshot, next)
    ensures Versions(snapshot, snapVersion, next, nextVersion) == snapVersion
  {
    forall p | p in snapVersion
      ensures Lookup(snapshot, p) == Lookup(next, p)
    {
      assert p in snapshot.Keys + next.Keys;
    }
  }

  lemma VersionsSnapshotOk(files: Files, snapshot: map<Path, Fingerprint>, snapVersion: map<Path, nat>,
                           next: map<Path, Fingerprint>, nextVersion: map<Path, nat>)
    requires SnapshotOk(files, snapshot, snapVersion) && SnapshotOk(files, next, nextVersion)
    ensures SnapshotOk(files, next, Versions(snapshot, snapVersion, next, nextVersion))
  {
    var versions := Versions(snapshot, snapVersion, next, nextVersion);
    forall p | p in versions
      ensures versions[p] < |History(files, p)| && next[p] == FingerprintAt(History(files, p), versions[p])
    {
      if p in snapVersion && Lookup(snapshot, p) == Lookup(next, p) {
        assert versions[p] == snapVersion[p];
      } else {
        assert versions[p] == nextVersion[p];
      }
    }
    assert versions.Keys == nextVersion.Keys;
  }

  lemma VersionsOk(files: Files, paths: seq<Path>, snapshot: map<Path, Fingerprint>, snapVersion: map<Path, nat>,
                   next: map<Path, Fingerprint>, nextVersion: map<Path, nat>)
    requires SnapshotOk(files, snapshot, snapVersion) && SnapOk(files, paths, snapVersion, |paths|, next, nextVersion)
    requires snapVersion.Keys == Watched(paths)
    ensures var versions := Versions(snapshot, snapVersion, next, nextVersion);
      && SnapshotOk(files, next, versions) && versions.Keys == Watched(paths)
      && (!Changed(snapshot, next) ==> versions == snapVersion)
  {
    VersionsSnapshotOk(files, snapshot, snapVersion, next, nextVersion);
    assert paths[..|paths|] == paths;
    assert snapshot.Keys == snapVersion.Keys == nextVersion.Keys;
    hide SnapshotOk, SnapOk, Watched;
    if !Changed(snapshot, next) {
      UnchangedVersions(snapshot, snapVersion, next, nextVersion);
    }
    hide Changed;
  }

  /** DetectChanges found nothing: only the snapshot may move. */
  lemma SameKeepsInv(s: State, next: map<Path, Fingerprint>)
    requires Inv(s) && !Booting(s.pc) && SnapshotOk(s.files, next, s.snapVersion)
    ensures Inv(s.(snapshot := next, pc := Idle))
  {
    IdleOk(s.files, s.paths, s.snapVersion, s.early == {});
    hide SnapshotOk, PcOk, CacheOk, DocsOk, CacheSettled, Fresh, AnswerOk;
  }

  /** DetectChanges found a change: the cache is dropped and a load begins. */
  lemma DropKeepsInv(s: State, next: map<Path, Fingerprint>, versions: map<Path, nat>)
    requires Inv(s) && !Booting(s.pc) && SnapshotOk(s.files, next, versions) && versions.Keys == Watched(s.paths)
    ensures Inv(s.(snapshot := next, snapVersion := versions, cache := map[], synced := false, early := {},
                   pc := Loading(false, [], AtStat)))
  {
    NextCallOk(s.files, next, versions);
    ReloadOk(s.files, s.paths, versions);
    EmptyCacheOk(s.files, s.paths, versions);
    hide SnapshotOk, PcOk, CallOk, CacheOk, DocsOk, CacheSettled, Fresh, AnswerOk, Watched, EarlyOk;
  }

  lemma CommitKeepsInv(s: State)
    requires Inv(s) && s.pc.Snapshotting? && !s.pc.booting && s.pc.k == |s.paths|
    ensures Inv(Commit(s))
  {
    var versions := Versions(s.snapshot, s.snapVersion, s.pc.next, s.pc.nextVersion);
    VersionsOk(s.files, s.paths, s.snapshot, s.snapVersion, s.pc.next, s.pc.nextVersion);
    hide SnapshotOk, SnapOk, PcOk, AnswerOk, Versions, DocsOk, Changed, CacheOk, CacheSettled, Fresh, LoadedOk,
         WatchOk, Inv;
    if Changed(s.snapshot, s.pc.next) {
      DropKeepsInv(s, s.pc.next, versions);
    } else {
      SameKeepsInv(s, s.pc.next);
    }
  }

  /** A load that starts on a cache just dropped. */
  lemma ReloadOk(files: Files, paths: seq<Path>, snapVersion: map<Path, nat>)
    requires forall p :: CallOk(History(files, p), AtStat, Floor(snapVersion, p))
    ensures PcOk(files, paths, snapVersion, true, Loading(false, [], AtStat))
  {
    hide CallOk;
  }

  lemma EmptyCacheOk(files: Files, paths: seq<Path>, snapVersion: map<Path, nat>)
    ensures CacheOk(files, map[]) && CacheSettled(map[], snapVersion, {}) && EarlyOk(map[], {}, false)
    ensures DocsOk(files, paths, []) && Fresh(paths, snapVersion, [])
  {
  }

  lemma StepKeepsInv(s: State, step: Step)
    requires Inv(s)
    ensures Inv(Next(s, step))
  {
    hide Inv, CommitBoot, Commit;
    match step
    case Write(p, data) => WriteKeepsInv(s, p, Present(data));
    case Delete(p) => WriteKeepsInv(s, p, Absent);
    case StartRefresh => if s.pc.Idle? { StartKeepsInv(s, ""); }
    case StartRead(p) => if s.pc.Idle? { StartKeepsInv(s, p); }
    case ResetCache => if s.pc.Idle? { ResetKeepsInv(s); }
    case Advance(fails) => AdvanceKeepsInv(s, fails);
  }

  lemma StartKeepsInv(s: State, p: Path)
    requires Inv(s) && s.pc.Idle?
    ensures Inv(s.(pc := Snapshotting(false, [], 0, map[], map[]))) && Inv(s.(pc := Reading(p, AtStat)))
  {
    hide SnapshotOk, CacheOk, CacheSettled, Fresh, AnswerOk;
    NoSnapshotOk(s.files, s.paths, s.snapVersion);
    NextCallOk(s.files, s.snapshot, s.snapVersion);
    ThreadFrame(s, s.cache, s.early, s.lastAnswer, Snapshotting(false, [], 0, map[], map[]));
    ThreadFrame(s, s.cache, s.early, s.lastAnswer, Reading(p, AtStat));
  }

  lemma ResetKeepsInv(s: State)
    requires Inv(s) && s.pc.Idle?
    ensures Inv(s.(cache := map[], early := {}))
  {
    hide SnapshotOk, Fresh, AnswerOk, DocsOk;
  }

  lemma AdvanceKeepsInv(s: State, fails: bool)
    requires Inv(s)
    ensures Inv(Next(s, Advance(fails)))
  {
    hide Inv, AdvanceLoading, AdvanceReading, AdvanceSnapshotting, CommitBoot, Commit;
    match s.pc
    case Loading(_, staged, _) =>
      if |staged| < |s.paths| { LoadCallKeepsInv(s, fails); } else { LoadEndKeepsInv(s, fails); }
    case Reading(_, _) => ReadingKeepsInv(s, fails);
    case Snapshotting(boot, _, k, _, _) =>
      SnapshotBound(s);
      if k < |s.paths| {
        SnapshottingKeepsInv(s, fails);
      } else {
        SnapshotEnds(s, fails);
        if boot { CommitBootKeepsInv(s); } else { CommitKeepsInv(s); }
      }
    case _ =>
  }

  lemma SnapshotBound(s: State)
    requires Inv(s) && s.pc.Snapshotting?
    ensures s.pc.k <= |s.paths|
  {
    hide SnapshotOk, DocsOk, CacheOk, CacheSettled, AnswerOk, LoadedOk, WatchOk;
  }

  lemma SnapshotEnds(s: State, fails: bool)
    requires s.pc.Snapshotting? && s.pc.k == |s.paths|
    ensures s.pc.booting ==> AdvanceSnapshotting(s, fails) == CommitBoot(s)
    ensures !s.pc.booting ==> AdvanceSnapshotting(s, fails) == Commit(s)
  {
    hide CommitBoot, Commit;
  }
}
