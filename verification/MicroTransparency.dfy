/** When the micro compaction cache is transparent: over any run of calls, prunes, restarts and damage
    to its files, a call returns what the uncached computation would. */
module MicroTransparency {
  import opened Text
  import opened MicroSummary
  import opened MicroCache
  import opened Utf8

  datatype Event =
    | Compact(history: seq<Message>, options: Options)
    | PruneMemory(pruneVersion: string, now: int, deleteInvalid: bool)
    | PruneDisk(examined: seq<Digest>, diskVersion: string, diskNow: int, diskDeleteInvalid: bool)
    | Restart                             // a new process: the memory cache is empty
    | Damage(digest: Digest, file: File)  // a file is overwritten by something that is not its result

  datatype State = State(memory: Memory, disk: Disk)

  const EMPTY := State(map[], map[])

  function After(unwrap: string -> string, s: State, e: Event): State {
    match e
    case Compact(history, o) => var (_, memory, disk) := Call(unwrap, s.memory, s.disk, history, o); State(memory, disk)
    case PruneMemory(version, now, deleteInvalid) =>
      s.(memory := MemoryAfterPrune(s.memory, version, now, deleteInvalid))
    case PruneDisk(examined, version, now, deleteInvalid) =>
      s.(disk := DiskAfterPrune(s.disk, examined, version, now, deleteInvalid))
    case Restart => s.(memory := map[])
    case Damage(digest, file) => s.(disk := s.disk[digest := file])
  }

  /** All calls use one budget; damage leaves no file that loads. */
  predicate Allowed(e: Event, maxChars: int) {
    match e
    case Compact(_, o) => MaxChars(o) == maxChars
    case Damage(digest, file) => file.Garbage? || file.result.digest !in {NoDigest, digest}
    case _ => true
  }

  predicate AllAllowed(events: seq<Event>, maxChars: int) {
    forall e | e in events :: Allowed(e, maxChars)
  }

  function Run(unwrap: string -> string, s: State, events: seq<Event>): State
    decreases |events|
  {
    if events == [] then s else Run(unwrap, After(unwrap, s, events[0]), events[1..])
  }

  // ---------- What one call says ----------

  /** Of the history `a + b`, the last messages `b` are those to be kept. */
  predicate Keeps(a: seq<Message>, b: seq<Message>, keepLast: int) {
    |b| == keepLast || (b == [] && keepLast < 0) || (a == [] && |b| < keepLast)
  }

  lemma OlderIs(a: seq<Message>, b: seq<Message>, keepLast: int)
    requires Keeps(a, b, keepLast)
    ensures Older(a + b, keepLast) == a && KeepCount(a + b, keepLast) == |b|
  {
    assert (a + b)[..|a|] == a;
  }

  /** A call is about the messages before those it keeps: what it computes is their summary, under their digest
      and with the counts, version and times that the options ask for, and it stores just that. */
  lemma CallSummarizesOlder(unwrap: string -> string, s: State, a: seq<Message>, b: seq<Message>, o: Options)
    requires KeysMatch(s) && Keeps(a, b, o.keepLast)
    ensures var (outcome, memory, disk) := Call(unwrap, s.memory, s.disk, a + b, o);
      outcome.Done? ==>
        var r := outcome.result;
        && r.digest == Sha(a) && r.messagesKept == |b|
        && (!r.cached ==>
              && r.summary == Summarize(a, if o.maxChars > 0 then o.maxChars else 4000) && r.messagesSummarized == |a|
              && r.version == (if o.version != "" then o.version else "microcompact.v1") && r.createdAt == o.now
              && r.expiresAt == (if o.ttl > 0 then Some(o.now + o.ttl) else None)
              && memory == (if o.useMemory then s.memory[Sha(a) := r] else s.memory)
              && disk == (if o.useDisk then s.disk[Sha(a) := Stored(r.(summary := ToValid(r.summary)))] else s.disk))
  {
    CallNames(unwrap, s, a + b, o);
    ComputedIs(a, b, o);
    OlderIs(a, b, o.keepLast);
    hide Call, Computed, Summarize, ToValid, Older, KeepCount, KeysMatch;
    RecomputeStores(s.memory, s.disk, a + b, o);
  }

  lemma ComputedIs(a: seq<Message>, b: seq<Message>, o: Options)
    requires Keeps(a, b, o.keepLast)
    ensures Computed(a + b, o) ==
            MicroResult(Summarize(a, if o.maxChars > 0 then o.maxChars else 4000), Sha(a), false, |a|, |b|,
                        if o.version != "" then o.version else "microcompact.v1", o.now,
                        if o.ttl > 0 then Some(o.now + o.ttl) else None)
  {
    OlderIs(a, b, o.keepLast);
    hide Summarize;
  }

  /** Only what was just computed is not marked as cached. */
  lemma CallNames(unwrap: string -> string, s: State, history: seq<Message>, o: Options)
    requires KeysMatch(s)
    ensures var call := Call(unwrap, s.memory, s.disk, history, o);
      call.0.Done? ==>
        && call.0.result.digest == Sha(Older(history, o.keepLast))
        && call.0.result.messagesKept == KeepCount(history, o.keepLast)
        && (!call.0.result.cached ==> call == Recompute(s.memory, s.disk, history, o))
  {
    hide Summarize, ToValid, Usable, Older, KeepCount, Put, Saved;
  }

  lemma RecomputeStores(memory: Memory, disk: Disk, history: seq<Message>, o: Options)
    ensures var (outcome, memory', disk') := Recompute(memory, disk, history, o);
      var r := Computed(history, o);
      outcome.Done? ==>
        && outcome.result == r && r.digest != NoDigest && !r.cached
        && memory' == (if o.useMemory then memory[r.digest := r] else memory)
        && disk' == (if o.useDisk then disk[r.digest := Stored(r.(summary := ToValid(r.summary)))] else disk)
  {
    hide Summarize, ToValid, Older, KeepCount;
  }

  /** So the messages to be kept do not matter. */
  lemma KeptDoNotMatter(unwrap: string -> string, s: State, a: seq<Message>, b: seq<Message>, b': seq<Message>,
                        o: Options)
    requires Keeps(a, b, o.keepLast) && |b| == |b'|
    ensures Call(unwrap, s.memory, s.disk, a + b, o) == Call(unwrap, s.memory, s.disk, a + b', o)
  {
    OlderIs(a, b, o.keepLast);
    OlderIs(a, b', o.keepLast);
    ComputedIs(a, b, o);
    ComputedIs(a, b', o);
    hide Computed, Older, KeepCount, Load, Usable, Hit, Put, Saved;
  }

  /** A stored result may be served at `now`: it is of the version asked for, or of none, and not expired. */
  predicate Serves(r: MicroResult, version: string, now: int) {
    && r.version in {"", if version != "" then version else "microcompact.v1"}
    && (r.expiresAt.None? || now < r.expiresAt.value)
  }

  /** The file of `d` holds a result that names no other digest. */
  predicate Names(disk: Disk, d: Digest) {
    d in disk && disk[d].Stored? && disk[d].result.digest in {NoDigest, d}
  }

  /** Exactly when a call is answered from memory, from disk, by an error, or computed. */
  lemma CallHitsExactly(unwrap: string -> string, s: State, a: seq<Message>, b: seq<Message>, o: Options)
    requires KeysMatch(s) && Keeps(a, b, o.keepLast) && !o.saveFails
    ensures var d, outcome := Sha(a), Call(unwrap, s.memory, s.disk, a + b, o).0;
      var inMemory := o.useMemory && d in s.memory && Serves(s.memory[d], o.version, o.now);
      var inFile := o.useDisk && !o.loadFails && Names(s.disk, d) && Serves(s.disk[d].result, o.version, o.now);
      var broken := o.useDisk && (o.loadFails || (d in s.disk && !Names(s.disk, d)));
      if inMemory then outcome == Done(s.memory[d].(cached := true, messagesKept := |b|))
      else if broken && o.failOnCacheError then outcome == Failed
      else if inFile then
        var r := s.disk[d].result;
        outcome == Done(r.(summary := unwrap(r.summary), digest := d, cached := true, messagesKept := |b|))
      else outcome.Done? && !outcome.result.cached
  {
    OlderIs(a, b, o.keepLast);
    hide Summarize, ToValid, Older, KeepCount;
  }

  /** What a hit leaves behind: one in memory is written through to disk, one on disk is put into memory, neither
      marked as cached. */
  lemma HitsStoreExactly(unwrap: string -> string, s: State, a: seq<Message>, b: seq<Message>, o: Options)
    requires KeysMatch(s) && Keeps(a, b, o.keepLast)
    ensures var (outcome, memory, disk) := Call(unwrap, s.memory, s.disk, a + b, o);
      outcome.Done? && outcome.result.cached ==>
        var plain := outcome.result.(cached := false);
        if o.useMemory && Sha(a) in s.memory && Serves(s.memory[Sha(a)], o.version, o.now) then
          && memory == s.memory
          && disk == (if o.useDisk then s.disk[Sha(a) := Stored(plain.(summary := ToValid(plain.summary)))] else s.disk)
        else memory == (if o.useMemory then s.memory[Sha(a) := plain] else s.memory) && disk == s.disk
  {
    var history, d := a + b, Sha(a);
    OlderIs(a, b, o.keepLast);
    CallNames(unwrap, s, history, o);
    if o.useMemory && d in s.memory {
      UsableServes(s.memory[d], d, o.version, o.now);
    }
    RecomputesUncached(s.memory, s.disk, history, o);
    hide Serves, Usable, Computed, Recompute, Older, KeepCount, ToValid;
    if MemoryHits(s.memory, history, o) {
      HitStores(s.memory, s.disk, s.memory[d].(cached := true, messagesKept := |b|), o);
      hide Hit, Saved;
    } else {
      DiskHitStores(unwrap, s, history, o);
      hide Call, Load;
    }
  }

  lemma UsableServes(r: MicroResult, d: Digest, version: string, now: int)
    requires r.digest == d && d != NoDigest
    ensures Usable(r, version, now) <==> Serves(r, version, now)
  {
  }

  lemma RecomputesUncached(memory: Memory, disk: Disk, history: seq<Message>, o: Options)
    ensures Recompute(memory, disk, history, o).0.Done? ==> !Recompute(memory, disk, history, o).0.result.cached
  {
    hide Summarize, ToValid;
  }

  lemma HitStores(memory: Memory, disk: Disk, r: MicroResult, o: Options)
    requires r.digest != NoDigest && r.cached
    ensures var (outcome, memory', disk') := Hit(memory, disk, r, o);
      outcome.Done? ==>
        && outcome.result == r && memory' == memory
        && disk' == if o.useDisk then disk[r.digest := Stored(r.(cached := false, summary := ToValid(r.summary)))]
                    else disk
  {
    hide ToValid;
  }

  /** A hit that is not in memory is one on disk. */
  lemma DiskHitStores(unwrap: string -> string, s: State, history: seq<Message>, o: Options)
    requires !MemoryHits(s.memory, history, o)
    ensures var (outcome, memory, disk) := Call(unwrap, s.memory, s.disk, history, o);
      var d := Sha(Older(history, o.keepLast));
      outcome.Done? && outcome.result.cached ==>
        && memory == (if o.useMemory then s.memory[d := outcome.result.(cached := false)] else s.memory)
        && disk == s.disk
  {
    RecomputesUncached(s.memory, s.disk, history, o);
    LoadNames(unwrap, s.disk, Sha(Older(history, o.keepLast)), o.loadFails);
    hide Recompute, Load, Usable, Older, KeepCount;
  }

  lemma LoadNames(unwrap: string -> string, disk: Disk, d: Digest, fails: bool)
    ensures Load(unwrap, disk, d, fails).Found? ==> Load(unwrap, disk, d, fails).result.digest == d != NoDigest
  {
  }

  // ---------- What the caches hold ----------

  /** A result for `older`, as it was computed, under its own digest and with a version. */
  predicate Right(r: MicroResult, older: seq<Message>, maxChars: int) {
    && r.digest == Sha(older) && r.summary == Summarize(older, maxChars) && r.messagesSummarized == |older|
    && r.version != ""
  }

  /** A file holds what JSON keeps of the summary. */
  predicate RightFile(f: File, older: seq<Message>, maxChars: int) {
    f.Stored? && f.result.digest in {NoDigest, Sha(older)} ==>
      var summary := Summarize(older, maxChars);
      f.result.summary == ToValid(summary) && Right(f.result.(summary := summary), older, maxChars)
  }

  /** Whatever either cache serves for `older` is right. */
  predicate Holds(s: State, older: seq<Message>, maxChars: int) {
    && (Sha(older) in s.memory ==> Right(s.memory[Sha(older)], older, maxChars))
    && (Sha(older) in s.disk ==> RightFile(s.disk[Sha(older)], older, maxChars))
  }

  /** Written as JSON, read and unwrapped, this summary is what it was. */
  predicate Survives(unwrap: string -> string, older: seq<Message>, maxChars: int) {
    unwrap(ToValid(Summarize(older, maxChars))) == Summarize(older, maxChars)
  }

  /** Where the unwrapping leaves the text alone, only a cut inside a character is lost. */
  lemma SurvivesExactly(unwrap: string -> string, older: seq<Message>, maxChars: int)
    requires Lines(older) != [] && maxChars > 0 && Valid(Join(Lines(older)))
    requires unwrap(ToValid(Summarize(older, maxChars))) == ToValid(Summarize(older, maxChars))
    ensures var out, text := Summarize(older, maxChars), Join(Lines(older));
      out <= text && (Survives(unwrap, older, maxChars) <==> |out| == |text| || !Continuation(text[|out|]))
  {
    CutIsWhole(older, maxChars);
    ToValidFixesExactly(Summarize(older, maxChars));
  }

  lemma LoadIsRight(unwrap: string -> string, disk: Disk, older: seq<Message>, maxChars: int, fails: bool)
    requires Survives(unwrap, older, maxChars)
    requires Sha(older) in disk ==> RightFile(disk[Sha(older)], older, maxChars)
    ensures var l := Load(unwrap, disk, Sha(older), fails); l.Found? ==> Right(l.result, older, maxChars)
  {
  }

  lemma ComputedIsRight(history: seq<Message>, o: Options)
    ensures Right(Computed(history, o), Older(history, o.keepLast), MaxChars(o))
    ensures Usable(Computed(history, o), o.version, o.now)
  {
  }

  /** A call about `older` serves and stores only what is right. */
  lemma CallIsRight(unwrap: string -> string, s: State, history: seq<Message>, o: Options)
    requires var older := Older(history, o.keepLast);
      Survives(unwrap, older, MaxChars(o)) && Holds(s, older, MaxChars(o))
    ensures var older := Older(history, o.keepLast);
      var (outcome, memory, disk) := Call(unwrap, s.memory, s.disk, history, o);
      && Holds(State(memory, disk), older, MaxChars(o))
      && (outcome.Done? ==>
            Right(outcome.result, older, MaxChars(o)) && outcome.result.messagesKept == KeepCount(history, o.keepLast)
            && Usable(outcome.result, o.version, o.now))
  {
    var older := Older(history, o.keepLast);
    LoadIsRight(unwrap, s.disk, older, MaxChars(o), o.loadFails);
    ComputedIsRight(history, o);
    hide Load, Computed, Summarize;
  }

  /** A call about other messages leaves what is held for `older` as it was. */
  lemma CallElsewhere(unwrap: string -> string, s: State, history: seq<Message>, o: Options, older: seq<Message>)
    requires Older(history, o.keepLast) != older && KeysMatch(s)
    ensures var (_, memory, disk) := Call(unwrap, s.memory, s.disk, history, o);
      && (Sha(older) in memory <==> Sha(older) in s.memory) && (Sha(older) in disk <==> Sha(older) in s.disk)
      && (Sha(older) in memory ==> memory[Sha(older)] == s.memory[Sha(older)])
      && (Sha(older) in disk ==> disk[Sha(older)] == s.disk[Sha(older)])
  {
    hide Summarize;
  }

  /** Every memory entry stands under its own digest. */
  predicate KeysMatch(s: State) {
    forall d | d in s.memory :: s.memory[d].digest == d
  }

  lemma CallKeepsKeys(unwrap: string -> string, s: State, history: seq<Message>, o: Options)
    requires KeysMatch(s)
    ensures var (_, memory, disk) := Call(unwrap, s.memory, s.disk, history, o); KeysMatch(State(memory, disk))
  {
    hide Load, Computed;
  }

  lemma EventKeeps(unwrap: string -> string, s: State, e: Event, older: seq<Message>, maxChars: int)
    requires Survives(unwrap, older, maxChars) && Holds(s, older, maxChars) && KeysMatch(s) && Allowed(e, maxChars)
    ensures Holds(After(unwrap, s, e), older, maxChars) && KeysMatch(After(unwrap, s, e))
  {
    match e
    case Compact(history, o) =>
      if Older(history, o.keepLast) == older {
        CallIsRight(unwrap, s, history, o);
      } else {
        CallElsewhere(unwrap, s, history, o, older);
      }
      CallKeepsKeys(unwrap, s, history, o);
      hide Call, Right, RightFile;
    case _ => hide Right;
  }

  lemma {:induction false} RunKeeps(unwrap: string -> string, s: State, events: seq<Event>, older: seq<Message>,
                                    maxChars: int)
    requires Survives(unwrap, older, maxChars) && Holds(s, older, maxChars) && KeysMatch(s)
        && AllAllowed(events, maxChars)
    ensures Holds(Run(unwrap, s, events), older, maxChars) && KeysMatch(Run(unwrap, s, events))
    decreases |events|
  {
    hide Survives, Holds, KeysMatch, After, Allowed;
    if events != [] {
      assert events[0] in events;
      assert forall e | e in events[1..] :: e in events;
      EventKeeps(unwrap, s, events[0], older, maxChars);
      RunKeeps(unwrap, After(unwrap, s, events[0]), events[1..], older, maxChars);
    }
  }

  /** What a call returns after a run, if it does not fail, is neither expired nor of another version, and
      its summary, digest and counts are those of the uncached computation. */
  ghost predicate Transparent(unwrap: string -> string, events: seq<Event>, history: seq<Message>, o: Options) {
    var s := Run(unwrap, EMPTY, events);
    var outcome, c := Call(unwrap, s.memory, s.disk, history, o).0, Computed(history, o);
    outcome.Done? ==>
      var r := outcome.result;
      && r.summary == c.summary && r.digest == c.digest
      && r.messagesSummarized == c.messagesSummarized && r.messagesKept == c.messagesKept
      && r.version == VersionOf(o.version) && (r.expiresAt.Some? ==> o.now < r.expiresAt.value)
  }

  lemma RunIsTransparent(unwrap: string -> string, events: seq<Event>, history: seq<Message>, o: Options)
    requires AllAllowed(events, MaxChars(o)) && Survives(unwrap, Older(history, o.keepLast), MaxChars(o))
    ensures Transparent(unwrap, events, history, o)
  {
    var older, s := Older(history, o.keepLast), Run(unwrap, EMPTY, events);
    RunKeeps(unwrap, EMPTY, events, older, MaxChars(o));
    CallIsRight(unwrap, s, history, o);
    hide Call, Survives, Holds, KeysMatch, Run;
  }

  /** The same call where the disk and the memory are in use and nothing fails. */
  function Stocked(o: Options): Options {
    o.(useMemory := true, useDisk := true, loadFails := false, saveFails := false)
  }

  /** Stored, and loaded by a new process. */
  function Reload(history: seq<Message>, o: Options): seq<Event> {
    [Compact(history, Stocked(o)), Restart]
  }

  lemma ReloadRuns(unwrap: string -> string, history: seq<Message>, o: Options)
    ensures Run(unwrap, EMPTY, Reload(history, o)) ==
            State(map[], map[Sha(Older(history, o.keepLast)) := Saved(Computed(history, o))])
    ensures AllAllowed(Reload(history, o), MaxChars(o))
  {
    var s1 := After(unwrap, EMPTY, Compact(history, Stocked(o)));
    var s2 := After(unwrap, s1, Restart);
    assert Reload(history, o)[1..] == [Restart] && [Restart][1..] == [];
    assert Run(unwrap, EMPTY, Reload(history, o)) == Run(unwrap, s1, [Restart]) == Run(unwrap, s2, []) == s2;
    hide Summarize, Saved;
  }

  /** Stored, reloaded by a new process: the summary that comes back has gone through JSON and been unwrapped. */
  lemma ReloadUnwraps(unwrap: string -> string, history: seq<Message>, o: Options)
    requires o.useDisk && !o.loadFails
    ensures var s := Run(unwrap, EMPTY, Reload(history, o));
      var outcome := Call(unwrap, s.memory, s.disk, history, o).0;
      outcome.Done? && outcome.result.summary == unwrap(ToValid(Computed(history, o).summary))
  {
    ReloadRuns(unwrap, history, o);
    ComputedIsRight(history, o);
    hide Summarize, ToValid, Run;
  }

  /** And then kept in memory. */
  lemma MemoryKeepsReloaded(unwrap: string -> string, history: seq<Message>, o: Options)
    requires o.useMemory && (o.useDisk ==> !o.saveFails)
    ensures var events := Reload(history, o) + [Compact(history, Stocked(o))];
      var s := Run(unwrap, EMPTY, events);
      var outcome := Call(unwrap, s.memory, s.disk, history, o).0;
      && AllAllowed(events, MaxChars(o))
      && outcome.Done? && outcome.result.summary == unwrap(ToValid(Computed(history, o).summary))
  {
    var s, last := Run(unwrap, EMPTY, Reload(history, o)), Compact(history, Stocked(o));
    RunSnoc(unwrap, EMPTY, Reload(history, o), last);
    ReloadRuns(unwrap, history, o);
    ReloadedStays(unwrap, s, history, o);
    hide Call, Run;
  }

  lemma ReloadedStays(unwrap: string -> string, s: State, history: seq<Message>, o: Options)
    requires o.useMemory && (o.useDisk ==> !o.saveFails)
    requires s == State(map[], map[Sha(Older(history, o.keepLast)) := Saved(Computed(history, o))])
    ensures var s' := After(unwrap, s, Compact(history, Stocked(o)));
      var outcome := Call(unwrap, s'.memory, s'.disk, history, o).0;
      outcome.Done? && outcome.result.summary == unwrap(ToValid(Computed(history, o).summary))
  {
    ComputedIsRight(history, o);
    hide Summarize, ToValid;
  }

  lemma {:induction false} RunSnoc(unwrap: string -> string, s: State, events: seq<Event>, last: Event)
    ensures Run(unwrap, s, events + [last]) == After(unwrap, Run(unwrap, s, events), last)
    decreases |events|
  {
    hide After;
    if events == [] {
      assert events + [last] == [last] && [last][1..] == [];
    } else {
      assert (events + [last])[1..] == events[1..] + [last];
      RunSnoc(unwrap, After(unwrap, s, events[0]), events[1..], last);
    }
  }

  /** Some state makes this call succeed with a result it did not compute: the disk is read, or the memory
      is and a hit need not be written or can be. */
  predicate CanHit(o: Options) {
    (o.useDisk && !o.loadFails) || (o.useMemory && (o.useDisk ==> !o.saveFails))
  }

  lemma NeverHits(unwrap: string -> string, s: State, history: seq<Message>, o: Options)
    requires KeysMatch(s) && !CanHit(o)
    ensures var outcome := Call(unwrap, s.memory, s.disk, history, o).0;
      outcome.Done? ==> outcome.result == Computed(history, o)
  {
    hide Computed, Usable;
  }

  lemma {:induction false} RunKeepsKeys(unwrap: string -> string, s: State, events: seq<Event>)
    requires KeysMatch(s)
    ensures KeysMatch(Run(unwrap, s, events))
    decreases |events|
  {
    if events != [] {
      var e := events[0];
      if e.Compact? {
        CallKeepsKeys(unwrap, s, e.history, e.options);
      }
      assert KeysMatch(After(unwrap, s, e)) by { hide Call; }
      hide After, KeysMatch;
      RunKeepsKeys(unwrap, After(unwrap, s, e), events[1..]);
    }
  }

  /** The cache is transparent for a call over every run exactly when the call can never be a hit, or its
      summary survives being written and read. */
  lemma TransparentExactly(unwrap: string -> string, history: seq<Message>, o: Options)
    ensures (forall events | AllAllowed(events, MaxChars(o)) :: Transparent(unwrap, events, history, o))
       <==> !CanHit(o) || Survives(unwrap, Older(history, o.keepLast), MaxChars(o))
  {
    hide Run, Call, Summarize, ToValid;
    if !CanHit(o) {
      forall events | AllAllowed(events, MaxChars(o))
        ensures Transparent(unwrap, events, history, o)
      {
        RunKeepsKeys(unwrap, EMPTY, events);
        NeverHits(unwrap, Run(unwrap, EMPTY, events), history, o);
      }
    } else if Survives(unwrap, Older(history, o.keepLast), MaxChars(o)) {
      forall events | AllAllowed(events, MaxChars(o))
        ensures Transparent(unwrap, events, history, o)
      {
        RunIsTransparent(unwrap, events, history, o);
      }
    } else if o.useDisk && !o.loadFails {
      ReloadRuns(unwrap, history, o);
      ReloadUnwraps(unwrap, history, o);
      assert !Transparent(unwrap, Reload(history, o), history, o);
    } else {
      MemoryKeepsReloaded(unwrap, history, o);
      assert !Transparent(unwrap, Reload(history, o) + [Compact(history, Stocked(o))], history, o);
    }
  }

  /** The caches remember: after a call that succeeded, the same call is a hit, and with the disk in use
      it is one for a new process too. */
  lemma SecondCallHits(unwrap: string -> string, s: State, history: seq<Message>, o: Options)
    requires KeysMatch(s) && (o.useMemory || o.useDisk) && !o.loadFails && !o.saveFails
    requires Call(unwrap, s.memory, s.disk, history, o).0.Done?
    ensures var (_, memory, disk) := Call(unwrap, s.memory, s.disk, history, o);
      var (again, restarted) := (Call(unwrap, memory, disk, history, o).0, Call(unwrap, map[], disk, history, o).0);
      && again.Done? && again.result.cached
      && (o.useDisk ==> restarted.Done? && restarted.result.cached)
  {
    var (_, memory, disk) := Call(unwrap, s.memory, s.disk, history, o);
    CallIsHeld(unwrap, s, history, o);
    hide Load, Usable;
    hide Computed;
  }

  /** What a call that succeeded leaves behind. */
  lemma CallIsHeld(unwrap: string -> string, s: State, history: seq<Message>, o: Options)
    requires KeysMatch(s) && (o.useMemory || o.useDisk) && !o.loadFails && !o.saveFails
    requires Call(unwrap, s.memory, s.disk, history, o).0.Done?
    ensures var (d, (_, memory, disk)) := (Sha(Older(history, o.keepLast)), Call(unwrap, s.memory, s.disk, history, o));
      && (o.useMemory ==> d in memory && Usable(memory[d], o.version, o.now))
      && (o.useDisk ==> var l := Load(unwrap, disk, d, false); l.Found? && Usable(l.result, o.version, o.now))
  {
    var d := Sha(Older(history, o.keepLast));
    ComputedIsRight(history, o);
    if o.useMemory && d in s.memory {
      assert s.memory[d].digest == d;
    }
    hide Summarize, Computed;
  }

  /** The budget is not part of the key: a second call with another budget is served the first one's summary,
      as it is or reloaded from disk. That is its own exactly if the budgets cut the text alike. */
  lemma BudgetIsNotInKey(unwrap: string -> string, history: seq<Message>, o: Options, budget: int)
    requires (o.useMemory || o.useDisk) && !o.loadFails && !o.saveFails
    ensures var s, second := After(unwrap, EMPTY, Compact(history, o)), o.(maxChars := budget);
      var outcome := Call(unwrap, s.memory, s.disk, history, second).0;
      var older, first := Older(history, o.keepLast), Computed(history, o).summary;
      && outcome.Done? && outcome.result.summary == (if o.useMemory then first else unwrap(ToValid(first)))
      && (o.useMemory || Survives(unwrap, older, MaxChars(o)) ==>
            (outcome.result.summary == Computed(history, second).summary <==>
             CutAlike(older, MaxChars(o), MaxChars(second))))
  {
    ComputedIsRight(history, o);
    SummariesAgreeExactly(Older(history, o.keepLast), MaxChars(o), MaxChars(o.(maxChars := budget)));
    hide Summarize, CutAlike, ToValid;
  }

  /** One short message and two budgets that cut it differently. */
  lemma BudgetsDiffer(unwrap: string -> string, o: Options)
    requires o.useMemory && !o.loadFails && !o.saveFails && o.keepLast <= 0 && o.maxChars == 4
    ensures var history := [Message("user: hi", 0)];
      var s, second := After(unwrap, EMPTY, Compact(history, o)), o.(maxChars := 8);
      var outcome := Call(unwrap, s.memory, s.disk, history, second).0;
      outcome.Done? && outcome.result.summary == "user" && Computed(history, second).summary == "user: hi"
  {
    var line := "user: hi";
    var history := [Message(line, 0)];
    BudgetIsNotInKey(unwrap, history, o, 8);
    assert Older(history, o.keepLast) == history && history[1..] == [];
    assert Lines(history) == [line] && line[..4] == "user";
    assert Greedy([line], 4) == ["user"] + Greedy([line][1..], -1) == ["user"];
    assert Greedy([line], 8) == [line] + Greedy([line][1..], -1) == [line];
    hide Call;
  }

  // ---------- Pruning ----------

  /** What a prune keeps: of the entries under their own digest those that may be served, of the others all or none. */
  lemma PruneKeepsExactly(s: State, examined: seq<Digest>, d: Digest, version: string, now: int, deleteInvalid: bool)
    ensures var memory := MemoryAfterPrune(s.memory, version, now, deleteInvalid);
      && (d in memory <==>
            d in s.memory && if s.memory[d].digest == d then d != NoDigest && Serves(s.memory[d], version, now)
                             else !deleteInvalid)
      && (d in memory ==> memory[d] == s.memory[d])
    ensures var disk := DiskAfterPrune(s.disk, examined, version, now, deleteInvalid);
      && (d in disk <==>
            d in s.disk && (d in examined ==>
                              if Names(s.disk, d) then d != NoDigest && Serves(s.disk[d].result, version, now)
                              else !deleteInvalid))
      && (d in disk ==> disk[d] == s.disk[d])
  {
  }

  /** Pruning in between makes no difference to a later prune. */
  lemma PruneAgain(s: State, examined: seq<Digest>, more: seq<Digest>, version: string, now: int, later: int,
                   deleteInvalid: bool)
    requires now <= later && forall d | d in examined :: d in more
    ensures MemoryAfterPrune(MemoryAfterPrune(s.memory, version, now, deleteInvalid), version, later, deleteInvalid)
         == MemoryAfterPrune(s.memory, version, later, deleteInvalid)
    ensures DiskAfterPrune(DiskAfterPrune(s.disk, examined, version, now, deleteInvalid), more, version, later,
                           deleteInvalid)
         == DiskAfterPrune(s.disk, more, version, later, deleteInvalid)
  {
    hide MemoryAfterPrune, DiskAfterPrune;
    var memory := MemoryAfterPrune(s.memory, version, now, deleteInvalid);
    var disk := DiskAfterPrune(s.disk, examined, version, now, deleteInvalid);
    forall d
      ensures var again, once := MemoryAfterPrune(memory, version, later, deleteInvalid),
                                 MemoryAfterPrune(s.memory, version, later, deleteInvalid);
        (d in again <==> d in once) && (d in again ==> again[d] == once[d])
      ensures var again, once := DiskAfterPrune(disk, more, version, later, deleteInvalid),
                                 DiskAfterPrune(s.disk, more, version, later, deleteInvalid);
        (d in again <==> d in once) && (d in again ==> again[d] == once[d])
    {
      PruneKeepsExactly(s, examined, d, version, now, deleteInvalid);
      PruneKeepsExactly(s, more, d, version, later, deleteInvalid);
      PruneKeepsExactly(State(memory, disk), more, d, version, later, deleteInvalid);
    }
    hide Names, Serves;
  }

  /** A prune gets past the i-th file exactly if it can read all files up to it and remove those it removes. */
  lemma {:induction false} PruneStopsExactly(entries: seq<Digest>, disk: Disk, fault: Fault, version: string, now: int,
                                             deleteInvalid: bool, i: nat)
    requires i < |entries| && forall d | d in entries :: d in disk
    ensures i < FirstFault(entries, disk, fault, version, now, deleteInvalid) <==>
            forall j | 0 <= j <= i ::
              && entries[j] !in fault.unreadable
              && (entries[j] in fault.stuck ==>
                    entries[j] in DiskAfterPrune(disk, entries, version, now, deleteInvalid))
  {
    hide KeepsFile;
    assert entries[0] in entries;
    if i > 0 {
      var rest := entries[1..];
      assert forall d | d in rest :: d in entries;
      assert forall d | d in entries :: d == entries[0] || d in rest;
      PruneStopsExactly(rest, disk, fault, version, now, deleteInvalid, i - 1);
      assert forall j | 1 <= j <= i :: entries[j] == rest[j - 1];
      assert forall j | 0 <= j <= i - 1 :: rest[j] == entries[j + 1] && rest[j] in rest && rest[j] in entries;
    }
  }

  lemma UnusableStays(r: MicroResult, version: string, now: int, later: int)
    requires now <= later && !Usable(r, version, now)
    ensures !Usable(r, version, later)
  {
  }

  lemma MemoryPruneIsInvisible(unwrap: string -> string, s: State, history: seq<Message>, o: Options, now: int,
                               deleteInvalid: bool)
    requires KeysMatch(s) && now <= o.now
    ensures Call(unwrap, MemoryAfterPrune(s.memory, o.version, now, deleteInvalid), s.disk, history, o).0
         == Call(unwrap, s.memory, s.disk, history, o).0
    ensures MemoryHits(MemoryAfterPrune(s.memory, o.version, now, deleteInvalid), history, o) ==
            MemoryHits(s.memory, history, o)
  {
    hide Computed, Load, Usable;
    var d := Sha(Older(history, o.keepLast));
    if d in s.memory && !Usable(s.memory[d], o.version, now) {
      UnusableStays(s.memory[d], o.version, now, o.now);
    }
  }

  /** The call is served from memory. */
  predicate MemoryHits(memory: Memory, history: seq<Message>, o: Options) {
    var d := Sha(Older(history, o.keepLast));
    o.useMemory && d in memory && Usable(memory[d], o.version, o.now)
  }

  /** What a prune can do to a file: leave it, or remove one that is broken or no longer usable. */
  lemma PruneLeavesUsable(unwrap: string -> string, disk: Disk, examined: seq<Digest>, d: Digest, version: string,
                          now: int, later: int, deleteInvalid: bool, fails: bool)
    requires now <= later
    ensures var before := Load(unwrap, disk, d, fails);
      var after := Load(unwrap, DiskAfterPrune(disk, examined, version, now, deleteInvalid), d, fails);
      || before == after
      || (before.Broken? && after.Missing? && !fails && deleteInvalid && d in examined)
      || (before.Found? && !Usable(before.result, version, later) && after.Missing?)
    ensures Load(unwrap, disk, d, fails).Broken? && !fails && deleteInvalid && d in examined ==>
              Load(unwrap, DiskAfterPrune(disk, examined, version, now, deleteInvalid), d, fails).Missing?
  {
    var before := Load(unwrap, disk, d, fails);
    if before.Found? && !Usable(before.result, version, now) {
      UnusableStays(before.result, version, now, later);
    }
  }

  /** The prune shows in a later call: it removed the broken file whose error the call would have reported, and
      the call computes and stores its result instead. */
  predicate PruneShows(unwrap: string -> string, s: State, examined: seq<Digest>, history: seq<Message>, o: Options,
                       deleteInvalid: bool)
  {
    var d := Sha(Older(history, o.keepLast));
    && deleteInvalid && d in examined
    && o.useDisk && o.failOnCacheError && !o.loadFails && !o.saveFails
    && !MemoryHits(s.memory, history, o) && Load(unwrap, s.disk, d, false).Broken?
  }

  lemma DiskPruneShows(unwrap: string -> string, s: State, examined: seq<Digest>, history: seq<Message>, o: Options,
                       now: int, deleteInvalid: bool)
    requires now <= o.now
    ensures Call(unwrap, s.memory, DiskAfterPrune(s.disk, examined, o.version, now, deleteInvalid), history, o).0
         == Call(unwrap, s.memory, s.disk, history, o).0
       <==> !PruneShows(unwrap, s, examined, history, o, deleteInvalid)
  {
    var d := Sha(Older(history, o.keepLast));
    PruneLeavesUsable(unwrap, s.disk, examined, d, o.version, now, o.now, deleteInvalid, o.loadFails);
    hide Computed, Load, Usable, DiskAfterPrune, Saved;
  }

  /** Pruning cannot be seen, whether or not it got through the whole directory: a later call for the same
      version returns the same as without it, exactly unless `PruneShows`. */
  lemma PruneIsInvisible(unwrap: string -> string, s: State, examined: seq<Digest>, history: seq<Message>, o: Options,
                         now: int, deleteInvalid: bool)
    requires KeysMatch(s) && now <= o.now
    ensures Call(unwrap, MemoryAfterPrune(s.memory, o.version, now, deleteInvalid),
                 DiskAfterPrune(s.disk, examined, o.version, now, deleteInvalid), history, o).0
         == Call(unwrap, s.memory, s.disk, history, o).0
       <==> !PruneShows(unwrap, s, examined, history, o, deleteInvalid)
  {
    hide Call, DiskAfterPrune, MemoryAfterPrune, MemoryHits;
    var disk := DiskAfterPrune(s.disk, examined, o.version, now, deleteInvalid);
    DiskPruneShows(unwrap, s, examined, history, o, now, deleteInvalid);
    MemoryPruneIsInvisible(unwrap, s.(disk := disk), history, o, now, deleteInvalid);
  }

  /** Deleting invalid files does show: a call that would have reported the broken file computes instead. */
  lemma DeletingInvalidShows(unwrap: string -> string, history: seq<Message>, o: Options)
    requires !o.useMemory && o.useDisk && o.failOnCacheError && !o.loadFails && !o.saveFails
    ensures var d := Sha(Older(history, o.keepLast));
      var disk: Disk := map[d := Garbage];
      && Call(unwrap, map[], disk, history, o).0 == Failed
      && Call(unwrap, map[], DiskAfterPrune(disk, [d], o.version, o.now, true), history, o).0 ==
         Done(Computed(history, o))
  {
    hide Summarize;
  }
}
