/** The two-level cache of micro compaction: a memory map over a disk map (internal/compact/micro.go). */
module MicroCache {
  import opened Text
  import opened MicroSummary
  import opened Utf8

  /** The digest of a message list; an injective one. `NoDigest` is the empty string. */
  datatype Digest = NoDigest | Sha(of: seq<Message>)

  /** `expiresAt` is None for the zero time. */
  datatype MicroResult = MicroResult(
    summary: string, digest: Digest, cached: bool, messagesSummarized: nat, messagesKept: nat,
    version: string, createdAt: int, expiresAt: Option<int>)

  /** A file of the cache directory, by the digest in its name. */
  datatype File = Garbage | Stored(result: MicroResult)

  type Memory = map<Digest, MicroResult>
  type Disk = map<Digest, File>

  const DEFAULT_MAX_CHARS := 4000
  const DEFAULT_VERSION := "microcompact.v1"

  function VersionOf(version: string): string {
    if version != "" then version else DEFAULT_VERSION
  }

  /** MicroResultUsable. */
  predicate Usable(r: MicroResult, version: string, now: int) {
    && r.digest != NoDigest
    && (r.version == "" || r.version == VersionOf(version))
    && (r.expiresAt.None? || now < r.expiresAt.value)
  }

  /** The options of a call; `loadFails` and `saveFails` say what the file system does. */
  datatype Options = Options(
    keepLast: int, maxChars: int, useMemory: bool, useDisk: bool, version: string, ttl: int, now: int,
    failOnCacheError: bool, loadFails: bool, saveFails: bool)

  datatype Outcome = Failed | Done(result: MicroResult)

  datatype LoadOutcome = Missing | Broken | Found(result: MicroResult)

  function KeepCount(history: seq<Message>, keepLast: int): (n: nat)
    ensures n <= |history|
  {
    if keepLast < 0 then 0 else if keepLast > |history| then |history| else keepLast
  }

  function Older(history: seq<Message>, keepLast: int): seq<Message> {
    history[..|history| - KeepCount(history, keepLast)]
  }

  function MaxChars(o: Options): int {
    if o.maxChars <= 0 then DEFAULT_MAX_CHARS else o.maxChars
  }

  /** The computation that no cache shortens. */
  function Computed(history: seq<Message>, o: Options): MicroResult {
    var older := Older(history, o.keepLast);
    MicroResult(Summarize(older, MaxChars(o)), Sha(older), false, |older|, KeepCount(history, o.keepLast),
                VersionOf(o.version), o.now, if o.ttl > 0 then Some(o.now + o.ttl) else None)
  }

  /** LoadMicroResult: unmarshalling unwraps JSON found inside a summary. */
  function Load(unwrap: string -> string, disk: Disk, digest: Digest, fails: bool): LoadOutcome {
    if digest == NoDigest || (digest !in disk && !fails) then Missing
    else if fails || disk[digest].Garbage? then Broken
    else
      var r := disk[digest].result;
      var named := r.(summary := unwrap(r.summary), digest := if r.digest == NoDigest then digest else r.digest);
      if named.digest != digest then Broken else Found(named)
  }

  /** What SaveMicroResult writes: JSON keeps a summary only if it is valid UTF-8. */
  function Saved(r: MicroResult): File {
    Stored(r.(summary := ToValid(r.summary)))
  }

  /** MicroCache.Set on an optional cache. */
  function Put(use: bool, memory: Memory, r: MicroResult): Memory {
    if !use || r.digest == NoDigest then memory else memory[r.digest := r.(cached := false)]
  }

  /** One call of MicroCompactStored. */
  function Call(unwrap: string -> string, memory: Memory, disk: Disk, history: seq<Message>, o: Options)
    : (Outcome, Memory, Disk)
  {
    var digest, kept := Sha(Older(history, o.keepLast)), KeepCount(history, o.keepLast);
    if o.useMemory && digest in memory && Usable(memory[digest], o.version, o.now) then
      Hit(memory, disk, memory[digest].(cached := true, messagesKept := kept), o)
    else if !o.useDisk then Recompute(memory, disk, history, o)
    else match Load(unwrap, disk, digest, o.loadFails)
      case Broken => if o.failOnCacheError then (Failed, memory, disk) else Recompute(memory, disk, history, o)
      case Found(r) =>
        if Usable(r, o.version, o.now) then
          var found := r.(cached := true, messagesKept := kept);
          (Done(found), Put(o.useMemory, memory, found), disk)
        else Recompute(memory, disk, history, o)
      case Missing => Recompute(memory, disk, history, o)
  }

  /** A memory hit is written through to disk. */
  function Hit(memory: Memory, disk: Disk, r: MicroResult, o: Options): (Outcome, Memory, Disk) {
    if !o.useDisk || r.digest == NoDigest then (Done(r), memory, disk)
    else if o.saveFails then (Failed, memory, disk)
    else (Done(r), memory, disk[r.digest := Saved(r.(cached := false))])
  }

  function Recompute(memory: Memory, disk: Disk, history: seq<Message>, o: Options): (Outcome, Memory, Disk) {
    var r := Computed(history, o);
    var memory' := Put(o.useMemory, memory, r);
    if !o.useDisk then (Done(r), memory', disk)
    else if o.saveFails then (Failed, memory', disk)
    else (Done(r), memory', disk[r.digest := Saved(r)])
  }

  class Caches {
    var memory: Memory
    var disk: Disk

    constructor ()
      ensures memory == map[] && disk == map[]
    {
      memory, disk := map[], map[];
    }

    method Get(digest: Digest) returns (found: Option<MicroResult>)
      ensures found.Some? <==> digest in memory
      ensures found.Some? ==> found.value.cached && found.value.(cached := memory[digest].cached) == memory[digest]
    {
      found := if digest in memory then Some(memory[digest].(cached := true)) else None;
    }

    method Set(r: MicroResult)
      modifies this`memory
      ensures memory == Put(true, old(memory), r)
    {
      if r.digest == NoDigest {
        return;
      }
      memory := memory[r.digest := r.(cached := false)];
    }

    method Save(r: MicroResult, fails: bool) returns (ok: bool)
      modifies this`disk
      ensures ok == (r.digest == NoDigest || !fails)
      ensures disk == if r.digest != NoDigest && ok then old(disk)[r.digest := Saved(r)] else old(disk)
    {
      if r.digest == NoDigest {
        return true;
      }
      if fails {
        return false;
      }
      disk := disk[r.digest := Saved(r)];
      ok := true;
    }

    method MicroCompactStored(unwrap: string -> string, history: seq<Message>, o: Options) returns (outcome: Outcome)
      modifies this
      ensures (outcome, memory, disk) == Call(unwrap, old(memory), old(disk), history, o)
    {
      var kept := KeepCount(history, o.keepLast);
      var older := history[..|history| - kept];
      var digest := Sha(older);
      if o.useMemory {
        var cached := Get(digest);
        if cached.Some? && Usable(cached.value, o.version, o.now) {
          var hit := cached.value.(messagesKept := kept);
          if o.useDisk {
            var ok := Save(hit.(cached := false), o.saveFails);
            if !ok {
              return Failed;
            }
          }
          return Done(hit);
        }
      }
      if o.useDisk {
        var loaded := Load(unwrap, disk, digest, o.loadFails);
        if loaded.Broken? {
          if o.failOnCacheError {
            return Failed;
          }
        } else if loaded.Found? && Usable(loaded.result, o.version, o.now) {
          var found := loaded.result.(cached := true, messagesKept := kept);
          if o.useMemory {
            Set(found);
          }
          return Done(found);
        }
      }
      outcome := ComputeAndStore(history, o, older, kept);
    }

    method ComputeAndStore(history: seq<Message>, o: Options, older: seq<Message>, kept: nat) returns (outcome: Outcome)
      requires older == Older(history, o.keepLast) && kept == KeepCount(history, o.keepLast)
      modifies this
      ensures (outcome, memory, disk) == Recompute(old(memory), old(disk), history, o)
    {
      var maxChars := o.maxChars;
      if maxChars <= 0 {
        maxChars := DEFAULT_MAX_CHARS;
      }
      var summary := SummarizeMessages(older, maxChars);
      var r := MicroResult(summary, Sha(older), false, |older|, kept, VersionOf(o.version), o.now, None);
      if o.ttl > 0 {
        r := r.(expiresAt := Some(o.now + o.ttl));
      }
      assert r == Computed(history, o);
      hide Computed, Saved;
      if o.useMemory {
        Set(r);
      }
      if o.useDisk {
        var ok := Save(r, o.saveFails);
        if !ok {
          return Failed;
        }
      }
      return Done(r);
    }

    /** MicroCache.Prune. */
    method PruneMemory(version: string, now: int, deleteInvalid: bool) returns (pruned: nat)
      modifies this`memory
      ensures memory == MemoryAfterPrune(old(memory), version, now, deleteInvalid)
      ensures pruned == |old(memory).Keys - memory.Keys|
    {
      pruned := 0;
      var left := memory.Keys;
      ghost var before, gone: set<Digest> := memory, {};
      while left != {}
        invariant left <= before.Keys && memory == map d | d in before && d !in gone :: before[d]
        invariant gone == set d | d in before && d !in left && !KeepsEntry(d, before[d], version, now, deleteInvalid)
        invariant pruned == |gone|
        decreases left
      {
        var digest :| digest in left;
        var r := memory[digest];
        var drop := if r.digest != digest then deleteInvalid else !Usable(r, version, now);
        ghost var gone' := set d | d in before && d !in left - {digest}
                                   && !KeepsEntry(d, before[d], version, now, deleteInvalid);
        if drop {
          memory := memory - {digest};
          pruned := pruned + 1;
          assert gone' == gone + {digest};
        } else {
          assert gone' == gone;
        }
        gone := gone';
        left := left - {digest};
      }
      assert memory == MemoryAfterPrune(before, version, now, deleteInvalid);
      assert gone == before.Keys - memory.Keys;
    }

    /** PruneMicroCache: `entries` are the directory's files in the order it lists them; the first that
        cannot be read or removed ends the prune. */
    method PruneDisk(entries: seq<Digest>, fault: Fault, version: string, now: int, deleteInvalid: bool)
      returns (pruned: nat, ok: bool)
      requires Listing(entries, disk)
      modifies this`disk
      ensures var n := FaultFrom(entries, 0, old(disk), fault, version, now, deleteInvalid);
        && ok == (!fault.unlisted && n == |entries|)
        && disk == DiskAfterPrune(old(disk), if fault.unlisted then [] else entries[..n], version, now, deleteInvalid)
      ensures pruned == |old(disk).Keys - disk.Keys|
    {
      NothingRemoved(disk, entries, version, now, deleteInvalid);
      if fault.unlisted {
        return 0, false;
      }
      ghost var before := disk;
      var n: nat;
      hide Listing, PrunedTo, FaultFrom, DiskAfterPrune;
      pruned, n := PruneFiles(entries, fault, version, now, deleteInvalid);
      PrunedSays(before, entries, n, disk, pruned, version, now, deleteInvalid);
      ok := n == |entries|;
    }

    /** The loop over the files; `n` of them are dealt with. */
    method PruneFiles(entries: seq<Digest>, fault: Fault, version: string, now: int, deleteInvalid: bool)
      returns (pruned: nat, n: nat)
      requires Listing(entries, disk)
      modifies this`disk
      ensures n == FaultFrom(entries, 0, old(disk), fault, version, now, deleteInvalid)
      ensures PrunedTo(old(disk), entries, n, disk, pruned, version, now, deleteInvalid)
    {
      NothingRemoved(disk, entries, version, now, deleteInvalid);
      ghost var before := disk;
      hide Listing, PrunedTo, FaultFrom, DiskAfterPrune;
      pruned, n := 0, 0;
      while n < |entries|
        invariant n <= |entries| && PrunedTo(before, entries, n, disk, pruned, version, now, deleteInvalid)
        invariant FaultFrom(entries, 0, before, fault, version, now, deleteInvalid) ==
                  FaultFrom(entries, n, before, fault, version, now, deleteInvalid)
      {
        var removed, stop := PruneNextFile(entries, n, pruned, before, fault, version, now, deleteInvalid);
        if stop {
          return;
        }
        pruned, n := pruned + removed, n + 1;
      }
      NoMoreFaults(entries, before, fault, version, now, deleteInvalid);
    }

    method PruneNextFile(entries: seq<Digest>, i: nat, pruned: nat, ghost before: Disk, fault: Fault, version: string,
                         now: int, deleteInvalid: bool)
      returns (removed: nat, stop: bool)
      requires i < |entries| && Listing(entries, before)
      requires PrunedTo(before, entries, i, disk, pruned, version, now, deleteInvalid)
      modifies this`disk
      ensures if stop then FaultFrom(entries, i, before, fault, version, now, deleteInvalid) == i && disk == old(disk)
              else PrunedTo(before, entries, i + 1, disk, pruned + removed, version, now, deleteInvalid)
                   && FaultFrom(entries, i, before, fault, version, now, deleteInvalid) ==
                      FaultFrom(entries, i + 1, before, fault, version, now, deleteInvalid)
    {
      PruneNext(before, entries, i, disk, pruned, version, now, deleteInvalid);
      FaultNext(entries, i, before, fault, version, now, deleteInvalid);
      hide Listing, PrunedTo, FaultFrom, KeepsFile;
      removed, stop := PruneEntry(entries[i], fault, version, now, deleteInvalid);
    }

    /** Reads the file of `d` and removes it unless it is to be kept. */
    method PruneEntry(d: Digest, fault: Fault, version: string, now: int, deleteInvalid: bool)
      returns (removed: nat, stop: bool)
      requires d in disk
      modifies this`disk
      ensures var keeps := KeepsFile(d, old(disk)[d], version, now, deleteInvalid);
        && (stop <==> d in fault.unreadable || (d in fault.stuck && !keeps))
        && disk == (if stop || keeps then old(disk) else old(disk) - {d})
        && removed == if stop || keeps then 0 else 1
    {
      hide KeepsFile;
      if d in fault.unreadable {
        return 0, true;
      }
      var drop := Drops(d, version, now, deleteInvalid);
      if !drop {
        return 0, false;
      }
      if d in fault.stuck {
        return 0, true;
      }
      disk := disk - {d};
      return 1, false;
    }

    /** Whether the file of `d` is to be removed. */
    method Drops(d: Digest, version: string, now: int, deleteInvalid: bool) returns (drop: bool)
      requires d in disk
      ensures drop == !KeepsFile(d, disk[d], version, now, deleteInvalid)
    {
      drop := deleteInvalid;
      if disk[d].Stored? {
        var r := disk[d].result;
        if r.digest == NoDigest {
          r := r.(digest := d);
        }
        if r.digest == d {
          drop := !Usable(r, version, now);
        }
      }
    }
  }

  /** `entries` lists the files of the directory, each once. */
  ghost predicate Listing(entries: seq<Digest>, disk: Disk) {
    && (forall d :: d in entries <==> d in disk)
    && forall i, j | 0 <= i < j < |entries| :: entries[i] != entries[j]
  }

  /** The disk and the count once the first `i` files have been examined. */
  ghost predicate PrunedTo(before: Disk, entries: seq<Digest>, i: nat, disk: Disk, pruned: nat, version: string,
                           now: int, deleteInvalid: bool)
    requires i <= |entries|
  {
    disk == DiskAfterPrune(before, entries[..i], version, now, deleteInvalid) && pruned == |before.Keys - disk.Keys|
  }

  lemma PrunedSays(before: Disk, entries: seq<Digest>, i: nat, disk: Disk, pruned: nat, version: string, now: int,
                   deleteInvalid: bool)
    requires i <= |entries| && PrunedTo(before, entries, i, disk, pruned, version, now, deleteInvalid)
    ensures disk == DiskAfterPrune(before, entries[..i], version, now, deleteInvalid)
    ensures pruned == |before.Keys - disk.Keys|
  {
  }

  lemma NothingRemoved(disk: Disk, entries: seq<Digest>, version: string, now: int, deleteInvalid: bool)
    ensures DiskAfterPrune(disk, [], version, now, deleteInvalid) == disk && |disk.Keys - disk.Keys| == 0
    ensures PrunedTo(disk, entries, 0, disk, 0, version, now, deleteInvalid)
  {
  }

  lemma OneRemoved(before: Disk, disk: Disk, d: Digest)
    requires d in disk && d in before
    ensures |before.Keys - (disk - {d}).Keys| == |before.Keys - disk.Keys| + 1
  {
    assert before.Keys - (disk - {d}).Keys == (before.Keys - disk.Keys) + {d};
  }

  /** What the file system refuses to a prune. */
  datatype Fault = Fault(unlisted: bool, unreadable: set<Digest>, stuck: set<Digest>)

  /** Where a prune stops: at the first file that cannot be read, or is to be removed and cannot be. */
  function FirstFault(entries: seq<Digest>, disk: Disk, fault: Fault, version: string, now: int, deleteInvalid: bool)
    : (n: nat)
    ensures n <= |entries|
  {
    if entries == [] || entries[0] in fault.unreadable then 0
    else if entries[0] in fault.stuck && entries[0] in disk
            && !KeepsFile(entries[0], disk[entries[0]], version, now, deleteInvalid) then 0
    else 1 + FirstFault(entries[1..], disk, fault, version, now, deleteInvalid)
  }

  /** One more file examined. */
  lemma PruneNext(before: Disk, entries: seq<Digest>, i: nat, disk: Disk, pruned: nat, version: string, now: int,
                  deleteInvalid: bool)
    requires i < |entries| && Listing(entries, before)
    requires PrunedTo(before, entries, i, disk, pruned, version, now, deleteInvalid)
    ensures entries[i] in before && entries[i] in disk && disk[entries[i]] == before[entries[i]]
    ensures if KeepsFile(entries[i], before[entries[i]], version, now, deleteInvalid)
            then PrunedTo(before, entries, i + 1, disk, pruned, version, now, deleteInvalid)
            else PrunedTo(before, entries, i + 1, disk - {entries[i]}, pruned + 1, version, now, deleteInvalid)
  {
    hide KeepsFile, DiskAfterPrune;
    PruneNextDisk(before, entries, i, version, now, deleteInvalid);
    hide Listing;
    OneRemoved(before, disk, entries[i]);
  }

  lemma PruneNextDisk(disk: Disk, entries: seq<Digest>, i: nat, version: string, now: int, deleteInvalid: bool)
    requires i < |entries| && Listing(entries, disk)
    ensures var after, d := DiskAfterPrune(disk, entries[..i], version, now, deleteInvalid), entries[i];
      && d in disk && d in after && after[d] == disk[d]
      && DiskAfterPrune(disk, entries[..i + 1], version, now, deleteInvalid) ==
         if KeepsFile(d, disk[d], version, now, deleteInvalid) then after else after - {d}
  {
    assert entries[..i + 1] == entries[..i] + [entries[i]];
    assert entries[i] in entries;
    hide KeepsFile;
  }

  /** FirstFault from the i-th file on, counted from the start. */
  function FaultFrom(entries: seq<Digest>, i: nat, disk: Disk, fault: Fault, version: string, now: int,
                     deleteInvalid: bool)
    : (n: nat)
    requires i <= |entries|
    ensures n <= |entries|
  {
    i + FirstFault(entries[i..], disk, fault, version, now, deleteInvalid)
  }

  lemma FaultNext(entries: seq<Digest>, i: nat, disk: Disk, fault: Fault, version: string, now: int,
                  deleteInvalid: bool)
    requires i < |entries| && entries[i] in disk
    ensures FaultFrom(entries, i, disk, fault, version, now, deleteInvalid) ==
            if entries[i] in fault.unreadable
               || (entries[i] in fault.stuck
                   && !KeepsFile(entries[i], disk[entries[i]], version, now, deleteInvalid)) then i
            else FaultFrom(entries, i + 1, disk, fault, version, now, deleteInvalid)
  {
    assert entries[i..][1..] == entries[i + 1..];
    hide KeepsFile;
  }

  lemma NoMoreFaults(entries: seq<Digest>, disk: Disk, fault: Fault, version: string, now: int, deleteInvalid: bool)
    ensures FaultFrom(entries, |entries|, disk, fault, version, now, deleteInvalid) == |entries|
  {
  }

  /** An entry under a foreign key is only deleted on request; any other is kept exactly if usable. */
  predicate KeepsEntry(key: Digest, r: MicroResult, version: string, now: int, deleteInvalid: bool) {
    if r.digest != key then !deleteInvalid else Usable(r, version, now)
  }

  predicate KeepsFile(key: Digest, f: File, version: string, now: int, deleteInvalid: bool) {
    match f
    case Garbage => !deleteInvalid
    case Stored(r) =>
      KeepsEntry(key, if r.digest == NoDigest then r.(digest := key) else r, version, now, deleteInvalid)
  }

  function MemoryAfterPrune(memory: Memory, version: string, now: int, deleteInvalid: bool): Memory {
    map d | d in memory && KeepsEntry(d, memory[d], version, now, deleteInvalid) :: memory[d]
  }

  /** After a prune that got to look at the files `examined`. */
  function DiskAfterPrune(disk: Disk, examined: seq<Digest>, version: string, now: int, deleteInvalid: bool): Disk {
    map d | d in disk && (d !in examined || KeepsFile(d, disk[d], version, now, deleteInvalid)) :: disk[d]
  }
}
