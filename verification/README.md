# Verified models of ccgo's state machines

A Dafny model of the parts of ccgo, a Go implementation of a terminal coding assistant, whose correctness is
a matter of state: what survives every interleaving, every compaction, every restart. Code that changes things
step by step is modelled by classes and methods with loops, proved against specification functions; the
theorems are about those functions and about every run of them.

`dafny verify dfyconfig.toml` checks everything.

| part | files |
|---|---|
| Hot reload of settings files: cache, detector, refresh, outside writers | `HotReload`, `HotReloadTheorems`, `HotReloadWitnesses`, `SettingsFiles`, `McpConfig` |
| Conversation log: compaction, discovered tools, deferred-tool announcements, turns | `Conversation`, `SortedNames`, `ToolReferences`, `Compaction`, `ToolFilter`, `DeferredTools`, `Turn`, `SentHistories` |
| Micro compaction: summarizer and two-level cache | `Utf8`, `MicroSummary`, `MicroCache`, `MicroTransparency` |
| WebSocket framing and serve loop (section 5 of RFC 6455) | `WebSocket`, `ServeLoop` |
| Command language: quoting, tool lists, the command registry | `Text`, `Arguments`, `ArgumentGrammar`, `FirstSeen`, `ToolList`, `Registry` |
| Settings merging | `DeepMerge`, `SettingsMerge` |
| Remote event delivery; context-window thresholds | `Delivery`, `Threshold` |

How the hot-reload files fit together: `HotReload` is the protocol, one step per system call or critical
section, with outside writes between any two; `HotReloadTheorems` says what every reachable state guarantees;
`SettingsFiles` and `McpConfig` are the code itself, and `MCPConfig.RefreshSettingsFiles` and
`LoadMCPConfigFromSettingsFiles` are proved to take exactly the protocol's steps whatever others write
meanwhile, so the theorems hold of them.

## Where the code meets the intended property, and where not

- **Hot reload.** From every reachable idle state, once writes stop, the next refresh makes the loaded settings
  equal the files if and only if it detects a change and every file parses, or detects none and they are equal
  already. As long as the loaded versions are at least the detector's snapshot's, the latter means that no file
  whose settings are loaded is gone (`ConvergesExactly`). Every refresh that succeeds keeps them so
  (`RefreshSettingsFiles`). An undisturbed constructor establishes it exactly when none of its reads meets an
  older cached entry, and loads what the files say exactly when every read meets that (`QuietConstructor`).
  Five runs show how it falls short: a write between the constructor's load and its first snapshot
  (`ConstructorRace`); a refresh whose load
  fails after the snapshot has advanced (`FailedLoadForgetsChange`); a file that is created after a snapshot,
  loaded, and deleted before the next (`VanishedFileStays`); an entry that another reader left poisoned before
  the constructor began (`InheritedPoison`); and a write between the constructor's read of a file and its second
  stat, which leaves old bytes in the cache under the fingerprint of the first snapshot, so that the next
  refresh detects nothing and a read of the file serves the old bytes (`PoisonedConstructor`). A poisoned entry
  escapes the detector only if it was stored before the first snapshot (`PoisonIsDetected`).
- **Deep merge.** Merging with an already merged list equals merging the list if and only if, path by path, no
  map is brought back by the inner merge after a non-map, unless the map that follows already says everything
  it would bring back (`FlattensExactly`, `NestedMergeExactly`). That is so wherever no path holds a map, then a
  non-map, then a map (`UnsandwichedFlattens`). It also fails when both lists are empty, because the merge
  allocates maps that the zero settings do not have.
- **Registry.** The template index and the linear scan agree on a name if and only if the first match is
  templated (`IndexAgreesWithScan`). Otherwise nothing is served, or the plain command runs with the template of
  another command that offers the name or the plain command's own name (`PlainCommandBorrowsTemplate`).
- **Deferred tools.** A delta settles what is announced, and a second one with the same pool is empty, if and
  only if the deferred tools' names carry no surrounding white space: the pool is compared untrimmed, the log is read trimmed
  (`DeltaStepSettles`, `UntrimmedNeverSettles`).
- **Discovered tools.** Compaction reads tool results but not earlier boundaries, and fewer shapes than the
  request does, so it forgets what only those made known (`CompactionForgetsExactly`,
  `SecondCompactionForgets`, `TwoCompactionsForget`, `ShapeForgotten`).
- **Micro compaction.** For a call that can be a hit, the cache is transparent over every run if and only if the
  summary survives being written as JSON, read and unwrapped (`TransparentExactly`). Two things can change it:
  the unwrapping of JSON found inside it, and a budget that cuts it inside a character, since the budget counts
  bytes and JSON replaces the rest of the character (`SurvivesExactly`, `CutInsideCharacter`). The byte budget is
  not part of the key, so another budget is served the first one's summary, which is its own only if both leave
  the whole text or they differ by one at a line break (`BudgetIsNotInKey`, `BudgetsDiffer`). Pruning cannot be
  seen, unless it deletes a broken file whose error the call would have reported, and the call can store its
  result (`PruneIsInvisible`, `DeletingInvalidShows`).
- **Argument parser.** It reads exactly a grammar of bare, escaped and quoted pieces (`ParsesExactly`). On text
  without quotes and backslashes it equals the plain field split if and only if the text is blank or holds no
  white space other than space, tab, carriage return and newline (`PlainParseIsFieldSplit`).
- **Thresholds.** A configured blocking limit below the auto-compact threshold breaks the order of the warnings
  (`WarningsAreOrdered`); `ShouldAutoCompact` and the warning flag differ only for an exhausted window with
  negative usage (`ShouldAutoCompactIsWarning`).
- **WebSocket.** The reader ignores the reserved bits and accepts length forms longer than needed; both are part
  of what it accepts (`ReadExactlyEncodings`). Section 5.2 of RFC 6455 asks a client for zero bits and the
  shortest form.

## Model

| member | source | states |
|---|---|---|
| HotReload.StepKeepsInv | internal/config/settings_cache.go:29-62 | Every step of the reading thread and every outside write keeps: cached bytes are content the file had no later than their fingerprint, loaded settings are content at least as new as the detector's snapshot, a call in flight holds nothing older than that snapshot |
| HotReload.CallStep | internal/config/settings_cache.go:29-62 | A call returns nothing older than the detector's snapshot, hit or miss, unless it hits what was cached before the first one |
| HotReload.VersionsOk | internal/config/settings_change_detector.go:44-59 | Replacing the snapshot, changed or not, leaves each path at a version whose fingerprint the snapshot holds |
| HotReload.CommitKeepsInv | internal/config/settings_change_detector.go:44-59 | The end of a detection keeps the invariant: the cache is dropped exactly when some fingerprint differs |
| HotReloadTheorems.LoadedIsNoOlderThanSnapshot | internal/conversation/mcp_config.go:56-79 | In every reachable synced state each loaded version is at least the snapshot's and is what the file said then |
| HotReloadTheorems.CallReturnsContent | internal/config/settings_cache.go:29-62 | Bytes returned are content of the file; unless a poisoned entry was hit, content at an instant of the call |
| HotReloadTheorems.PoisonIsDetected | internal/config/settings_change_detector.go:44-59 | In every reachable state a poisoned entry of a watched path has the snapshot's fingerprint exactly when it was stored before the first snapshot, has stayed since, and that snapshot is of the version of its fingerprint; any other one that a stat can meet makes the next refresh detect a change |
| HotReloadTheorems.QuietRefreshOutcome | internal/conversation/mcp_config.go:56-79 | From any reachable idle state, an undisturbed refresh converges, fails leaving the settings alone, or changes nothing, by what it detects and what parses |
| HotReloadTheorems.UnchangedIsConverged | internal/config/settings_change_detector.go:74-107 | With nothing to detect and no loaded version older than the snapshot, the loaded settings equal the files exactly when no loaded file has vanished |
| HotReloadTheorems.ConvergesExactly | internal/conversation/mcp_config.go:56-79 | From every reachable idle state, exactly when the next undisturbed refresh makes the loaded settings equal the files |
| HotReloadTheorems.QuietConstructor | internal/conversation/mcp_config.go:16-54 | Whatever others had cached, an undisturbed constructor fails exactly when a file does not parse as its read meets it; else it has loaded what the reads met, the loaded settings equal the files exactly when each read met what its file says, and are no older than the snapshot exactly when none met older bytes; just those entries stay poisoned under its fingerprint |
| HotReloadTheorems.NoPoisonIsTrue | internal/config/settings_cache.go:36-42 | Where no entry that a stat can meet is poisoned, every read meets what its file says |
| HotReloadWitnesses.ConstructorRace | internal/conversation/mcp_config.go:21-41 | A reachable run: a write between load and first snapshot is missed |
| HotReloadWitnesses.FailedLoadForgetsChange | internal/conversation/mcp_config.go:60-69 | A reachable run: a load that fails with an I/O error has already advanced the snapshot, and the next refresh, undisturbed, does not load the change |
| HotReloadWitnesses.VanishedFileStays | internal/config/settings_change_detector.go:96-107 | A reachable run in which every refresh succeeds and deleted settings stay loaded |
| HotReloadWitnesses.PoisonedConstructor | internal/config/settings_cache.go:44-60 | A reachable run: a write within the constructor's read poisons the cache under the first snapshot's fingerprint; no refresh detects it, and a later read serves the old bytes |
| HotReloadWitnesses.InheritedPoison | internal/config/settings_cache.go:36-42 | A reachable run: an entry left poisoned by another reader is loaded by an undisturbed constructor, and the next refresh detects nothing |
| SettingsFiles.SettingsFileCache.ReadSettingsFile | internal/config/settings_cache.go:29-62 | Result, cache and clock are those of the protocol's call, with outside writes between its parts |
| SettingsFiles.ReadFailsExactly | internal/config/settings_cache.go:29-62 | Undisturbed by writes, a read fails exactly when its first stat does or the read itself, if it gets that far; a second stat that fails only costs the cache entry |
| SettingsFiles.SnapshotFiles | internal/config/settings_change_detector.go:61-72 | Takes the protocol's snapshot steps, and stops as it does when a stat fails |
| SettingsFiles.DiffSnapshots | internal/config/settings_change_detector.go:74-107 | Reports exactly the paths with no file before, with none after and with another content, each once and as what it is; reports nothing exactly when no fingerprint differs |
| SettingsFiles.Detector.Reset | internal/config/settings_change_detector.go:33-42 | Ends where the protocol's constructor ends; on an error the snapshot stays |
| SettingsFiles.Detector.DetectChanges | internal/config/settings_change_detector.go:44-59 | Ends where the protocol's detection ends, with the classified changes; on an error nothing moves |
| SettingsFiles.UnderReaches | internal/conversation/mcp_config.go:56-79 | However it is disturbed, a constructor run or refresh ends, in a state reachable in the protocol |
| McpConfig.LoadSettingsFiles | internal/conversation/mcp_config.go:135-152 | Takes the protocol's load steps; a missing file loads as zero settings, any other failure ends the load |
| McpConfig.MCPConfig.RefreshSettingsFiles | internal/conversation/mcp_config.go:56-79 | Refines the protocol's refresh under every interleaving; reports a change exactly when the loaded settings differ from before; an error leaves them alone; from every state in which they are no older than the snapshot, a success keeps that |
| McpConfig.RefreshKeepsFresh | internal/conversation/mcp_config.go:56-79 | A refresh, however disturbed, that finds no change or loads leaves the loaded versions at least the snapshot's |
| McpConfig.LoadMCPConfigFromSettingsFiles | internal/conversation/mcp_config.go:16-54 | Refines the protocol's constructor under every interleaving, whatever others cached before; yields a configuration exactly when nothing failed |
| McpConfig.RefreshConvergesExactly | internal/conversation/mcp_config.go:56-79 | The exact convergence condition, from every reachable idle state, for the refresh as the method takes it |
| McpConfig.ConstructorConverges | internal/conversation/mcp_config.go:16-54 | The exact outcome of the undisturbed constructor, as the method takes it, for every cache it starts with |
| ToolReferences.Collector.Add | internal/compact/plan.go:144-155 | Keeps the first spelling of each name's key, in order |
| ToolReferences.Collector.Collect | internal/compact/plan.go:123-142 | Adds exactly the names compaction reads from nested content |
| ToolReferences.DiscoveredToolReferences | internal/compact/plan.go:109-121 | Returns the names compaction reads from all tool results, first spelling of each key |
| ToolReferences.CompactHistoryWithinRequest | internal/conversation/request.go:767-788 | Whatever compaction's collector reads, the request's collector reads too |
| ToolReferences.CommonHistoryReadsTheSame | internal/conversation/request.go:707-788 | The two collectors read the same names in the same order exactly from histories without named boundaries whose tool results are of shapes both understand |
| ToolReferences.ObjectReadsAsReference | internal/compact/plan.go:131-136 | An object of type tool_reference with a tool_name reads like the reference itself, in both collectors |
| ToolReferences.CompactReadsExactly | internal/compact/plan.go:123-155 | Compaction reads a name from nested content exactly if at some place in it a reference, a list of references or a typed object says it |
| ToolReferences.RequestReadsExactly | internal/conversation/request.go:767-808 | The request reads a name exactly if it is said at some place, there also by the first given field of an object, alone or in a list |
| ToolReferences.KnownExactly | internal/conversation/request.go:707-765 | A key is known to the log exactly if the metadata of a boundary or a tool result of some message says a name with that key; the plan holds the keys of what tool results say to compaction |
| ToolReferences.ReadInOrder | internal/compact/plan.go:137-141 | What stands earlier in a list is read earlier |
| ToolFilter.CollectNames | internal/conversation/request.go:767-788 | Adds exactly the keys of the names the request reads from nested content |
| ToolFilter.DiscoveredToolReferenceNames | internal/conversation/request.go:707-719 | Returns the keys that boundaries and tool results of the log make known |
| ToolFilter.LoadAllDeferredTools | internal/conversation/request.go:516-526 | Marks exactly the deferred tools as loaded, in place on a copy |
| ToolFilter.ApplyDiscoveredToolReferences | internal/conversation/request.go:528-542 | Marks exactly the discovered tools as loaded, by name or alias |
| ToolFilter.FilterToolSearchDefinitions | internal/conversation/request.go:99-127 | The tool list sent, branch by branch, when loading is on demand, and the sorted names of the deferred tools that then go with it |
| ToolFilter.DeferredToolNames | internal/conversation/request.go:638-647 | The names of exactly the deferred tools, sorted |
| ToolFilter.WaitingNames | internal/conversation/request.go:638-654 | The names that are sorted are those of exactly the tools that wait to be loaded, in the pool's order |
| ToolFilter.SentOnDemand | internal/conversation/request.go:114-125 | On demand, a tool is sent exactly if it is not deferred or the log has made it known, and nothing deferred is sent |
| ToolFilter.SentExactly | internal/conversation/request.go:99-127 | For every pool and log, in every mode, exactly which definitions are sent and how they are marked; once there is a tool search, nothing that waits to be loaded is sent |
| ToolFilter.SentInOrder | internal/conversation/request.go:114-125 | In every mode the tools are sent in the order of the pool |
| Compaction.BuildPlan | internal/compact/plan.go:40-107 | Splits the history, and outputs the boundary with all discovered names, the summary and the relinked kept messages |
| Compaction.PlanIs | internal/compact/plan.go:40-107 | The last messages, as many as asked for, are kept; the output is a boundary without a parent, the summary below it and the kept messages with nothing but their parents changed |
| Compaction.OutputIsChain | internal/compact/plan.go:77-98 | Whatever history it is given, the output is a parent chain |
| Compaction.CompactionLaw | internal/compact/plan.go:64-98 | What the compacted log makes known is exactly the names in tool results of the whole history and whatever the kept part makes known |
| Compaction.CompactionForgetsExactly | internal/compact/plan.go:64-98 | For all options: compaction adds no name, and forgets none exactly when everything the dropped messages make known is read from tool results or known to the kept ones |
| Compaction.FirstCompactionForgetsNothing | internal/conversation/request.go:99-127 | Without an earlier boundary in the summarized part the same tool list is sent before and after |
| Compaction.SecondCompactionForgets | internal/compact/plan.go:109-121 | After a second compaction exactly the tool results that the first one kept are known, and whatever the second one keeps; the first boundary counts only if it is itself kept |
| Compaction.TwoCompactionsForget | internal/compact/plan.go:109-142 | One tool reference, as such, as an object or as an object in a list: still known after one compaction and forgotten by the second |
| Compaction.ShapeForgotten | internal/compact/plan.go:131-136 | A tool reference in a shape that only the request reads is forgotten by one compaction |
| DeferredTools.ReplayHistory | internal/conversation/deferred_tools_delta.go:47-70 | The announced set is the replay of the log |
| DeferredTools.AnnouncedExactly | internal/conversation/deferred_tools_delta.go:47-70 | A name is announced exactly if some message adds it without withdrawing it and no later one withdraws it |
| DeferredTools.JoinedReads | internal/conversation/deferred_tools_delta.go:220-230 | A list of names joined by any of the four separators reads like the list |
| DeferredTools.FormsReplayAlike | internal/conversation/deferred_tools_delta.go:195-234 | Announcements of the same names replay alike from every set, whether the lists stand as strings, as any values or joined in a text, under either key |
| DeferredTools.DeferredToolsDeltaFromHistory | internal/conversation/deferred_tools_delta.go:47-118 | The delta is the deferred names not announced, and the announced names that left the pool, both listed sorted and the latter once each |
| DeferredTools.DeltaExactly | internal/conversation/deferred_tools_delta.go:72-111 | For every pool and log, exactly which names a delta adds and which it withdraws, and that there is none without any |
| DeferredTools.DeferredToolsDeltaMessage | internal/conversation/deferred_tools_delta.go:120-134 | The message built from the sorted lists announces the delta and holds those lists |
| SortedNames.SortedIsUnique | internal/conversation/deferred_tools_delta.go:113-116 | There is only one sorted list of the same names, however the pool or the map is walked |
| SortedNames.BeforeExactly | internal/conversation/deferred_tools_delta.go:113-116 | The order is that of the bytes: a prefix comes first, otherwise the first byte that differs decides |
| DeferredTools.ReplayMonotone | internal/conversation/deferred_tools_delta.go:47-70 | Replay is monotone in the set it starts from |
| DeferredTools.DeltaStepSettles | internal/conversation/deferred_tools_delta.go:47-134 | After the delta step, its announcement as built or read back in any form, deferred(pool) ⊆ announced ⊆ names(pool), and asking again yields nothing, each exactly when the names are trimmed |
| DeferredTools.UntrimmedNeverSettles | internal/conversation/deferred_tools_delta.go:74-92 | A deferred tool whose name begins with a space is never settled and announced again every time |
| DeferredTools.CompactionOnlyForgets | internal/compact/plan.go:84-98 | Compaction only ever shrinks the announced set |
| DeferredTools.CompactionReannounces | internal/conversation/deferred_tools_delta.go:47-118 | After a compaction the next delta withdraws nothing and announces exactly the deferred tools that were dropped |
| DeferredTools.EveryRunKeeps | internal/conversation/run.go:183-204 | Over every run of pool changes, messages and compactions: if the last pool's deferred names are trimmed, nothing outside it is announced, and all its deferred tools are until a compaction |
| SentHistories.EverySendIsSettled | internal/conversation/run.go:195-218 | With tool search on, every history sent in a turn, in every round, compacted or not, announces all deferred tools of the pool and nothing outside it, exactly if the names are trimmed; with it off, what the log announced before |
| Turn.AutoCompact.MaybeAutoCompact | internal/conversation/run.go:540-575 | Counter, history and plan after one attempt, for every outcome |
| Turn.BreakerBounds | internal/compact/runner.go:47-90 | Without force the counter stays within the limit and every success pays for at most limit - 1 failures |
| Turn.BreakerLatches | internal/compact/runner.go:47-84 | At the limit nothing is attempted again |
| Turn.BreakerHolds | internal/compact/runner.go:47-90 | Both, over every run of turns from a fresh counter |
| Turn.ForceIgnoresLimit | internal/compact/runner.go:47-67 | With force every failure counts on, past any limit |
| Turn.FailuresCount | internal/compact/runner.go:47-84 | Failures in a row are counted up to the limit, which is three unless another is configured |
| Turn.SuccessResets | internal/compact/runner.go:80-90 | After a success below the limit the counter is the number of failures since |
| Turn.IdleAttemptsDoNotCount | internal/conversation/run.go:540-575 | An attempt that is not wanted or that a hook stops leaves no trace in any run |
| Turn.AppendKeepsChain | internal/conversation/run.go:7593-7610 | Appending, ids filled in or not, leaves a history a parent chain exactly if it was one |
| Turn.AppendCarries | internal/conversation/run.go:7593-7610 | Appending adds the message and changes no other, save for an id the last one lacked |
| Turn.Transcript.Append | internal/conversation/run.go:7612-7617 | One line per message while writing works |
| Turn.Compacted | internal/conversation/run.go:7302-7326 | Boundary and summary reach result and transcript in that order; a failing session summary ends the turn |
| Turn.Send | internal/conversation/run.go:7360-7400 | Attempts and answer are those of trying the models in turn while a fallback is allowed |
| Turn.SendExactly | internal/conversation/run.go:7360-7400 | An attempt is made exactly if its request can be prepared and every earlier model refused in favour of a fallback; the first assistant message so reached is the answer |
| Turn.TurnState.Record | internal/conversation/run.go:7593-7617 | A recorded message is linked, listed in the result and written, or the write error is reported |
| Turn.Rounds | internal/conversation/run.go:204-257 | Round r sends the history after r recorded rounds; the turn ends with the first answer that uses no tools or at the limit |
| Turn.NextSendCarries | internal/conversation/run.go:217-246 | From one send to the next the history grows by the answer and every tool message, in this order, and by nothing else |
| Turn.TurnTells | internal/conversation/run.go:91-257 | Every history sent is the given one with the initial messages, or what compaction makes of it, then the announcement and all that the rounds before said, in order; the result of a success holds the same new messages |
| Turn.RunTurn | internal/conversation/run.go:44-257 | Sends and returns message by message what was said, and nothing else; every send is a parent chain, rounds and API attempts are bounded, on success the transcript lines are the messages of the result in order, and nothing that fails meanwhile ends in success |
| MicroSummary.SummarizeMessages | internal/compact/micro.go:1263-1287 | The loop computes the greedy summary |
| MicroSummary.TextIs | internal/compact/micro.go:1268-1286 | The text that is cut: every message shows its line, a line break stands between what two parts of the history show |
| MicroSummary.SummaryOfNothing | internal/compact/micro.go:1264-1286 | The two texts for no messages and for nothing to show |
| MicroSummary.SummaryIsCut | internal/compact/micro.go:1263-1287 | The summary is a prefix of the newline join of all non-empty lines, within budget, and either all of it or full up to a line break |
| MicroSummary.SummariesAgreeExactly | internal/compact/micro.go:1263-1287 | Two budgets give the same summary exactly when both leave all of the text, or they differ by one and the smaller ends just before a line break |
| MicroSummary.OnlyBreaks | internal/compact/micro.go:1294-1298 | With lines that hold no line break, the breaks between lines are just those of the text |
| MicroSummary.CutIsWhole | internal/compact/micro.go:1277-1281 | The summary of valid text is valid UTF-8 exactly if it is whole or not cut before a continuation byte |
| MicroSummary.CutInsideCharacter | internal/compact/micro.go:1277-1281 | Seven bytes of a line that ends in an e with acute, and what JSON makes of them |
| MicroCache.Caches.Set | internal/compact/micro.go:326-334 | Stores under the result's own digest, not marked as cached |
| MicroCache.Caches.Save | internal/compact/micro.go:470-499 | Writes what JSON keeps of the result to the file of the digest, or reports the error and writes nothing |
| Utf8.ToValidFixesExactly | internal/compact/micro.go:477-480 | Writing and reading JSON leaves exactly the valid strings alone |
| Utf8.RuneIsEncoding | internal/compact/micro.go:477-480 | Each valid rune is the UTF-8 encoding of a Unicode scalar value, and each encoding is one (`EncodingIsRune`) |
| Utf8.ToValidExactly | internal/compact/micro.go:477-480 | Encodings stay; each byte at which none begins becomes U+FFFD |
| MicroCache.Caches.MicroCompactStored | internal/compact/micro.go:369-426 | Outcome and both caches after a call, for hits, misses, stale entries and I/O errors |
| MicroTransparency.CallSummarizesOlder | internal/compact/micro.go:369-426 | A call computes the summary of the messages before those it keeps, under their digest, with the counts, version and times asked for, and stores just that |
| MicroTransparency.KeptDoNotMatter | internal/compact/micro.go:369-378 | The messages to be kept do not bear on a call at all |
| MicroTransparency.CallHitsExactly | internal/compact/micro.go:380-404 | Exactly when a call is answered from memory, from disk, by an error or computed, and with what |
| MicroTransparency.HitsStoreExactly | internal/compact/micro.go:380-404 | What a hit leaves in both caches: one in memory is written through to disk, one on disk is put into memory, neither marked as cached |
| MicroCache.Caches.PruneMemory | internal/compact/micro.go:336-362 | Keeps exactly the entries to be kept and counts the others |
| MicroCache.Caches.PruneDisk | internal/compact/micro.go:501-558 | The same for the files, in the order they are listed, up to the first that cannot be read or removed |
| MicroTransparency.PruneKeepsExactly | internal/compact/micro.go:336-362 | A prune keeps the entries under their own digest that may still be served, and of the others all or none |
| MicroTransparency.PruneAgain | internal/compact/micro.go:501-558 | Pruning in between makes no difference to a later prune |
| MicroTransparency.PruneStopsExactly | internal/compact/micro.go:519-556 | A prune gets past a file exactly if it can read all files up to it and remove those it removes |
| MicroTransparency.RunIsTransparent | internal/compact/micro.go:369-426 | Over every run of calls, prunes, restarts and damaged files a call whose summary survives returns the uncached summary, digest and counts, and nothing expired or of another version |
| MicroTransparency.ReloadUnwraps | internal/compact/micro.go:446-468 | A summary reloaded by a new process has been through JSON and unwrapped |
| MicroTransparency.TransparentExactly | internal/compact/micro.go:369-468 | Transparent over every run exactly when the call can never be a hit or its summary survives JSON and unwrapping, for all options |
| MicroTransparency.SurvivesExactly | internal/compact/micro.go:1263-1287 | Where unwrapping leaves the text alone, the summary survives exactly if it is not cut inside a character |
| MicroTransparency.SecondCallHits | internal/compact/micro.go:369-426 | After a call that succeeded the same call is a hit, and with the disk in use also for a new process |
| MicroTransparency.BudgetIsNotInKey | internal/compact/micro.go:369-426 | Another budget is served the first budget's summary, from memory or from disk, and that is its own exactly if the two budgets cut the text alike |
| MicroTransparency.BudgetsDiffer | internal/compact/micro.go:369-426 | A history and two budgets for which the second is served the wrong summary |
| MicroTransparency.PruneIsInvisible | internal/compact/micro.go:501-558 | A later call for the same version returns the same as without the prune, whole or in part, exactly unless the prune deleted a broken file whose error the call would have reported and the call can store its result |
| MicroTransparency.DeletingInvalidShows | internal/compact/micro.go:528-536 | Deleting an invalid file turns an error that would be reported into a computation |
| WebSocket.ReadFrame | internal/bridge/websocket.go:225-278 | Outcome and remaining bytes for every input, with the error of every failure |
| WebSocket.Unmask | internal/bridge/websocket.go:273-276 | The in-place loop masks the payload with the repeated key |
| WebSocket.ReadUndoesEncode | internal/bridge/websocket.go:225-278 | Reading undoes encoding in every length form and leaves the rest of the stream |
| WebSocket.ReadExactlyEncodings | internal/bridge/websocket.go:225-278 | A frame is read only where the bytes begin with the encoding of a valid client frame |
| WebSocket.XorIsBitwise | internal/bridge/websocket.go:273-276 | A bit of an unmasked byte is set exactly if it is set in just one of byte and mask |
| WebSocket.ReadsTheWire | internal/bridge/websocket.go:225-278 | Byte by byte and bit by bit: when a frame is read, its opcode, its length as a sum of weighted bytes, each bit of its payload and what is left |
| WebSocket.CutFrameFails | internal/bridge/websocket.go:225-278 | A frame cut short anywhere fails with a clean end between its parts and an unexpected one within them |
| WebSocket.RefusedFrames | internal/bridge/websocket.go:237-268 | Frames over the limit, unmasked frames and fragments fail, each with its error |
| WebSocket.StreamReadsBack | internal/bridge/websocket.go:225-278 | A stream of encodings reads back as exactly its frames and a clean end |
| WebSocket.WriteFrame | internal/bridge/websocket.go:288-309 | Writes header and payload up to where the connection fails, and reports the failure |
| WebSocket.WritesTheWire | internal/bridge/websocket.go:288-309 | Header bytes and payload of a written frame, for every length, the length as a sum of weighted bytes |
| WebSocket.WriterPicksShortest | internal/bridge/websocket.go:288-309 | No fitting length form gives a shorter frame, and only the chosen one gives one as short |
| WebSocket.ClientReadsServerFrame | internal/bridge/websocket.go:288-309 | A client reads back opcode and payload of a written frame |
| ServeLoop.ServeWebSocket | internal/bridge/websocket.go:97-124 | The loop writes exactly the specified bytes, cut off where the connection fails |
| ServeLoop.ServeAnswersClient | internal/bridge/websocket.go:97-124 | For every list of client frames the client reads one answer per frame, in order, up to and including the first close or unsupported opcode; else one more if the bytes behind the frames begin none, unless they end there; and nothing after |
| ServeLoop.AnswersAre | internal/bridge/websocket.go:97-124 | The answer to each opcode; only texts and pings let the loop go on |
| ServeLoop.EveryInputSplits | internal/bridge/websocket.go:225-278 | Any bytes are valid frames followed by bytes that begin none |
| ServeLoop.ServeAnswersAnyone | internal/bridge/websocket.go:97-124 | So the answers are those for whatever bytes a client sends |
| Arguments.ParseShellLikeArguments | internal/commands/prompt.go:168-218 | The rune loop computes the run of the scanner, and fails exactly on a dangling escape or open quote |
| Arguments.ParseArguments | internal/commands/prompt.go:157-166 | Blank text gives nothing; unclosed quoting falls back to the field split |
| ArgumentGrammar.LineIsRead | internal/commands/prompt.go:168-218 | Every line of words made of bare, escaped, single-quoted and double-quoted pieces, with any gaps, parses to what its words mean; one that ends within quotes or behind a backslash fails |
| ArgumentGrammar.EveryTextIsLine | internal/commands/prompt.go:168-218 | Any text is such a line, whole or broken off |
| ArgumentGrammar.ParsesExactly | internal/commands/prompt.go:157-218 | So the parser reads exactly this grammar; text that breaks off is split at white space instead |
| Arguments.ParseUndoesQuote | internal/integrations/chrome_host.go:402-404 | Parsing the quoted forms of any list of strings, joined by spaces, gives the list |
| Arguments.QuoteIs | internal/integrations/chrome_host.go:402-404 | Quoting puts a value between single quotes and rewrites nothing but the single quotes in it |
| Arguments.ParseUndoesBackslashes | internal/commands/prompt.go:168-218 | Backslashes take any character literally, bare or between double quotes: parsing gives back any list so quoted |
| Arguments.PlainParseIsFieldSplit | internal/commands/prompt.go:157-218 | When the parser equals the plain field split on plain text |
| ToolList.ParseToolList | internal/commands/slash.go:583-614 | The loops compute the paren-aware split of every list |
| ToolList.ToolsAppend | internal/commands/slash.go:583-614 | The split distributes over concatenation |
| ToolList.SplitsExactly | internal/commands/slash.go:583-614 | Text is split at every comma, space, tab, carriage return and newline outside parentheses; text without one is a single trimmed token |
| ToolList.ToolsIdempotent | internal/commands/slash.go:583-614 | Splitting its own output changes nothing |
| ToolList.AttachmentReadsBack | internal/commands/slash.go:514-536 | Reading an attachment back gives the parsed tools and the trimmed model |
| ToolList.AttachmentIs | internal/commands/slash.go:514-536 | What an attachment holds, under which keys, and that there is none without a tool or a model |
| ToolList.GrantsExactly | internal/commands/slash.go:560-581 | For every message, exactly when it grants and what: the first of three keys that gives tools, and the trimmed model |
| ToolList.CommandPermissionsFromMessages | internal/commands/slash.go:538-558 | The fold is the ordered union of all granted tools with the last model |
| ToolList.FoldCombines | internal/commands/slash.go:538-558 | The fold over two transcripts combines their folds, and never repeats a tool |
| CommandRegistry.Registry.RegisterPromptTemplate | internal/commands/registry.go:433-447 | Indexes the template under each of its keys that is free, and changes no other key |
| CommandRegistry.Registry.FromSources | internal/commands/registry.go:127-160 | Lists exactly the registered commands in order, and indexes under each key the first template that offers it |
| CommandRegistry.EarlierSourceWins | internal/commands/registry.go:127-160 | A name is found in the first of the thirteen sources that has a command known by it, and there at the first such command |
| CommandRegistry.Registry.Find | internal/commands/registry.go:177-220 | The first command that matches the trimmed name |
| CommandRegistry.FindsExactly | internal/commands/registry.go:207-227 | The first command known by the name, by its own, the one it shows or an alias; a template is served under each such name unless an earlier one is |
| CommandRegistry.Registry.PromptTemplate | internal/commands/registry.go:194-205 | Whose template is served, fallback included |
| CommandRegistry.FallsBackExactly | internal/commands/registry.go:194-205 | A name under which no template can be served falls to the first template under the own name of the command it finds |
| CommandRegistry.IndexAgreesWithScan | internal/commands/registry.go:194-220 | Index and scan agree on a name exactly when the first match is templated |
| CommandRegistry.PlainCommandBorrowsTemplate | internal/commands/registry.go:194-205 | A plain command ahead of a prompt of its name is served the prompt's template |
| CommandRegistry.RegisteredDynamicIsFound | internal/commands/registry.go:141-157 | A dynamic command that was not a duplicate is the one found under each of its names |
| CommandRegistry.DynamicIsRegisteredOrTaken | internal/commands/registry.go:141-157 | A dynamic command is left out only if one of its names is taken |
| CommandRegistry.DynamicJoinsExactly | internal/commands/registry.go:141-157 | A dynamic command joins exactly if it takes no name that a command before it takes |
| DeepMerge.AbsorbsExactly | internal/config/settings.go:462-477 | When merging into a value changes nothing |
| DeepMerge.MergeAt | internal/config/settings.go:462-477 | Under every path a merge says what the second operand says there, and what the first says where the second leaves it alone; a map stands where either has one |
| DeepMerge.FlattensExactly | internal/config/settings.go:462-477 | When merging with a merged list equals merging the list, for every value and list |
| DeepMerge.UnsandwichedFlattens | internal/config/settings.go:462-477 | Where no path of the operands holds a map, then a non-map, then a map, merging flattens |
| DeepMerge.FlatteningFails | internal/config/settings.go:462-477 | A map, a non-map and a map for which it does not |
| SettingsMerge.MergeStrings | internal/config/settings.go:432-449 | The loop computes the ordered union, repeats of the first list kept |
| SettingsMerge.MergedStringsAssociative | internal/config/settings.go:432-449 | The ordered union is associative |
| SettingsMerge.MergedPermissionsAssociative | internal/config/settings.go:384-408 | Merging permissions is associative |
| SettingsMerge.MergeSettings | internal/config/settings.go:34-237 | The loop computes the left fold over all sources |
| SettingsMerge.MergeSource | internal/config/settings.go:36-234 | One round, field by field, gives the merge of the settings so far with one source |
| SettingsMerge.MergeNestedAnyMap | internal/config/settings.go:462-477 | The recursive loop computes the deep merge |
| SettingsMerge.MergeAnyMap | internal/config/settings.go:451-460 | The loops give the override, in a map of its own even for two missing ones |
| SettingsMerge.MergePermissions | internal/config/settings.go:384-408 | Rule lists are appended, modes overridden by non-empty ones |
| SettingsMerge.LastSourceWins | internal/config/settings.go:34-237 | For every overriding setting, variable and plugin the last source that has it decides; without one there is none |
| SettingsMerge.ListsOfAllSources | internal/config/settings.go:34-237 | The appended lists, permission rules among them, are all sources' lists in order; the united ones the first list that is not empty and behind it each new item where it comes first |
| SettingsMerge.FlatFlattens | internal/config/settings.go:34-237 | Every field but the nested map flattens, for every non-empty list; for the empty one exactly if the merge allocates no missing map |
| SettingsMerge.NestedMergeExactly | internal/config/managed.go:238-262 | Merging merged managed settings over the others equals one merge exactly under the stated condition |
| Delivery.DeliveryResult.Acknowledge | cmd/claude/main.go:2827-2853 | Counts an acknowledgement or its error, for events that ask for one |
| Delivery.DeliveryResult.Renew | cmd/claude/main.go:2802-2825 | Counts a renewal or its error, when one is asked for |
| Delivery.DeliveryResult.Deliver | cmd/claude/main.go:2697-2786 | The loop's counters and error reports are the total of the events' shares |
| Delivery.DeliveryBalances | cmd/claude/main.go:2697-2786 | Every counter balances: with the other counters, with the reports of each kind, with how the events ended, with their leases and with what was sent, for every list and every outcome |
| Delivery.DeliveryCounts | cmd/claude/main.go:2697-2853 | Every counter counts the events it says, in terms of the events themselves, and the reports of every kind name the events concerned in order |
| Delivery.TotalAppend | cmd/claude/main.go:2281-2301 | Totals over two batches are the total over their concatenation |
| Delivery.PumpState.OnEvents | cmd/claude/main.go:2281-2301 | The stream's totals stay those of one delivery of everything so far |
| Threshold.ThresholdsAreOrdered | internal/compact/threshold.go:33-55 | 0 ≤ auto threshold ≤ effective window ≤ context window |
| Threshold.ThresholdsAre | internal/compact/threshold.go:33-55 | The effective window is the window without the reserve for the output; the auto-compact threshold is the largest number within its two bounds |
| Threshold.WarningsAre | internal/compact/threshold.go:57-93 | When each warning is given, and when compaction is asked for |
| Threshold.WarningsAreOrdered | internal/compact/threshold.go:57-83 | When blocking implies auto-compaction for every usage; auto-compaction implies both warnings |
| Threshold.PercentLeftFalls | internal/compact/threshold.go:57-83 | The percentage left is within 0..100 and falls as usage grows |
| Threshold.PercentLeftIsRounded | internal/compact/threshold.go:67-70 | The percentage is what is left of the reference rounded half up, and 0 beyond it |
| Threshold.ShouldAutoCompactIsWarning | internal/compact/threshold.go:85-93 | When it equals the warning state's flag |

## Left out

- What is outside a part is a parameter: the model API, hooks, tools, acknowledgements and renewals answer as
  given, clocks are integers, ids come from a given function, `lower` is any case mapping.
- JSON parsing and the aliases of field names: content is given as datatypes; unwrapping a stored summary is a
  function parameter; a digest is injective.
- HotReload: a fingerprint of size, mode and time is taken to identify a version of its file; one thread reads.
  The policy settings, the plugin servers and the merged settings that a refresh recomputes are not modelled,
  nor the settings read by other threads. The fields `readAt`, `began`, `version`, `snapVersion`, `synced` and
  `early` only record history.
- McpConfig.LoadMCPConfigFromSettingsFiles: the policy settings it also loads are left out.
- Turn.RunTurn: local commands, blocked prompts and permission models are left out; hooks, the session memory and
  the setting up of tools only succeed or fail. What `send` does to the history of a request (tool result budget,
  memory prefetch) is not part of this model.
- Turn.Compacted: what the session summary says is left out.
- Turn.TurnState.Record: a transcript that fails does so for good.
- Compaction.BuildPlan: texts, triggers and timestamps of boundary and summary are left out, and given ids stand
  for the defaults.
- ToolFilter.FilterToolSearchDefinitions: whether a tool is the tool search is a given flag.
- DeferredTools.DeferredToolsDeltaMessage: the lines, which repeat the names, and the meta mark are left out.
- DeferredTools.DeferredToolsDeltaFromHistory: the counts for telemetry are left out, save the number announced
  before.
- SettingsMerge.MergeSource: one field of each merge kind, as for the whole merge.
- SettingsMerge.MergeSettings: one field of each merge kind; remote, telemetry and advanced settings are left
  out, and so is that nested maps share their unchanged parts with the inputs.
- MicroSummary: what a line shows of a message (role, text, tools) is given with the message.
- MicroCache.Caches.Save: directories, temporary files and file names are left out; a version is taken to be valid
  UTF-8.
- WebSocket.WriteFrame: a connection fails by accepting only so many bytes; deadlines are left out.
- ServeLoop: what the handler answers is a function of the text payloads so far.
- Threshold: reals stand for floating-point numbers, and the environment's switches are a parameter.
- Slash-command dispatch, visibility, and the loading of skills and plugins.
- The chrome native message framing, a plain length prefix that adds nothing to the WebSocket codec.
