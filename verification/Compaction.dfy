/** Compaction's plan and what the log still makes known after it (internal/compact/plan.go,
    internal/conversation/request.go). */
module Compaction {
  import opened Text
  import opened Conversation
  import opened ToolReferences

  /** The ids are those the caller chose or NewID returned; texts and timestamps are left out. */
  datatype PlanOptions = PlanOptions(keepLast: int, boundaryId: Id, summaryId: Id, preserveRecent: bool)

  datatype Plan = Plan(summarized: seq<Message>, kept: seq<Message>, boundary: Message, summary: Message,
                       output: seq<Message>)

  function Split(history: seq<Message>, keepLast: int): (n: nat)
    ensures n <= |history|
  {
    if keepLast < 0 then |history| else if keepLast > |history| then 0 else |history| - keepLast
  }

  function Summarized(history: seq<Message>, keepLast: int): seq<Message> {
    history[..Split(history, keepLast)]
  }

  function Kept(history: seq<Message>, keepLast: int): seq<Message> {
    history[Split(history, keepLast)..]
  }

  /** The kept messages hung below `last`, one after the other. */
  function Relinked(kept: seq<Message>, last: Id): (out: seq<Message>)
    ensures |out| == |kept|
  {
    if kept == [] then [] else [kept[0].(parent := Some(last))] + Relinked(kept[1..], kept[0].uuid)
  }

  function Boundary(lower: string -> string, history: seq<Message>, o: PlanOptions): Message {
    Message(o.boundaryId, None, [], CompactBoundary(PlanNames(lower, history)))
  }

  function Summary(o: PlanOptions): Message {
    Message(o.summaryId, Some(o.boundaryId), [OtherBlock], NoNote)
  }

  function Output(lower: string -> string, history: seq<Message>, o: PlanOptions): seq<Message> {
    [Boundary(lower, history, o), Summary(o)]
    + (if o.preserveRecent then Relinked(Kept(history, o.keepLast), o.summaryId) else [])
  }

  method BuildPlan(lower: string -> string, history: seq<Message>, o: PlanOptions) returns (plan: Plan)
    ensures plan.output == Output(lower, history, o)
    ensures plan.summarized + plan.kept == history && plan.kept == Kept(history, o.keepLast)
    ensures plan.boundary == Boundary(lower, history, o) && plan.summary == Summary(o)
  {
    var keepLast := o.keepLast;
    if keepLast < 0 {
      keepLast := 0;
    }
    if keepLast > |history| {
      keepLast := |history|;
    }
    var split := |history| - keepLast;
    var kept := history[split..];
    var discovered := DiscoveredToolReferences(lower, history);
    var boundary := Message(o.boundaryId, None, [], CompactBoundary(discovered));
    var summary := Message(o.summaryId, Some(boundary.uuid), [OtherBlock], NoNote);
    var output := [boundary, summary];
    if o.preserveRecent {
      var last := summary.uuid;
      for i := 0 to |kept|
        invariant output + Relinked(kept[i..], last) == [boundary, summary] + Relinked(kept, summary.uuid)
      {
        assert kept[i..][1..] == kept[i + 1..];
        output := output + [kept[i].(parent := Some(last))];
        last := kept[i].uuid;
      }
    }
    plan := Plan(history[..split], kept, boundary, summary, output);
  }

  /** Of the history `a + b`, the last messages `b` are those to be kept. */
  predicate Keeps(a: seq<Message>, b: seq<Message>, keepLast: int) {
    |b| == keepLast || (b == [] && keepLast < 0) || (a == [] && |b| < keepLast)
  }

  /** The plan splits the history there; what it puts out is a boundary without a parent, the summary below it
      and, if asked for, the kept messages with nothing but their parents changed. */
  lemma PlanIs(lower: string -> string, a: seq<Message>, b: seq<Message>, o: PlanOptions)
    requires Keeps(a, b, o.keepLast)
    ensures Summarized(a + b, o.keepLast) == a && Kept(a + b, o.keepLast) == b
    ensures var out := Output(lower, a + b, o);
      && |out| == (if o.preserveRecent then 2 + |b| else 2)
      && out[0].uuid == o.boundaryId && out[0].parent == None && out[0].blocks == [] && out[0].note.CompactBoundary?
      && out[1] == Message(o.summaryId, Some(o.boundaryId), [OtherBlock], NoNote)
      && forall i | 2 <= i < |out| ::
           out[i] == b[i - 2].(parent := Some(if i == 2 then o.summaryId else b[i - 3].uuid))
  {
    assert (a + b)[..|a|] == a && (a + b)[|a|..] == b;
    RelinkedIsChain(b, o.summaryId);
    var out, tail := Output(lower, a + b, o), Relinked(b, o.summaryId);
    hide Relinked;
    forall i | 2 <= i < |out|
      ensures out[i] == b[i - 2].(parent := Some(if i == 2 then o.summaryId else b[i - 3].uuid))
    {
      assert out[i] == tail[i - 2];
      assert i > 2 ==> tail[i - 2].parent == Some(tail[i - 3].uuid) && tail[i - 3].uuid == b[i - 3].uuid;
    }
  }

  // ---------- Parent links ----------

  lemma {:induction false} RelinkedIsChain(kept: seq<Message>, last: Id)
    ensures Chain(Relinked(kept, last))
    ensures kept != [] ==> Relinked(kept, last)[0].parent == Some(last)
    ensures forall i | 0 <= i < |kept| :: Relinked(kept, last)[i] == kept[i].(parent := Relinked(kept, last)[i].parent)
  {
    if kept != [] {
      RelinkedIsChain(kept[1..], kept[0].uuid);
      var out, rest := Relinked(kept, last), Relinked(kept[1..], kept[0].uuid);
      forall i | 0 < i < |out|
        ensures out[i].parent == Some(out[i - 1].uuid) && out[i] == kept[i].(parent := out[i].parent)
      {
        assert out[i] == rest[i - 1] && kept[i] == kept[1..][i - 1];
        assert i > 1 ==> out[i - 1] == rest[i - 2];
      }
    }
  }

  /** Whatever history it is given, compaction leaves a parent chain. */
  lemma OutputIsChain(lower: string -> string, history: seq<Message>, o: PlanOptions)
    ensures Chain(Output(lower, history, o))
  {
    var kept := Kept(history, o.keepLast);
    RelinkedIsChain(kept, o.summaryId);
    var out, tail := Output(lower, history, o), Relinked(kept, o.summaryId);
    forall i | 0 < i < |out|
      ensures out[i].parent == Some(out[i - 1].uuid)
    {
      if i >= 2 {
        assert out[i] == tail[i - 2];
        assert i > 2 ==> out[i - 1] == tail[i - 3];
      }
    }
  }

  // ---------- Discovered tools ----------

  lemma {:induction false} HistoryNamesAppend(a: seq<Message>, b: seq<Message>)
    ensures HistoryNames(a + b) == HistoryNames(a) + HistoryNames(b)
  {
    if a == [] {
      assert a + b == b;
    } else {
      assert (a + b)[1..] == a[1..] + b;
      HistoryNamesAppend(a[1..], b);
    }
  }

  lemma DiscoveredAppend(lower: string -> string, a: seq<Message>, b: seq<Message>)
    ensures Discovered(lower, a + b) == Discovered(lower, a) + Discovered(lower, b)
  {
    HistoryNamesAppend(a, b);
    KeysAppend(lower, HistoryNames(a), HistoryNames(b));
  }

  lemma {:induction false} RelinkedNames(kept: seq<Message>, last: Id)
    ensures HistoryNames(Relinked(kept, last)) == HistoryNames(kept)
  {
    if kept != [] {
      RelinkedNames(kept[1..], kept[0].uuid);
      assert MessageNames(kept[0].(parent := Some(last))) == MessageNames(kept[0]);
    }
  }

  predicate Clean(names: seq<string>) {
    forall n | n in names :: n != "" && Trimmed(n)
  }

  lemma {:induction false} CleanNames(c: Content)
    ensures Clean(CompactNames(c))
    decreases c, 0
  {
    match c
    case References(names) => CleanAllNamed(names);
    case Items(items) => CleanItems(items);
    case _ =>
  }

  lemma {:induction false} CleanAllNamed(names: seq<string>)
    ensures Clean(AllNamed(names))
    ensures Clean(names) ==> AllNamed(names) == names
  {
    if names != [] {
      CleanAllNamed(names[1..]);
      if Clean(names) {
        assert names[0] in names;
        assert forall n | n in names[1..] :: n in names;
        TrimFixesTrimmed(names[0]);
      }
    }
  }

  lemma {:induction false} CleanItems(items: seq<Content>)
    ensures Clean(CompactItems(items))
    decreases items, 1
  {
    if items != [] {
      CleanNames(items[0]);
      CleanItems(items[1..]);
    }
  }

  lemma {:induction false} CleanBlocks(blocks: seq<Block>)
    ensures Clean(CompactBlocks(blocks))
  {
    if blocks != [] {
      if blocks[0].ToolResult? { CleanNames(blocks[0].content); }
      CleanBlocks(blocks[1..]);
    }
  }

  lemma {:induction false} CleanHistory(history: seq<Message>)
    ensures Clean(CompactHistory(history))
  {
    if history != [] {
      CleanBlocks(history[0].blocks);
      CleanHistory(history[1..]);
    }
  }

  /** The exact law: after compaction the log makes known the names in the tool results of the whole
      history that compaction's collector reads, and whatever the kept messages make known. */
  lemma CompactionLaw(lower: string -> string, history: seq<Message>, o: PlanOptions)
    ensures Discovered(lower, Output(lower, history, o)) ==
            Keys(lower, CompactHistory(history))
            + (if o.preserveRecent then Discovered(lower, Kept(history, o.keepLast)) else {})
  {
    var head, names := [Boundary(lower, history, o), Summary(o)], PlanNames(lower, history);
    CleanHistory(history);
    CleanAllNamed(names);
    assert HistoryNames(head) == names by {
      assert HistoryNames(head[1..]) == MessageNames(Summary(o)) + HistoryNames(head[1..][1..]);
      assert MessageNames(Summary(o)) == [] && HistoryNames(head[1..][1..]) == [];
      assert names + [] == names;
    }
    var kept := Kept(history, o.keepLast);
    DiscoveredAppend(lower, head, if o.preserveRecent then Relinked(kept, o.summaryId) else []);
    RelinkedNames(kept, o.summaryId);
  }

  lemma KeysWithin(lower: string -> string, a: seq<string>, b: seq<string>)
    requires forall n | n in a :: n in b
    ensures Keys(lower, a) <= Keys(lower, b)
  {
  }

  lemma DiscoveredIsKeys(lower: string -> string, history: seq<Message>)
    ensures Discovered(lower, history) == Keys(lower, HistoryNames(history))
  {
  }

  /** Compaction never makes a tool known that was not, and forgets nothing exactly when everything that the
      messages it drops make known is in a tool result that compaction's collector reads, or known to the
      messages it keeps. */
  lemma CompactionForgetsExactly(lower: string -> string, history: seq<Message>, o: PlanOptions)
    ensures Discovered(lower, Output(lower, history, o)) <= Discovered(lower, history)
    ensures Discovered(lower, Output(lower, history, o)) == Discovered(lower, history) <==>
            Discovered(lower, Dropped(history, o))
            <= Keys(lower, CompactHistory(history)) + Discovered(lower, history[|Dropped(history, o)|..])
  {
    var dropped, kept := Dropped(history, o), history[|Dropped(history, o)|..];
    CompactHistoryWithinRequest(history);
    KeysWithin(lower, CompactHistory(history), HistoryNames(history));
    DroppedSplits(history, o);
    hide Discovered, Keys, Output, CompactHistory, Dropped, Kept;
    CompactionLaw(lower, history, o);
    NothingKnown(lower);
    DiscoveredAppend(lower, dropped, kept);
    DiscoveredIsKeys(lower, history);
  }

  lemma DroppedSplits(history: seq<Message>, o: PlanOptions)
    ensures var dropped, kept := Dropped(history, o), history[|Dropped(history, o)|..];
      dropped + kept == history && kept == if o.preserveRecent then Kept(history, o.keepLast) else []
  {
  }

  /** The messages whose tool results alone a compaction keeps known. */
  function Dropped(history: seq<Message>, o: PlanOptions): (dropped: seq<Message>)
    ensures dropped <= history
  {
    if o.preserveRecent then Summarized(history, o.keepLast) else history
  }

  lemma {:induction false} CompactHistoryAppend(a: seq<Message>, b: seq<Message>)
    ensures CompactHistory(a + b) == CompactHistory(a) + CompactHistory(b)
  {
    if a == [] {
      assert a + b == b;
    } else {
      assert (a + b)[1..] == a[1..] + b;
      CompactHistoryAppend(a[1..], b);
    }
  }

  /** With no earlier boundary and only content both collectors read in the summarized part, nothing is
      forgotten, so the same tools are sent to the API. */
  lemma FirstCompactionForgetsNothing(lower: string -> string, history: seq<Message>, o: PlanOptions,
                                      defs: seq<ToolDefinition>, enabled: bool)
    requires o.preserveRecent && forall m | m in Summarized(history, o.keepLast) :: CommonMessage(m)
    ensures Discovered(lower, Output(lower, history, o)) == Discovered(lower, history)
    ensures FilterTools(lower, defs, Output(lower, history, o), enabled) == FilterTools(lower, defs, history, enabled)
  {
    var a, b := Summarized(history, o.keepLast), Kept(history, o.keepLast);
    CommonHistoryReadsTheSame(a);
    assert a + b == history;
    CompactHistoryAppend(a, b);
    KeysAppend(lower, CompactHistory(a), CompactHistory(b));
    CompactionForgetsExactly(lower, history, o);
    hide Output, Keys;
  }

  /** What a second compaction leaves known: the tool results that the first one kept, and whatever the second
      one keeps. The first boundary counts only if it is itself kept. */
  lemma SecondCompactionForgets(lower: string -> string, history: seq<Message>, first: PlanOptions, second: PlanOptions)
    ensures var kept := if first.preserveRecent then Kept(history, first.keepLast) else [];
      var out := Output(lower, history, first);
      Discovered(lower, Output(lower, out, second)) ==
      Keys(lower, CompactHistory(kept))
      + (if !second.preserveRecent then {}
         else if second.keepLast >= |out| then Discovered(lower, out)
         else Discovered(lower, Kept(kept, second.keepLast)))
  {
    var kept, out := if first.preserveRecent then Kept(history, first.keepLast) else [], Output(lower, history, first);
    CompactionLaw(lower, out, second);
    OutputTools(lower, history, first);
    hide CompactHistory, Keys;
    if second.keepLast < |out| {
      KeptAgain(lower, history, first, second.keepLast);
    } else {
      assert Kept(out, second.keepLast) == out;
    }
    hide Output;
  }

  /** Boundary and summary hold no tool results. */
  lemma OutputTools(lower: string -> string, history: seq<Message>, o: PlanOptions)
    ensures CompactHistory(Output(lower, history, o)) ==
            CompactHistory(if o.preserveRecent then Kept(history, o.keepLast) else [])
  {
    var kept := if o.preserveRecent then Kept(history, o.keepLast) else [];
    var head := [Boundary(lower, history, o), Summary(o)];
    assert CompactHistory(head[1..][1..]) == [];
    assert CompactHistory(head) == [];
    hide Boundary, Summary;
    CompactHistoryAppend(head, Relinked(kept, o.summaryId));
    RelinkedCompactNames(kept, o.summaryId);
    assert Output(lower, history, o) == head + Relinked(kept, o.summaryId);
    assert [] + CompactHistory(kept) == CompactHistory(kept);
  }

  /** What the last messages of an output make known, short of its boundary. */
  lemma KeptAgain(lower: string -> string, history: seq<Message>, o: PlanOptions, keepLast: int)
    requires keepLast < |Output(lower, history, o)|
    ensures var kept := if o.preserveRecent then Kept(history, o.keepLast) else [];
      Discovered(lower, Kept(Output(lower, history, o), keepLast)) == Discovered(lower, Kept(kept, keepLast))
  {
    var kept := if o.preserveRecent then Kept(history, o.keepLast) else [];
    var tail, out := Relinked(kept, o.summaryId), Output(lower, history, o);
    RelinkedSuffix(kept, o.summaryId, Split(kept, keepLast));
    hide HistoryNames, Discovered, Boundary, Summary, Relinked;
    DiscoveredIsKeys(lower, Kept(out, keepLast));
    DiscoveredIsKeys(lower, Kept(kept, keepLast));
    DiscoveredIsKeys(lower, tail);
    if keepLast > |kept| {
      SummaryNames(lower, o, tail);
      assert Kept(out, keepLast) == [Summary(o)] + tail;
    } else {
      assert Kept(out, keepLast) == tail[Split(kept, keepLast)..];
    }
  }

  lemma SummaryNames(lower: string -> string, o: PlanOptions, tail: seq<Message>)
    ensures Discovered(lower, [Summary(o)] + tail) == Discovered(lower, tail)
  {
    assert ([Summary(o)] + tail)[1..] == tail && MessageNames(Summary(o)) == [];
    assert [] + HistoryNames(tail) == HistoryNames(tail);
  }

  lemma {:induction false} RelinkedSuffix(kept: seq<Message>, last: Id, n: nat)
    requires n <= |kept|
    ensures HistoryNames(Relinked(kept, last)[n..]) == HistoryNames(kept[n..])
  {
    if n == 0 {
      RelinkedNames(kept, last);
    } else {
      RelinkedSuffix(kept[1..], kept[0].uuid, n - 1);
      assert Relinked(kept, last)[n..] == Relinked(kept[1..], kept[0].uuid)[n - 1..] && kept[n..] == kept[1..][n - 1..];
    }
  }

  /** The JSON form of a reference. */
  const GREP_OBJECT := Object(Fields(Some(TOOL_REFERENCE), Some("Grep"), None, None))

  /** One tool reference, as such, as an object or within a list: known before and after a first compaction, and
      forgotten by a second. */
  lemma TwoCompactionsForget(lower: string -> string, o: PlanOptions, id: Id, c: Content)
    requires o.keepLast == 0 && c in {Reference("Grep"), GREP_OBJECT, Items([GREP_OBJECT])}
    ensures var history := [Message(id, None, [ToolResult(c)], NoNote)];
      var once := Output(lower, history, o);
      && Discovered(lower, history) == Discovered(lower, once) == {lower("Grep")}
      && Discovered(lower, Output(lower, once, o)) == {}
  {
    var m := Message(id, None, [ToolResult(c)], NoNote);
    SaysGrep(c);
    OneReference(lower, m, c);
    OnceKnown(lower, m, o);
    TwiceForgotten(lower, m, o);
    hide Output, Discovered, CompactHistory;
  }

  lemma SaysGrep(c: Content)
    requires c in {Reference("Grep"), GREP_OBJECT, Items([GREP_OBJECT])}
    ensures CompactNames(c) == RequestNames(c) == ["Grep"]
  {
    TrimFixesTrimmed("Grep");
    ObjectReadsAsReference(GREP_OBJECT.fields);
    var items := [GREP_OBJECT];
    assert items[1..] == [];
    assert CompactItems(items) == CompactNames(items[0]) + [] == ["Grep"];
    assert RequestItems(items) == RequestNames(items[0]) + [] == ["Grep"];
  }

  /** A compaction that keeps nothing leaves the tool results known. */
  lemma OnceKnown(lower: string -> string, m: Message, o: PlanOptions)
    requires o.keepLast == 0
    ensures Discovered(lower, Output(lower, [m], o)) == Keys(lower, CompactHistory([m]))
  {
    CompactionLaw(lower, [m], o);
    assert Kept([m], 0) == [];
    NothingKnown(lower);
    hide Output, Discovered, CompactHistory;
  }

  /** A second one leaves nothing known. */
  lemma TwiceForgotten(lower: string -> string, m: Message, o: PlanOptions)
    requires o.keepLast == 0
    ensures Discovered(lower, Output(lower, Output(lower, [m], o), o)) == {}
  {
    SecondCompactionForgets(lower, [m], o, o);
    assert Kept([m], 0) == [] && Kept([], 0) == [];
    NothingKnown(lower);
    assert |Output(lower, [m], o)| >= 2;
    hide Output, Discovered, CompactHistory;
  }

  /** A tool named as the request reads it and compaction does not: one compaction forgets it. */
  lemma ShapeForgotten(lower: string -> string, o: PlanOptions, id: Id)
    requires o.keepLast == 0
    ensures var found := Object(Fields(Some(TOOL_REFERENCE), None, None, Some("Grep")));
      var history := [Message(id, None, [ToolResult(found)], NoNote)];
      Discovered(lower, history) == {lower("Grep")} && Discovered(lower, Output(lower, history, o)) == {}
  {
    var found := Object(Fields(Some(TOOL_REFERENCE), None, None, Some("Grep")));
    var m := Message(id, None, [ToolResult(found)], NoNote);
    OnceKnown(lower, m, o);
    ObjectReads(lower, m, found);
    hide Output, Discovered, CompactHistory;
  }

  lemma ObjectReads(lower: string -> string, m: Message, found: Content)
    requires found == Object(Fields(Some(TOOL_REFERENCE), None, None, Some("Grep")))
    requires m.blocks == [ToolResult(found)] && m.note == NoNote
    ensures Discovered(lower, [m]) == {lower("Grep")} && Keys(lower, CompactHistory([m])) == {}
  {
    TrimFixesTrimmed("Grep");
    TrimFixesTrimmed(TOOL_REFERENCE);
    assert [m][1..] == [] && m.blocks[1..] == [];
    FirstOfFields(found.fields);
    assert RequestNames(found) == ["Grep"] && CompactNames(found) == [];
    assert RequestBlocks(m.blocks) == ["Grep"] && CompactBlocks(m.blocks) == [];
    hide RequestNames, CompactNames;
    assert HistoryNames([m]) == ["Grep"] && CompactHistory([m]) == [];
    KeysCons(lower, "Grep", []);
    assert ["Grep"] + [] == ["Grep"];
  }

  lemma FirstOfFields(f: Fields)
    requires f == Fields(Some(TOOL_REFERENCE), None, None, Some("Grep"))
    ensures RequestObject(f) == ["Grep"]
  {
    TrimFixesTrimmed("Grep");
    TrimFixesTrimmed(TOOL_REFERENCE);
    var names := [f.toolNameSnake, f.toolNameCamel, f.name];
    assert names[1..] == [f.toolNameCamel, f.name] && names[1..][1..] == [f.name];
    assert FirstField(names) == FirstField([f.toolNameCamel, f.name]) == FirstField([f.name]) == ["Grep"];
  }

  lemma NothingKnown(lower: string -> string)
    ensures Discovered(lower, []) == {} && Keys(lower, CompactHistory([])) == {}
  {
  }

  lemma OneReference(lower: string -> string, m: Message, c: Content)
    requires m.blocks == [ToolResult(c)] && m.note == NoNote && CompactNames(c) == RequestNames(c) == ["Grep"]
    ensures Discovered(lower, [m]) == Keys(lower, CompactHistory([m])) == {lower("Grep")}
  {
    assert [m][1..] == [] && m.blocks[1..] == [];
    hide RequestNames, CompactNames;
    assert RequestBlocks(m.blocks) == CompactBlocks(m.blocks) == ["Grep"];
    assert HistoryNames([m]) == ["Grep"] && CompactHistory([m]) == ["Grep"];
    KeysCons(lower, "Grep", []);
    assert ["Grep"] + [] == ["Grep"];
  }

  lemma {:induction false} RelinkedCompactNames(kept: seq<Message>, last: Id)
    ensures CompactHistory(Relinked(kept, last)) == CompactHistory(kept)
  {
    if kept != [] {
      RelinkedCompactNames(kept[1..], kept[0].uuid);
    }
  }

  // ---------- The tool list sent to the API ----------

  predicate IsDiscovered(lower: string -> string, d: ToolDefinition, discovered: set<string>) {
    lower(d.name) in discovered || exists i :: 0 <= i < |d.aliases| && lower(d.aliases[i]) in discovered
  }

  function Loaded(d: ToolDefinition): ToolDefinition {
    d.(alwaysLoad := true, shouldDefer := false)
  }

  function WithoutToolSearch(defs: seq<ToolDefinition>): seq<ToolDefinition> {
    if defs == [] then []
    else (if defs[0].isToolSearch then [] else [defs[0]]) + WithoutToolSearch(defs[1..])
  }

  function LoadDeferred(defs: seq<ToolDefinition>): seq<ToolDefinition> {
    seq(|defs|, i requires 0 <= i < |defs| => if defs[i].Deferred() then Loaded(defs[i]) else defs[i])
  }

  function LoadDiscovered(lower: string -> string, defs: seq<ToolDefinition>, discovered: set<string>)
    : seq<ToolDefinition>
  {
    seq(|defs|, i requires 0 <= i < |defs| =>
          if IsDiscovered(lower, defs[i], discovered) then Loaded(defs[i]) else defs[i])
  }

  function SendOnDemand(lower: string -> string, defs: seq<ToolDefinition>, discovered: set<string>)
    : seq<ToolDefinition>
  {
    if defs == [] then []
    else (if defs[0].isToolSearch || !defs[0].Deferred() then [defs[0]]
          else if IsDiscovered(lower, defs[0], discovered) then [Loaded(defs[0])] else [])
         + SendOnDemand(lower, defs[1..], discovered)
  }

  /** filterToolSearchDefinitionsWithDecision: the tools sent with a request. */
  function FilterTools(lower: string -> string, defs: seq<ToolDefinition>, history: seq<Message>, enabled: bool)
    : seq<ToolDefinition>
  {
    if defs == [] then defs
    else if !(exists i :: 0 <= i < |defs| && defs[i].isToolSearch) then
      if Discovered(lower, history) == {} then defs else LoadDiscovered(lower, defs, Discovered(lower, history))
    else if !enabled then LoadDeferred(WithoutToolSearch(defs))
    else if !(exists i :: 0 <= i < |defs| && defs[i].Deferred()) then WithoutToolSearch(defs)
    else SendOnDemand(lower, defs, Discovered(lower, history))
  }
}
