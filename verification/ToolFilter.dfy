/** The request's own code for discovered tools and for the tool list it sends, in its imperative form
    (internal/conversation/request.go). */
module ToolFilter {
  import opened Text
  import opened Conversation
  import opened FirstSeen
  import opened ToolReferences
  import opened Compaction
  import opened SortedNames

  lemma NamedKeys(lower: string -> string, names: seq<string>, more: seq<string>, discovered: set<string>)
    ensures discovered + Keys(lower, names + more) == (discovered + Keys(lower, names)) + Keys(lower, more)
    ensures discovered + Keys(lower, []) == discovered
  {
    KeysAppend(lower, names, more);
  }

  method AddDiscovered(lower: string -> string, name: string, discovered: set<string>) returns (out: set<string>)
    ensures out == discovered + Keys(lower, Named(name))
  {
    out := discovered;
    var trimmed := Trim(name);
    if trimmed != "" {
      KeysCons(lower, trimmed, []);
      assert [trimmed] + [] == [trimmed];
      out := out + {lower(trimmed)};
    }
  }

  method AddAllDiscovered(lower: string -> string, names: seq<string>, discovered: set<string>)
    returns (out: set<string>)
    ensures out == discovered + Keys(lower, AllNamed(names))
  {
    hide Keys;
    out := discovered;
    for i := 0 to |names|
      invariant out + Keys(lower, AllNamed(names[i..])) == discovered + Keys(lower, AllNamed(names))
    {
      assert names[i..][1..] == names[i + 1..];
      NamedKeys(lower, Named(names[i]), AllNamed(names[i + 1..]), out);
      out := AddDiscovered(lower, names[i], out);
    }
    NamedKeys(lower, [], [], out);
  }

  /** The name an object of type tool_reference gives. */
  method CollectObject(lower: string -> string, f: Fields, discovered: set<string>) returns (out: set<string>)
    ensures out == discovered + Keys(lower, RequestObject(f))
  {
    hide Keys;
    var name := FirstField([f.toolNameSnake, f.toolNameCamel, f.name]);
    if name != [] && FirstField([f.typ]) == [TOOL_REFERENCE] {
      FirstFieldIsName([f.toolNameSnake, f.toolNameCamel, f.name]);
      out := AddDiscovered(lower, name[0], discovered);
    } else {
      NamedKeys(lower, [], [], discovered);
      out := discovered;
    }
  }

  lemma {:induction false} FirstFieldIsName(fields: seq<Option<string>>)
    requires FirstField(fields) != []
    ensures Named(FirstField(fields)[0]) == FirstField(fields)
  {
    if fields[0].Some? && Trim(fields[0].value) != "" {
      TrimFixesTrimmed(Trim(fields[0].value));
    } else {
      FirstFieldIsName(fields[1..]);
    }
  }

  /** collectToolReferenceNames of request.go. */
  method CollectNames(lower: string -> string, content: Content, discovered: set<string>) returns (out: set<string>)
    ensures out == discovered + Keys(lower, RequestNames(content))
    decreases content
  {
    hide Keys;
    out := discovered;
    match content
    case Reference(name) => out := AddDiscovered(lower, name, out);
    case References(names) => out := AddAllDiscovered(lower, names, out);
    case Object(fields) => out := CollectObject(lower, fields, out);
    case Objects(list) =>
      for i := 0 to |list|
        invariant out + Keys(lower, RequestObjects(list[i..])) == discovered + Keys(lower, RequestObjects(list))
      {
        assert list[i..][1..] == list[i + 1..];
        NamedKeys(lower, RequestObject(list[i]), RequestObjects(list[i + 1..]), out);
        out := CollectObject(lower, list[i], out);
      }
      NamedKeys(lower, [], [], out);
    case Items(items) =>
      for i := 0 to |items|
        invariant out + Keys(lower, RequestItems(items[i..])) == discovered + Keys(lower, RequestItems(items))
      {
        assert items[i..][1..] == items[i + 1..];
        NamedKeys(lower, RequestNames(items[i]), RequestItems(items[i + 1..]), out);
        out := CollectNames(lower, items[i], out);
      }
      NamedKeys(lower, [], [], out);
    case OtherContent => NamedKeys(lower, [], [], out);
  }

  /** One message: its compaction metadata, then its tool results. */
  method CollectMessage(lower: string -> string, m: Message, discovered: set<string>) returns (out: set<string>)
    ensures out == discovered + Keys(lower, MessageNames(m))
  {
    hide Keys;
    out := discovered;
    ghost var noted := if m.note.CompactBoundary? then AllNamed(m.note.discovered) else [];
    NamedKeys(lower, noted, RequestBlocks(m.blocks), discovered);
    if m.note.CompactBoundary? {
      out := AddAllDiscovered(lower, m.note.discovered, out);
    }
    for i := 0 to |m.blocks|
      invariant out + Keys(lower, RequestBlocks(m.blocks[i..])) == discovered + Keys(lower, MessageNames(m))
    {
      assert m.blocks[i..][1..] == m.blocks[i + 1..];
      ghost var rest := RequestBlocks(m.blocks[i + 1..]);
      if m.blocks[i].ToolResult? {
        NamedKeys(lower, RequestNames(m.blocks[i].content), rest, out);
        out := CollectNames(lower, m.blocks[i].content, out);
      } else {
        assert [] + rest == rest;
      }
    }
    NamedKeys(lower, [], [], out);
  }

  method DiscoveredToolReferenceNames(lower: string -> string, history: seq<Message>) returns (discovered: set<string>)
    ensures discovered == Discovered(lower, history)
  {
    hide Keys;
    discovered := {};
    NamedKeys(lower, [], [], {});
    for i := 0 to |history|
      invariant discovered + Keys(lower, HistoryNames(history[i..])) == Discovered(lower, history)
    {
      assert history[i..][1..] == history[i + 1..];
      NamedKeys(lower, MessageNames(history[i]), HistoryNames(history[i + 1..]), discovered);
      discovered := CollectMessage(lower, history[i], discovered);
    }
    NamedKeys(lower, [], [], discovered);
  }

  // ---------- The list ----------

  /** toolDefinitionDiscovered. */
  method ToolDefinitionDiscovered(lower: string -> string, d: ToolDefinition, discovered: set<string>)
    returns (found: bool)
    ensures found == IsDiscovered(lower, d, discovered)
  {
    if lower(d.name) in discovered {
      return true;
    }
    for i := 0 to |d.aliases|
      invariant forall j | 0 <= j < i :: lower(d.aliases[j]) !in discovered
    {
      if lower(d.aliases[i]) in discovered {
        return true;
      }
    }
    found := false;
  }

  lemma {:induction false} WithoutToolSearchSnoc(defs: seq<ToolDefinition>, d: ToolDefinition)
    ensures WithoutToolSearch(defs + [d]) == WithoutToolSearch(defs) + (if d.isToolSearch then [] else [d])
  {
    if defs == [] {
      assert defs + [d] == [d];
      assert [d][1..] == [];
    } else {
      var head := if defs[0].isToolSearch then [] else [defs[0]];
      assert (defs + [d])[1..] == defs[1..] + [d] && (defs + [d])[0] == defs[0];
      assert WithoutToolSearch(defs + [d]) == head + WithoutToolSearch(defs[1..] + [d]);
      assert WithoutToolSearch(defs) == head + WithoutToolSearch(defs[1..]);
      WithoutToolSearchSnoc(defs[1..], d);
      hide WithoutToolSearch;
      Regroup(head, WithoutToolSearch(defs[1..]), if d.isToolSearch then [] else [d]);
    }
  }

  method WithoutToolSearchDefinition(defs: seq<ToolDefinition>) returns (out: seq<ToolDefinition>)
    ensures out == WithoutToolSearch(defs)
  {
    out := [];
    for i := 0 to |defs|
      invariant out == WithoutToolSearch(defs[..i])
    {
      assert defs[..i + 1] == defs[..i] + [defs[i]];
      WithoutToolSearchSnoc(defs[..i], defs[i]);
      if !defs[i].isToolSearch {
        out := out + [defs[i]];
      }
    }
    assert defs[..|defs|] == defs;
  }

  /** loadAllDeferredTools, on a copy, in place. */
  method LoadAllDeferredTools(defs: seq<ToolDefinition>) returns (loaded: seq<ToolDefinition>)
    ensures loaded == LoadDeferred(defs)
  {
    var out := new ToolDefinition[|defs|](i requires 0 <= i < |defs| => defs[i]);
    for i := 0 to out.Length
      invariant forall j | 0 <= j < i :: out[j] == LoadDeferred(defs)[j]
      invariant forall j | i <= j < out.Length :: out[j] == defs[j]
    {
      if out[i].Deferred() {
        out[i] := Loaded(out[i]);
      }
    }
    loaded := out[..];
  }

  /** applyDiscoveredToolReferences, on a copy, in place. */
  method ApplyDiscoveredToolReferences(lower: string -> string, defs: seq<ToolDefinition>, history: seq<Message>)
    returns (loaded: seq<ToolDefinition>)
    ensures loaded == if Discovered(lower, history) == {} then defs
                      else LoadDiscovered(lower, defs, Discovered(lower, history))
  {
    hide Discovered, IsDiscovered;
    var discovered := DiscoveredToolReferenceNames(lower, history);
    if |discovered| == 0 || |defs| == 0 {
      return defs;
    }
    var out := new ToolDefinition[|defs|](i requires 0 <= i < |defs| => defs[i]);
    for i := 0 to out.Length
      invariant forall j | 0 <= j < i :: out[j] == LoadDiscovered(lower, defs, discovered)[j]
      invariant forall j | i <= j < out.Length :: out[j] == defs[j]
    {
      var found := ToolDefinitionDiscovered(lower, out[i], discovered);
      if found {
        out[i] := Loaded(out[i]);
      }
    }
    loaded := out[..];
  }

  /** The names of the deferred tools, in the pool's order. */
  function DeferredIn(defs: seq<ToolDefinition>): seq<string> {
    if defs == [] then []
    else
      var last := defs[|defs| - 1];
      DeferredIn(defs[..|defs| - 1]) + (if last.Deferred() then [last.name] else [])
  }

  method DeferredToolNames(defs: seq<ToolDefinition>) returns (names: seq<string>)
    ensures names == Sorted(DeferredIn(defs))
    ensures names == [] <==> !exists d :: d in defs && d.Deferred()
  {
    names := [];
    for i := 0 to |defs|
      invariant names == DeferredIn(defs[..i])
      invariant names == [] <==> forall j | 0 <= j < i :: !defs[j].Deferred()
    {
      assert defs[..i + 1][..i] == defs[..i];
      if defs[i].Deferred() {
        names := names + [defs[i].name];
      }
    }
    assert defs[..|defs|] == defs;
    SortedKeeps(names);
    names := Sorted(names);
  }

  /** filterToolSearchDefinitionsWithDecision: the tools, the sorted names of the deferred ones and whether
      loading is on demand. */
  method FilterToolSearchDefinitions(lower: string -> string, defs: seq<ToolDefinition>, history: seq<Message>,
                                     enabled: bool)
    returns (out: seq<ToolDefinition>, names: seq<string>, onDemand: bool)
    ensures out == FilterTools(lower, defs, history, enabled)
    ensures onDemand <==>
            enabled && (exists d :: d in defs && d.isToolSearch) && (exists d :: d in defs && d.Deferred())
    ensures names == if onDemand then Sorted(DeferredIn(defs)) else []
  {
    hide Discovered, IsDiscovered, LoadDeferred, LoadDiscovered, Sorted, DeferredIn;
    names, onDemand := [], false;
    if |defs| == 0 {
      return defs, [], false;
    }
    if !(exists i :: 0 <= i < |defs| && defs[i].isToolSearch) {
      out := ApplyDiscoveredToolReferences(lower, defs, history);
      return;
    }
    if !enabled {
      out := WithoutToolSearchDefinition(defs);
      out := LoadAllDeferredTools(out);
      return;
    }
    var deferredNames := DeferredToolNames(defs);
    if |deferredNames| == 0 {
      out := WithoutToolSearchDefinition(defs);
      return;
    }
    out := ToolsOnDemand(lower, defs, history);
    names, onDemand := deferredNames, true;
  }

  /** The list when loading is on demand. */
  method ToolsOnDemand(lower: string -> string, defs: seq<ToolDefinition>, history: seq<Message>)
    returns (out: seq<ToolDefinition>)
    ensures out == SendOnDemand(lower, defs, Discovered(lower, history))
  {
    hide Discovered, IsDiscovered;
    var discovered := DiscoveredToolReferenceNames(lower, history);
    out := [];
    for i := 0 to |defs|
      invariant out + SendOnDemand(lower, defs[i..], discovered) == SendOnDemand(lower, defs, discovered)
    {
      assert defs[i..][1..] == defs[i + 1..];
      ghost var rest := SendOnDemand(lower, defs[i + 1..], discovered);
      if defs[i].isToolSearch || !defs[i].Deferred() {
        Regroup(out, [defs[i]], rest);
        out := out + [defs[i]];
        continue;
      }
      var found := ToolDefinitionDiscovered(lower, defs[i], discovered);
      if found {
        Regroup(out, [Loaded(defs[i])], rest);
        out := out + [Loaded(defs[i])];
      } else {
        assert [] + rest == rest;
      }
    }
    assert out + [] == out;
  }

  // ---------- What the list means ----------

  /** With deferral in force, exactly the tools that are not deferred, and the deferred ones the log has
      made known, are sent; none of those sent is deferred any more. */
  lemma {:induction false} SentOnDemand(lower: string -> string, defs: seq<ToolDefinition>, discovered: set<string>,
                                        d: ToolDefinition)
    ensures d in SendOnDemand(lower, defs, discovered) <==>
            exists e :: e in defs
                        && (if e.Deferred() then IsDiscovered(lower, e, discovered) && d == Loaded(e) else d == e)
    ensures d in SendOnDemand(lower, defs, discovered) ==> !d.Deferred()
  {
    hide IsDiscovered;
    if defs != [] {
      SentOnDemand(lower, defs[1..], discovered, d);
      assert forall e | e in defs :: e == defs[0] || e in defs[1..];
      assert defs[0] in defs && forall e | e in defs[1..] :: e in defs;
    }
  }

  /** A name of the definition is known to the log. */
  ghost predicate Known(lower: string -> string, e: ToolDefinition, history: seq<Message>) {
    exists n :: (n == e.name || n in e.aliases) && lower(n) in Discovered(lower, history)
  }

  /** Loaded on demand: an MCP tool or one that asks for it, unless it is always loaded or is the tool search. */
  predicate Waits(e: ToolDefinition) {
    !e.alwaysLoad && !e.isToolSearch && (e.isMCP || e.shouldDefer)
  }

  /** The definition `e` of the pool is sent as `d`. Without a tool search all are, those known to the log as
      loaded. With one that is off, or nothing to wait for, all but the tool search are, as loaded. Otherwise
      those that wait are sent if known, as loaded, and all others as they are. */
  ghost predicate SentAs(lower: string -> string, defs: seq<ToolDefinition>, history: seq<Message>, enabled: bool,
                         e: ToolDefinition, d: ToolDefinition) {
    var loaded := e.(alwaysLoad := true, shouldDefer := false);
    if !(exists t :: t in defs && t.isToolSearch) then d == if Known(lower, e, history) then loaded else e
    else if !enabled || !(exists t :: t in defs && Waits(t)) then
      !e.isToolSearch && d == if Waits(e) then loaded else e
    else if Waits(e) then Known(lower, e, history) && d == loaded
    else d == e
  }

  /** For every pool and log, the tools sent are these; once there is a tool search, none of them waits. */
  lemma SentExactly(lower: string -> string, defs: seq<ToolDefinition>, history: seq<Message>, enabled: bool,
                    d: ToolDefinition)
    ensures d in FilterTools(lower, defs, history, enabled) <==>
            exists e :: e in defs && SentAs(lower, defs, history, enabled, e, d)
    ensures d in FilterTools(lower, defs, history, enabled) && (exists t :: t in defs && t.isToolSearch) ==> !Waits(d)
  {
    hide FilterTools, SentAs;
    if !(exists t :: t in defs && t.isToolSearch) {
      SentWithoutSearch(lower, defs, history, enabled, d);
    } else if !enabled || !(exists t :: t in defs && Waits(t)) {
      SentWithoutDelay(lower, defs, history, enabled, d);
    } else {
      SentKnown(lower, defs, history, enabled, d);
    }
  }

  lemma SentWithoutSearch(lower: string -> string, defs: seq<ToolDefinition>, history: seq<Message>, enabled: bool,
                          d: ToolDefinition)
    requires !(exists t :: t in defs && t.isToolSearch)
    ensures d in FilterTools(lower, defs, history, enabled) <==>
            exists e :: e in defs && SentAs(lower, defs, history, enabled, e, d)
  {
    assert !(exists i :: 0 <= i < |defs| && defs[i].isToolSearch);
    DiscoveredLoads(lower, defs, Discovered(lower, history), d);
    NothingKnownLoads(lower, defs, history);
    forall e
      ensures IsDiscovered(lower, e, Discovered(lower, history)) <==> Known(lower, e, history)
    {
      KnownIsDiscovered(lower, e, history);
    }
    hide Discovered, IsDiscovered, Known, LoadDiscovered;
  }

  lemma SentWithoutDelay(lower: string -> string, defs: seq<ToolDefinition>, history: seq<Message>, enabled: bool,
                         d: ToolDefinition)
    requires (exists t :: t in defs && t.isToolSearch) && (!enabled || !(exists t :: t in defs && Waits(t)))
    ensures d in FilterTools(lower, defs, history, enabled) <==>
            exists e :: e in defs && SentAs(lower, defs, history, enabled, e, d)
    ensures d in FilterTools(lower, defs, history, enabled) ==> !Waits(d)
  {
    var rest := WithoutToolSearch(defs);
    forall e
      ensures e in rest <==> e in defs && !e.isToolSearch
    {
      WithoutToolSearchHolds(defs, e);
    }
    DeferredLoads(rest, d);
    assert forall e: ToolDefinition :: Waits(e) == e.Deferred();
    hide Discovered, LoadDeferred, WithoutToolSearch, Known;
    var i :| 0 <= i < |defs| && defs[i].isToolSearch;
    assert enabled ==> !(exists i :: 0 <= i < |defs| && defs[i].Deferred());
    assert FilterTools(lower, defs, history, enabled) == if enabled then rest else LoadDeferred(rest);
    hide FilterTools;
  }

  lemma SentKnown(lower: string -> string, defs: seq<ToolDefinition>, history: seq<Message>, enabled: bool,
                  d: ToolDefinition)
    requires enabled && (exists t :: t in defs && t.isToolSearch) && (exists t :: t in defs && Waits(t))
    ensures d in FilterTools(lower, defs, history, enabled) <==>
            exists e :: e in defs && SentAs(lower, defs, history, enabled, e, d)
    ensures d in FilterTools(lower, defs, history, enabled) ==> !Waits(d)
  {
    SentOnDemand(lower, defs, Discovered(lower, history), d);
    forall e
      ensures IsDiscovered(lower, e, Discovered(lower, history)) <==> Known(lower, e, history)
    {
      KnownIsDiscovered(lower, e, history);
    }
    assert forall e: ToolDefinition :: Waits(e) == e.Deferred();
    hide Discovered, IsDiscovered, Known, SendOnDemand;
    var i :| 0 <= i < |defs| && defs[i].isToolSearch;
    var j :| 0 <= j < |defs| && Waits(defs[j]);
    assert FilterTools(lower, defs, history, enabled) == SendOnDemand(lower, defs, Discovered(lower, history));
    hide FilterTools;
  }

  lemma KnownIsDiscovered(lower: string -> string, e: ToolDefinition, history: seq<Message>)
    ensures IsDiscovered(lower, e, Discovered(lower, history)) <==> Known(lower, e, history)
  {
    hide Discovered;
    if n :| (n == e.name || n in e.aliases) && lower(n) in Discovered(lower, history) {
      assert n in e.aliases ==> exists i :: 0 <= i < |e.aliases| && lower(e.aliases[i]) in Discovered(lower, history);
    }
  }

  lemma NothingKnownLoads(lower: string -> string, defs: seq<ToolDefinition>, history: seq<Message>)
    ensures Discovered(lower, history) == {} ==> forall e :: !Known(lower, e, history)
  {
    hide Discovered;
  }

  lemma {:induction false} WithoutToolSearchHolds(defs: seq<ToolDefinition>, d: ToolDefinition)
    ensures d in WithoutToolSearch(defs) <==> d in defs && !d.isToolSearch
  {
    if defs != [] {
      WithoutToolSearchHolds(defs[1..], d);
      assert defs == [defs[0]] + defs[1..];
    }
  }

  lemma DeferredLoads(defs: seq<ToolDefinition>, d: ToolDefinition)
    ensures d in LoadDeferred(defs) <==> exists e :: e in defs && d == if e.Deferred() then Loaded(e) else e
  {
    var out := LoadDeferred(defs);
    if d in out {
      var i :| 0 <= i < |out| && out[i] == d;
      assert defs[i] in defs;
    }
    if e :| e in defs && d == if e.Deferred() then Loaded(e) else e {
      var i :| 0 <= i < |defs| && defs[i] == e;
      assert out[i] == d;
    }
  }

  lemma DiscoveredLoads(lower: string -> string, defs: seq<ToolDefinition>, discovered: set<string>, d: ToolDefinition)
    ensures d in LoadDiscovered(lower, defs, discovered) <==>
            exists e :: e in defs && d == if IsDiscovered(lower, e, discovered) then Loaded(e) else e
  {
    hide IsDiscovered;
    var out := LoadDiscovered(lower, defs, discovered);
    if d in out {
      var i :| 0 <= i < |out| && out[i] == d;
      assert defs[i] in defs;
    }
    if e :| e in defs && d == if IsDiscovered(lower, e, discovered) then Loaded(e) else e {
      var i :| 0 <= i < |defs| && defs[i] == e;
      assert out[i] == d;
    }
  }

  /** The names that go with the tools on demand are those of the tools that wait, in the pool's order before they are
      sorted, as often as they stand there. */
  lemma {:induction false} WaitingNames(a: seq<ToolDefinition>, b: seq<ToolDefinition>, d: ToolDefinition)
    ensures DeferredIn(a + b) == DeferredIn(a) + DeferredIn(b)
    ensures DeferredIn([d]) == if Waits(d) then [d.name] else []
    decreases |b|
  {
    assert [d][..0] == [];
    if b == [] {
      assert a + b == a;
    } else {
      assert (a + b)[..|a + b| - 1] == a + b[..|b| - 1] && (a + b)[|a + b| - 1] == b[|b| - 1];
      WaitingNames(a, b[..|b| - 1], d);
    }
  }

  /** They are sent in the pool's order. */
  lemma SentInOrder(lower: string -> string, a: seq<ToolDefinition>, b: seq<ToolDefinition>, discovered: set<string>)
    ensures SendOnDemand(lower, a + b, discovered) ==
            SendOnDemand(lower, a, discovered) + SendOnDemand(lower, b, discovered)
    ensures WithoutToolSearch(a + b) == WithoutToolSearch(a) + WithoutToolSearch(b)
    ensures LoadDeferred(a + b) == LoadDeferred(a) + LoadDeferred(b)
    ensures LoadDiscovered(lower, a + b, discovered) ==
            LoadDiscovered(lower, a, discovered) + LoadDiscovered(lower, b, discovered)
  {
    DemandInOrder(lower, a, b, discovered);
    RestInOrder(a, b);
    hide SendOnDemand, WithoutToolSearch, IsDiscovered;
  }

  lemma {:induction false} DemandInOrder(lower: string -> string, a: seq<ToolDefinition>, b: seq<ToolDefinition>,
                                         discovered: set<string>)
    ensures SendOnDemand(lower, a + b, discovered) ==
            SendOnDemand(lower, a, discovered) + SendOnDemand(lower, b, discovered)
  {
    hide IsDiscovered;
    if a == [] {
      assert a + b == b;
    } else {
      assert (a + b)[1..] == a[1..] + b && (a + b)[0] == a[0];
      DemandInOrder(lower, a[1..], b, discovered);
    }
  }

  lemma {:induction false} RestInOrder(a: seq<ToolDefinition>, b: seq<ToolDefinition>)
    ensures WithoutToolSearch(a + b) == WithoutToolSearch(a) + WithoutToolSearch(b)
  {
    if a == [] {
      assert a + b == b;
    } else {
      assert (a + b)[1..] == a[1..] + b && (a + b)[0] == a[0];
      RestInOrder(a[1..], b);
    }
  }
}
