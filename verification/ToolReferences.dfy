/** Discovered tools: the two collectors of tool references, compaction's plan, and the tool list sent
    to the API (internal/compact/plan.go, internal/conversation/request.go). Names are compared through
    `lower`, any case mapping of strings. */
module ToolReferences {
  import opened Text
  import opened Conversation
  import opened FirstSeen

  const TOOL_REFERENCE := "tool_reference"

  function Named(name: string): seq<string> {
    if Trim(name) == "" then [] else [Trim(name)]
  }

  function AllNamed(names: seq<string>): seq<string> {
    if names == [] then [] else Named(names[0]) + AllNamed(names[1..])
  }

  // ---------- The request's collector ----------

  /** The first field that is a non-blank string, trimmed. */
  function FirstField(fields: seq<Option<string>>): seq<string> {
    if fields == [] then []
    else if fields[0].Some? && Trim(fields[0].value) != "" then [Trim(fields[0].value)]
    else FirstField(fields[1..])
  }

  function RequestObject(f: Fields): seq<string> {
    if FirstField([f.typ]) == [TOOL_REFERENCE] then FirstField([f.toolNameSnake, f.toolNameCamel, f.name]) else []
  }

  function RequestObjects(fs: seq<Fields>): seq<string> {
    if fs == [] then [] else RequestObject(fs[0]) + RequestObjects(fs[1..])
  }

  function RequestNames(c: Content): seq<string>
    decreases c, 0
  {
    match c
    case Reference(name) => Named(name)
    case References(names) => AllNamed(names)
    case Object(fields) => RequestObject(fields)
    case Objects(list) => RequestObjects(list)
    case Items(items) => RequestItems(items)
    case OtherContent => []
  }

  function RequestItems(items: seq<Content>): seq<string>
    decreases items, 1
  {
    if items == [] then [] else RequestNames(items[0]) + RequestItems(items[1..])
  }

  function RequestBlocks(blocks: seq<Block>): seq<string> {
    if blocks == [] then []
    else (if blocks[0].ToolResult? then RequestNames(blocks[0].content) else []) + RequestBlocks(blocks[1..])
  }

  /** The names one message makes known: its compaction metadata and its tool results. */
  function MessageNames(m: Message): seq<string> {
    (if m.note.CompactBoundary? then AllNamed(m.note.discovered) else []) + RequestBlocks(m.blocks)
  }

  function HistoryNames(history: seq<Message>): seq<string> {
    if history == [] then [] else MessageNames(history[0]) + HistoryNames(history[1..])
  }

  function Keys(lower: string -> string, names: seq<string>): set<string> {
    set n | n in names :: lower(n)
  }

  /** discoveredToolReferenceNames. */
  function Discovered(lower: string -> string, history: seq<Message>): set<string> {
    Keys(lower, HistoryNames(history))
  }

  // ---------- Compaction's collector ----------

  function CompactNames(c: Content): seq<string>
    decreases c, 0
  {
    match c
    case Reference(name) => Named(name)
    case References(names) => AllNamed(names)
    case Object(f) =>
      if f.typ == Some(TOOL_REFERENCE) && f.toolNameSnake.Some? then Named(f.toolNameSnake.value) else []
    case Objects(_) => []
    case Items(items) => CompactItems(items)
    case OtherContent => []
  }

  function CompactItems(items: seq<Content>): seq<string>
    decreases items, 1
  {
    if items == [] then [] else CompactNames(items[0]) + CompactItems(items[1..])
  }

  function CompactBlocks(blocks: seq<Block>): seq<string> {
    if blocks == [] then []
    else (if blocks[0].ToolResult? then CompactNames(blocks[0].content) else []) + CompactBlocks(blocks[1..])
  }

  function CompactHistory(history: seq<Message>): seq<string> {
    if history == [] then [] else CompactBlocks(history[0].blocks) + CompactHistory(history[1..])
  }

  /** The names whose key is not in `seen`, each key once. */
  function FirstByKey(lower: string -> string, names: seq<string>, seen: set<string>): (kept: seq<string>)
    ensures Keys(lower, kept) == Keys(lower, names) - seen
    ensures forall n | n in kept :: n in names
  {
    if names == [] then []
    else
      KeysCons(lower, names[0], names[1..]);
      assert names == [names[0]] + names[1..];
      if lower(names[0]) in seen then FirstByKey(lower, names[1..], seen)
      else
        var rest := FirstByKey(lower, names[1..], seen + {lower(names[0])});
        KeysCons(lower, names[0], rest);
        [names[0]] + rest
  }

  lemma KeysCons(lower: string -> string, name: string, names: seq<string>)
    ensures Keys(lower, [name] + names) == {lower(name)} + Keys(lower, names)
  {
    forall k | k in {lower(name)} + Keys(lower, names)
      ensures k in Keys(lower, [name] + names)
    {
      if k == lower(name) {
        assert ([name] + names)[0] == name;
      } else {
        var n :| n in names && lower(n) == k;
        assert n in [name] + names;
      }
    }
  }

  /** The slice and set that compaction's collector fills in place. */
  class Collector {
    const lower: string -> string
    var seen: set<string>
    var out: seq<string>
    ghost var names: seq<string>

    ghost predicate Valid()
      reads this
    {
      out == FirstByKey(lower, names, {}) && seen == Keys(lower, names)
    }

    constructor (lower: string -> string)
      ensures Valid() && names == [] && this.lower == lower
    {
      this.lower, seen, out, names := lower, {}, [], [];
    }

    method Add(name: string)
      requires Valid()
      modifies this
      ensures Valid() && names == old(names) + Named(name)
    {
      var trimmed := Trim(name);
      if trimmed == "" {
        assert names + [] == names;
        return;
      }
      FirstByKeySnoc(lower, names, trimmed, {});
      KeysAppend(lower, names, [trimmed]);
      KeysCons(lower, trimmed, []);
      assert [trimmed] + [] == [trimmed];
      names := names + [trimmed];
      if lower(trimmed) in seen {
        return;
      }
      seen := seen + {lower(trimmed)};
      out := out + [trimmed];
    }

    method Collect(content: Content)
      requires Valid()
      modifies this
      ensures Valid() && names == old(names) + CompactNames(content)
      decreases content
    {
      match content
      case Reference(name) => Add(name);
      case References(list) =>
        for i := 0 to |list|
          invariant Valid() && names + AllNamed(list[i..]) == old(names) + AllNamed(list)
        {
          assert list[i..][1..] == list[i + 1..];
          Regroup(names, Named(list[i]), AllNamed(list[i + 1..]));
          Add(list[i]);
        }
      case Object(f) =>
        if f.typ == Some(TOOL_REFERENCE) && f.toolNameSnake.Some? && f.toolNameSnake.value != "" {
          Add(f.toolNameSnake.value);
        }
      case Items(items) =>
        for i := 0 to |items|
          invariant Valid() && names + CompactItems(items[i..]) == old(names) + CompactItems(items)
        {
          assert items[i..][1..] == items[i + 1..];
          Regroup(names, CompactNames(items[i]), CompactItems(items[i + 1..]));
          Collect(items[i]);
        }
      case Objects(_) =>
      case OtherContent =>
    }
  }

  method CollectBlocks(collector: Collector, blocks: seq<Block>)
    requires collector.Valid()
    modifies collector
    ensures collector.Valid() && collector.names == old(collector.names) + CompactBlocks(blocks)
  {
    for j := 0 to |blocks|
      invariant collector.Valid()
      invariant collector.names + CompactBlocks(blocks[j..]) == old(collector.names) + CompactBlocks(blocks)
    {
      assert blocks[j..][1..] == blocks[j + 1..];
      if blocks[j].ToolResult? {
        Regroup(collector.names, CompactNames(blocks[j].content), CompactBlocks(blocks[j + 1..]));
        collector.Collect(blocks[j].content);
      }
    }
  }

  lemma KeysAppend(lower: string -> string, a: seq<string>, b: seq<string>)
    ensures Keys(lower, a + b) == Keys(lower, a) + Keys(lower, b)
  {
    forall k | k in Keys(lower, a) + Keys(lower, b)
      ensures k in Keys(lower, a + b)
    {
      if k in Keys(lower, a) {
        var n :| n in a && lower(n) == k;
        assert n in a + b;
      } else {
        var n :| n in b && lower(n) == k;
        assert n in a + b;
      }
    }
  }

  lemma {:induction false} FirstByKeySnoc(lower: string -> string, names: seq<string>, name: string, seen: set<string>)
    ensures FirstByKey(lower, names + [name], seen) ==
            FirstByKey(lower, names, seen) + (if lower(name) in seen + Keys(lower, names) then [] else [name])
  {
    if names == [] {
      assert names + [name] == [name];
      assert [name][1..] == [];
    } else {
      assert (names + [name])[1..] == names[1..] + [name];
      KeysCons(lower, names[0], names[1..]);
      assert names == [names[0]] + names[1..];
      var seen' := if lower(names[0]) in seen then seen else seen + {lower(names[0])};
      FirstByKeySnoc(lower, names[1..], name, seen');
      assert seen' + Keys(lower, names[1..]) == seen + Keys(lower, names);
    }
  }

  /** discoveredToolReferences of compact/plan.go. */
  function PlanNames(lower: string -> string, history: seq<Message>): seq<string> {
    FirstByKey(lower, CompactHistory(history), {})
  }

  method DiscoveredToolReferences(lower: string -> string, history: seq<Message>) returns (out: seq<string>)
    ensures out == PlanNames(lower, history)
  {
    var collector := new Collector(lower);
    for i := 0 to |history|
      invariant fresh(collector) && collector.Valid() && collector.lower == lower
      invariant collector.names + CompactHistory(history[i..]) == CompactHistory(history)
    {
      assert history[i..][1..] == history[i + 1..];
      Regroup(collector.names, CompactBlocks(history[i].blocks), CompactHistory(history[i + 1..]));
      CollectBlocks(collector, history[i].blocks);
    }
    assert collector.names + [] == collector.names;
    out := collector.out;
  }

  // ---------- The two collectors side by side ----------

  lemma {:induction false} CompactWithinRequest(c: Content)
    ensures forall n | n in CompactNames(c) :: n in RequestNames(c)
    decreases c, 0
  {
    match c
    case Object(f) =>
      if f.typ == Some(TOOL_REFERENCE) {
        TrimFixesTrimmed(TOOL_REFERENCE);
        assert FirstField([f.typ]) == [TOOL_REFERENCE];
      }
    case Items(items) => CompactItemsWithinRequest(items);
    case _ =>
  }

  lemma {:induction false} CompactItemsWithinRequest(items: seq<Content>)
    ensures forall n | n in CompactItems(items) :: n in RequestItems(items)
    decreases items, 1
  {
    if items != [] {
      CompactWithinRequest(items[0]);
      CompactItemsWithinRequest(items[1..]);
    }
  }

  /** A field that is a string with something to read. */
  predicate Given(field: Option<string>) {
    field.Some? && Trim(field.value) != ""
  }

  /** The request finds no tool in the object. */
  predicate Nameless(f: Fields) {
    || f.typ.None? || Trim(f.typ.value) != TOOL_REFERENCE
    || (!Given(f.toolNameSnake) && !Given(f.toolNameCamel) && !Given(f.name))
  }

  /** Content from which both collectors read the same: an object with a type of exactly tool_reference and a
      tool_name, or one without a name; no list of objects with names. */
  predicate Common(c: Content)
    decreases c
  {
    match c
    case Object(f) => Nameless(f) || (f.typ == Some(TOOL_REFERENCE) && Given(f.toolNameSnake))
    case Objects(list) => forall f | f in list :: Nameless(f)
    case Items(items) => forall i | i in items :: Common(i)
    case _ => true
  }

  /** An object with a type of exactly tool_reference and a tool_name reads like the reference itself, in both
      collectors. */
  lemma ObjectReadsAsReference(f: Fields)
    requires f.typ == Some(TOOL_REFERENCE) && Given(f.toolNameSnake)
    ensures CompactNames(Object(f)) == RequestNames(Object(f)) == [Trim(f.toolNameSnake.value)]
    ensures CompactNames(Reference(f.toolNameSnake.value)) == RequestNames(Reference(f.toolNameSnake.value))
         == [Trim(f.toolNameSnake.value)]
  {
    TrimFixesTrimmed(TOOL_REFERENCE);
  }

  lemma ObjectReads(f: Fields)
    ensures RequestObject(f) == [] <==> Nameless(f)
    ensures CompactNames(Object(f)) == RequestObject(f) || CompactNames(Object(f)) == []
    ensures CompactNames(Object(f)) == RequestObject(f) <==> Common(Object(f))
  {
    TrimFixesTrimmed(TOOL_REFERENCE);
    FirstOfOne(f.typ);
    FirstOfThree(f.toolNameSnake, f.toolNameCamel, f.name);
    hide FirstField;
  }

  lemma FirstOfOne(a: Option<string>)
    ensures FirstField([a]) == if Given(a) then [Trim(a.value)] else []
  {
    assert [a][1..] == [];
  }

  lemma FirstOfThree(a: Option<string>, b: Option<string>, c: Option<string>)
    ensures FirstField([a, b, c]) == if Given(a) then [Trim(a.value)] else if Given(b) then [Trim(b.value)]
                                     else if Given(c) then [Trim(c.value)] else []
  {
    assert [a, b, c][1..] == [b, c] && [b, c][1..] == [c] && [c][1..] == [];
    assert FirstField([c]) == if Given(c) then [Trim(c.value)] else [];
  }

  lemma {:induction false} CommonReadsTheSame(c: Content)
    ensures |CompactNames(c)| <= |RequestNames(c)|
    ensures CompactNames(c) == RequestNames(c) <==> Common(c)
    decreases c, 0
  {
    match c
    case Object(f) => ObjectReads(f);
    case Objects(list) => NoObjectNames(list);
    case Items(items) => CommonItemsReadTheSame(items);
    case _ =>
  }

  lemma {:induction false} NoObjectNames(list: seq<Fields>)
    ensures RequestObjects(list) == [] <==> forall f | f in list :: Nameless(f)
  {
    if list != [] {
      assert list == [list[0]] + list[1..];
      ObjectReads(list[0]);
      NoObjectNames(list[1..]);
    }
  }

  lemma {:induction false} CommonItemsReadTheSame(items: seq<Content>)
    ensures |CompactItems(items)| <= |RequestItems(items)|
    ensures CompactItems(items) == RequestItems(items) <==> forall i | i in items :: Common(i)
    decreases items, 1
  {
    if items != [] {
      assert items == [items[0]] + items[1..];
      CommonReadsTheSame(items[0]);
      CommonItemsReadTheSame(items[1..]);
      SplitsAlike(CompactNames(items[0]), CompactItems(items[1..]), RequestNames(items[0]), RequestItems(items[1..]));
    }
  }

  /** Lists that are no longer part by part are equal exactly if their parts are. */
  lemma SplitsAlike(a: seq<string>, b: seq<string>, c: seq<string>, d: seq<string>)
    requires |a| <= |c| && |b| <= |d|
    ensures a + b == c + d <==> a == c && b == d
  {
    if a + b == c + d {
      assert |a + b| == |c + d|;
      assert a == (a + b)[..|a|] && c == (c + d)[..|c|];
      assert b == (a + b)[|a|..] && d == (c + d)[|c|..];
    }
  }

  lemma {:induction false} CompactBlocksWithinRequest(blocks: seq<Block>)
    ensures forall n | n in CompactBlocks(blocks) :: n in RequestBlocks(blocks)
  {
    if blocks != [] {
      if blocks[0].ToolResult? { CompactWithinRequest(blocks[0].content); }
      CompactBlocksWithinRequest(blocks[1..]);
    }
  }

  lemma {:induction false} CompactHistoryWithinRequest(history: seq<Message>)
    ensures forall n | n in CompactHistory(history) :: n in HistoryNames(history)
  {
    if history != [] {
      CompactBlocksWithinRequest(history[0].blocks);
      CompactHistoryWithinRequest(history[1..]);
    }
  }

  predicate CommonMessage(m: Message) {
    && (m.note.CompactBoundary? ==> AllNamed(m.note.discovered) == [])
    && forall b | b in m.blocks && b.ToolResult? :: Common(b.content)
  }

  lemma {:induction false} CommonBlocksReadTheSame(blocks: seq<Block>)
    ensures |CompactBlocks(blocks)| <= |RequestBlocks(blocks)|
    ensures CompactBlocks(blocks) == RequestBlocks(blocks) <==>
            forall b | b in blocks && b.ToolResult? :: Common(b.content)
  {
    if blocks != [] {
      var b, rest := blocks[0], blocks[1..];
      CommonBlocksReadTheSame(rest);
      BlockSplits(blocks);
      if b.ToolResult? {
        CommonReadsTheSame(b.content);
        SplitsAlike(CompactNames(b.content), CompactBlocks(rest), RequestNames(b.content), RequestBlocks(rest));
      }
      hide CompactBlocks, RequestBlocks, CompactNames, RequestNames, Common;
      assert blocks == [b] + rest;
    }
  }

  lemma BlockSplits(blocks: seq<Block>)
    requires blocks != []
    ensures CompactBlocks(blocks) ==
            if blocks[0].ToolResult? then CompactNames(blocks[0].content) + CompactBlocks(blocks[1..])
            else CompactBlocks(blocks[1..])
    ensures RequestBlocks(blocks) ==
            if blocks[0].ToolResult? then RequestNames(blocks[0].content) + RequestBlocks(blocks[1..])
            else RequestBlocks(blocks[1..])
  {
    hide CompactNames, RequestNames;
    assert [] + CompactBlocks(blocks[1..]) == CompactBlocks(blocks[1..]);
    assert [] + RequestBlocks(blocks[1..]) == RequestBlocks(blocks[1..]);
  }

  /** The two collectors read the same names, in the same order, exactly from histories without named boundaries
      in which every tool result is of a shape both understand. */
  lemma {:induction false} CommonHistoryReadsTheSame(history: seq<Message>)
    ensures |CompactHistory(history)| <= |HistoryNames(history)|
    ensures CompactHistory(history) == HistoryNames(history) <==> forall m | m in history :: CommonMessage(m)
  {
    if history != [] {
      var m := history[0];
      assert history == [m] + history[1..];
      CommonBlocksReadTheSame(m.blocks);
      CommonHistoryReadsTheSame(history[1..]);
      SplitsAlike(CompactBlocks(m.blocks), CompactHistory(history[1..]), MessageNames(m), HistoryNames(history[1..]));
      SplitsAlike([], CompactBlocks(m.blocks), if m.note.CompactBoundary? then AllNamed(m.note.discovered) else [],
                  RequestBlocks(m.blocks));
      assert [] + CompactBlocks(m.blocks) == CompactBlocks(m.blocks);
      assert CommonMessage(m) <==> CompactBlocks(m.blocks) == MessageNames(m);
      hide CommonMessage, MessageNames;
    }
  }

  // ---------- What is read, place by place ----------

  /** `text` names the tool `n`. */
  predicate Says(text: string, n: string) {
    n != "" && n == Trim(text)
  }

  /** The content at a place in nested lists. */
  function At(c: Content, place: seq<nat>): Option<Content>
    decreases |place|
  {
    if place == [] then Some(c)
    else if c.Items? && place[0] < |c.items| then At(c.items[place[0]], place[1..])
    else None
  }

  /** What a reference, a list of references or an object says to compaction. */
  predicate CompactHears(c: Content, n: string) {
    || (c.Reference? && Says(c.toolName, n))
    || (c.References? && exists i :: 0 <= i < |c.toolNames| && Says(c.toolNames[i], n))
    || (c.Object? && c.fields.typ == Some("tool_reference") && c.fields.toolNameSnake.Some?
        && Says(c.fields.toolNameSnake.value, n))
  }

  /** The first field of an object that names a tool names `n`. */
  predicate ObjectSays(f: Fields, n: string) {
    && f.typ.Some? && Trim(f.typ.value) == "tool_reference"
    && if Given(f.toolNameSnake) then Says(f.toolNameSnake.value, n)
       else if Given(f.toolNameCamel) then Says(f.toolNameCamel.value, n)
       else Given(f.name) && Says(f.name.value, n)
  }

  /** The same for the request. */
  predicate RequestHears(c: Content, n: string) {
    || (c.Reference? && Says(c.toolName, n))
    || (c.References? && exists i :: 0 <= i < |c.toolNames| && Says(c.toolNames[i], n))
    || (c.Object? && ObjectSays(c.fields, n))
    || (c.Objects? && exists i :: 0 <= i < |c.list| && ObjectSays(c.list[i], n))
  }

  lemma {:induction false} AllNamedSay(names: seq<string>, n: string)
    ensures n in AllNamed(names) <==> exists i :: 0 <= i < |names| && Says(names[i], n)
  {
    if names != [] {
      AllNamedSay(names[1..], n);
      assert forall i | 1 <= i < |names| :: names[i] == names[1..][i - 1];
      assert forall i | 0 <= i < |names| - 1 :: names[1..][i] == names[i + 1];
      assert n in Named(names[0]) <==> Says(names[0], n);
    }
  }

  lemma ObjectSaysExactly(f: Fields, n: string)
    ensures n in RequestObject(f) <==> ObjectSays(f, n)
  {
    FirstOfOne(f.typ);
    FirstOfThree(f.toolNameSnake, f.toolNameCamel, f.name);
    hide FirstField;
  }

  lemma {:induction false} ObjectsSay(list: seq<Fields>, n: string)
    ensures n in RequestObjects(list) <==> exists i :: 0 <= i < |list| && ObjectSays(list[i], n)
  {
    if list != [] {
      ObjectSaysExactly(list[0], n);
      ObjectsSay(list[1..], n);
      assert forall i | 1 <= i < |list| :: list[i] == list[1..][i - 1];
      assert forall i | 0 <= i < |list| - 1 :: list[1..][i] == list[i + 1];
    }
  }

  ghost predicate CompactHearsWithin(c: Content, n: string) {
    exists place :: At(c, place).Some? && CompactHears(At(c, place).value, n)
  }

  ghost predicate RequestHearsWithin(c: Content, n: string) {
    exists place :: At(c, place).Some? && RequestHears(At(c, place).value, n)
  }

  /** A list says what its items say. */
  lemma ItemsSay(items: seq<Content>, n: string)
    ensures CompactHearsWithin(Items(items), n) <==> exists i :: 0 <= i < |items| && CompactHearsWithin(items[i], n)
    ensures RequestHearsWithin(Items(items), n) <==> exists i :: 0 <= i < |items| && RequestHearsWithin(items[i], n)
  {
    forall place | At(Items(items), place).Some?
      ensures place != [] ==> place[0] < |items| && At(items[place[0]], place[1..]) == At(Items(items), place)
    {
    }
    forall i, place | 0 <= i < |items| && At(items[i], place).Some?
      ensures At(Items(items), [i] + place) == At(items[i], place)
    {
      assert ([i] + place)[1..] == place;
    }
  }

  /** Anything else says only what it says itself. */
  lemma LeafSays(c: Content, n: string)
    requires !c.Items?
    ensures CompactHearsWithin(c, n) <==> CompactHears(c, n)
    ensures RequestHearsWithin(c, n) <==> RequestHears(c, n)
  {
    assert At(c, []) == Some(c);
  }

  /** Compaction reads exactly the names said somewhere in the content in a way it understands. */
  lemma {:induction false} CompactReadsExactly(c: Content, n: string)
    ensures n in CompactNames(c) <==> CompactHearsWithin(c, n)
    decreases c, 0
  {
    if c.Items? {
      CompactItemsReadExactly(c.items, n);
      ItemsSay(c.items, n);
    } else {
      LeafSays(c, n);
      if c.References? { AllNamedSay(c.toolNames, n); }
    }
  }

  lemma {:induction false} CompactItemsReadExactly(items: seq<Content>, n: string)
    ensures n in CompactItems(items) <==> exists i :: 0 <= i < |items| && CompactHearsWithin(items[i], n)
    decreases items, 1
  {
    hide CompactHearsWithin;
    if items != [] {
      CompactReadsExactly(items[0], n);
      CompactItemsReadExactly(items[1..], n);
      assert forall i | 1 <= i < |items| :: items[i] == items[1..][i - 1];
      assert forall i | 0 <= i < |items| - 1 :: items[1..][i] == items[i + 1];
    }
  }

  /** And so does the request. */
  lemma {:induction false} RequestReadsExactly(c: Content, n: string)
    ensures n in RequestNames(c) <==> RequestHearsWithin(c, n)
    decreases c, 0
  {
    if c.Items? {
      RequestItemsReadExactly(c.items, n);
      ItemsSay(c.items, n);
    } else {
      LeafSays(c, n);
      match c
      case References(names) => AllNamedSay(names, n);
      case Object(f) => ObjectSaysExactly(f, n);
      case Objects(list) => ObjectsSay(list, n);
      case _ =>
    }
  }

  lemma {:induction false} RequestItemsReadExactly(items: seq<Content>, n: string)
    ensures n in RequestItems(items) <==> exists i :: 0 <= i < |items| && RequestHearsWithin(items[i], n)
    decreases items, 1
  {
    hide RequestHearsWithin;
    if items != [] {
      RequestReadsExactly(items[0], n);
      RequestItemsReadExactly(items[1..], n);
      assert forall i | 1 <= i < |items| :: items[i] == items[1..][i - 1];
      assert forall i | 0 <= i < |items| - 1 :: items[1..][i] == items[i + 1];
    }
  }

  /** A tool result of the message says `n` to compaction. */
  ghost predicate ResultSays(m: Message, n: string) {
    exists j :: 0 <= j < |m.blocks| && m.blocks[j].ToolResult? && CompactHearsWithin(m.blocks[j].content, n)
  }

  /** Its compaction metadata or a tool result says `n` to the request. */
  ghost predicate MessageSays(m: Message, n: string) {
    || (m.note.CompactBoundary? && exists i :: 0 <= i < |m.note.discovered| && Says(m.note.discovered[i], n))
    || exists j :: 0 <= j < |m.blocks| && m.blocks[j].ToolResult? && RequestHearsWithin(m.blocks[j].content, n)
  }

  lemma {:induction false} BlocksSay(blocks: seq<Block>, n: string)
    ensures n in CompactBlocks(blocks) <==>
            exists j :: 0 <= j < |blocks| && blocks[j].ToolResult? && CompactHearsWithin(blocks[j].content, n)
    ensures n in RequestBlocks(blocks) <==>
            exists j :: 0 <= j < |blocks| && blocks[j].ToolResult? && RequestHearsWithin(blocks[j].content, n)
  {
    hide CompactHearsWithin, RequestHearsWithin;
    if blocks != [] {
      if blocks[0].ToolResult? {
        CompactReadsExactly(blocks[0].content, n);
        RequestReadsExactly(blocks[0].content, n);
      }
      BlocksSay(blocks[1..], n);
      assert forall j | 1 <= j < |blocks| :: blocks[j] == blocks[1..][j - 1];
      assert forall j | 0 <= j < |blocks| - 1 :: blocks[1..][j] == blocks[j + 1];
    }
  }

  /** The log makes known exactly what some message of it says. */
  lemma HistorySaysExactly(history: seq<Message>, n: string)
    ensures n in CompactHistory(history) <==> exists i :: 0 <= i < |history| && ResultSays(history[i], n)
    ensures n in HistoryNames(history) <==> exists i :: 0 <= i < |history| && MessageSays(history[i], n)
  {
    CompactHistorySays(history, n);
    HistoryNamesSay(history, n);
  }

  lemma {:induction false} CompactHistorySays(history: seq<Message>, n: string)
    ensures n in CompactHistory(history) <==> exists i :: 0 <= i < |history| && ResultSays(history[i], n)
  {
    hide ResultSays, CompactBlocks;
    if history != [] {
      MessageSaysExactly(history[0], n);
      CompactHistorySays(history[1..], n);
      assert forall i | 1 <= i < |history| :: history[i] == history[1..][i - 1];
      assert forall i | 0 <= i < |history| - 1 :: history[1..][i] == history[i + 1];
    }
  }

  lemma {:induction false} HistoryNamesSay(history: seq<Message>, n: string)
    ensures n in HistoryNames(history) <==> exists i :: 0 <= i < |history| && MessageSays(history[i], n)
  {
    hide MessageSays, MessageNames;
    if history != [] {
      MessageSaysExactly(history[0], n);
      HistoryNamesSay(history[1..], n);
      assert forall i | 1 <= i < |history| :: history[i] == history[1..][i - 1];
      assert forall i | 0 <= i < |history| - 1 :: history[1..][i] == history[i + 1];
    }
  }

  lemma MessageSaysExactly(m: Message, n: string)
    ensures n in CompactBlocks(m.blocks) <==> ResultSays(m, n)
    ensures n in MessageNames(m) <==> MessageSays(m, n)
  {
    BlocksSay(m.blocks, n);
    if m.note.CompactBoundary? { AllNamedSay(m.note.discovered, n); }
    hide CompactBlocks, RequestBlocks, AllNamed, Says, CompactHearsWithin, RequestHearsWithin;
  }

  /** A key is known to the log exactly if some message says a name with that key; the plan holds the keys of what
      tool results say to compaction. */
  lemma KnownExactly(lower: string -> string, history: seq<Message>, k: string)
    ensures k in Discovered(lower, history) <==>
            exists i, n :: 0 <= i < |history| && MessageSays(history[i], n) && k == lower(n)
    ensures k in Keys(lower, PlanNames(lower, history)) <==>
            exists i, n :: 0 <= i < |history| && ResultSays(history[i], n) && k == lower(n)
  {
    forall n
      ensures n in CompactHistory(history) <==> exists i :: 0 <= i < |history| && ResultSays(history[i], n)
      ensures n in HistoryNames(history) <==> exists i :: 0 <= i < |history| && MessageSays(history[i], n)
    {
      HistorySaysExactly(history, n);
    }
    assert Keys(lower, PlanNames(lower, history)) == Keys(lower, CompactHistory(history));
    hide ResultSays, MessageSays, CompactHistory, HistoryNames, FirstByKey;
  }

  /** What comes earlier is read earlier. */
  lemma {:induction false} ReadInOrder(a: seq<Content>, b: seq<Content>)
    ensures CompactNames(Items(a + b)) == CompactNames(Items(a)) + CompactNames(Items(b))
  {
    if a == [] {
      assert a + b == b;
    } else {
      assert (a + b)[1..] == a[1..] + b;
      ReadInOrder(a[1..], b);
    }
  }

  lemma {:induction false} NamedInOrder(a: seq<string>, b: seq<string>)
    ensures CompactNames(References(a + b)) == CompactNames(References(a)) + CompactNames(References(b))
  {
    if a == [] {
      assert a + b == b;
    } else {
      assert (a + b)[1..] == a[1..] + b;
      NamedInOrder(a[1..], b);
    }
  }

  lemma {:induction false} BlocksInOrder(a: seq<Block>, b: seq<Block>)
    ensures CompactBlocks(a + b) == CompactBlocks(a) + CompactBlocks(b)
  {
    if a == [] {
      assert a + b == b;
    } else {
      assert (a + b)[1..] == a[1..] + b;
      BlocksInOrder(a[1..], b);
    }
  }
}
