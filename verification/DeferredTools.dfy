/** Announcements of deferred tools: a delta per turn, and the set of announced names recovered by
    replaying the log (internal/conversation/deferred_tools_delta.go). */
module DeferredTools {
  import opened Text
  import opened Conversation
  import opened Compaction
  import opened ToolReferences
  import opened FirstSeen
  import opened SortedNames

  // ---------- Reading a payload ----------

  /** strings.FieldsFunc on comma, newline, carriage return and tab. */
  function SplitJoined(text: string, word: string): seq<string>
    decreases |text|
  {
    if text == "" then Flush(word)
    else if text[0] in ",\n\r\t" then Flush(word) + SplitJoined(text[1..], "")
    else SplitJoined(text[1..], word + [text[0]])
  }

  function ListNames(list: NameList): (names: seq<string>)
    ensures Clean(names)
  {
    match list
    case NoList => []
    case Strings(names) => CleanAllNamed(names); AllNamed(names)
    case Anys(elements) => CleanAllNamed(elements); AllNamed(elements)
    case Joined(text) => CleanAllNamed(SplitJoined(text, "")); AllNamed(SplitJoined(text, ""))
  }

  /** stringSliceValue: the first list that holds a name. */
  function FirstNames(a: NameList, b: NameList): (names: seq<string>)
    ensures forall n | n in names :: n != "" && Trimmed(n)
  {
    if ListNames(a) != [] then ListNames(a) else ListNames(b)
  }

  function Added(note: Note): seq<string>
    requires note.DeferredDelta?
  {
    FirstNames(note.addedNames, note.addedSnake)
  }

  function Removed(note: Note): seq<string>
    requires note.DeferredDelta?
  {
    FirstNames(note.removedNames, note.removedSnake)
  }

  // ---------- The forms of a list ----------

  predicate Separates(r: char) {
    r == ',' || r == '\n' || r == '\r' || r == '\t'
  }

  predicate Whole(text: string) {
    forall r | r in text :: !Separates(r)
  }

  /** A separator ends a name, wherever it stands. */
  lemma {:induction false} SplitsAt(a: string, sep: char, b: string, word: string)
    requires Separates(sep)
    ensures SplitJoined(a + [sep] + b, word) == SplitJoined(a, word) + SplitJoined(b, "")
    decreases |a|
  {
    if a == "" {
      assert (a + [sep] + b)[1..] == b;
    } else {
      assert (a + [sep] + b)[1..] == a[1..] + [sep] + b && (a + [sep] + b)[0] == a[0];
      if Separates(a[0]) {
        SplitsAt(a[1..], sep, b, "");
        Regroup(Flush(word), SplitJoined(a[1..], ""), SplitJoined(b, ""));
      } else {
        SplitsAt(a[1..], sep, b, word + [a[0]]);
      }
    }
  }

  /** And nothing else does. */
  lemma {:induction false} WholeStays(text: string, word: string)
    requires Whole(text)
    ensures SplitJoined(text, word) == Flush(word + text)
    decreases |text|
  {
    if text == "" {
      assert word + text == word;
    } else {
      assert text[0] in text && forall r | r in text[1..] :: r in text;
      WholeStays(text[1..], word + [text[0]]);
      assert (word + [text[0]]) + text[1..] == word + text;
    }
  }

  /** The names with a separator between any two. */
  function JoinNames(names: seq<string>, sep: char): string {
    if names == [] then ""
    else if |names| == 1 then names[0]
    else names[0] + [sep] + JoinNames(names[1..], sep)
  }

  /** A text is split at every separator; a list of names joined by one of them reads like the list. */
  lemma {:induction false} JoinedReads(names: seq<string>, sep: char)
    requires Separates(sep) && forall n | n in names :: Whole(n)
    ensures ListNames(Joined(JoinNames(names, sep))) == ListNames(Strings(names))
  {
    if names != [] {
      assert names[0] in names && forall n | n in names[1..] :: n in names;
      WholeStays(names[0], "");
      assert "" + names[0] == names[0];
      FlushNamed(names[0]);
      if |names| == 1 {
        assert names[1..] == [];
        assert AllNamed(names) == Named(names[0]) + [];
      } else {
        SplitsAt(names[0], sep, JoinNames(names[1..], sep), "");
        AllNamedAppend(SplitJoined(names[0], ""), SplitJoined(JoinNames(names[1..], sep), ""));
        JoinedReads(names[1..], sep);
      }
    }
  }

  lemma FlushNamed(text: string)
    ensures AllNamed(Flush(text)) == Named(text)
  {
    assert [text][1..] == [];
    TrimFixesTrimmed("");
  }

  lemma {:induction false} AllNamedAppend(a: seq<string>, b: seq<string>)
    ensures AllNamed(a + b) == AllNamed(a) + AllNamed(b)
  {
    if a == [] {
      assert a + b == b;
    } else {
      assert (a + b)[1..] == a[1..] + b;
      AllNamedAppend(a[1..], b);
    }
  }

  /** The forms in which a list of names may stand: as strings, as any values, or joined in one text. */
  ghost predicate Holds(list: NameList, names: seq<string>) {
    || list == Strings(names) || list == Anys(names)
    || ((forall n | n in names :: Whole(n)) && exists sep :: Separates(sep) && list == Joined(JoinNames(names, sep)))
  }

  /** A list without a name. */
  ghost predicate Silent(list: NameList) {
    list == NoList || exists blanks :: Holds(list, blanks) && forall b | b in blanks :: Trim(b) == ""
  }

  /** The names stand under the camel-case key, or under the other one if that one holds none. */
  ghost predicate KeysHold(camel: NameList, snake: NameList, names: seq<string>) {
    || (Holds(camel, names) && (Silent(snake) || exists n :: n in names && Trim(n) != ""))
    || (Silent(camel) && Holds(snake, names))
  }

  lemma HeldReads(list: NameList, names: seq<string>)
    requires Holds(list, names)
    ensures ListNames(list) == AllNamed(names)
  {
    if list.Joined? {
      var sep :| Separates(sep) && list == Joined(JoinNames(names, sep));
      JoinedReads(names, sep);
    }
  }

  lemma {:induction false} BlankNames(names: seq<string>)
    ensures AllNamed(names) == [] <==> forall n | n in names :: Trim(n) == ""
  {
    if names != [] {
      assert names == [names[0]] + names[1..];
      BlankNames(names[1..]);
    }
  }

  lemma SilentReads(list: NameList)
    requires Silent(list)
    ensures ListNames(list) == []
  {
    if list != NoList {
      var blanks :| Holds(list, blanks) && forall b | b in blanks :: Trim(b) == "";
      HeldReads(list, blanks);
      BlankNames(blanks);
    }
  }

  /** Whatever the form and the key, the same names are read. */
  lemma KeysRead(camel: NameList, snake: NameList, names: seq<string>)
    requires KeysHold(camel, snake, names)
    ensures FirstNames(camel, snake) == AllNamed(names)
  {
    BlankNames(names);
    if Silent(camel) { SilentReads(camel); }
    if Silent(snake) { SilentReads(snake); }
    if Holds(camel, names) { HeldReads(camel, names); }
    if Holds(snake, names) { HeldReads(snake, names); }
    hide Holds, Silent, ListNames;
  }

  // ---------- Replay ----------

  function ReplayOne(announced: set<string>, m: Message): set<string> {
    if m.note.DeferredDelta? then
      (announced + Elements(Added(m.note))) - Elements(Removed(m.note))
    else announced
  }

  function Replay(announced: set<string>, history: seq<Message>): set<string>
    decreases |history|
  {
    if history == [] then announced else Replay(ReplayOne(announced, history[0]), history[1..])
  }

  /** The names announced by a log. */
  function Announced(history: seq<Message>): set<string> {
    Replay({}, history)
  }

  lemma {:induction false} ReplayAppend(announced: set<string>, a: seq<Message>, b: seq<Message>)
    ensures Replay(announced, a + b) == Replay(Replay(announced, a), b)
    decreases |a|
  {
    if a == [] {
      assert a + b == b;
    } else {
      assert (a + b)[1..] == a[1..] + b;
      ReplayAppend(ReplayOne(announced, a[0]), a[1..], b);
    }
  }

  /** Announcements of the same names replay alike, whatever forms their lists stand in. */
  lemma FormsReplayAlike(a: Message, b: Message, added: seq<string>, removed: seq<string>, announced: set<string>)
    requires a.note.DeferredDelta? && b.note.DeferredDelta?
    requires KeysHold(a.note.addedNames, a.note.addedSnake, added)
    requires KeysHold(b.note.addedNames, b.note.addedSnake, added)
    requires KeysHold(a.note.removedNames, a.note.removedSnake, removed)
    requires KeysHold(b.note.removedNames, b.note.removedSnake, removed)
    ensures ReplayOne(announced, a) == ReplayOne(announced, b)
         == (announced + TrimmedSet(Elements(added))) - TrimmedSet(Elements(removed))
  {
    KeysRead(a.note.addedNames, a.note.addedSnake, added);
    KeysRead(b.note.addedNames, b.note.addedSnake, added);
    KeysRead(a.note.removedNames, a.note.removedSnake, removed);
    KeysRead(b.note.removedNames, b.note.removedSnake, removed);
    NamesAre(added);
    NamesAre(removed);
    hide KeysHold, FirstNames, AllNamed, TrimmedSet;
  }

  predicate Adds(m: Message, n: string) {
    m.note.DeferredDelta? && n in Added(m.note)
  }

  predicate Withdraws(m: Message, n: string) {
    m.note.DeferredDelta? && n in Removed(m.note)
  }

  /** A name is announced exactly if some message adds it that does not withdraw it, and no later one does. */
  lemma {:induction false} AnnouncedExactly(history: seq<Message>, n: string)
    ensures n in Announced(history) <==>
            exists i :: 0 <= i < |history| && Adds(history[i], n)
                        && forall j | i <= j < |history| :: !Withdraws(history[j], n)
    decreases |history|
  {
    if history != [] {
      var front, m := history[..|history| - 1], history[|history| - 1];
      assert history == front + [m];
      ReplaySnoc(front, m);
      AnnouncedExactly(front, n);
      assert n in ReplayOne(Announced(front), m) <==> !Withdraws(m, n) && (Adds(m, n) || n in Announced(front));
      hide Announced, Adds, Withdraws, ReplayOne;
      assert history[|front|] == m && forall i | 0 <= i < |front| :: history[i] == front[i];
    }
  }

  /** Replay is monotone in the set it starts from, so dropping a prefix of the log only forgets. */
  lemma {:induction false} ReplayMonotone(small: set<string>, large: set<string>, history: seq<Message>)
    requires small <= large
    ensures Replay(small, history) <= Replay(large, history)
    decreases |history|
  {
    if history != [] {
      ReplayMonotone(ReplayOne(small, history[0]), ReplayOne(large, history[0]), history[1..]);
    }
  }

  lemma {:induction false} AnnouncedAreTrimmed(announced: set<string>, history: seq<Message>)
    requires forall n | n in announced :: n != "" && Trimmed(n)
    ensures forall n | n in Replay(announced, history) :: n != "" && Trimmed(n)
    decreases |history|
  {
    if history != [] {
      AnnouncedAreTrimmed(ReplayOne(announced, history[0]), history[1..]);
    }
  }

  // ---------- The delta ----------

  /** The names of the pool; a definition with a blank name is skipped. */
  function PoolNames(defs: seq<ToolDefinition>): set<string> {
    set d | d in defs && Trim(d.name) != "" :: d.name
  }

  function DeferredNames(defs: seq<ToolDefinition>): set<string> {
    set d | d in defs && Trim(d.name) != "" && d.Deferred() :: d.name
  }

  datatype Delta = Delta(added: seq<string>, removed: set<string>, priorAnnounced: nat)

  /** The deferred names not yet announced, in the pool's order. */
  function AddedNames(defs: seq<ToolDefinition>, announced: set<string>): (names: seq<string>)
  {
    if defs == [] then []
    else (if Trim(defs[0].name) != "" && defs[0].Deferred() && defs[0].name !in announced then [defs[0].name] else [])
         + AddedNames(defs[1..], announced)
  }

  function RemovedNames(defs: seq<ToolDefinition>, announced: set<string>): set<string> {
    announced - DeferredNames(defs) - PoolNames(defs)
  }

  function DeltaFor(defs: seq<ToolDefinition>, history: seq<Message>): Option<Delta> {
    var announced := Announced(history);
    if AddedNames(defs, announced) == [] && RemovedNames(defs, announced) == {} then None
    else Some(Delta(AddedNames(defs, announced), RemovedNames(defs, announced), |announced|))
  }

  /** The first loop of deferredToolsDeltaFromHistory. */
  method ReplayHistory(history: seq<Message>) returns (announced: set<string>)
    ensures announced == Announced(history)
  {
    announced := {};
    for i := 0 to |history|
      invariant Replay(announced, history[i..]) == Announced(history)
    {
      hide Added, Removed;
      assert history[i..][1..] == history[i + 1..];
      var note := history[i].note;
      if !note.DeferredDelta? {
        continue;
      }
      announced := AddAll(announced, Added(note));
      announced := DeleteAll(announced, Removed(note));
    }
  }

  /** What a delta announces: both lists sorted, the removed names each once. */
  ghost predicate Lists(delta: Delta, added: seq<string>, removed: seq<string>) {
    && added == Sorted(delta.added)
    && IsSorted(removed) && NoRepeats(removed) && Elements(removed) == delta.removed
  }

  method DeferredToolsDeltaFromHistory(defs: seq<ToolDefinition>, history: seq<Message>)
    returns (delta: Option<Delta>, addedNames: seq<string>, removedNames: seq<string>)
    ensures delta == DeltaFor(defs, history)
    ensures delta.Some? ==> Lists(delta.value, addedNames, removedNames)
  {
    var announced := ReplayHistory(history);
    hide Announced, Sorted, IsSorted;
    var added, deferredNames, poolNames := ComparePool(defs, announced);
    var removed: set<string>;
    removed, removedNames := RemovedOf(announced, deferredNames, poolNames);
    assert removed == RemovedNames(defs, announced);
    if |added| == 0 && |removed| == 0 {
      return None, [], [];
    }
    delta, addedNames := Some(Delta(added, removed, |announced|)), Sorted(added);
  }

  /** The loop over the pool. */
  method ComparePool(defs: seq<ToolDefinition>, announced: set<string>)
    returns (added: seq<string>, deferredNames: set<string>, poolNames: set<string>)
    ensures added == AddedNames(defs, announced)
    ensures deferredNames == DeferredNames(defs) && poolNames == PoolNames(defs)
  {
    added, deferredNames, poolNames := [], {}, {};
    for i := 0 to |defs|
      invariant deferredNames == DeferredNames(defs[..i]) && poolNames == PoolNames(defs[..i])
      invariant added == AddedNames(defs[..i], announced)
    {
      hide AddedNames, DeferredNames, PoolNames, Trim;
      var d := defs[i];
      NamesSnoc(defs[..i], d);
      AddedSnoc(defs[..i], d, announced);
      assert defs[..i + 1] == defs[..i] + [d];
      if Trim(d.name) == "" {
        continue;
      }
      poolNames := poolNames + {d.name};
      if !d.Deferred() {
        continue;
      }
      deferredNames := deferredNames + {d.name};
      if d.name in announced {
        continue;
      }
      added := added + [d.name];
    }
    assert defs[..|defs|] == defs;
  }

  /** The loop over the announced names, in whatever order, and the sorting of what it finds. */
  method RemovedOf(announced: set<string>, deferredNames: set<string>, poolNames: set<string>)
    returns (removed: set<string>, names: seq<string>)
    ensures removed == announced - deferredNames - poolNames
    ensures IsSorted(names) && NoRepeats(names) && Elements(names) == removed
  {
    names := [];
    var left := announced;
    while left != {}
      invariant left <= announced && NoRepeats(names)
      invariant Elements(names) == (announced - left) - deferredNames - poolNames
      decreases left
    {
      var n :| n in left;
      left := left - {n};
      if n in deferredNames || n in poolNames {
        continue;
      }
      assert n !in Elements(names);
      ElementsSnoc(names, n);
      names := names + [n];
    }
    removed := announced - deferredNames - poolNames;
    SortedSorts(names);
    SortedKeeps(names);
    names := Sorted(names);
  }

  /** deferredToolsDeltaMessage; the lines it also carries are the names. */
  method DeferredToolsDeltaMessage(delta: Delta, addedNames: seq<string>, removedNames: seq<string>, id: Id)
    returns (m: Message)
    requires Lists(delta, addedNames, removedNames)
    ensures Announces(m, delta) && m.uuid == id
    ensures m.note == DeferredDelta(Strings(addedNames), NoList, Strings(removedNames), NoList)
  {
    SortedKeeps(delta.added);
    m := Message(id, None, [], DeferredDelta(Strings(addedNames), NoList, Strings(removedNames), NoList));
    assert KeysHold(Strings(addedNames), NoList, addedNames) && KeysHold(Strings(removedNames), NoList, removedNames);
  }

  method AddAll(announced: set<string>, names: seq<string>) returns (out: set<string>)
    ensures out == announced + Elements(names)
  {
    out := announced;
    for i := 0 to |names|
      invariant out == announced + Elements(names[..i])
    {
      assert names[..i + 1] == names[..i] + [names[i]];
      ElementsSnoc(names[..i], names[i]);
      out := out + {names[i]};
    }
    assert names[..|names|] == names;
  }

  method DeleteAll(announced: set<string>, names: seq<string>) returns (out: set<string>)
    ensures out == announced - Elements(names)
  {
    out := announced;
    for i := 0 to |names|
      invariant out == announced - Elements(names[..i])
    {
      assert names[..i + 1] == names[..i] + [names[i]];
      ElementsSnoc(names[..i], names[i]);
      out := out - {names[i]};
    }
    assert names[..|names|] == names;
  }

  lemma {:induction false} AddedSnoc(defs: seq<ToolDefinition>, d: ToolDefinition, announced: set<string>)
    ensures AddedNames(defs + [d], announced) ==
            AddedNames(defs, announced)
            + (if Trim(d.name) != "" && d.Deferred() && d.name !in announced then [d.name] else [])
  {
    hide Trim;
    var last := if Trim(d.name) != "" && d.Deferred() && d.name !in announced then [d.name] else [];
    if defs == [] {
      assert defs + [d] == [d];
      assert [d][1..] == [];
    } else {
      var e := defs[0];
      var head := if Trim(e.name) != "" && e.Deferred() && e.name !in announced then [e.name] else [];
      assert (defs + [d])[1..] == defs[1..] + [d] && (defs + [d])[0] == e;
      assert AddedNames(defs + [d], announced) == head + AddedNames(defs[1..] + [d], announced);
      assert AddedNames(defs, announced) == head + AddedNames(defs[1..], announced);
      AddedSnoc(defs[1..], d, announced);
      hide AddedNames;
      Regroup(head, AddedNames(defs[1..], announced), last);
    }
  }

  lemma NamesSnoc(defs: seq<ToolDefinition>, d: ToolDefinition)
    ensures PoolNames(defs + [d]) == PoolNames(defs) + (if Trim(d.name) != "" then {d.name} else {})
    ensures DeferredNames(defs + [d]) ==
            DeferredNames(defs) + (if Trim(d.name) != "" && d.Deferred() then {d.name} else {})
  {
    assert d in defs + [d];
    assert forall e | e in defs + [d] :: e in defs || e == d;
    assert forall e | e in defs :: e in defs + [d];
  }

  /** The message that announces a delta, as it was built or read back from the transcript in any form. */
  ghost predicate Announces(m: Message, delta: Delta) {
    && m.note.DeferredDelta?
    && (exists names :: KeysHold(m.note.addedNames, m.note.addedSnake, names)
                        && Elements(names) == Elements(delta.added))
    && (exists names :: KeysHold(m.note.removedNames, m.note.removedSnake, names) && Elements(names) == delta.removed)
  }

  /** The log after the delta step of a turn. */
  ghost predicate DeltaStep(defs: seq<ToolDefinition>, history: seq<Message>, after: seq<Message>) {
    match DeltaFor(defs, history)
    case None => after == history
    case Some(delta) => exists m :: Announces(m, delta) && after == history + [m]
  }

  /** Every deferred tool's name is free of surrounding white space. */
  ghost predicate TrimmedNames(defs: seq<ToolDefinition>) {
    forall n | n in DeferredNames(defs) :: Trimmed(n)
  }

  ghost predicate Settled(defs: seq<ToolDefinition>, history: seq<Message>) {
    DeferredNames(defs) <= Announced(history) <= PoolNames(defs)
  }

  lemma {:induction false} AddedNamesAre(defs: seq<ToolDefinition>, announced: set<string>)
    ensures Elements(AddedNames(defs, announced)) == DeferredNames(defs) - announced
    decreases |defs|
  {
    if defs != [] {
      var front, d := defs[..|defs| - 1], defs[|defs| - 1];
      assert defs == front + [d];
      AddedNamesAre(front, announced);
      AddedSnoc(front, d, announced);
      NamesSnoc(front, d);
      ElementsSnoc(AddedNames(front, announced), d.name);
      assert AddedNames(front, announced) + [] == AddedNames(front, announced);
      hide AddedNames, DeferredNames, PoolNames;
    }
  }

  lemma {:induction false} NamesAre(items: seq<string>)
    ensures Elements(AllNamed(items)) == TrimmedSet(Elements(items))
  {
    if items != [] {
      NamesAre(items[1..]);
      assert items == [items[0]] + items[1..];
      ElementsCons(items[0], items[1..]);
      ElementsAppend(Named(items[0]), AllNamed(items[1..]));
      assert Elements([Trim(items[0])]) == {Trim(items[0])};
    }
  }

  /** The names of a set as replay reads them. */
  function TrimmedSet(names: set<string>): set<string> {
    set n | n in names && Trim(n) != "" :: Trim(n)
  }

  lemma TrimmedSetIsSame(names: set<string>)
    requires forall n | n in names :: n != "" && Trimmed(n)
    ensures TrimmedSet(names) == names
  {
    forall n | n in names
      ensures Trim(n) == n
    {
      TrimFixesTrimmed(n);
    }
  }

  /** What replaying an announcement adds and removes. */
  lemma AnnouncementReplays(m: Message, delta: Delta, announced: set<string>)
    requires Announces(m, delta) && forall n | n in delta.removed :: n != "" && Trimmed(n)
    ensures ReplayOne(announced, m) == (announced + TrimmedSet(Elements(delta.added))) - delta.removed
  {
    var note := m.note;
    var added :| KeysHold(note.addedNames, note.addedSnake, added) && Elements(added) == Elements(delta.added);
    var removed :| KeysHold(note.removedNames, note.removedSnake, removed) && Elements(removed) == delta.removed;
    KeysRead(note.addedNames, note.addedSnake, added);
    KeysRead(note.removedNames, note.removedSnake, removed);
    NamesAre(added);
    NamesAre(removed);
    TrimmedSetIsSame(delta.removed);
    hide AllNamed, TrimmedSet, FirstNames, KeysHold;
  }

  /** Where a delta step takes the announced set. */
  lemma DeltaStepAnnounces(defs: seq<ToolDefinition>, history: seq<Message>, after: seq<Message>)
    requires DeltaStep(defs, history, after)
    ensures var announced := Announced(history);
      Announced(after) == (announced + TrimmedSet(DeferredNames(defs) - announced)) - RemovedNames(defs, announced)
  {
    var announced := Announced(history);
    AddedNamesAre(defs, announced);
    AnnouncedAreTrimmed({}, history);
    hide AddedNames, DeferredNames, Announces;
    match DeltaFor(defs, history)
    case None =>
      assert DeferredNames(defs) - announced == {};
      assert TrimmedSet({}) == {};
    case Some(delta) =>
      var m :| Announces(m, delta) && after == history + [m];
      ReplaySnoc(history, m);
      AnnouncementReplays(m, delta, announced);
  }

  lemma ReplaySnoc(history: seq<Message>, m: Message)
    ensures Announced(history + [m]) == ReplayOne(Announced(history), m)
  {
    ReplayAppend({}, history, [m]);
    assert Replay(Announced(history), [m]) == Replay(ReplayOne(Announced(history), m), [m][1..]);
  }

  /** Right after the delta step, whatever came before, every deferred tool is announced and nothing outside
      the pool is, exactly when the names are trimmed; and just then asking again yields no delta. */
  lemma DeltaStepSettles(defs: seq<ToolDefinition>, history: seq<Message>, after: seq<Message>)
    requires DeltaStep(defs, history, after)
    ensures Settled(defs, after) <==> TrimmedNames(defs)
    ensures DeltaFor(defs, after) == None <==> TrimmedNames(defs)
  {
    var announced := Announced(after);
    DeltaStepAnnounces(defs, history, after);
    AnnouncedAreTrimmed({}, history);
    AddedNamesAre(defs, announced);
    EmptyElements(AddedNames(defs, announced));
    PoolHoldsDeferred(defs);
    hide DeltaStep, AddedNames, PoolNames, DeferredNames, TrimmedSet, Announced;
    SettlesExactly(Announced(history), announced, DeferredNames(defs), PoolNames(defs));
  }

  lemma PoolHoldsDeferred(defs: seq<ToolDefinition>)
    ensures DeferredNames(defs) <= PoolNames(defs) && forall n | n in DeferredNames(defs) :: n != ""
  {
  }

  /** The same of the sets alone: what was announced, what is after the step, what is deferred and the pool. */
  lemma SettlesExactly(before: set<string>, after: set<string>, deferredNames: set<string>, pool: set<string>)
    requires deferredNames <= pool && forall n | n in deferredNames :: n != ""
    requires forall n | n in before :: n != "" && Trimmed(n)
    requires after == (before + TrimmedSet(deferredNames - before)) - (before - deferredNames - pool)
    ensures deferredNames <= after <= pool <==> forall n | n in deferredNames :: Trimmed(n)
    ensures deferredNames - after == {} && after - deferredNames - pool == {} <==>
            forall n | n in deferredNames :: Trimmed(n)
  {
    hide Trimmed, Trim;
    if forall n | n in deferredNames :: Trimmed(n) {
      TrimmedSetIsSame(deferredNames - before);
    } else {
      var n :| n in deferredNames && !Trimmed(n);
      TrimmedSetIsTrimmed(deferredNames - before);
      assert n !in after && n in deferredNames - after;
    }
  }

  lemma TrimmedSetIsTrimmed(names: set<string>)
    ensures forall n | n in TrimmedSet(names) :: Trimmed(n)
  {
  }

  /** A deferred tool whose name begins with a space is announced in every turn. */
  lemma UntrimmedNeverSettles(history: seq<Message>, after: seq<Message>)
    requires DeltaStep([ToolDefinition(" Grep", [], false, true, false, false)], history, after)
    ensures var defs := [ToolDefinition(" Grep", [], false, true, false, false)];
      !Settled(defs, after) && DeltaFor(defs, after) != None
  {
    var d := ToolDefinition(" Grep", [], false, true, false, false);
    SpaceIsNotTrimmed(d.name);
    hide Trim, Trimmed, DeltaStep, Settled, DeltaFor;
    assert d in [d] && d.name in DeferredNames([d]);
    DeltaStepSettles([d], history, after);
    hide DeferredNames;
  }

  lemma SpaceIsNotTrimmed(name: string)
    requires name == " Grep"
    ensures Trim(name) != "" && !Trimmed(name)
  {
    TrimEmptyIffBlank(name);
    assert name[1] == 'G' && 'G' in name;
    hide Trim;
  }

  lemma EmptyElements<T>(items: seq<T>)
    ensures items == [] <==> Elements(items) == {}
  {
    assert items != [] ==> items[0] in Elements(items);
  }

  /** Compaction only ever shrinks the announced set. */
  lemma CompactionOnlyForgets(lower: string -> string, history: seq<Message>, o: PlanOptions)
    ensures Announced(Output(lower, history, o)) <= Announced(history)
  {
    var kept := Kept(history, o.keepLast);
    var head := [Boundary(lower, history, o), Summary(o)];
    var tail := if o.preserveRecent then Relinked(kept, o.summaryId) else [];
    ReplayAppend({}, head, tail);
    assert Replay({}, head) == Replay({}, head[1..]) == Replay({}, head[1..][1..]) == {};
    RelinkedReplays(kept, o.summaryId, {});
    assert history == Summarized(history, o.keepLast) + kept;
    ReplayAppend({}, Summarized(history, o.keepLast), kept);
    ReplayMonotone({}, Announced(Summarized(history, o.keepLast)), kept);
  }

  lemma {:induction false} RelinkedReplays(kept: seq<Message>, last: Id, announced: set<string>)
    ensures Replay(announced, Relinked(kept, last)) == Replay(announced, kept)
  {
    if kept != [] {
      RelinkedReplays(kept[1..], kept[0].uuid, ReplayOne(announced, kept[0]));
    }
  }

  /** After a compaction the next delta with the same pool withdraws nothing and announces exactly the
      deferred tools whose announcement was dropped. */
  lemma CompactionReannounces(lower: string -> string, defs: seq<ToolDefinition>, history: seq<Message>, o: PlanOptions)
    requires Settled(defs, history)
    ensures var left := Announced(Output(lower, history, o));
      && RemovedNames(defs, left) == {}
      && Elements(AddedNames(defs, left)) == DeferredNames(defs) - left
  {
    CompactionOnlyForgets(lower, history, o);
    AddedNamesAre(defs, Announced(Output(lower, history, o)));
  }

  /** What a delta says, of any pool and log: it adds the tools to be loaded on demand that are not announced, and
      withdraws the announced names that no tool bears any more; there is none exactly if both are none. */
  lemma DeltaExactly(defs: seq<ToolDefinition>, history: seq<Message>, n: string)
    ensures var announced, delta := Announced(history), DeltaFor(defs, history);
      var adds := exists d :: d in defs && d.name == n && Trim(n) != "" && !d.alwaysLoad && !d.isToolSearch
                              && (d.isMCP || d.shouldDefer);
      && (delta.Some? ==> delta.value.priorAnnounced == |announced|)
      && (adds && n !in announced <==> delta.Some? && n in delta.value.added)
      && (n in announced && (forall d | d in defs :: d.name != n) <==> delta.Some? && n in delta.value.removed)
  {
    var announced := Announced(history);
    AddedNamesAre(defs, announced);
    AnnouncedAreTrimmed({}, history);
    assert n in announced ==> Trim(n) != "" by { if n in announced { TrimFixesTrimmed(n); } }
    PoolHolds(defs, n);
    var added := AddedNames(defs, announced);
    assert n in Elements(added) <==> n in added;
    var delta := DeltaFor(defs, history);
    assert delta.Some? ==> delta.value == Delta(added, RemovedNames(defs, announced), |announced|);
    assert delta.None? ==> added == [] && RemovedNames(defs, announced) == {};
    assert n in RemovedNames(defs, announced) <==> n in announced && n !in PoolNames(defs);
    hide DeltaFor, RemovedNames;
    hide Announced, AddedNames, Trim, DeferredNames, PoolNames;
  }

  lemma PoolHolds(defs: seq<ToolDefinition>, n: string)
    ensures n in PoolNames(defs) <==> Trim(n) != "" && exists d :: d in defs && d.name == n
    ensures n in DeferredNames(defs) <==>
            exists d :: d in defs && d.name == n && Trim(n) != "" && !d.alwaysLoad && !d.isToolSearch
                        && (d.isMCP || d.shouldDefer)
    ensures n in DeferredNames(defs) ==> n in PoolNames(defs)
  {
    hide Trim;
  }

  // ---------- Runs ----------

  datatype Event =
    | Append(message: Message)
    | Compact(options: PlanOptions)
    | Turn(defs: seq<ToolDefinition>, announcement: Message)

  /** The pool of the last delta step, and whether the log was compacted since. */
  datatype Log = Log(history: seq<Message>, pool: seq<ToolDefinition>, compacted: bool)

  function Step(lower: string -> string, log: Log, e: Event): Log {
    match e
    case Append(m) => log.(history := log.history + [m])
    case Compact(o) => log.(history := Output(lower, log.history, o), compacted := true)
    case Turn(defs, m) =>
      Log(if DeltaFor(defs, log.history) == None then log.history else log.history + [m], defs, false)
  }

  /** Other messages carry no announcement; an announcement says what the delta says. */
  ghost predicate Allowed(log: Log, e: Event) {
    match e
    case Append(m) => !m.note.DeferredDelta?
    case Compact(_) => true
    case Turn(defs, m) => DeltaFor(defs, log.history).Some? ==> Announces(m, DeltaFor(defs, log.history).value)
  }

  ghost predicate AllowedRun(lower: string -> string, log: Log, events: seq<Event>)
    decreases |events|
  {
    events == [] || (Allowed(log, events[0]) && AllowedRun(lower, Step(lower, log, events[0]), events[1..]))
  }

  function RunAll(lower: string -> string, log: Log, events: seq<Event>): Log
    decreases |events|
  {
    if events == [] then log else RunAll(lower, Step(lower, log, events[0]), events[1..])
  }

  /** Nothing outside the last pool is announced; all of its deferred tools are, until a compaction. A pool with
      untrimmed names is passed over. */
  ghost predicate Current(log: Log) {
    TrimmedNames(log.pool) ==>
      && Announced(log.history) <= PoolNames(log.pool)
      && (!log.compacted ==> DeferredNames(log.pool) <= Announced(log.history))
  }

  lemma StepKeeps(lower: string -> string, log: Log, e: Event)
    requires Current(log) && Allowed(log, e)
    ensures Current(Step(lower, log, e))
  {
    match e
    case Append(m) =>
      ReplaySnoc(log.history, m);
    case Compact(o) => CompactionOnlyForgets(lower, log.history, o);
    case Turn(defs, m) =>
      assert DeltaStep(defs, log.history, Step(lower, log, e).history);
      DeltaStepSettles(defs, log.history, Step(lower, log, e).history);
  }

  /** Over every run of pool changes, appended messages and compactions. */
  lemma {:induction false} RunKeeps(lower: string -> string, log: Log, events: seq<Event>)
    requires Current(log) && AllowedRun(lower, log, events)
    ensures Current(RunAll(lower, log, events))
    decreases |events|
  {
    hide Current, Step, Allowed;
    if events != [] {
      StepKeeps(lower, log, events[0]);
      RunKeeps(lower, Step(lower, log, events[0]), events[1..]);
    }
  }

  /** From a new conversation on, whatever happens: if the names of the last turn's pool are trimmed, nothing
      outside it is announced, and all its deferred tools are until the next compaction. */
  lemma EveryRunKeeps(lower: string -> string, events: seq<Event>)
    requires AllowedRun(lower, Log([], [], false), events)
    ensures Current(RunAll(lower, Log([], [], false), events))
  {
    RunKeeps(lower, Log([], [], false), events);
  }
}
