/** The command registry and its prompt-template index (internal/commands/registry.go). */
module CommandRegistry {
  import opened Text

  /** `details` stands for the fields that play no part in lookup. */
  datatype Command = Command(name: string, displayName: string, aliases: seq<string>, details: nat)

  datatype Prompt = Prompt(command: Command, content: string)

  datatype Sources = Sources(
    bundledSkillPrompts: seq<Prompt>, bundledSkills: seq<Command>,
    builtinPluginSkillPrompts: seq<Prompt>, builtinPluginSkills: seq<Command>,
    projectSkillPrompts: seq<Prompt>, projectSkills: seq<Command>,
    workflowCommands: seq<Command>, pluginCommands: seq<Command>,
    pluginSkillPrompts: seq<Prompt>, pluginSkills: seq<Command>,
    dynamicSkillPrompts: seq<Prompt>, dynamicSkills: seq<Command>,
    builtins: seq<Command>)

  /** A registered command together with the template it was registered with, if any. */
  datatype Entry = Entry(command: Command, content: Option<string>)
  {
    /** A template without a command name is never indexed. */
    predicate Templated() {
      content.Some? && command.name != ""
    }

    function AsPrompt(): Prompt
      requires content.Some?
    {
      Prompt(command, content.value)
    }
  }

  function UserFacingName(command: Command): string {
    if command.displayName != "" then command.displayName else command.name
  }

  predicate Matches(command: Command, name: string) {
    command.name == name || UserFacingName(command) == name || name in command.aliases
  }

  function CommandKeys(command: Command): (keys: seq<string>)
    ensures forall name | name != "" :: name in keys <==> Matches(command, name)
  {
    (if command.name != "" then [command.name] else [])
    + (if UserFacingName(command) != "" && UserFacingName(command) != command.name
       then [UserFacingName(command)] else [])
    + command.aliases
  }

  function Prompts(prompts: seq<Prompt>): (entries: seq<Entry>)
    ensures |entries| == |prompts|
  {
    seq(|prompts|, i requires 0 <= i < |prompts| => Entry(prompts[i].command, Some(prompts[i].content)))
  }

  function Plains(commands: seq<Command>): (entries: seq<Entry>)
    ensures |entries| == |commands|
  {
    seq(|commands|, i requires 0 <= i < |commands| => Entry(commands[i], None))
  }

  function Commands(entries: seq<Entry>): (commands: seq<Command>)
    ensures |commands| == |entries|
  {
    seq(|entries|, i requires 0 <= i < |entries| => entries[i].command)
  }

  function Keys(command: Command): set<string> {
    set k | k in CommandKeys(command)
  }

  function KeySet(entries: seq<Entry>): set<string> {
    set i, k | 0 <= i < |entries| && k in CommandKeys(entries[i].command) :: k
  }

  /** Appends each dynamic entry that shares no key with what is already there. */
  function AddDynamic(entries: seq<Entry>, dynamic: seq<Entry>): seq<Entry>
    decreases |dynamic|
  {
    if dynamic == [] then entries
    else if Keys(dynamic[0].command) !! KeySet(entries) then AddDynamic(entries + [dynamic[0]], dynamic[1..])
    else AddDynamic(entries, dynamic[1..])
  }

  function BundledEntries(s: Sources): seq<Entry> {
    Prompts(s.bundledSkillPrompts) + Plains(s.bundledSkills)
    + Prompts(s.builtinPluginSkillPrompts) + Plains(s.builtinPluginSkills)
  }

  function BaseEntries(s: Sources): seq<Entry> {
    BundledEntries(s)
    + Prompts(s.projectSkillPrompts) + Plains(s.projectSkills)
    + Plains(s.workflowCommands) + Plains(s.pluginCommands)
    + Prompts(s.pluginSkillPrompts) + Plains(s.pluginSkills)
  }

  function DynamicEntries(s: Sources): seq<Entry> {
    Prompts(s.dynamicSkillPrompts) + Plains(s.dynamicSkills)
  }

  /** The registered entries in order. */
  function Registered(s: Sources): seq<Entry> {
    AddDynamic(BaseEntries(s), DynamicEntries(s)) + Plains(s.builtins)
  }

  /** The first entry a scan for `name` stops at. */
  function FirstMatch(entries: seq<Entry>, name: string): (i: nat)
    ensures i <= |entries|
    ensures i < |entries| ==> Matches(entries[i].command, name)
    ensures forall j | 0 <= j < i :: !Matches(entries[j].command, name)
  {
    if entries == [] || Matches(entries[0].command, name) then 0 else 1 + FirstMatch(entries[1..], name)
  }

  predicate Offers(entry: Entry, name: string) {
    name != "" && entry.Templated() && Matches(entry.command, name)
  }

  /** The first templated entry one of whose keys is `name`. */
  function FirstOffer(entries: seq<Entry>, name: string): (i: nat)
    ensures i <= |entries|
    ensures i < |entries| ==> Offers(entries[i], name)
    ensures forall j | 0 <= j < i :: !Offers(entries[j], name)
  {
    if entries == [] || Offers(entries[0], name) then 0 else 1 + FirstOffer(entries[1..], name)
  }

  /** The index holds, under each key, the first template that offers it. */
  ghost predicate Indexes(templates: map<string, Prompt>, entries: seq<Entry>) {
    forall k ::
      && (k in templates <==> FirstOffer(entries, k) < |entries|)
      && (k in templates ==> templates[k] == entries[FirstOffer(entries, k)].AsPrompt())
  }

  lemma {:induction false} FirstOfferAppend(a: seq<Entry>, b: seq<Entry>, name: string)
    ensures FirstOffer(a + b, name) ==
            if FirstOffer(a, name) < |a| then FirstOffer(a, name) else |a| + FirstOffer(b, name)
  {
    if a == [] {
      assert a + b == b;
    } else {
      assert (a + b)[1..] == a[1..] + b;
      FirstOfferAppend(a[1..], b, name);
    }
  }

  lemma IndexesSnoc(templates: map<string, Prompt>, entries: seq<Entry>, last: Entry, templates': map<string, Prompt>)
    requires Indexes(templates, entries)
    requires forall k ::
      && (k in templates' <==> k in templates || Offers(last, k))
      && (k in templates ==> k in templates' && templates'[k] == templates[k])
      && (Offers(last, k) && k !in templates ==> k in templates' && templates'[k] == last.AsPrompt())
    ensures Indexes(templates', entries + [last])
  {
    forall k
      ensures k in templates' <==> FirstOffer(entries + [last], k) < |entries + [last]|
      ensures k in templates' ==> templates'[k] == (entries + [last])[FirstOffer(entries + [last], k)].AsPrompt()
    {
      FirstOfferAppend(entries, [last], k);
    }
  }

  lemma IndexesPlains(templates: map<string, Prompt>, entries: seq<Entry>, plain: seq<Entry>)
    requires Indexes(templates, entries)
    requires forall e | e in plain :: e.content == None
    ensures Indexes(templates, entries + plain)
  {
    forall k
      ensures FirstOffer(entries + plain, k) ==
              if FirstOffer(entries, k) < |entries| then FirstOffer(entries, k) else |entries + plain|
    {
      FirstOfferAppend(entries, plain, k);
      PlainsOfferNothing(plain, k);
    }
  }

  lemma {:induction false} PlainsOfferNothing(plain: seq<Entry>, name: string)
    requires forall e | e in plain :: e.content == None
    ensures FirstOffer(plain, name) == |plain|
  {
    if plain != [] {
      assert plain[0] in plain;
      assert forall e | e in plain[1..] :: e in plain;
      PlainsOfferNothing(plain[1..], name);
    }
  }

  class Registry {
    var commands: seq<Command>
    var promptTemplates: map<string, Prompt>

    /** The registry lists exactly `entries`, and indexes their templates. */
    ghost predicate Holds(entries: seq<Entry>)
      reads this
    {
      commands == Commands(entries) && Indexes(promptTemplates, entries)
    }

    method RegisterPromptTemplate(prompt: Prompt)
      modifies this`promptTemplates
      ensures var entry := Entry(prompt.command, Some(prompt.content));
        forall k ::
          && (k in promptTemplates <==> k in old(promptTemplates) || Offers(entry, k))
          && (k in old(promptTemplates) ==> k in promptTemplates && promptTemplates[k] == old(promptTemplates)[k])
          && (Offers(entry, k) && k !in old(promptTemplates) ==> k in promptTemplates && promptTemplates[k] == prompt)
    {
      if prompt.command.name == "" {
        return;
      }
      var keys := CommandKeys(prompt.command);
      for i := 0 to |keys|
        invariant forall k :: k in promptTemplates <==> k in old(promptTemplates) || (k != "" && k in keys[..i])
        invariant forall k | k in old(promptTemplates) ::
          k in promptTemplates && promptTemplates[k] == old(promptTemplates)[k]
        invariant forall k | k in promptTemplates && k !in old(promptTemplates) :: promptTemplates[k] == prompt
      {
        var key := keys[i];
        if key == "" || key in promptTemplates {
          continue;
        }
        promptTemplates := promptTemplates[key := prompt];
      }
    }

    method AppendPromptCommands(prompts: seq<Prompt>, ghost entries: seq<Entry>)
      requires Holds(entries)
      modifies this
      ensures Holds(entries + Prompts(prompts))
    {
      assert entries + Prompts(prompts)[..0] == entries;
      for i := 0 to |prompts|
        invariant Holds(entries + Prompts(prompts)[..i])
      {
        ghost var done, entry := entries + Prompts(prompts)[..i], Prompts(prompts)[i];
        ghost var before := promptTemplates;
        assert done + [entry] == entries + Prompts(prompts)[..i + 1];
        commands := commands + [prompts[i].command];
        assert commands == Commands(done + [entry]);
        RegisterPromptTemplate(prompts[i]);
        IndexesSnoc(before, done, entry, promptTemplates);
      }
      assert Prompts(prompts)[..|prompts|] == Prompts(prompts);
    }

    method AppendCommands(more: seq<Command>, ghost entries: seq<Entry>)
      requires Holds(entries)
      modifies this`commands
      ensures Holds(entries + Plains(more))
    {
      commands := commands + more;
      assert commands == Commands(entries + Plains(more));
      IndexesPlains(promptTemplates, entries, Plains(more));
    }

    constructor FromSources(sources: Sources)
      ensures Holds(Registered(sources))
    {
      commands, promptTemplates := [], map[];
      new;
      LoadBundled(sources);
      LoadBase(sources);
      LoadDynamic(sources);
      AppendCommands(sources.builtins, AddDynamic(BaseEntries(sources), DynamicEntries(sources)));
    }

    method LoadBundled(s: Sources)
      requires Holds([])
      modifies this
      ensures Holds(BundledEntries(s))
    {
      AppendPromptCommands(s.bundledSkillPrompts, []);
      assert [] + Prompts(s.bundledSkillPrompts) == Prompts(s.bundledSkillPrompts);
      AppendCommands(s.bundledSkills, Prompts(s.bundledSkillPrompts));
      ghost var e := Prompts(s.bundledSkillPrompts) + Plains(s.bundledSkills);
      AppendPromptCommands(s.builtinPluginSkillPrompts, e);
      AppendCommands(s.builtinPluginSkills, e + Prompts(s.builtinPluginSkillPrompts));
    }

    method LoadBase(s: Sources)
      requires Holds(BundledEntries(s))
      modifies this
      ensures Holds(BaseEntries(s))
    {
      ghost var e := BundledEntries(s);
      AppendPromptCommands(s.projectSkillPrompts, e);
      e := e + Prompts(s.projectSkillPrompts);
      AppendCommands(s.projectSkills, e);
      e := e + Plains(s.projectSkills);
      AppendCommands(s.workflowCommands, e);
      e := e + Plains(s.workflowCommands);
      AppendCommands(s.pluginCommands, e);
      e := e + Plains(s.pluginCommands);
      AppendPromptCommands(s.pluginSkillPrompts, e);
      e := e + Prompts(s.pluginSkillPrompts);
      AppendCommands(s.pluginSkills, e);
    }

    method LoadDynamic(s: Sources)
      requires Holds(BaseEntries(s))
      modifies this
      ensures Holds(AddDynamic(BaseEntries(s), DynamicEntries(s)))
    {
      ghost var base := BaseEntries(s);
      var seen := CommandNameSet(base);
      seen := AddDynamicPrompts(s.dynamicSkillPrompts, seen, base);
      AddDynamicAppend(base, Prompts(s.dynamicSkillPrompts), Plains(s.dynamicSkills));
      seen := AddDynamicCommands(s.dynamicSkills, seen, AddDynamic(base, Prompts(s.dynamicSkillPrompts)));
    }

    method CommandNameSet(ghost entries: seq<Entry>) returns (seen: set<string>)
      requires Holds(entries)
      ensures seen == KeySet(entries)
    {
      seen := {};
      for i := 0 to |commands|
        invariant seen == KeySet(entries[..i])
      {
        KeySetSnoc(entries[..i], entries[i]);
        assert entries[..i + 1] == entries[..i] + [entries[i]];
        seen := MarkCommand(seen, commands[i]);
      }
      assert entries[..|commands|] == entries;
    }

    method AddDynamicPrompts(prompts: seq<Prompt>, known: set<string>, ghost entries: seq<Entry>)
      returns (seen: set<string>)
      requires Holds(entries) && known == KeySet(entries)
      modifies this
      ensures Holds(AddDynamic(entries, Prompts(prompts)))
      ensures seen == KeySet(AddDynamic(entries, Prompts(prompts)))
    {
      seen := known;
      ghost var now := entries;
      for i := 0 to |prompts|
        invariant Holds(now) && seen == KeySet(now)
        invariant AddDynamic(now, Prompts(prompts)[i..]) == AddDynamic(entries, Prompts(prompts))
      {
        ghost var entry, before := Prompts(prompts)[i], promptTemplates;
        assert Prompts(prompts)[i..][1..] == Prompts(prompts)[i + 1..];
        var duplicate := CommandKnown(seen, prompts[i].command);
        if duplicate {
          continue;
        }
        KeySetSnoc(now, entry);
        seen := MarkCommand(seen, prompts[i].command);
        commands := commands + [prompts[i].command];
        RegisterPromptTemplate(prompts[i]);
        IndexesSnoc(before, now, entry, promptTemplates);
        now := now + [entry];
        assert commands == Commands(now);
      }
    }

    method AddDynamicCommands(more: seq<Command>, known: set<string>, ghost entries: seq<Entry>)
      returns (seen: set<string>)
      requires Holds(entries) && known == KeySet(entries)
      modifies this`commands
      ensures Holds(AddDynamic(entries, Plains(more)))
      ensures seen == KeySet(AddDynamic(entries, Plains(more)))
    {
      seen := known;
      ghost var now := entries;
      for i := 0 to |more|
        invariant Holds(now) && seen == KeySet(now)
        invariant AddDynamic(now, Plains(more)[i..]) == AddDynamic(entries, Plains(more))
      {
        ghost var entry := Plains(more)[i];
        assert Plains(more)[i..][1..] == Plains(more)[i + 1..];
        var duplicate := CommandKnown(seen, more[i]);
        if duplicate {
          continue;
        }
        KeySetSnoc(now, entry);
        seen := MarkCommand(seen, more[i]);
        commands := commands + [more[i]];
        IndexesPlains(promptTemplates, now, [entry]);
        now := now + [entry];
        assert commands == Commands(now);
      }
    }

    /** FindCommand over the registered commands. */
    method Find(name: string, ghost entries: seq<Entry>) returns (found: Option<Command>)
      requires Holds(entries)
      ensures var i := FirstMatch(entries, Trim(name));
        found == if i < |entries| then Some(entries[i].command) else None
    {
      var trimmed := Trim(name);
      for k := 0 to |commands|
        invariant FirstMatch(entries, trimmed) >= k
      {
        if Matches(commands[k], trimmed) {
          return Some(commands[k]);
        }
      }
      return None;
    }

    method PromptTemplate(name: string, ghost entries: seq<Entry>) returns (template: Option<Prompt>)
      requires Holds(entries)
      ensures var i := LookupIndex(entries, name);
        template == if i < |entries| then Some(entries[i].AsPrompt()) else None
    {
      var trimmed := Trim(name);
      if trimmed in promptTemplates {
        return Some(promptTemplates[trimmed]);
      }
      TrimFixesTrimmed(trimmed);
      var command := Find(name, entries);
      if command.Some? && command.value.name in promptTemplates {
        return Some(promptTemplates[command.value.name]);
      }
      return None;
    }
  }

  method MarkCommand(seen: set<string>, command: Command) returns (marked: set<string>)
    ensures marked == seen + Keys(command)
  {
    marked := seen;
    var keys := CommandKeys(command);
    hide CommandKeys;
    for i := 0 to |keys|
      invariant marked == seen + set k | k in keys[..i]
    {
      assert keys[..i + 1] == keys[..i] + [keys[i]];
      marked := marked + {keys[i]};
    }
    assert keys[..|keys|] == keys;
  }

  method CommandKnown(seen: set<string>, command: Command) returns (known: bool)
    ensures known <==> !(Keys(command) !! seen)
  {
    var keys := CommandKeys(command);
    for i := 0 to |keys|
      invariant forall j | 0 <= j < i :: keys[j] !in seen
    {
      if keys[i] in seen {
        assert keys[i] in Keys(command);
        return true;
      }
    }
    return false;
  }

  lemma KeySetSnoc(entries: seq<Entry>, last: Entry)
    ensures KeySet(entries + [last]) == KeySet(entries) + Keys(last.command)
  {
    var all := entries + [last];
    forall k | k in KeySet(entries) + Keys(last.command)
      ensures k in KeySet(all)
    {
      if k in KeySet(entries) {
        var i :| 0 <= i < |entries| && k in CommandKeys(entries[i].command);
        assert all[i] == entries[i];
      } else {
        assert all[|entries|] == last;
      }
    }
    forall k | k in KeySet(all)
      ensures k in KeySet(entries) + Keys(last.command)
    {
      var i :| 0 <= i < |all| && k in CommandKeys(all[i].command);
      if i < |entries| {
        assert all[i] == entries[i];
      }
    }
  }

  lemma {:induction false} AddDynamicAppend(entries: seq<Entry>, a: seq<Entry>, b: seq<Entry>)
    ensures AddDynamic(entries, a + b) == AddDynamic(AddDynamic(entries, a), b)
    decreases |a|
  {
    if a == [] {
      assert a + b == b;
    } else {
      assert (a + b)[1..] == a[1..] + b;
      var next := if Keys(a[0].command) !! KeySet(entries) then entries + [a[0]] else entries;
      AddDynamicAppend(next, a[1..], b);
    }
  }

  /** Whose template PromptTemplate serves: the first that offers the name; failing that, the first
      that offers the name of the command the linear scan finds. |entries| means none. */
  function LookupIndex(entries: seq<Entry>, name: string): (i: nat)
    ensures i <= |entries|
    ensures i < |entries| ==> entries[i].Templated()
  {
    var trimmed := Trim(name);
    if FirstOffer(entries, trimmed) < |entries| then FirstOffer(entries, trimmed)
    else if FirstMatch(entries, trimmed) < |entries| then
      FirstOffer(entries, entries[FirstMatch(entries, trimmed)].command.name)
    else |entries|
  }

  /** The command that Find returns for a name and the template that PromptTemplate serves for it
      belong together exactly when the first match is templated. */
  lemma IndexAgreesWithScan(entries: seq<Entry>, name: string)
    requires Trim(name) != ""
    ensures var i := FirstMatch(entries, Trim(name));
      i < |entries| ==> (LookupIndex(entries, name) == i <==> entries[i].Templated())
    ensures FirstMatch(entries, Trim(name)) == |entries| ==> LookupIndex(entries, name) == |entries|
  {
    var i, k := FirstMatch(entries, Trim(name)), FirstOffer(entries, Trim(name));
    if k < |entries| {
      assert Matches(entries[k].command, Trim(name));
      assert i <= k;
    }
    if i < |entries| && entries[i].Templated() {
      assert Offers(entries[i], Trim(name));
    }
  }

  /** A plain command ahead of a prompt of the same name runs with the prompt's template. */
  lemma PlainCommandBorrowsTemplate(plain: Command, prompt: Prompt)
    requires plain.name == prompt.command.name && Trim(plain.name) == plain.name != ""
    ensures var entries := Plains([plain]) + Prompts([prompt]);
      FirstMatch(entries, plain.name) == 0 && LookupIndex(entries, plain.name) == 1
  {
    var entries := Plains([plain]) + Prompts([prompt]);
    assert entries[0] == Entry(plain, None) && entries[1] == Entry(prompt.command, Some(prompt.content));
    assert Offers(entries[1], plain.name);
    IndexAgreesWithScan(entries, plain.name);
  }

  lemma {:induction false} AddDynamicExtends(entries: seq<Entry>, dynamic: seq<Entry>)
    ensures entries <= AddDynamic(entries, dynamic)
    decreases |dynamic|
  {
    if dynamic != [] {
      var next := if Keys(dynamic[0].command) !! KeySet(entries) then entries + [dynamic[0]] else entries;
      AddDynamicExtends(next, dynamic[1..]);
    }
  }

  /** A dynamic command that made it into the registry is the one found under each of its names. */
  lemma {:induction false} DynamicIsFound(entries: seq<Entry>, dynamic: seq<Entry>, i: nat, name: string)
    requires |entries| <= i < |AddDynamic(entries, dynamic)|
    requires name != "" && Matches(AddDynamic(entries, dynamic)[i].command, name)
    ensures FirstMatch(AddDynamic(entries, dynamic), name) == i
    decreases |dynamic|
  {
    var all := AddDynamic(entries, dynamic);
    if Keys(dynamic[0].command) !! KeySet(entries) {
      var next := entries + [dynamic[0]];
      AddDynamicExtends(next, dynamic[1..]);
      if i == |entries| {
        assert all[i] == next[i] == dynamic[0];
        assert name in Keys(dynamic[0].command);
        forall j | 0 <= j < |entries|
          ensures all[j] == entries[j] && !Matches(entries[j].command, name)
        {
          assert all[j] == next[j];
          assert name in CommandKeys(entries[j].command) ==> name in KeySet(entries);
        }
      } else {
        DynamicIsFound(next, dynamic[1..], i, name);
      }
    } else {
      DynamicIsFound(entries, dynamic[1..], i, name);
    }
  }

  /** Each dynamic command is registered, or one of its names was taken. */
  lemma {:induction false} DynamicIsRegisteredOrTaken(entries: seq<Entry>, dynamic: seq<Entry>, d: Entry)
    requires d in dynamic
    ensures var all := AddDynamic(entries, dynamic);
      d in all || exists k :: k in Keys(d.command) && k in KeySet(all)
    decreases |dynamic|
  {
    var all := AddDynamic(entries, dynamic);
    var fits := Keys(dynamic[0].command) !! KeySet(entries);
    var next := if fits then entries + [dynamic[0]] else entries;
    AddDynamicExtends(next, dynamic[1..]);
    if d == dynamic[0] {
      if fits {
        assert all[|entries|] == next[|entries|] == d;
      } else {
        var k :| k in Keys(d.command) && k in KeySet(entries);
        var i :| 0 <= i < |entries| && k in CommandKeys(entries[i].command);
        assert all[i] == entries[i];
      }
    } else {
      DynamicIsRegisteredOrTaken(next, dynamic[1..], d);
    }
  }

  /** The same in the whole registry: built-in commands come later and cannot hide it. */
  lemma RegisteredDynamicIsFound(s: Sources, i: nat, name: string)
    requires |BaseEntries(s)| <= i < |AddDynamic(BaseEntries(s), DynamicEntries(s))|
    requires name != "" && Matches(Registered(s)[i].command, name)
    ensures FirstMatch(Registered(s), name) == i
  {
    var all := AddDynamic(BaseEntries(s), DynamicEntries(s));
    DynamicIsFound(BaseEntries(s), DynamicEntries(s), i, name);
    forall j | 0 <= j < |all|
      ensures Registered(s)[j] == all[j]
    {
    }
  }

  // ---------- Names and sources ----------

  /** The command is known by `name`: its own, the one it shows or an alias. */
  predicate Bears(c: Command, name: string) {
    c.name == name || (c.displayName != "" && c.displayName == name) || name in c.aliases
  }

  /** A template that can be served: it has a text and its command a name. */
  predicate Servable(e: Entry) {
    e.content.Some? && e.command.name != ""
  }

  /** A scan stops at the first command known by the name. A template is served under each name of its command
      unless an earlier one is; nothing without a text or a name ever is. */
  lemma FindsExactly(entries: seq<Entry>, name: string, i: nat)
    requires i <= |entries|
    ensures FirstMatch(entries, name) == i <==>
            (i < |entries| ==> Bears(entries[i].command, name))
            && forall j | 0 <= j < i :: !Bears(entries[j].command, name)
    ensures (i < |entries| && Trim(name) != "" && Servable(entries[i]) && Bears(entries[i].command, Trim(name))
             && forall j | 0 <= j < i && Servable(entries[j]) :: !Bears(entries[j].command, Trim(name))) ==>
              LookupIndex(entries, name) == i
    ensures LookupIndex(entries, name) == i < |entries| ==> Servable(entries[i])
  {
    assert forall c: Command, n :: Bears(c, n) == Matches(c, n);
    hide Matches, Bears, Trim;
  }

  /** A name that a dynamic command takes: any of its own that is not empty, and every alias. */
  predicate Takes(c: Command, name: string) {
    (name != "" && (c.name == name || c.displayName == name)) || name in c.aliases
  }

  /** The last of some dynamic commands joins exactly if it takes no name that a command before it takes. */
  lemma DynamicJoinsExactly(entries: seq<Entry>, dynamic: seq<Entry>, d: Entry)
    ensures var before := AddDynamic(entries, dynamic);
      AddDynamic(entries, dynamic + [d]) ==
      if exists i, name :: 0 <= i < |before| && Takes(before[i].command, name) && Takes(d.command, name) then before
      else before + [d]
  {
    var before := AddDynamic(entries, dynamic);
    AddDynamicAppend(entries, dynamic, [d]);
    assert [d][1..] == [];
    forall c: Command, name
      ensures name in CommandKeys(c) <==> Takes(c, name)
    {
    }
    assert forall name :: name in Keys(d.command) <==> Takes(d.command, name);
    assert forall name :: name in KeySet(before) <==> exists i :: 0 <= i < |before| && Takes(before[i].command, name);
    hide CommandKeys, Takes;
  }

  /** A name under which no template can be served falls to the command found by it: the first template, if any,
      that can be served under that command's own name. */
  lemma FallsBackExactly(entries: seq<Entry>, name: string, i: nat, k: nat)
    requires i < |entries| && Bears(entries[i].command, Trim(name))
    requires forall j | 0 <= j < i :: !Bears(entries[j].command, Trim(name))
    requires Trim(name) != ""
    requires forall j | 0 <= j < |entries| && Servable(entries[j]) :: !Bears(entries[j].command, Trim(name))
    requires k <= |entries|
    requires k < |entries| ==> entries[i].command.name != "" && Servable(entries[k])
                               && Bears(entries[k].command, entries[i].command.name)
    requires forall j | 0 <= j < k && Servable(entries[j]) ::
               entries[i].command.name == "" || !Bears(entries[j].command, entries[i].command.name)
    ensures LookupIndex(entries, name) == k
  {
    assert forall c: Command, n :: Bears(c, n) == Matches(c, n);
    hide Matches, Bears, Trim;
  }

  /** What dynamic prompts and then dynamic commands add to the entries before them. */
  function Joined(before: seq<Entry>, dynamic: seq<Entry>): seq<Entry> {
    AddDynamicExtends(before, dynamic);
    AddDynamic(before, dynamic)[|before|..]
  }

  /** The sources in the order in which they are registered. */
  function Shelf(s: Sources, k: nat): seq<Entry>
    requires k < 13
  {
    match k
    case 0 => Prompts(s.bundledSkillPrompts)
    case 1 => Plains(s.bundledSkills)
    case 2 => Prompts(s.builtinPluginSkillPrompts)
    case 3 => Plains(s.builtinPluginSkills)
    case 4 => Prompts(s.projectSkillPrompts)
    case 5 => Plains(s.projectSkills)
    case 6 => Plains(s.workflowCommands)
    case 7 => Plains(s.pluginCommands)
    case 8 => Prompts(s.pluginSkillPrompts)
    case 9 => Plains(s.pluginSkills)
    case 10 => Joined(BaseEntries(s), Prompts(s.dynamicSkillPrompts))
    case 11 => Joined(AddDynamic(BaseEntries(s), Prompts(s.dynamicSkillPrompts)), Plains(s.dynamicSkills))
    case _ => Plains(s.builtins)
  }

  function Shelves(s: Sources, k: nat): seq<Entry>
    requires k <= 13
  {
    if k == 0 then [] else Shelves(s, k - 1) + Shelf(s, k - 1)
  }

  lemma {:induction false} ShelvesExtend(s: Sources, j: nat, k: nat)
    requires j <= k <= 13
    ensures Shelves(s, j) <= Shelves(s, k)
  {
    hide Shelf;
    if j < k {
      ShelvesExtend(s, j, k - 1);
    }
  }

  lemma JoinedJoins(before: seq<Entry>, dynamic: seq<Entry>)
    ensures before + Joined(before, dynamic) == AddDynamic(before, dynamic)
  {
    AddDynamicExtends(before, dynamic);
    hide AddDynamic;
  }

  lemma ShelvesAreRegistered(s: Sources)
    ensures Shelves(s, 13) == Registered(s)
  {
    BundledShelves(s);
    BaseShelves(s);
    var base, prompts, plains := BaseEntries(s), Prompts(s.dynamicSkillPrompts), Plains(s.dynamicSkills);
    AddDynamicAppend(base, prompts, plains);
    JoinedJoins(base, prompts);
    JoinedJoins(AddDynamic(base, prompts), plains);
    hide AddDynamic, Joined, Prompts, Plains, BaseEntries, BundledEntries;
    LastShelves(s);
    hide Shelves, Shelf;
  }

  lemma LastShelves(s: Sources)
    ensures var prompts := Prompts(s.dynamicSkillPrompts);
      Shelves(s, 13) == Shelves(s, 10) + Joined(BaseEntries(s), prompts)
                        + Joined(AddDynamic(BaseEntries(s), prompts), Plains(s.dynamicSkills)) + Plains(s.builtins)
  {
    hide AddDynamic, Joined, Prompts, Plains, BaseEntries;
    assert Shelves(s, 11) == Shelves(s, 10) + Shelf(s, 10);
    assert Shelves(s, 12) == Shelves(s, 11) + Shelf(s, 11);
    assert Shelves(s, 13) == Shelves(s, 12) + Shelf(s, 12);
    hide Shelves;
  }

  lemma BundledShelves(s: Sources)
    ensures Shelves(s, 4) == BundledEntries(s)
  {
    hide Prompts, Plains, Joined;
    assert Shelves(s, 1) == Shelves(s, 0) + Shelf(s, 0) == Prompts(s.bundledSkillPrompts);
    assert Shelves(s, 2) == Shelves(s, 1) + Shelf(s, 1);
    assert Shelves(s, 3) == Shelves(s, 2) + Shelf(s, 2);
    assert Shelves(s, 4) == Shelves(s, 3) + Shelf(s, 3);
    hide Shelves;
  }

  lemma BaseShelves(s: Sources)
    requires Shelves(s, 4) == BundledEntries(s)
    ensures Shelves(s, 10) == BaseEntries(s)
  {
    hide Prompts, Plains, Joined, BundledEntries;
    assert Shelves(s, 5) == Shelves(s, 4) + Shelf(s, 4);
    assert Shelves(s, 6) == Shelves(s, 5) + Shelf(s, 5);
    assert Shelves(s, 7) == Shelves(s, 6) + Shelf(s, 6);
    assert Shelves(s, 8) == Shelves(s, 7) + Shelf(s, 7);
    assert Shelves(s, 9) == Shelves(s, 8) + Shelf(s, 8);
    assert Shelves(s, 10) == Shelves(s, 9) + Shelf(s, 9);
    hide Shelves;
  }

  /** The registry begins with the sources up to any. */
  lemma ShelvesFirst(s: Sources, k: nat)
    requires k < 13
    ensures Shelves(s, k) + Shelf(s, k) <= Registered(s)
  {
    ShelvesAreRegistered(s);
    ShelvesExtend(s, k + 1, 13);
    assert Shelves(s, k + 1) == Shelves(s, k) + Shelf(s, k);
    hide Shelf, Shelves, Registered;
  }

  lemma FirstBehind(all: seq<Entry>, below: seq<Entry>, shelf: seq<Entry>, i: nat, name: string)
    requires below + shelf <= all && i < |shelf| && Bears(shelf[i].command, name)
    requires forall j | 0 <= j < i :: !Bears(shelf[j].command, name)
    requires forall e | e in below :: !Bears(e.command, name)
    ensures FirstMatch(all, name) == |below| + i < |all| && all[|below| + i] == shelf[i]
  {
    hide Bears;
    forall j | 0 <= j < |below| + i
      ensures !Bears(all[j].command, name)
    {
      assert all[j] == (below + shelf)[j];
      assert all[j] == if j < |below| then below[j] else shelf[j - |below|];
      assert j < |below| ==> below[j] in below;
    }
    assert all[|below| + i] == (below + shelf)[|below| + i];
    FindsExactly(all, name, |below| + i);
  }

  /** An earlier source wins: a name is looked up in the first source with a command known by it. */
  lemma EarlierSourceWins(s: Sources, k: nat, i: nat, name: string)
    requires k < 13 && i < |Shelf(s, k)| && Bears(Shelf(s, k)[i].command, name)
    requires forall j | 0 <= j < i :: !Bears(Shelf(s, k)[j].command, name)
    requires forall e | e in Shelves(s, k) :: !Bears(e.command, name)
    ensures FirstMatch(Registered(s), name) == |Shelves(s, k)| + i < |Registered(s)|
    ensures Registered(s)[|Shelves(s, k)| + i] == Shelf(s, k)[i]
  {
    ShelvesFirst(s, k);
    hide Shelf, Shelves, Registered, Bears, FirstMatch;
    FirstBehind(Registered(s), Shelves(s, k), Shelf(s, k), i, name);
  }
}
