/** The tool-list splitter and the permissions attachment built on it (internal/commands/slash.go). */
module ToolList {
  import opened Text
  import opened FirstSeen

  predicate IsSeparator(r: char) {
    r in ", \t\n\r"
  }

  function Emit(current: string): seq<string> {
    if Trim(current) == "" then [] else [Trim(current)]
  }

  /** The tools of one string, from the middle of its scan. */
  function SplitFrom(text: string, current: string, inParens: bool): seq<string>
    decreases |text|
  {
    if text == "" then Emit(current)
    else
      var r := text[0];
      if r == '(' then SplitFrom(text[1..], current + [r], true)
      else if r == ')' then SplitFrom(text[1..], current + [r], false)
      else if IsSeparator(r) && !inParens then Emit(current) + SplitFrom(text[1..], "", false)
      else SplitFrom(text[1..], current + [r], inParens)
  }

  function Tools(lists: seq<string>): seq<string> {
    if lists == [] then [] else SplitFrom(lists[0], "", false) + Tools(lists[1..])
  }

  method ParseToolList(tools: seq<string>) returns (result: seq<string>)
    ensures result == Tools(tools)
  {
    result := [];
    for k := 0 to |tools|
      invariant result == Tools(tools[..k])
    {
      ToolsSnoc(tools[..k], tools[k]);
      assert tools[..k + 1] == tools[..k] + [tools[k]];
      var text, current, inParens := tools[k], "", false;
      ghost var whole := result + SplitFrom(text, "", false);
      for i := 0 to |text|
        invariant result + SplitFrom(text[i..], current, inParens) == whole
      {
        var r := text[i];
        ghost var rest := text[i + 1..];
        assert text[i..][1..] == rest;
        if r == '(' {
          inParens := true;
          current := current + [r];
        } else if r == ')' {
          inParens := false;
          current := current + [r];
        } else if r in ", \t\n\r" {
          if inParens {
            current := current + [r];
            continue;
          }
          Regroup(result, Emit(current), SplitFrom(rest, "", false));
          var part := Trim(current);
          if part != "" {
            result := result + [part];
          }
          current := "";
        } else {
          current := current + [r];
        }
      }
      var part := Trim(current);
      if part != "" {
        result := result + [part];
      }
    }
    assert tools[..|tools|] == tools;
  }

  lemma ToolsSnoc(lists: seq<string>, text: string)
    ensures Tools(lists + [text]) == Tools(lists) + SplitFrom(text, "", false)
  {
    ToolsAppend(lists, [text]);
    assert Tools([text]) == SplitFrom(text, "", false) + Tools([]);
  }

  lemma {:induction false} ToolsAppend(a: seq<string>, b: seq<string>)
    ensures Tools(a + b) == Tools(a) + Tools(b)
  {
    if a == [] {
      assert a + b == b;
    } else {
      assert (a + b)[1..] == a[1..] + b;
      ToolsAppend(a[1..], b);
    }
  }

  /** Where a scan of `s` that starts outside parentheses ends up. */
  predicate EndsInParens(s: string) {
    if s == "" then false
    else
      var r := s[|s| - 1];
      r == '(' || (r != ')' && EndsInParens(s[..|s| - 1]))
  }

  /** No separator of `s` lies outside parentheses. */
  predicate Solid(s: string) {
    forall i | 0 <= i < |s| :: IsSeparator(s[i]) ==> EndsInParens(s[..i])
  }

  lemma SolidPrefix(s: string, p: string)
    requires Solid(s) && p <= s
    ensures Solid(p)
  {
    forall i | 0 <= i < |p|
      ensures IsSeparator(p[i]) ==> EndsInParens(p[..i])
    {
      assert p[..i] == s[..i];
    }
  }

  lemma {:induction false} EndsInParensDropSpace(s: string)
    requires s != "" && IsSpace(s[0])
    ensures EndsInParens(s) == EndsInParens(s[1..])
    decreases |s|
  {
    if |s| > 1 {
      assert s[1..][|s| - 2] == s[|s| - 1];
      assert s[..|s| - 1][1..] == s[1..][..|s| - 2];
      EndsInParensDropSpace(s[..|s| - 1]);
    } else {
      assert s[..0] == "";
    }
  }

  lemma {:induction false} SolidTrimLeft(s: string)
    requires Solid(s)
    ensures Solid(TrimLeft(s))
    decreases |s|
  {
    if s != "" && IsSpace(s[0]) {
      forall i | 0 <= i < |s[1..]|
        ensures IsSeparator(s[1..][i]) ==> EndsInParens(s[1..][..i])
      {
        assert s[..i + 1][1..] == s[1..][..i];
        EndsInParensDropSpace(s[..i + 1]);
      }
      SolidTrimLeft(s[1..]);
    }
  }

  lemma {:induction false} SolidStays(text: string, current: string)
    requires Solid(current + text)
    ensures SplitFrom(text, current, EndsInParens(current)) == Emit(current + text)
    decreases |text|
  {
    if text == "" {
      assert current + text == current;
    } else {
      assert (current + text)[|current|] == text[0];
      assert (current + text)[..|current|] == current;
      assert (current + [text[0]]) + text[1..] == current + text;
      assert (current + [text[0]])[..|current|] == current;
      SolidStays(text[1..], current + [text[0]]);
    }
  }

  lemma {:induction false} SolidExtend(current: string, r: char)
    requires Solid(current) && (IsSeparator(r) ==> EndsInParens(current))
    ensures Solid(current + [r])
    ensures EndsInParens(current + [r]) == (r == '(' || (r != ')' && EndsInParens(current)))
  {
    var s := current + [r];
    assert s[..|current|] == current;
    forall i | 0 <= i < |s|
      ensures IsSeparator(s[i]) ==> EndsInParens(s[..i])
    {
      if i < |current| {
        assert s[..i] == current[..i];
      }
    }
  }

  /** A token the splitter may emit: splitting it again gives it back. */
  ghost predicate Normal(token: string) {
    SplitFrom(token, "", false) == [token]
  }

  lemma EmittedIsNormal(current: string)
    requires Solid(current)
    ensures forall t | t in Emit(current) :: Normal(t)
  {
    var t := Trim(current);
    if t != "" {
      SolidTrimLeft(current);
      SolidPrefix(TrimLeft(current), t);
      assert "" + t == t;
      SolidStays(t, "");
      TrimFixesTrimmed(t);
    }
  }

  lemma {:induction false} SplitIsNormal(text: string, current: string)
    requires Solid(current)
    ensures forall t | t in SplitFrom(text, current, EndsInParens(current)) :: Normal(t)
    decreases |text|
  {
    EmittedIsNormal(current);
    if text == "" {
    } else if IsSeparator(text[0]) && !EndsInParens(current) {
      SplitIsNormal(text[1..], "");
    } else {
      SolidExtend(current, text[0]);
      SplitIsNormal(text[1..], current + [text[0]]);
    }
  }

  lemma {:induction false} ToolsAreNormal(lists: seq<string>)
    ensures forall t | t in Tools(lists) :: Normal(t)
  {
    if lists != [] {
      SplitIsNormal(lists[0], "");
      ToolsAreNormal(lists[1..]);
    }
  }

  lemma {:induction false} NormalListIsFixed(tokens: seq<string>)
    requires forall t | t in tokens :: Normal(t)
    ensures Tools(tokens) == tokens
  {
    if tokens != [] {
      assert tokens[0] in tokens;
      assert forall t | t in tokens[1..] :: t in tokens;
      NormalListIsFixed(tokens[1..]);
    }
  }

  /** A separator outside parentheses splits. */
  lemma {:induction false} SplitsAtSeparator(a: string, sep: char, b: string, current: string)
    requires IsSeparator(sep) && !EndsInParens(current + a)
    ensures SplitFrom(a + [sep] + b, current, EndsInParens(current)) ==
            SplitFrom(a, current, EndsInParens(current)) + SplitFrom(b, "", false)
    decreases |a|
  {
    hide Trim;
    if a == "" {
      assert current + a == current;
      assert (a + [sep] + b)[1..] == b;
    } else {
      var r := a[0];
      assert (a + [sep] + b)[1..] == a[1..] + [sep] + b;
      assert (current + [r]) + a[1..] == current + a;
      assert (current + [r])[..|current|] == current;
      if IsSeparator(r) && !EndsInParens(current) {
        SplitsAgain(a, sep, b, current);
      } else {
        SplitsAtSeparator(a[1..], sep, b, current + [r]);
      }
    }
  }

  /** The same where a separator comes first. */
  lemma {:induction false} SplitsAgain(a: string, sep: char, b: string, current: string)
    requires a != "" && IsSeparator(a[0]) && !EndsInParens(current)
    requires IsSeparator(sep) && !EndsInParens(current + a)
    ensures SplitFrom(a + [sep] + b, current, false) == SplitFrom(a, current, false) + SplitFrom(b, "", false)
    decreases |a|, 0
  {
    hide Trim;
    SuffixEndsInParens(current, a);
    assert [a[0]] + a[1..] == a && !EndsInParens([a[0]]) by { assert [a[0]][..0] == ""; }
    SuffixEndsInParens([a[0]], a[1..]);
    assert "" + a[1..] == a[1..];
    assert (a + [sep] + b)[1..] == a[1..] + [sep] + b;
    SplitsAtSeparator(a[1..], sep, b, "");
    hide SplitFrom;
    Regroup(Emit(current), SplitFrom(a[1..], "", false), SplitFrom(b, "", false));
  }

  /** Text before which no parenthesis is open ends as it would alone. */
  lemma {:induction false} SuffixEndsInParens(prefix: string, s: string)
    requires !EndsInParens(prefix)
    ensures EndsInParens(prefix + s) == EndsInParens(s)
    decreases |s|
  {
    if s == "" {
      assert prefix + s == prefix;
    } else {
      assert (prefix + s)[..|prefix + s| - 1] == prefix + s[..|s| - 1];
      SuffixEndsInParens(prefix, s[..|s| - 1]);
    }
  }

  /** A comma or a space of any kind that separates tools. */
  predicate Separates(r: char) {
    r == ',' || r == ' ' || r == '\t' || r == '\n' || r == '\r'
  }

  /** An opening parenthesis stands before position i, and no closing one between. */
  predicate InParens(text: string, i: nat)
    requires i <= |text|
  {
    exists j :: 0 <= j < i && text[j] == '(' && forall k | j < k < i :: text[k] != ')'
  }

  lemma {:induction false} InParensExactly(text: string, i: nat)
    requires i <= |text|
    ensures EndsInParens(text[..i]) <==> InParens(text, i)
  {
    if i > 0 {
      assert text[..i][..i - 1] == text[..i - 1];
      InParensExactly(text, i - 1);
      if text[i - 1] == '(' {
        assert InParens(text, i);
      }
    }
  }

  /** What the splitter does, without its scan: text with no separator outside parentheses is one token,
      trimmed, unless blank; any other text is split at such a separator. */
  lemma SplitsExactly(text: string, i: nat)
    ensures (forall j | 0 <= j < |text| && Separates(text[j]) :: InParens(text, j)) ==>
              Tools([text]) == if Blank(text) then [] else [Trim(text)]
    ensures i < |text| && Separates(text[i]) && !InParens(text, i) ==>
              Tools([text]) == Tools([text[..i]]) + Tools([text[i + 1..]])
  {
    TrimEmptyIffBlank(text);
    assert forall r :: IsSeparator(r) <==> Separates(r);
    forall j | 0 <= j < |text|
      ensures EndsInParens(text[..j]) <==> InParens(text, j)
    {
      InParensExactly(text, j);
    }
    assert (forall j | 0 <= j < |text| && Separates(text[j]) :: InParens(text, j)) ==> Solid(text);
    hide Tools, SplitFrom, InParens, Trim, Blank;
    ToolsOfOne(text);
    if Solid(text) {
      assert "" + text == text;
      SolidStays(text, "");
    }
    hide Solid;
    if i < |text| && Separates(text[i]) && !InParens(text, i) {
      SplitsAt(text, i);
    }
  }

  lemma SplitsAt(text: string, i: nat)
    requires i < |text| && IsSeparator(text[i]) && !EndsInParens(text[..i])
    ensures Tools([text]) == Tools([text[..i]]) + Tools([text[i + 1..]])
  {
    hide Tools, SplitFrom;
    ToolsOfOne(text);
    ToolsOfOne(text[..i]);
    ToolsOfOne(text[i + 1..]);
    assert text == text[..i] + [text[i]] + text[i + 1..];
    assert "" + text[..i] == text[..i];
    SplitsAtSeparator(text[..i], text[i], text[i + 1..], "");
  }

  lemma ToolsOfOne(text: string)
    ensures Tools([text]) == SplitFrom(text, "", false)
  {
    assert [text][1..] == [];
  }

  /** The splitter is a normal form: parsing its own output changes nothing. */
  lemma ToolsIdempotent(lists: seq<string>)
    ensures Tools(Tools(lists)) == Tools(lists)
  {
    ToolsAreNormal(lists);
    NormalListIsFixed(Tools(lists));
  }

  /** The JSON-like values a permissions payload may hold; an `Anys` entry that is not a string is None. */
  datatype Value = Str(text: string) | Strings(items: seq<string>) | Anys(entries: seq<Option<string>>) | Other

  type Payload = map<string, Value>

  /** `attachment` is Raw["attachment"] when that is a map; `raw` holds the other fields of Raw. */
  datatype Message = Message(kind: string, subtype: string, attachment: Option<Payload>, raw: Payload)

  datatype Permissions = Permissions(allowedTools: seq<string>, model: string)

  const ATTACHMENT := "attachment"
  const SUBTYPE := "command_permissions"

  function FirstString(payload: Payload, key: string): string {
    if key in payload && payload[key].Str? then payload[key].text else ""
  }

  function Texts(entries: seq<Option<string>>): seq<string> {
    if entries == [] then []
    else (if entries[0].Some? then [entries[0].value] else []) + Texts(entries[1..])
  }

  /** The first key whose value is a list or a string. */
  function FirstStringSlice(payload: Payload, keys: seq<string>): seq<string> {
    if keys == [] then []
    else if keys[0] !in payload then FirstStringSlice(payload, keys[1..])
    else match payload[keys[0]]
      case Strings(items) => items
      case Anys(entries) => Texts(entries)
      case Str(text) => [text]
      case Other => FirstStringSlice(payload, keys[1..])
  }

  /** CommandPermissionsAttachment; the zero message when there is nothing to say. */
  function Attachment(tools: seq<string>, model: string): Message {
    var allowed, trimmed := Tools(tools), Trim(model);
    if allowed == [] && trimmed == "" then Message("", "", None, map[])
    else
      var payload := map["type" := Str(SUBTYPE), "allowedTools" := Strings(allowed)];
      Message(ATTACHMENT, SUBTYPE, Some(if trimmed == "" then payload else payload["model" := Str(trimmed)]), map[])
  }

  /** CommandPermissionsFromMessage. */
  function FromMessage(message: Message): Option<Permissions> {
    var payload := if message.attachment.Some? then message.attachment.value else message.raw;
    if message.kind != ATTACHMENT && message.subtype != SUBTYPE then None
    else if message.subtype != SUBTYPE && FirstString(payload, "type") != SUBTYPE then None
    else
      var found := Permissions(Tools(FirstStringSlice(payload, ["allowedTools", "allowed_tools", "tools"])),
                               Trim(FirstString(payload, "model")));
      if found.allowedTools == [] && found.model == "" then None else Some(found)
  }

  /** What the payload of an attachment says under the keys that are read. */
  lemma PayloadSays(tools: seq<string>, model: string)
    requires Tools(tools) != [] || Trim(model) != ""
    ensures var m := Attachment(tools, model);
      && m.kind == ATTACHMENT && m.subtype == SUBTYPE && m.attachment.Some?
      && FirstString(m.attachment.value, "model") == Trim(model)
      && FirstStringSlice(m.attachment.value, ["allowedTools", "allowed_tools", "tools"]) == Tools(tools)
  {
    hide Tools, Trim, Texts;
  }

  /** The strings among the entries of a list, in order. */
  lemma {:induction false} TextsAre(a: seq<Option<string>>, e: Option<string>, b: seq<Option<string>>)
    ensures Texts(a + [e] + b) == Texts(a) + (if e.Some? then [e.value] else []) + Texts(b)
  {
    if a == [] {
      assert [] + [e] + b == [e] + b && ([e] + b)[1..] == b;
    } else {
      assert (a + [e] + b)[1..] == a[1..] + [e] + b && (a + [e] + b)[0] == a[0];
      TextsAre(a[1..], e, b);
      var head, middle := if a[0].Some? then [a[0].value] else [], if e.Some? then [e.value] else [];
      assert Texts(a) == head + Texts(a[1..]) && Texts(a + [e] + b) == head + Texts(a[1..] + [e] + b);
      hide Texts;
      Regroup(head, Texts(a[1..]) + middle, Texts(b));
      Regroup(head, Texts(a[1..]), middle);
    }
  }

  /** The value stands for a list of tools: any value but those of other types does. */
  predicate GivesTools(v: Value, list: seq<string>) {
    match v
    case Str(text) => list == [text]
    case Strings(items) => list == items
    case Anys(entries) => list == Texts(entries)
    case Other => false
  }

  /** The key gives no tools. */
  predicate GivesNone(payload: Payload, key: string) {
    key !in payload || payload[key] == Other
  }

  /** The first of the three keys that gives tools gives them; without one there are none. */
  predicate ToolsUnder(payload: Payload, list: seq<string>) {
    if !GivesNone(payload, "allowedTools") then GivesTools(payload["allowedTools"], list)
    else if !GivesNone(payload, "allowed_tools") then GivesTools(payload["allowed_tools"], list)
    else if !GivesNone(payload, "tools") then GivesTools(payload["tools"], list)
    else list == []
  }

  lemma SliceCons(payload: Payload, key: string, keys: seq<string>, list: seq<string>)
    ensures if GivesNone(payload, key) then FirstStringSlice(payload, [key] + keys) == FirstStringSlice(payload, keys)
            else FirstStringSlice(payload, [key] + keys) == list <==> GivesTools(payload[key], list)
  {
    assert ([key] + keys)[1..] == keys;
    hide Texts;
  }

  lemma SliceIsUnder(payload: Payload, list: seq<string>)
    ensures FirstStringSlice(payload, ["allowedTools", "allowed_tools", "tools"]) == list <==> ToolsUnder(payload, list)
  {
    SliceCons(payload, "allowedTools", ["allowed_tools", "tools"], list);
    SliceCons(payload, "allowed_tools", ["tools"], list);
    SliceCons(payload, "tools", [], list);
    assert ["allowedTools"] + ["allowed_tools", "tools"] == ["allowedTools", "allowed_tools", "tools"];
    assert ["allowed_tools"] + ["tools"] == ["allowed_tools", "tools"] && ["tools"] + [] == ["tools"];
    assert FirstStringSlice(payload, []) == [];
    hide FirstStringSlice, GivesTools, GivesNone;
  }

  /** A message grants exactly if it is an attachment or of the permissions subtype, says by subtype or by its payload's
      type that it is about permissions, and names a tool or a model; the payload is the attachment, or else the
      message's own fields. */
  lemma GrantsExactly(m: Message, list: seq<string>)
    requires ToolsUnder(if m.attachment.Some? then m.attachment.value else m.raw, list)
    ensures var payload := if m.attachment.Some? then m.attachment.value else m.raw;
      var model := if "model" in payload && payload["model"].Str? then Trim(payload["model"].text) else "";
      var about := m.subtype == "command_permissions"
                   || (m.kind == "attachment" && "type" in payload && payload["type"] == Str("command_permissions"));
      FromMessage(m) ==
      if about && (Tools(list) != [] || model != "") then Some(Permissions(Tools(list), model)) else None
  {
    SliceIsUnder(if m.attachment.Some? then m.attachment.value else m.raw, list);
    TrimFixesTrimmed("");
    hide Tools, Trim, ToolsUnder, FirstStringSlice;
  }

  /** What an attachment holds, under which keys. */
  lemma AttachmentIs(tools: seq<string>, model: string)
    ensures var m := Attachment(tools, model);
      if Tools(tools) == [] && Blank(model) then m == Message("", "", None, map[])
      else
        && m.kind == "attachment" && m.subtype == "command_permissions" && m.raw == map[] && m.attachment.Some?
        && m.attachment.value == map["type" := Str("command_permissions"), "allowedTools" := Strings(Tools(tools))]
                                 + (if Blank(model) then map[] else map["model" := Str(Trim(model))])
  {
    TrimEmptyIffBlank(model);
    hide Tools, Trim, Blank;
  }

  /** Reading an attachment back gives the parsed tools and the trimmed model. */
  lemma AttachmentReadsBack(tools: seq<string>, model: string)
    ensures FromMessage(Attachment(tools, model)) ==
            if Tools(tools) == [] && Trim(model) == "" then None
            else Some(Permissions(Tools(tools), Trim(model)))
  {
    if Tools(tools) != [] || Trim(model) != "" {
      PayloadSays(tools, model);
      ToolsIdempotent(tools);
      TrimFixesTrimmed(Trim(model));
      hide Attachment, Tools, Trim, FirstString, FirstStringSlice;
    }
  }

  /** The tools every message grants, repeats included. */
  function Granted(messages: seq<Message>): seq<string> {
    if messages == [] then []
    else
      var item := FromMessage(messages[0]);
      (if item.Some? then item.value.allowedTools else []) + Granted(messages[1..])
  }

  function LastModel(messages: seq<Message>): string {
    if messages == [] then ""
    else
      var item := FromMessage(messages[|messages| - 1]);
      if item.Some? && item.value.model != "" then item.value.model
      else LastModel(messages[..|messages| - 1])
  }

  /** What CommandPermissionsFromMessages returns. */
  function Folded(messages: seq<Message>): Permissions {
    Permissions(Firsts(Granted(messages), {}), LastModel(messages))
  }

  lemma {:induction false} GrantedAppend(a: seq<Message>, b: seq<Message>)
    ensures Granted(a + b) == Granted(a) + Granted(b)
  {
    hide FromMessage;
    if a == [] {
      assert a + b == b;
    } else {
      assert (a + b)[1..] == a[1..] + b;
      GrantedAppend(a[1..], b);
    }
  }

  lemma GrantedSnoc(messages: seq<Message>, last: Message)
    ensures Granted(messages + [last]) ==
            Granted(messages) + (if FromMessage(last).Some? then FromMessage(last).value.allowedTools else [])
  {
    GrantedAppend(messages, [last]);
    assert Granted([last][1..]) == [];
  }

  /** Ordered union of the tools; the later model wins unless it is empty. */
  function Combine(a: Permissions, b: Permissions): Permissions {
    Permissions(a.allowedTools + Firsts(b.allowedTools, Elements(a.allowedTools)),
                if b.model != "" then b.model else a.model)
  }

  lemma FoldedSnoc(messages: seq<Message>, last: Message)
    ensures Folded(messages + [last]) ==
            match FromMessage(last)
            case None => Folded(messages)
            case Some(item) => Combine(Folded(messages), item)
  {
    hide FromMessage;
    GrantedSnoc(messages, last);
    var tools := if FromMessage(last).Some? then FromMessage(last).value.allowedTools else [];
    FirstsAppend(Granted(messages), tools, {});
    assert {} + Elements(Granted(messages)) == Elements(Firsts(Granted(messages), {}));
    assert (messages + [last])[..|messages|] == messages;
    assert Firsts(Granted(messages), {}) + [] == Firsts(Granted(messages), {});
  }

  /** The tools of one message, those already seen left out. */
  method AddTools(allowed: seq<string>, known: set<string>, tools: seq<string>)
    returns (out: seq<string>, seen: set<string>)
    requires known == Elements(allowed)
    ensures out == allowed + Firsts(tools, Elements(allowed)) && seen == Elements(out)
  {
    out, seen := allowed, known;
    for i := 0 to |tools|
      invariant out == allowed + Firsts(tools[..i], Elements(allowed)) && seen == Elements(out)
    {
      assert tools[..i + 1] == tools[..i] + [tools[i]];
      FirstsSnoc(tools[..i], tools[i], Elements(allowed));
      if tools[i] in seen {
        continue;
      }
      ElementsSnoc(out, tools[i]);
      seen := seen + {tools[i]};
      out := out + [tools[i]];
    }
    assert tools[..|tools|] == tools;
  }

  method CommandPermissionsFromMessages(messages: seq<Message>) returns (out: Permissions)
    ensures out == Folded(messages)
  {
    hide FromMessage, Granted, LastModel;
    out := Permissions([], "");
    var seen: set<string> := {};
    assert out == Folded(messages[..0]) by { EmptyFold(messages[..0]); }
    for k := 0 to |messages|
      invariant out == Folded(messages[..k])
      invariant seen == Elements(out.allowedTools)
    {
      assert messages[..k + 1] == messages[..k] + [messages[k]];
      FoldedSnoc(messages[..k], messages[k]);
      var found := FromMessage(messages[k]);
      if found.None? {
        continue;
      }
      var item := found.value;
      var allowed;
      allowed, seen := AddTools(out.allowedTools, seen, item.allowedTools);
      out := out.(allowedTools := allowed);
      if item.model != "" {
        out := out.(model := item.model);
      }
    }
    assert messages[..|messages|] == messages;
  }

  lemma EmptyFold(messages: seq<Message>)
    requires messages == []
    ensures Folded(messages) == Permissions([], "")
  {
  }

  lemma {:induction false} LastModelAppend(a: seq<Message>, b: seq<Message>)
    ensures LastModel(a + b) == if LastModel(b) != "" then LastModel(b) else LastModel(a)
    decreases |b|
  {
    if b == [] {
      assert a + b == a;
    } else {
      assert (a + b)[..|a + b| - 1] == a + b[..|b| - 1];
      LastModelAppend(a, b[..|b| - 1]);
    }
  }

  /** The fold over two transcripts in a row combines the folds over each, and never repeats a tool. */
  lemma FoldCombines(a: seq<Message>, b: seq<Message>)
    ensures Folded(a + b) == Combine(Folded(a), Folded(b))
    ensures NoRepeats(Folded(a).allowedTools)
  {
    GrantedAppend(a, b);
    FirstsAppend(Granted(a), Granted(b), {});
    var seen := Elements(Folded(a).allowedTools);
    assert {} + Elements(Granted(a)) == seen;
    FirstsTwice(Granted(b), {}, seen);
    FirstsNoRepeats(Granted(a), {});
    LastModelAppend(a, b);
  }
}
