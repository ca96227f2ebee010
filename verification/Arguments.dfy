/** The argument parser of the command language and the quoter it undoes
    (internal/commands/prompt.go, internal/integrations/chrome_host.go). */
module Arguments {
  import opened Text

  datatype Quote = NoQuote | Open(mark: char)

  /** The variables of the parser's rune loop. */
  datatype Scan = Scan(out: seq<string>, current: string, quote: Quote, escaped: bool, haveToken: bool)

  const START := Scan([], "", NoQuote, false, false)

  predicate IsSeparator(r: char) {
    r in " \t\n\r"
  }

  /** A quote or backslash: a character the parser gives a meaning other than itself. */
  predicate IsSpecial(r: char) {
    r in "'\"\\"
  }

  function Step(s: Scan, r: char): Scan {
    if s.escaped then
      s.(current := s.current + [r], haveToken := true, escaped := false)
    else if s.quote != Open('\'') && r == '\\' then
      s.(escaped := true, haveToken := true)
    else if s.quote != NoQuote then
      if s.quote == Open(r) then s.(quote := NoQuote, haveToken := true)
      else s.(current := s.current + [r], haveToken := true)
    else if r == '\'' || r == '"' then
      s.(quote := Open(r), haveToken := true)
    else if IsSeparator(r) then
      if s.haveToken then s.(out := s.out + [s.current], current := "", haveToken := false) else s
    else
      s.(current := s.current + [r], haveToken := true)
  }

  function Run(s: Scan, text: string): Scan
    decreases |text|
  {
    if text == "" then s else Run(Step(s, text[0]), text[1..])
  }

  /** None for a dangling escape or an unclosed quote. */
  function Finish(s: Scan): Option<seq<string>> {
    if s.escaped || s.quote != NoQuote then None
    else Some(if s.haveToken then s.out + [s.current] else s.out)
  }

  function ShellParse(text: string): Option<seq<string>> {
    Finish(Run(START, text))
  }

  /** What ParseArguments returns: nothing for blank text, and the plain field split when the
      quoting does not close. */
  function Parsed(args: string): seq<string> {
    if Trim(args) == "" then []
    else match ShellParse(args)
      case None => Fields(args)
      case Some(tokens) => tokens
  }

  method ParseShellLikeArguments(args: string) returns (out: seq<string>, ok: bool)
    ensures ok == ShellParse(args).Some?
    ensures out == if ok then ShellParse(args).value else []
  {
    var current, quote := "", NoQuote;
    var escaped, haveToken := false, false;
    out := [];
    for i := 0 to |args|
      invariant Run(Scan(out, current, quote, escaped, haveToken), args[i..]) == Run(START, args)
    {
      var r := args[i];
      if escaped {
        current, haveToken, escaped := current + [r], true, false;
        continue;
      }
      if quote != Open('\'') && r == '\\' {
        escaped, haveToken := true, true;
        continue;
      }
      if quote != NoQuote {
        if quote == Open(r) {
          quote, haveToken := NoQuote, true;
          continue;
        }
        current, haveToken := current + [r], true;
        continue;
      }
      if r == '\'' || r == '"' {
        quote, haveToken := Open(r), true;
      } else if r in " \t\n\r" {
        if haveToken {
          out, current, haveToken := out + [current], "", false;
        }
      } else {
        current, haveToken := current + [r], true;
      }
    }
    if escaped || quote != NoQuote {
      return [], false;
    }
    if haveToken {
      out := out + [current];
    }
    ok := true;
  }

  method ParseArguments(args: string) returns (tokens: seq<string>)
    ensures tokens == Parsed(args)
  {
    if Trim(args) == "" {
      return [];
    }
    var parsed, ok := ParseShellLikeArguments(args);
    tokens := if ok then parsed else Fields(args);
  }

  /** strings.ReplaceAll of each single quote by: close, a quoted single quote, reopen. */
  function EscapeQuotes(value: string): string {
    if value == "" then ""
    else (if value[0] == '\'' then "'\"'\"'" else [value[0]]) + EscapeQuotes(value[1..])
  }

  function ShellQuote(value: string): string {
    "'" + EscapeQuotes(value) + "'"
  }

  function QuoteAll(values: seq<string>): (quoted: seq<string>)
    ensures |quoted| == |values|
  {
    if values == [] then [] else [ShellQuote(values[0])] + QuoteAll(values[1..])
  }

  /** Quoting puts a value between single quotes and changes nothing but the single quotes in it. */
  lemma QuoteIs(a: string, b: string)
    ensures '\'' !in a ==> ShellQuote(a) == "'" + a + "'"
    ensures EscapeQuotes(a + "'" + b) == EscapeQuotes(a) + "'\"'\"'" + EscapeQuotes(b)
  {
    if '\'' !in a {
      NothingToEscape(a);
    }
    EscapeAppend(a + "'", b);
    EscapeAppend(a, "'");
    assert "'"[1..] == "";
    assert EscapeQuotes("'") == "'\"'\"'" + "";
    hide EscapeQuotes;
  }

  lemma {:induction false} NothingToEscape(a: string)
    requires '\'' !in a
    ensures EscapeQuotes(a) == a
    decreases |a|
  {
    if a != "" {
      assert a == [a[0]] + a[1..];
      NothingToEscape(a[1..]);
    }
  }

  lemma {:induction false} EscapeAppend(a: string, b: string)
    ensures EscapeQuotes(a + b) == EscapeQuotes(a) + EscapeQuotes(b)
    decreases |a|
  {
    if a == "" {
      assert a + b == b;
    } else {
      assert (a + b)[1..] == a[1..] + b && (a + b)[0] == a[0];
      EscapeAppend(a[1..], b);
    }
  }

  lemma {:induction false} RunAppend(s: Scan, a: string, b: string)
    ensures Run(s, a + b) == Run(Run(s, a), b)
    decreases |a|
  {
    if a == "" {
      assert a + b == b;
    } else {
      assert (a + b)[1..] == a[1..] + b;
      RunAppend(Step(s, a[0]), a[1..], b);
    }
  }

  /** Inside single quotes the escaped form of one character reads as that character. */
  lemma RunEscapedCharacter(s: Scan, c: char)
    requires s.quote == Open('\'') && !s.escaped && s.haveToken
    ensures Run(s, if c == '\'' then "'\"'\"'" else [c]) == s.(current := s.current + [c])
  {
    var s' := s.(current := s.current + [c]);
    if c == '\'' {
      var s1 := s.(quote := NoQuote);
      var s2 := s.(quote := Open('"'));
      var s3 := s2.(current := s.current + "'");
      var s4 := s3.(quote := NoQuote);
      assert Run(s4, "'") == Run(s', "") == s';
      assert Run(s3, "\"'") == Run(s4, "'");
      assert Run(s2, "'\"'") == Run(s3, "\"'");
      assert Run(s1, "\"'\"'") == Run(s2, "'\"'");
    } else {
      assert Run(s, [c]) == Run(Step(s, c), "");
    }
  }

  lemma {:induction false} RunInsideQuotes(s: Scan, value: string)
    requires s.quote == Open('\'') && !s.escaped && s.haveToken
    ensures Run(s, EscapeQuotes(value)) == s.(current := s.current + value)
    decreases |value|
  {
    if value == "" {
      assert s.current + value == s.current;
    } else {
      var head := if value[0] == '\'' then "'\"'\"'" else [value[0]];
      var s' := s.(current := s.current + [value[0]]);
      assert EscapeQuotes(value) == head + EscapeQuotes(value[1..]);
      hide Run, EscapeQuotes;
      RunAppend(s, head, EscapeQuotes(value[1..]));
      RunEscapedCharacter(s, value[0]);
      RunInsideQuotes(s', value[1..]);
      assert s'.current + value[1..] == s.current + value;
    }
  }

  lemma RunQuoted(s: Scan, value: string)
    requires s.quote == NoQuote && !s.escaped
    ensures Run(s, ShellQuote(value)) == s.(current := s.current + value, haveToken := true)
  {
    var quoted := s.(quote := Open('\''), haveToken := true);
    RunAppend(s, "'", EscapeQuotes(value) + "'");
    assert ShellQuote(value) == "'" + (EscapeQuotes(value) + "'");
    assert Run(s, "'") == Run(quoted, "") == quoted;
    RunAppend(quoted, EscapeQuotes(value), "'");
    RunInsideQuotes(quoted, value);
    var filled := quoted.(current := s.current + value);
    assert Run(filled, "'") == Run(Step(filled, '\''), "");
  }

  /** One quoted value and the space after it add exactly that value to the output. */
  lemma RunQuotedThenSpace(s: Scan, value: string, rest: string)
    requires s.quote == NoQuote && !s.escaped && !s.haveToken && s.current == ""
    ensures Run(s, ShellQuote(value) + (" " + rest)) == Run(s.(out := s.out + [value]), rest)
  {
    var read := s.(current := "" + value, haveToken := true);
    assert "" + value == value;
    RunAppend(s, ShellQuote(value), " " + rest);
    RunQuoted(s, value);
    assert (" " + rest)[1..] == rest;
    assert Step(read, ' ') == s.(out := s.out + [value]);
  }

  lemma {:induction false} RunQuotedList(s: Scan, values: seq<string>)
    requires s.quote == NoQuote && !s.escaped && !s.haveToken && s.current == ""
    requires values != []
    ensures Finish(Run(s, JoinSpaces(QuoteAll(values)))) == Some(s.out + values)
    decreases |values|
  {
    QuoteAllCons(values);
    var v, rest := values[0], values[1..];
    JoinSpacesCons(ShellQuote(v), QuoteAll(rest));
    FirstThenRest(s.out, values);
    hide Run, ShellQuote, QuoteAll, JoinSpaces, Finish;
    if rest == [] {
      RunQuotedLast(s, v);
    } else {
      RunQuotedThenSpace(s, v, JoinSpaces(QuoteAll(rest)));
      RunQuotedList(s.(out := s.out + [v]), rest);
    }
  }

  lemma FirstThenRest(out: seq<string>, values: seq<string>)
    requires values != []
    ensures (out + [values[0]]) + values[1..] == out + values
    ensures values[1..] == [] ==> out + [values[0]] == out + values
  {
  }

  /** The last quoted value ends the text. */
  lemma RunQuotedLast(s: Scan, value: string)
    requires s.quote == NoQuote && !s.escaped && s.current == ""
    ensures Finish(Run(s, ShellQuote(value))) == Some(s.out + [value])
  {
    RunQuoted(s, value);
    assert s.current + value == value;
    hide Run, ShellQuote;
  }

  lemma QuoteAllCons(values: seq<string>)
    requires values != []
    ensures QuoteAll(values) == [ShellQuote(values[0])] + QuoteAll(values[1..])
    ensures values[1..] == [] <==> QuoteAll(values[1..]) == []
  {
    hide ShellQuote;
  }

  /** Parsing undoes quoting, for every list of strings. */
  lemma ParseUndoesQuote(values: seq<string>)
    ensures Parsed(JoinSpaces(QuoteAll(values))) == values
  {
    var line := JoinSpaces(QuoteAll(values));
    if values == [] {
    } else {
      RunQuotedList(START, values);
      assert [] + values == values;
      assert line[0] == '\'';
      assert '\'' in line;
      TrimEmptyIffBlank(line);
    }
  }

  /** Every character behind a backslash. */
  function Backslashed(value: string): string {
    if value == "" then "" else ['\\', value[0]] + Backslashed(value[1..])
  }

  /** A second way to quote: between double quotes, or bare when there is anything to escape. */
  function DoubleQuote(value: string, bare: bool): string {
    if bare && value != "" then Backslashed(value) else "\"" + Backslashed(value) + "\""
  }

  function DoubleQuoteAll(values: seq<string>, bare: bool): (quoted: seq<string>)
    ensures |quoted| == |values|
  {
    if values == [] then [] else [DoubleQuote(values[0], bare)] + DoubleQuoteAll(values[1..], bare)
  }

  /** Outside single quotes a backslash takes the next character literally. */
  lemma {:induction false} RunBackslashed(s: Scan, value: string)
    requires s.quote != Open('\'') && !s.escaped
    ensures Run(s, Backslashed(value)) == s.(current := s.current + value, haveToken := s.haveToken || value != "")
    decreases |value|
  {
    if value == "" {
      assert s.current + value == s.current;
    } else {
      var s' := s.(current := s.current + [value[0]], haveToken := true);
      BackslashTakes(s, value[0], Backslashed(value[1..]));
      hide Run;
      RunBackslashed(s', value[1..]);
      assert s'.current + value[1..] == s.current + value;
    }
  }

  lemma BackslashTakes(s: Scan, c: char, rest: string)
    requires s.quote != Open('\'') && !s.escaped
    ensures Run(s, ['\\', c] + rest) == Run(s.(current := s.current + [c], haveToken := true), rest)
  {
    var s1 := s.(escaped := true, haveToken := true);
    assert (['\\', c] + rest)[1..] == [c] + rest && ([c] + rest)[1..] == rest;
    assert Step(s, '\\') == s1 && Step(s1, c) == s.(current := s.current + [c], haveToken := true);
    hide Step;
    assert Run(s, ['\\', c] + rest) == Run(s1, [c] + rest);
  }

  lemma RunDoubleQuoted(s: Scan, value: string, bare: bool)
    requires s.quote == NoQuote && !s.escaped
    ensures Run(s, DoubleQuote(value, bare)) == s.(current := s.current + value, haveToken := true)
  {
    if bare && value != "" {
      RunBackslashed(s, value);
    } else {
      var quoted := s.(quote := Open('"'), haveToken := true);
      var filled := quoted.(current := s.current + value);
      RunAppend(s, "\"", Backslashed(value) + "\"");
      assert "\"" + Backslashed(value) + "\"" == "\"" + (Backslashed(value) + "\"");
      assert Run(s, "\"") == Run(quoted, "") == quoted;
      RunAppend(quoted, Backslashed(value), "\"");
      RunBackslashed(quoted, value);
      assert Run(filled, "\"") == Run(Step(filled, '"'), "");
    }
  }

  lemma {:induction false} RunDoubleQuotedList(s: Scan, values: seq<string>, bare: bool)
    requires s.quote == NoQuote && !s.escaped && !s.haveToken && s.current == "" && values != []
    ensures Finish(Run(s, JoinSpaces(DoubleQuoteAll(values, bare)))) == Some(s.out + values)
    decreases |values|
  {
    DoubleQuoteAllCons(values, bare);
    var v, rest := values[0], values[1..];
    JoinSpacesCons(DoubleQuote(v, bare), DoubleQuoteAll(rest, bare));
    FirstThenRest(s.out, values);
    hide Run, DoubleQuote, DoubleQuoteAll, JoinSpaces, Finish;
    RunDoubleQuotedNext(s, v, bare, JoinSpaces(DoubleQuoteAll(rest, bare)));
    if rest != [] {
      RunDoubleQuotedList(s.(out := s.out + [v]), rest, bare);
    }
  }

  /** One value so quoted, at the end of the text or with a space after it. */
  lemma RunDoubleQuotedNext(s: Scan, value: string, bare: bool, more: string)
    requires s.quote == NoQuote && !s.escaped && !s.haveToken && s.current == ""
    ensures Finish(Run(s, DoubleQuote(value, bare))) == Some(s.out + [value])
    ensures Run(s, DoubleQuote(value, bare) + (" " + more)) == Run(s.(out := s.out + [value]), more)
  {
    RunDoubleQuoted(s, value, bare);
    assert s.current + value == value;
    RunAppend(s, DoubleQuote(value, bare), " " + more);
    RunSpace(s.(current := value, haveToken := true), more);
    hide Run, DoubleQuote;
  }

  lemma DoubleQuoteAllCons(values: seq<string>, bare: bool)
    requires values != []
    ensures DoubleQuoteAll(values, bare) == [DoubleQuote(values[0], bare)] + DoubleQuoteAll(values[1..], bare)
    ensures values[1..] == [] <==> DoubleQuoteAll(values[1..], bare) == []
  {
    hide DoubleQuote;
  }

  /** A space outside quotes ends the token. */
  lemma RunSpace(s: Scan, rest: string)
    requires s.quote == NoQuote && !s.escaped && s.haveToken
    ensures Run(s, " " + rest) == Run(s.(out := s.out + [s.current], current := "", haveToken := false), rest)
  {
    assert (" " + rest)[1..] == rest;
  }

  /** Parsing undoes backslashes and double quotes too, for every list of strings. */
  lemma ParseUndoesBackslashes(values: seq<string>, bare: bool)
    ensures ShellParse(JoinSpaces(DoubleQuoteAll(values, bare))) == Some(values)
  {
    if values == [] {
      assert DoubleQuoteAll(values, bare) == [];
    } else {
      RunDoubleQuotedList(START, values, bare);
      assert [] + values == values;
    }
  }

  /** Text in which every character stands for itself or separates. */
  predicate Plain(text: string) {
    forall r | r in text :: !IsSpecial(r)
  }

  /** Every space character is one the parser separates on. */
  predicate OnlySeparatorSpaces(text: string) {
    forall r | r in text :: IsSpace(r) ==> IsSeparator(r)
  }

  lemma {:induction false} PlainRun(s: Scan, text: string)
    requires s.quote == NoQuote && !s.escaped && (s.haveToken <==> s.current != "")
    requires Plain(text) && OnlySeparatorSpaces(text)
    ensures Finish(Run(s, text)) == Some(s.out + FieldsFrom(s.current, text))
    decreases |text|
  {
    if text == "" {
      assert s.out + [] == s.out;
    } else {
      var r := text[0];
      assert r in text;
      assert forall c | c in text[1..] :: c in text;
      PlainRun(Step(s, r), text[1..]);
      if IsSpace(r) {
        assert s.out + (Flush(s.current) + FieldsFrom("", text[1..]))
            == (s.out + Flush(s.current)) + FieldsFrom("", text[1..]);
        assert s.out + [] == s.out;
      }
    }
  }

  ghost predicate SomeTokenHas(tokens: seq<string>, c: char) {
    exists t | t in tokens :: c in t
  }

  /** A plain character that does not separate reaches some token. */
  lemma {:induction false} PlainRunKeeps(s: Scan, text: string, c: char)
    requires s.quote == NoQuote && !s.escaped && (s.haveToken <==> s.current != "")
    requires Plain(text)
    requires c in s.current || SomeTokenHas(s.out, c) || (c in text && !IsSeparator(c))
    ensures Finish(Run(s, text)).Some? && SomeTokenHas(Finish(Run(s, text)).value, c)
    decreases |text|
  {
    if text == "" {
      if c in s.current {
        assert s.current in s.out + [s.current];
      } else {
        var t :| t in s.out && c in t;
        assert t in s.out + [s.current];
      }
    } else {
      var s' := Step(s, text[0]);
      assert text[0] in text;
      assert forall r | r in text[1..] :: r in text;
      if SomeTokenHas(s.out, c) {
        var t :| t in s.out && c in t;
        assert t in s'.out;
      } else if c in s.current {
        assert s'.out == s.out + [s.current] ==> s.current in s'.out;
        assert c in s'.current || SomeTokenHas(s'.out, c);
      } else if c != text[0] {
        assert c in text[1..];
      }
      PlainRunKeeps(s', text[1..], c);
    }
  }

  lemma {:induction false} FieldsHaveNoSpace(word: string, text: string, c: char)
    requires IsSpace(c) && c !in word
    ensures !SomeTokenHas(FieldsFrom(word, text), c)
    decreases |text|
  {
    if text == "" {
    } else if IsSpace(text[0]) {
      FieldsHaveNoSpace("", text[1..], c);
    } else {
      FieldsHaveNoSpace(word + [text[0]], text[1..], c);
    }
  }

  /** On plain text the state machine is the field split exactly when the text is blank or holds no
      space character, such as a no-break space, that only the field split separates on. */
  lemma PlainParseIsFieldSplit(text: string)
    requires Plain(text)
    ensures Parsed(text) == Fields(text) <==> Blank(text) || OnlySeparatorSpaces(text)
  {
    TrimEmptyIffBlank(text);
    if Blank(text) {
      BlankHasNoFields(text);
    } else if OnlySeparatorSpaces(text) {
      PlainRun(START, text);
      assert [] + Fields(text) == Fields(text);
    } else {
      var c :| c in text && IsSpace(c) && !IsSeparator(c);
      PlainRunKeeps(START, text, c);
      FieldsHaveNoSpace("", text, c);
    }
  }

  lemma {:induction false} BlankHasNoFields(text: string)
    requires Blank(text)
    ensures Fields(text) == []
  {
    if text != "" {
      assert text[0] in text;
      assert forall c | c in text[1..] :: c in text;
      BlankHasNoFields(text[1..]);
    }
  }
}
