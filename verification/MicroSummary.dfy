/** The byte-budget summarizer of micro compaction (summarizeMessages, internal/compact/micro.go).
    A character here is one byte of UTF-8. */
module MicroSummary {
  import opened Utf8

  /** `line` is what microLine renders for the message, "" for nothing; `details` is the rest of what the
      digest covers. */
  datatype Message = Message(line: string, details: nat)

  function Join(lines: seq<string>): string {
    if lines == [] then ""
    else if |lines| == 1 then lines[0]
    else lines[0] + "\n" + Join(lines[1..])
  }

  /** The non-empty lines. */
  function Lines(messages: seq<Message>): (lines: seq<string>)
    ensures forall l | l in lines :: l != ""
  {
    if messages == [] then []
    else (if messages[0].line == "" then [] else [messages[0].line]) + Lines(messages[1..])
  }

  /** The lines that fit, the last one cut to size. */
  function Greedy(lines: seq<string>, remaining: int): seq<string> {
    if lines == [] || remaining <= 0 then []
    else
      var line := if |lines[0]| > remaining then lines[0][..remaining] else lines[0];
      [line] + Greedy(lines[1..], remaining - |line| - 1)
  }

  const NO_MESSAGES := "No previous messages to microcompact."
  const NO_TEXT := "Previous messages contained no text summary."

  function Summarize(messages: seq<Message>, maxChars: int): string {
    if messages == [] then NO_MESSAGES
    else if Greedy(Lines(messages), maxChars) == [] then NO_TEXT
    else Join(Greedy(Lines(messages), maxChars))
  }

  method SummarizeMessages(messages: seq<Message>, maxChars: int) returns (summary: string)
    ensures summary == Summarize(messages, maxChars)
  {
    if |messages| == 0 {
      return NO_MESSAGES;
    }
    hide Rest, Join;
    var lines: seq<string>, remaining := [], maxChars;
    var i := 0;
    assert lines + Rest(messages, 0, maxChars) == Rest(messages, 0, maxChars);
    while i < |messages| && remaining > 0
      invariant 0 <= i <= |messages|
      invariant lines + Rest(messages, i, remaining) == Rest(messages, 0, maxChars)
    {
      var line := messages[i].line;
      RestNext(messages, i, remaining, lines);
      i := i + 1;
      if line == "" {
        continue;
      }
      if |line| > remaining {
        line := line[..remaining];
      }
      lines := lines + [line];
      remaining := remaining - (|line| + 1);
    }
    RestEnds(messages, i, remaining, lines);
    RestStarts(messages, maxChars);
    if |lines| == 0 {
      return NO_TEXT;
    }
    summary := Join(lines);
  }

  /** The lines that messages from the i-th on still contribute. */
  function Rest(messages: seq<Message>, i: nat, remaining: int): seq<string>
    requires i <= |messages|
  {
    Greedy(Lines(messages[i..]), remaining)
  }

  lemma RestStarts(messages: seq<Message>, maxChars: int)
    ensures Rest(messages, 0, maxChars) == Greedy(Lines(messages), maxChars)
  {
    assert messages[0..] == messages;
  }

  lemma RestNext(messages: seq<Message>, i: nat, remaining: int, lines: seq<string>)
    requires i < |messages| && remaining > 0
    ensures var line := messages[i].line;
      var kept := if |line| > remaining then line[..remaining] else line;
      lines + Rest(messages, i, remaining) ==
      if line == "" then lines + Rest(messages, i + 1, remaining)
      else (lines + [kept]) + Rest(messages, i + 1, remaining - |kept| - 1)
  {
    var line, rest := messages[i].line, Lines(messages[i + 1..]);
    LinesAt(messages, i);
    assert [] + rest == rest;
    hide Lines;
    GreedyStep(line, rest, remaining);
  }

  lemma RestEnds(messages: seq<Message>, i: nat, remaining: int, lines: seq<string>)
    requires i <= |messages| && (i == |messages| || remaining <= 0)
    ensures lines + Rest(messages, i, remaining) == lines
  {
    NoLines(messages[i..]);
    GreedyEnds(Lines(messages[i..]), remaining);
  }

  lemma LinesAt(messages: seq<Message>, i: nat)
    requires i < |messages|
    ensures Lines(messages[i..]) ==
            (if messages[i].line == "" then [] else [messages[i].line]) + Lines(messages[i + 1..])
  {
    assert messages[i..][1..] == messages[i + 1..];
  }

  lemma NoLines(messages: seq<Message>)
    ensures messages == [] ==> Lines(messages) == []
  {
  }

  lemma GreedyStep(line: string, rest: seq<string>, remaining: int)
    requires remaining > 0
    ensures var kept := if |line| > remaining then line[..remaining] else line;
      Greedy([line] + rest, remaining) == [kept] + Greedy(rest, remaining - |kept| - 1)
  {
    assert ([line] + rest)[1..] == rest;
  }

  lemma GreedyEnds(lines: seq<string>, remaining: int)
    ensures remaining <= 0 || lines == [] ==> Greedy(lines, remaining) == []
  {
  }

  /** What the budget leaves of a text: all of it, or its first maxChars bytes, less a line break that
      would stand at the cut. */
  predicate Cut(out: string, text: string, maxChars: int) {
    && out <= text && |out| <= maxChars
    && (out == text || |out| == maxChars || (|out| == maxChars - 1 && text[|out|] == '\n'))
  }

  lemma {:induction false} GreedyIsCut(lines: seq<string>, maxChars: int)
    requires lines != [] && maxChars > 0 && forall l | l in lines :: l != ""
    ensures Greedy(lines, maxChars) != []
    ensures Cut(Join(Greedy(lines, maxChars)), Join(lines), maxChars)
  {
    var l, rest := lines[0], lines[1..];
    assert forall m | m in rest :: m in lines;
    if |l| >= maxChars - 1 || rest == [] {
      var line := if |l| > maxChars then l[..maxChars] else l;
      assert Greedy(rest, maxChars - |line| - 1) == [];
      assert Greedy(lines, maxChars) == [line];
      assert rest != [] ==> Join(lines) == l + "\n" + Join(rest);
    } else {
      var left := maxChars - |l| - 1;
      GreedyIsCut(rest, left);
      var more := Greedy(rest, left);
      assert Greedy(lines, maxChars)[1..] == more;
      assert Join(Greedy(lines, maxChars)) == l + "\n" + Join(more);
      assert Join(lines) == l + "\n" + Join(rest);
    }
  }

  /** With at least one non-empty line and a positive budget, the summary is the newline join of all
      non-empty lines, cut to the budget. */
  lemma SummaryIsCut(messages: seq<Message>, maxChars: int)
    requires Lines(messages) != [] && maxChars > 0
    ensures Cut(Summarize(messages, maxChars), Join(Lines(messages)), maxChars)
  {
    GreedyIsCut(Lines(messages), maxChars);
  }

  /** The text that is cut: what one message shows is its line, and a line break stands between what some messages
      show and what the next ones do, unless either shows nothing. */
  lemma TextIs(a: seq<Message>, m: Message, b: seq<Message>)
    ensures Join(Lines([m])) == m.line && (Lines([m]) == [] <==> m.line == "") && Lines([]) == []
    ensures var before, after := Join(Lines(a)), Join(Lines(b));
      Join(Lines(a + b)) ==
      if Lines(a) == [] then after else if Lines(b) == [] then before else before + "\n" + after
  {
    LinesAppend(a, b);
    assert [m][1..] == [];
    if Lines(a) != [] && Lines(b) != [] {
      JoinAppend(Lines(a), Lines(b));
    }
    assert [] + Lines(b) == Lines(b) && Lines(a) + [] == Lines(a);
  }

  lemma {:induction false} LinesAppend(a: seq<Message>, b: seq<Message>)
    ensures Lines(a + b) == Lines(a) + Lines(b)
  {
    if a == [] {
      assert a + b == b;
    } else {
      assert (a + b)[1..] == a[1..] + b;
      LinesAppend(a[1..], b);
    }
  }

  lemma {:induction false} JoinAppend(a: seq<string>, b: seq<string>)
    requires a != [] && b != []
    ensures Join(a + b) == Join(a) + "\n" + Join(b)
  {
    assert (a + b)[1..] == a[1..] + b;
    if |a| > 1 {
      JoinAppend(a[1..], b);
    } else {
      assert a[1..] + b == b;
    }
  }

  /** Without a line to show, the summary says so. */
  lemma SummaryOfNothing(messages: seq<Message>, maxChars: int)
    ensures Summarize([], maxChars) == "No previous messages to microcompact."
    ensures messages != [] && (Lines(messages) == [] || maxChars <= 0) ==>
              Summarize(messages, maxChars) == "Previous messages contained no text summary."
  {
  }

  // ---------- Two budgets ----------

  /** A line break of the join stands at position `n`: one line ends there and another follows. */
  predicate Breaks(lines: seq<string>, n: int) {
    |lines| > 1 && (n == |lines[0]| || Breaks(lines[1..], n - |lines[0]| - 1))
  }

  /** How much a budget leaves: everything that fits, but for a line break at the end. */
  function Kept(lines: seq<string>, maxChars: int): int {
    if |Join(lines)| <= maxChars then |Join(lines)| else if Breaks(lines, maxChars - 1) then maxChars - 1 else maxChars
  }

  lemma {:induction false} GreedyKeeps(lines: seq<string>, maxChars: int)
    requires lines != [] && maxChars > 0 && forall l | l in lines :: l != ""
    ensures Greedy(lines, maxChars) != [] && |Join(Greedy(lines, maxChars))| == Kept(lines, maxChars)
  {
    var l, rest := lines[0], lines[1..];
    assert forall m | m in rest :: m in lines;
    var line := if |l| > maxChars then l[..maxChars] else l;
    assert rest != [] ==> Join(lines) == l + "\n" + Join(rest) && rest[0] in lines;
    if |l| >= maxChars - 1 || rest == [] {
      assert Greedy(rest, maxChars - |line| - 1) == [];
      assert Greedy(lines, maxChars) == [line];
      BreaksLater(rest, maxChars - |l| - 2);
    } else {
      var left := maxChars - |l| - 1;
      GreedyKeeps(rest, left);
      var more := Greedy(rest, left);
      assert Greedy(lines, maxChars) == [l] + more && ([l] + more)[1..] == more;
      assert Join(Greedy(lines, maxChars)) == l + "\n" + Join(more);
      hide Greedy, Join;
    }
  }

  /** No line break stands before the end of the first line. */
  lemma {:induction false} BreaksLater(lines: seq<string>, n: int)
    requires forall l | l in lines :: l != ""
    ensures n <= 0 ==> !Breaks(lines, n)
  {
    if |lines| > 1 {
      assert lines[0] in lines && forall l | l in lines[1..] :: l in lines;
      BreaksLater(lines[1..], n - |lines[0]| - 1);
    }
  }

  /** Line breaks do not follow each other, and stand before the end. */
  lemma {:induction false} BreaksApart(lines: seq<string>, n: int)
    requires Breaks(lines, n) && forall l | l in lines :: l != ""
    ensures 0 < n < |Join(lines)| - 1 && !Breaks(lines, n - 1) && Join(lines)[n] == '\n'
  {
    var l, rest := lines[0], lines[1..];
    assert l in lines && rest[0] in lines && forall m | m in rest :: m in lines;
    JoinCons(lines);
    JoinCons(rest);
    hide Join;
    BreaksLater(rest, n - |l| - 1);
    BreaksLater(rest, n - |l| - 2);
    if n != |l| {
      BreaksApart(rest, n - |l| - 1);
    }
  }

  /** With lines that hold no line break themselves, every one in the join is between two lines. */
  lemma {:induction false} OnlyBreaks(lines: seq<string>, n: nat)
    requires lines != [] && n < |Join(lines)| && forall l | l in lines :: '\n' !in l
    ensures Breaks(lines, n) <==> Join(lines)[n] == '\n'
  {
    var l, rest := lines[0], lines[1..];
    JoinCons(lines);
    if rest == [] {
      assert l in lines && Join(lines) == l && l[n] in l;
    } else {
      JoinAt(l, Join(rest), n);
      hide Join;
      if n < |l| {
        assert l in lines && l[n] in l;
        BreaksBeyond(rest, n - |l| - 1);
      } else if n > |l| {
        assert forall m | m in rest :: m in lines;
        OnlyBreaks(rest, n - |l| - 1);
      }
    }
  }

  lemma JoinAt(line: string, rest: string, n: nat)
    requires n < |line + "\n" + rest|
    ensures (line + "\n" + rest)[n] ==
            if n < |line| then line[n] else if n == |line| then '\n' else rest[n - |line| - 1]
  {
  }

  lemma JoinCons(lines: seq<string>)
    requires lines != []
    ensures Join(lines) == if |lines| == 1 then lines[0] else lines[0] + "\n" + Join(lines[1..])
  {
  }

  lemma {:induction false} BreaksBeyond(lines: seq<string>, n: int)
    ensures n < 0 ==> !Breaks(lines, n)
  {
    if |lines| > 1 {
      BreaksBeyond(lines[1..], n - |lines[0]| - 1);
    }
  }

  /** Two budgets cut the text alike: both leave all of it, or they differ by one and the smaller one ends just
      before a line break. */
  predicate CutAlike(messages: seq<Message>, a: int, b: int) {
    var lines, least, most := Lines(messages), if a < b then a else b, if a < b then b else a;
    a == b || lines == [] || |Join(lines)| <= least || (most == least + 1 && Breaks(lines, least))
  }

  /** That is exactly when the two summaries agree. */
  lemma SummariesAgreeExactly(messages: seq<Message>, a: int, b: int)
    requires a > 0 && b > 0
    ensures Summarize(messages, a) == Summarize(messages, b) <==> CutAlike(messages, a, b)
  {
    var lines := Lines(messages);
    if lines == [] {
    } else {
      var least, most := if a < b then a else b, if a < b then b else a;
      GreedyIsCut(lines, least);
      GreedyIsCut(lines, most);
      GreedyKeeps(lines, least);
      GreedyKeeps(lines, most);
      assert messages != [];
      var out, text := Join(Greedy(lines, least)), Join(lines);
      hide Greedy, Join, Lines;
      SamePrefix(text, out, Join(Greedy(lines, most)));
      if Breaks(lines, least) {
        BreaksApart(lines, least);
      }
    }
  }

  lemma SamePrefix(text: string, a: string, b: string)
    requires a <= text && b <= text
    ensures a == b <==> |a| == |b|
  {
  }

  /** The budget counts bytes: the summary of valid lines is valid text exactly if it is not cut inside a
      character. */
  lemma CutIsWhole(messages: seq<Message>, maxChars: int)
    requires Lines(messages) != [] && maxChars > 0 && Valid(Join(Lines(messages)))
    ensures var out, text := Summarize(messages, maxChars), Join(Lines(messages));
      out <= text && (Valid(out) <==> |out| == |text| || !Continuation(text[|out|]))
  {
    var out, text := Summarize(messages, maxChars), Join(Lines(messages));
    SummaryIsCut(messages, maxChars);
    assert out == text[..|out|];
    ValidPrefix(text, |out|);
  }

  const E_ACUTE: string := ['\U{C3}', '\U{A9}']

  /** A budget of seven bytes cuts the two bytes of an e with acute apart. */
  lemma CutInsideCharacter()
    ensures var line := "user: " + E_ACUTE;
      && Valid(line) && Summarize([Message(line, 0)], 7) == "user: " + ['\U{C3}']
      && ToValid(Summarize([Message(line, 0)], 7)) == "user: " + REPLACEMENT
  {
    var line, cut := "user: " + E_ACUTE, "user: " + ['\U{C3}'];
    AsciiPrefix("user: ", E_ACUTE);
    AsciiPrefix("user: ", ['\U{C3}']);
    assert E_ACUTE[2..] == "";
    assert ['\U{C3}'][1..] == "";
    assert REPLACEMENT + "" == REPLACEMENT;
    var messages := [Message(line, 0)];
    assert messages[1..] == [];
    assert Lines(messages) == [line];
    assert line[..7] == cut;
    assert Greedy([line], 7) == [cut] + Greedy([line][1..], -1) == [cut];
  }
}
