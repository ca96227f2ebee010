/** The grammar of an argument line, and the proof that the parser of prompt.go reads exactly that
    (internal/commands/prompt.go). */
module ArgumentGrammar {
  import opened Text
  import opened Arguments
  import opened FirstSeen

  /** A character that stands for itself, or one behind a backslash. */
  datatype Item = Lit(c: char) | Esc(c: char)

  /** A part of a word: a character outside quotes, a text in single or in double quotes. */
  datatype Piece = Out(item: Item) | Single(text: string) | Double(items: seq<Item>)

  /** A word and the gap before it. */
  datatype Word = Word(gap: string, pieces: seq<Piece>)

  /** Space, tab, carriage return or newline. */
  predicate Gap(text: string) {
    forall c | c in text :: c == ' ' || c == '\t' || c == '\n' || c == '\r'
  }

  /** Inside double quotes everything but a double quote and a backslash stands for itself. */
  predicate InDouble(item: Item) {
    item.Esc? || (item.c != '"' && item.c != '\\')
  }

  /** Outside quotes, everything but quotes, backslashes and what makes a gap. */
  predicate Outside(item: Item) {
    item.Esc? || (item.c != '"' && item.c != '\'' && item.c != '\\' && !Gap([item.c]))
  }

  predicate AllInDouble(items: seq<Item>) {
    forall i | i in items :: InDouble(i)
  }

  predicate Fits(p: Piece) {
    match p
    case Out(item) => Outside(item)
    case Single(text) => '\'' !in text
    case Double(items) => AllInDouble(items)
  }

  predicate AllFit(pieces: seq<Piece>) {
    forall p | p in pieces :: Fits(p)
  }

  /** Words have pieces, and gaps between them. */
  predicate Line(words: seq<Word>) {
    forall i | 0 <= i < |words| ::
      words[i].pieces != [] && AllFit(words[i].pieces) && Gap(words[i].gap) && (i > 0 ==> words[i].gap != "")
  }

  // ---------- What is written, and what it means ----------

  function WriteItem(item: Item): string {
    if item.Lit? then [item.c] else ['\\', item.c]
  }

  function WriteItems(items: seq<Item>): string {
    if items == [] then "" else WriteItem(items[0]) + WriteItems(items[1..])
  }

  function Write(p: Piece): string {
    match p
    case Out(item) => WriteItem(item)
    case Single(text) => "'" + text + "'"
    case Double(items) => "\"" + WriteItems(items) + "\""
  }

  function WritePieces(pieces: seq<Piece>): string {
    if pieces == [] then "" else Write(pieces[0]) + WritePieces(pieces[1..])
  }

  function WriteLine(words: seq<Word>): string {
    if words == [] then "" else words[0].gap + WritePieces(words[0].pieces) + WriteLine(words[1..])
  }

  function ItemsMean(items: seq<Item>): string {
    if items == [] then "" else [items[0].c] + ItemsMean(items[1..])
  }

  function Means(p: Piece): string {
    match p
    case Out(item) => [item.c]
    case Single(text) => text
    case Double(items) => ItemsMean(items)
  }

  function PiecesMean(pieces: seq<Piece>): string {
    if pieces == [] then "" else Means(pieces[0]) + PiecesMean(pieces[1..])
  }

  function WordsMean(words: seq<Word>): seq<string> {
    if words == [] then [] else [PiecesMean(words[0].pieces)] + WordsMean(words[1..])
  }

  /** The end of a line that stops within quotes or behind a backslash. */
  predicate Broken(end: string, items: seq<Item>) {
    || end == "\\"
    || (end != "" && end[0] == '\'' && '\'' !in end[1..])
    || (AllInDouble(items) && (end == "\"" + WriteItems(items) || end == "\"" + WriteItems(items) + "\\"))
  }

  // ---------- The parser on what is written ----------

  lemma RunOne(s: Scan, c: char)
    ensures Run(s, [c]) == Step(s, c)
  {
    assert [c][1..] == "";
  }

  lemma {:induction false} RunGap(s: Scan, gap: string)
    requires s.quote == NoQuote && !s.escaped && Gap(gap)
    ensures Run(s, gap) == if gap == "" || !s.haveToken then s
                           else s.(out := s.out + [s.current], current := "", haveToken := false)
    decreases |gap|
  {
    if gap != "" {
      assert gap[0] in gap && forall c | c in gap[1..] :: c in gap;
      RunGap(Step(s, gap[0]), gap[1..]);
    }
  }

  lemma RunItem(s: Scan, item: Item)
    requires !s.escaped && s.quote != Open('\'')
    requires if s.quote == NoQuote then Outside(item) else s.quote == Open('"') && InDouble(item)
    ensures Run(s, WriteItem(item)) == s.(current := s.current + [item.c], haveToken := true)
  {
    if item.Lit? {
      RunOne(s, item.c);
      assert Gap([item.c]) || !IsSeparator(item.c);
    } else {
      assert ['\\', item.c] == ['\\', item.c] + "";
      BackslashTakes(s, item.c, "");
    }
  }

  lemma {:induction false} RunItems(s: Scan, items: seq<Item>)
    requires !s.escaped && s.quote == Open('"') && s.haveToken && AllInDouble(items)
    ensures Run(s, WriteItems(items)) == s.(current := s.current + ItemsMean(items))
    decreases |items|
  {
    if items == [] {
      assert s.current + "" == s.current;
    } else {
      ItemsCons(s.current, items);
      hide Run, WriteItem, WriteItems, ItemsMean;
      RunItem(s, items[0]);
      RunAppend(s, WriteItem(items[0]), WriteItems(items[1..]));
      RunItems(s.(current := s.current + [items[0].c]), items[1..]);
    }
  }

  lemma ItemsCons(before: string, items: seq<Item>)
    requires items != [] && AllInDouble(items)
    ensures WriteItems(items) == WriteItem(items[0]) + WriteItems(items[1..])
    ensures before + ItemsMean(items) == (before + [items[0].c]) + ItemsMean(items[1..])
    ensures InDouble(items[0]) && AllInDouble(items[1..])
  {
    Regroup(before, [items[0].c], ItemsMean(items[1..]));
    hide WriteItem, InDouble;
    assert items[0] in items && forall i | i in items[1..] :: i in items;
  }

  lemma {:induction false} RunSingle(s: Scan, text: string)
    requires !s.escaped && s.quote == Open('\'') && s.haveToken && '\'' !in text
    ensures Run(s, text) == s.(current := s.current + text)
    decreases |text|
  {
    if text == "" {
      assert s.current + "" == s.current;
    } else {
      var s' := s.(current := s.current + [text[0]]);
      RunSingle(s', text[1..]);
      assert s'.current + text[1..] == s.current + text;
    }
  }

  lemma RunPiece(s: Scan, p: Piece)
    requires !s.escaped && s.quote == NoQuote && Fits(p)
    ensures Run(s, Write(p)) == s.(current := s.current + Means(p), haveToken := true)
  {
    match p
    case Out(item) => RunItem(s, item);
    case Single(text) =>
      RunSingle(s.(quote := Open('\''), haveToken := true), text);
      RunQuotes(s, '\'', text);
    case Double(items) =>
      RunItems(s.(quote := Open('"'), haveToken := true), items);
      RunQuotes(s, '"', WriteItems(items));
  }

  /** A text between quotes, by how the parser runs through it. */
  lemma RunQuotes(s: Scan, mark: char, inside: string)
    requires !s.escaped && s.quote == NoQuote && (mark == '"' || mark == '\'')
    ensures var end := Run(s.(quote := Open(mark), haveToken := true), inside);
      && Run(s, [mark] + inside) == end
      && (!end.escaped && end.quote == Open(mark) ==>
            Run(s, [mark] + inside + [mark]) == end.(quote := NoQuote, haveToken := true))
  {
    RunOne(s, mark);
    RunAppend(s, [mark], inside);
    var end := Run(s.(quote := Open(mark), haveToken := true), inside);
    RunAppend(s, [mark] + inside, [mark]);
    RunOne(end, mark);
    hide Run;
  }

  lemma {:induction false} RunPieces(s: Scan, pieces: seq<Piece>)
    requires !s.escaped && s.quote == NoQuote && AllFit(pieces)
    ensures Run(s, WritePieces(pieces)) ==
            s.(current := s.current + PiecesMean(pieces), haveToken := s.haveToken || pieces != [])
    decreases |pieces|
  {
    if pieces == [] {
      assert s.current + "" == s.current;
    } else {
      PiecesCons(s.current, pieces);
      hide Run, Write, WritePieces, Means, PiecesMean, Fits, AllFit;
      RunPiece(s, pieces[0]);
      RunAppend(s, Write(pieces[0]), WritePieces(pieces[1..]));
      RunPieces(s.(current := s.current + Means(pieces[0]), haveToken := true), pieces[1..]);
    }
  }

  lemma PiecesCons(before: string, pieces: seq<Piece>)
    requires pieces != [] && AllFit(pieces)
    ensures WritePieces(pieces) == Write(pieces[0]) + WritePieces(pieces[1..])
    ensures before + PiecesMean(pieces) == (before + Means(pieces[0])) + PiecesMean(pieces[1..])
    ensures Fits(pieces[0]) && AllFit(pieces[1..])
  {
    hide Write, Means, Fits;
    Regroup(before, Means(pieces[0]), PiecesMean(pieces[1..]));
    assert pieces[0] in pieces && forall p | p in pieces[1..] :: p in pieces;
  }

  /** Where the parser stands behind the words of a line, `tokens` already put out. */
  predicate Stands(s: Scan, tokens: seq<string>) {
    && s.quote == NoQuote && !s.escaped
    && (if s.haveToken then s.out + [s.current] else s.out) == tokens && (!s.haveToken ==> s.current == "")
  }

  lemma {:induction false} RunLine(s: Scan, tokens: seq<string>, words: seq<Word>)
    requires Stands(s, tokens) && Line(words) && (words != [] && s.haveToken ==> words[0].gap != "")
    ensures Stands(Run(s, WriteLine(words)), tokens + WordsMean(words))
    decreases |words|
  {
    if words == [] {
      assert tokens + [] == tokens;
    } else {
      WordsCons(tokens, words);
      var w, rest := words[0], words[1..];
      hide Run, WritePieces, PiecesMean, WriteLine, WordsMean, AllFit, Gap;
      RunWord(s, tokens, w);
      RunAppend(s, w.gap + WritePieces(w.pieces), WriteLine(rest));
      RunLine(Run(s, w.gap + WritePieces(w.pieces)), tokens + [PiecesMean(w.pieces)], rest);
    }
  }

  lemma WordsCons(tokens: seq<string>, words: seq<Word>)
    requires words != [] && Line(words)
    ensures WriteLine(words) == (words[0].gap + WritePieces(words[0].pieces)) + WriteLine(words[1..])
    ensures tokens + WordsMean(words) == (tokens + [PiecesMean(words[0].pieces)]) + WordsMean(words[1..])
    ensures Line(words[1..]) && (|words| > 1 ==> words[1].gap != "")
  {
    LineTail(words);
    Regroup(tokens, [PiecesMean(words[0].pieces)], WordsMean(words[1..]));
    hide WritePieces, PiecesMean, AllFit, Gap;
  }

  lemma LineTail(words: seq<Word>)
    requires words != [] && Line(words)
    ensures Line(words[1..])
  {
    hide AllFit, Gap;
    assert forall i | 0 <= i < |words| - 1 :: words[1..][i] == words[i + 1];
  }

  lemma RunWord(s: Scan, tokens: seq<string>, w: Word)
    requires Stands(s, tokens) && Gap(w.gap) && AllFit(w.pieces) && w.pieces != [] && (s.haveToken ==> w.gap != "")
    ensures Stands(Run(s, w.gap + WritePieces(w.pieces)), tokens + [PiecesMean(w.pieces)])
  {
    var s' := Run(s, w.gap);
    RunGap(s, w.gap);
    RunPieces(s', w.pieces);
    assert "" + PiecesMean(w.pieces) == PiecesMean(w.pieces);
    RunAppend(s, w.gap, WritePieces(w.pieces));
    hide Run, WritePieces, PiecesMean;
  }

  /** The parser reads every line as its words, whatever pieces they are made of and whatever gaps are between them;
      and it fails on every line that ends within quotes or behind a backslash. */
  lemma LineIsRead(words: seq<Word>, gap: string, pieces: seq<Piece>, end: string, items: seq<Item>)
    requires Line(words) && Gap(gap) && AllFit(pieces) && (pieces != [] && words != [] ==> gap != "")
    requires (end == "" && pieces == []) || Broken(end, items)
    ensures ShellParse(WriteLine(words) + gap + WritePieces(pieces) + end) ==
            if end == "" then Some(WordsMean(words)) else None
  {
    var s := Run(START, WriteLine(words));
    RunLine(START, [], words);
    assert [] + WordsMean(words) == WordsMean(words);
    var s1 := Run(s, gap);
    RunGap(s, gap);
    RunAppend(START, WriteLine(words), gap);
    var s2 := Run(s1, WritePieces(pieces));
    RunPieces(s1, pieces);
    RunAppend(START, WriteLine(words) + gap, WritePieces(pieces));
    RunAppend(START, WriteLine(words) + gap + WritePieces(pieces), end);
    if end == "" {
      assert s1.current + "" == s1.current;
    } else {
      BrokenEnd(s2, end, items);
    }
    hide Run, WriteLine, WritePieces, Broken;
  }

  lemma BrokenEnd(s: Scan, end: string, items: seq<Item>)
    requires !s.escaped && s.quote == NoQuote && Broken(end, items)
    ensures Finish(Run(s, end)) == None
  {
    if end == "\\" {
      RunOne(s, '\\');
    } else if end[0] == '\'' && '\'' !in end[1..] {
      assert end == ['\''] + end[1..];
      RunQuotes(s, '\'', end[1..]);
      RunSingle(s.(quote := Open('\''), haveToken := true), end[1..]);
    } else {
      var quoted := s.(quote := Open('"'), haveToken := true);
      RunQuotes(s, '"', WriteItems(items));
      RunItems(quoted, items);
      RunAppend(s, "\"" + WriteItems(items), "\\");
      RunOne(Run(s, "\"" + WriteItems(items)), '\\');
      hide Run;
    }
  }

  // ---------- Every text is such a line ----------

  lemma {:induction false} FindQuote(text: string) returns (inside: string, rest: string, closed: bool)
    ensures '\'' !in inside && text == if closed then inside + "'" + rest else inside
    ensures closed ==> |rest| < |text|
    decreases |text|
  {
    if text == "" || text[0] == '\'' {
      inside, rest, closed := "", text[if text == "" then 0 else 1..], text != "";
    } else {
      inside, rest, closed := FindQuote(text[1..]);
      assert text == [text[0]] + text[1..];
      inside := [text[0]] + inside;
    }
  }

  /** What follows an opening double quote: items up to the closing one, or up to the end of the text, perhaps with
      a backslash left over. */
  lemma {:induction false} ReadItems(text: string) returns (items: seq<Item>, rest: string, closed: bool)
    ensures AllInDouble(items)
    ensures if closed then text == WriteItems(items) + "\"" + rest && |rest| < |text|
            else text == WriteItems(items) || text == WriteItems(items) + "\\"
    decreases |text|
  {
    items, rest, closed := [], "", false;
    if text == "" || text == "\\" {
    } else if text[0] == '"' {
      rest, closed := text[1..], true;
      assert text == [text[0]] + text[1..];
    } else {
      var item := if text[0] == '\\' then Esc(text[1]) else Lit(text[0]);
      var n := if text[0] == '\\' then 2 else 1;
      items, rest, closed := ReadItems(text[n..]);
      assert text == WriteItem(item) + text[n..];
      WriteItemsCons(item, items);
      items := [item] + items;
    }
  }

  lemma WriteItemsCons(item: Item, items: seq<Item>)
    ensures WriteItems([item] + items) == WriteItem(item) + WriteItems(items)
    ensures InDouble(item) && AllInDouble(items) ==> AllInDouble([item] + items)
  {
    assert ([item] + items)[1..] == items;
  }

  lemma WritePiecesCons(p: Piece, pieces: seq<Piece>)
    ensures WritePieces([p] + pieces) == Write(p) + WritePieces(pieces)
    ensures Fits(p) && AllFit(pieces) ==> AllFit([p] + pieces)
  {
    assert ([p] + pieces)[1..] == pieces;
  }

  /** The pieces up to the next gap, or a broken end. */
  lemma {:induction false} ReadPieces(text: string)
    returns (pieces: seq<Piece>, end: string, items: seq<Item>, rest: string)
    ensures AllFit(pieces) && text == WritePieces(pieces) + end + rest
    ensures if end == "" then rest == "" || Gap([rest[0]]) else rest == "" && Broken(end, items)
    ensures if text == "" || Gap([text[0]]) then pieces == [] else end == "" ==> pieces != [] && |rest| < |text|
    decreases |text|
  {
    pieces, end, items, rest := [], "", [], text;
    if text == "" || Gap([text[0]]) {
      assert text == "" + "" + text;
    } else if text == "\\" {
      end, rest := text, "";
    } else {
      var p, more;
      p, more, end, items := ReadPiece(text);
      hide Write, WritePieces, Fits, AllFit, Broken;
      if end == "" {
        pieces, end, items, rest := ReadPieces(more);
        WritePiecesCons(p, pieces);
        Regrouped(Write(p), WritePieces(pieces), end, rest);
        pieces := [p] + pieces;
      } else {
        rest := "";
        assert text == "" + end + "";
      }
    }
  }

  lemma Regrouped(a: string, b: string, c: string, d: string)
    ensures a + (b + c + d) == (a + b) + c + d
  {
  }

  lemma ReadPiece(text: string) returns (p: Piece, rest: string, end: string, items: seq<Item>)
    requires text != "" && text != "\\" && !Gap([text[0]])
    ensures if end == "" then Fits(p) && text == Write(p) + rest && |rest| < |text|
            else text == end && Broken(end, items)
  {
    var closed;
    p, rest, end, items := Single(""), "", "", [];
    assert text == [text[0]] + text[1..];
    if text[0] == '\'' {
      var inside;
      inside, rest, closed := FindQuote(text[1..]);
      p := Single(inside);
      if !closed { end := text; }
    } else if text[0] == '"' {
      items, rest, closed := ReadItems(text[1..]);
      p := Double(items);
      if !closed {
        end := text;
        assert text == "\"" + WriteItems(items) || text == "\"" + WriteItems(items) + "\\";
      } else {
        assert text == "\"" + WriteItems(items) + "\"" + rest;
      }
    } else if text[0] == '\\' {
      p, rest := Out(Esc(text[1])), text[2..];
      assert text == [text[0], text[1]] + text[2..];
    } else {
      p, rest := Out(Lit(text[0])), text[1..];
    }
  }

  lemma {:induction false} ReadGap(text: string) returns (gap: string, rest: string)
    ensures Gap(gap) && text == gap + rest && (rest != "" ==> !Gap([rest[0]]))
    ensures text != "" ==> (Gap([text[0]]) <==> gap != "")
    decreases |text|
  {
    gap, rest := "", text;
    if text != "" && Gap([text[0]]) {
      gap, rest := ReadGap(text[1..]);
      assert text[0] in [text[0]];
      gap := [text[0]] + gap;
    }
  }

  lemma WriteLineCons(word: Word, words: seq<Word>)
    ensures WriteLine([word] + words) == (word.gap + WritePieces(word.pieces)) + WriteLine(words)
    ensures (Line(words) && AllFit(word.pieces) && word.pieces != [] && Gap(word.gap)
             && (words != [] ==> words[0].gap != "")) ==> Line([word] + words)
  {
    hide AllFit, Gap, WritePieces;
    assert ([word] + words)[1..] == words;
    assert forall i | 1 <= i < |words| + 1 :: ([word] + words)[i] == words[i - 1];
  }

  lemma NothingWritten()
    ensures Line([]) && WriteLine([]) == "" && WritePieces([]) == "" && AllFit([])
  {
  }

  lemma RegroupedFive(a: string, b: string, c: string, d: string, e: string)
    ensures a + (b + c + d + e) == (a + b) + c + d + e
  {
  }

  /** Any text is a line of words with a gap behind it, or such a line that goes on and breaks off. */
  lemma {:induction false} EveryTextIsLine(text: string)
    returns (words: seq<Word>, gap: string, pieces: seq<Piece>, end: string, items: seq<Item>)
    ensures Line(words) && Gap(gap) && AllFit(pieces) && ((end == "" && pieces == []) || Broken(end, items))
    ensures text == WriteLine(words) + gap + WritePieces(pieces) + end
    ensures pieces != [] && words != [] ==> gap != ""
    ensures text == "" || Gap([text[0]]) ==> (words != [] ==> words[0].gap != "") && (pieces != [] ==> gap != "")
    decreases |text|
  {
    hide WriteLine, WritePieces, Broken, AllFit, Line;
    NothingWritten();
    var rest, more;
    words, end, items := [], "", [];
    gap, rest := ReadGap(text);
    pieces, end, items, more := ReadPieces(rest);
    if end == "" && pieces != [] {
      var word := Word(gap, pieces);
      words, gap, pieces, end, items := EveryTextIsLine(more);
      WriteLineCons(word, words);
      assert text == (word.gap + WritePieces(word.pieces)) + (WriteLine(words) + gap + WritePieces(pieces) + end);
      RegroupedFive(word.gap + WritePieces(word.pieces), WriteLine(words), gap, WritePieces(pieces), end);
      words := [word] + words;
    }
  }

  /** So a text is read exactly if it does not break off, as the words it is made of; one that does is split at
      white space instead. */
  lemma ParsesExactly(text: string)
    returns (words: seq<Word>, gap: string, pieces: seq<Piece>, end: string, items: seq<Item>)
    ensures Line(words) && Gap(gap) && AllFit(pieces) && ((end == "" && pieces == []) || Broken(end, items))
    ensures text == WriteLine(words) + gap + WritePieces(pieces) + end
    ensures ShellParse(text) == if end == "" then Some(WordsMean(words)) else None
    ensures Parsed(text) == if Blank(text) then [] else if end == "" then WordsMean(words) else Fields(text)
  {
    words, gap, pieces, end, items := EveryTextIsLine(text);
    LineIsRead(words, gap, pieces, end, items);
    TrimEmptyIffBlank(text);
    hide ShellParse, Trim, Blank, WriteLine, WritePieces, Broken, Line;
  }
}
