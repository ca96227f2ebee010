/** The few text operations of the Go standard library that the command language relies on,
    over strings of Unicode scalar values. */
module Text {

  datatype Option<+T> = None | Some(value: T)

  /** unicode.IsSpace, code point by code point. */
  predicate IsSpace(c: char) {
    || c in "\t\n\r " || c == 0x0B as char || c == 0x0C as char
    || c == 0x85 as char || c == 0xA0 as char || c == 0x1680 as char
    || 0x2000 as char <= c <= 0x200A as char
    || c == 0x2028 as char || c == 0x2029 as char || c == 0x202F as char
    || c == 0x205F as char || c == 0x3000 as char
  }

  predicate Blank(s: string) {
    forall c | c in s :: IsSpace(c)
  }

  function TrimLeft(s: string): (t: string)
    ensures t != [] ==> !IsSpace(t[0])
  {
    if s != [] && IsSpace(s[0]) then TrimLeft(s[1..]) else s
  }

  function TrimRight(s: string): (t: string)
    ensures t <= s
    ensures t != [] ==> !IsSpace(t[|t| - 1])
  {
    if s != [] && IsSpace(s[|s| - 1]) then TrimRight(s[..|s| - 1]) else s
  }

  /** strings.TrimSpace. */
  function Trim(s: string): (t: string)
    ensures Trimmed(t)
  {
    TrimRight(TrimLeft(s))
  }

  predicate Trimmed(s: string) {
    s != [] ==> !IsSpace(s[0]) && !IsSpace(s[|s| - 1])
  }

  lemma TrimFixesTrimmed(s: string)
    requires Trimmed(s)
    ensures Trim(s) == s
  {
  }

  lemma {:induction false} TrimEmptyIffBlank(s: string)
    ensures Trim(s) == "" <==> Blank(s)
  {
    if s == "" {
    } else if IsSpace(s[0]) {
      TrimEmptyIffBlank(s[1..]);
      assert s == [s[0]] + s[1..];
    } else {
      assert TrimLeft(s) == s;
      TrimRightKeepsFirst(s);
      assert s[0] in s;
    }
  }

  lemma {:induction false} TrimRightKeepsFirst(s: string)
    requires s != "" && !IsSpace(s[0])
    ensures TrimRight(s) != ""
  {
    if |s| > 1 && IsSpace(s[|s| - 1]) {
      TrimRightKeepsFirst(s[..|s| - 1]);
    }
  }

  /** Trimming cuts off white space and nothing else. */
  lemma {:induction false} TrimCuts(s: string) returns (before: string, after: string)
    ensures s == before + Trim(s) + after && Blank(before) && Blank(after)
  {
    var left;
    before, left := LeftCut(s);
    after := RightCut(left);
  }

  lemma {:induction false} LeftCut(s: string) returns (before: string, left: string)
    ensures left == TrimLeft(s) && s == before + left && Blank(before)
  {
    before, left := "", s;
    if s != [] && IsSpace(s[0]) {
      before, left := LeftCut(s[1..]);
      before := [s[0]] + before;
    }
  }

  lemma {:induction false} RightCut(s: string) returns (after: string)
    ensures s == TrimRight(s) + after && Blank(after)
  {
    after := "";
    if s != [] && IsSpace(s[|s| - 1]) {
      after := RightCut(s[..|s| - 1]);
      after := after + [s[|s| - 1]];
    }
  }

  /** A finished word, unless it is empty. */
  function Flush(word: string): seq<string> {
    if word == "" then [] else [word]
  }

  /** strings.Fields: the maximal runs of non-space characters; `word` is the run being read. */
  function FieldsFrom(word: string, s: string): seq<string>
    decreases |s|
  {
    if s == "" then Flush(word)
    else if IsSpace(s[0]) then Flush(word) + FieldsFrom("", s[1..])
    else FieldsFrom(word + [s[0]], s[1..])
  }

  function Fields(s: string): seq<string> {
    FieldsFrom("", s)
  }

  /** White space splits wherever it stands, and nothing else does. */
  lemma {:induction false} FieldsSplit(word: string, a: string, space: char, b: string)
    requires IsSpace(space)
    ensures FieldsFrom(word, a + [space] + b) == FieldsFrom(word, a) + Fields(b)
    ensures (forall c | c in a :: !IsSpace(c)) ==> FieldsFrom(word, a) == Flush(word + a)
    decreases |a|
  {
    if a == "" {
      assert (a + [space] + b)[1..] == b && word + a == word;
    } else {
      assert (a + [space] + b)[1..] == a[1..] + [space] + b && (a + [space] + b)[0] == a[0] && a[0] in a;
      assert (word + [a[0]]) + a[1..] == word + a && forall c | c in a[1..] :: c in a;
      FieldsSplit(if IsSpace(a[0]) then "" else word + [a[0]], a[1..], space, b);
    }
  }

  /** strings.Join with a single space. */
  function JoinSpaces(parts: seq<string>): string {
    if parts == [] then ""
    else if |parts| == 1 then parts[0]
    else parts[0] + " " + JoinSpaces(parts[1..])
  }

  lemma JoinSpacesCons(part: string, rest: seq<string>)
    ensures JoinSpaces([part] + rest) == if rest == [] then part else part + (" " + JoinSpaces(rest))
  {
    assert ([part] + rest)[1..] == rest;
  }
}
