/** UTF-8 as Go's utf8 and encoding/json packages read it. A character here is one byte. */
module Utf8 {

  /** A byte that only continues an encoded rune. */
  predicate Continuation(c: char) {
    0x80 <= c as int < 0xC0
  }

  /** `n` if `s` begins with a rune of `n` bytes whose second byte lies in lo..hi, else 0. */
  function Rune(s: string, n: nat, lo: int, hi: int): nat
    requires n >= 2
  {
    if |s| >= n && lo <= s[1] as int <= hi && (forall i | 2 <= i < n :: Continuation(s[i])) then n else 0
  }

  /** How many bytes the rune at the head of `s` takes; 0 if `s` is empty or begins with no valid rune. */
  function RuneLength(s: string): (n: nat)
    ensures n <= |s|
  {
    if s == "" then 0
    else
      var b := s[0] as int;
      if b < 0x80 then 1
      else if 0xC2 <= b <= 0xDF then Rune(s, 2, 0x80, 0xBF)
      else if b == 0xE0 then Rune(s, 3, 0xA0, 0xBF)
      else if b == 0xED then Rune(s, 3, 0x80, 0x9F)
      else if 0xE1 <= b <= 0xEF then Rune(s, 3, 0x80, 0xBF)
      else if b == 0xF0 then Rune(s, 4, 0x90, 0xBF)
      else if 0xF1 <= b <= 0xF3 then Rune(s, 4, 0x80, 0xBF)
      else if b == 0xF4 then Rune(s, 4, 0x80, 0x8F)
      else 0
  }

  predicate Valid(s: string)
    decreases |s|
  {
    s == "" || (RuneLength(s) > 0 && Valid(s[RuneLength(s)..]))
  }

  /** U+FFFD. */
  const REPLACEMENT: string := ['\U{EF}', '\U{BF}', '\U{BD}']

  /** A string written as JSON and read back: each byte that begins no valid rune becomes U+FFFD. */
  function ToValid(s: string): (t: string)
    ensures |t| >= |s|
    decreases |s|
  {
    if s == "" then ""
    else
      var n := RuneLength(s);
      if n > 0 then s[..n] + ToValid(s[n..]) else REPLACEMENT + ToValid(s[1..])
  }

  /** JSON leaves exactly the valid strings alone. */
  lemma {:induction false} ToValidFixesExactly(s: string)
    ensures ToValid(s) == s <==> Valid(s)
    decreases |s|
  {
    if s != "" {
      var n := RuneLength(s);
      if n > 0 {
        ToValidFixesExactly(s[n..]);
        assert s == s[..n] + s[n..];
        assert ToValid(s) == s ==> ToValid(s)[n..] == s[n..];
      } else {
        assert |ToValid(s)| > |s|;
      }
    }
  }

  /** A rune is recognized by its own bytes. */
  lemma RuneLengthPrefix(s: string, n: nat)
    requires n <= |s|
    ensures RuneLength(s[..n]) == if RuneLength(s) <= n then RuneLength(s) else 0
    ensures forall i | 0 < i < RuneLength(s) :: Continuation(s[i])
    ensures RuneLength(s) > 0 ==> !Continuation(s[0])
  {
  }

  /** A prefix of valid text is valid exactly if it does not end inside a rune. */
  lemma {:induction false} ValidPrefix(s: string, n: nat)
    requires Valid(s) && n <= |s|
    ensures Valid(s[..n]) <==> n == |s| || !Continuation(s[n])
    decreases |s|
  {
    RuneLengthPrefix(s, n);
    var k := RuneLength(s);
    if k <= n && s != "" {
      ValidPrefix(s[k..], n - k);
      assert s[..n][k..] == s[k..][..n - k];
    }
  }

  lemma {:induction false} AsciiPrefix(a: string, s: string)
    requires forall c | c in a :: c as int < 0x80
    ensures Valid(a + s) == Valid(s) && ToValid(a + s) == a + ToValid(s)
    decreases |a|
  {
    hide Valid, ToValid;
    if a == "" {
      assert a + s == s && a + ToValid(s) == ToValid(s);
    } else {
      assert a[0] in a && forall c | c in a[1..] :: c in a;
      AsciiFirst(a[0], a[1..] + s);
      assert a + s == [a[0]] + (a[1..] + s);
      AsciiPrefix(a[1..], s);
      assert a + ToValid(s) == [a[0]] + (a[1..] + ToValid(s));
    }
  }

  lemma AsciiFirst(c: char, s: string)
    requires c as int < 0x80
    ensures Valid([c] + s) == Valid(s) && ToValid([c] + s) == [c] + ToValid(s)
  {
    assert RuneLength([c] + s) == 1;
    assert ([c] + s)[1..] == s && ([c] + s)[..1] == [c];
    hide RuneLength;
  }

  // ---------- Runes are encodings ----------

  /** A Unicode scalar value. */
  predicate Scalar(c: nat) {
    c <= 0x10FFFF && !(0xD800 <= c <= 0xDFFF)
  }

  /** The continuation byte that holds the lowest six bits of `c`. */
  function Tail(c: nat): char {
    (0x80 + c % 64) as char
  }

  /** Section 3 of RFC 3629. */
  function EncodeRune(c: nat): (s: string)
    requires Scalar(c)
    ensures s != ""
  {
    if c < 0x80 then [c as char]
    else if c < 0x800 then [(0xC0 + c / 64) as char, Tail(c)]
    else if c < 0x1_0000 then [(0xE0 + c / 4096) as char, Tail(c / 64), Tail(c)]
    else [(0xF0 + c / 262144) as char, Tail(c / 4096), Tail(c / 64), Tail(c)]
  }

  lemma EncodingIsRune(c: nat, rest: string)
    requires Scalar(c)
    ensures RuneLength(EncodeRune(c) + rest) == |EncodeRune(c)|
  {
    var s := EncodeRune(c) + rest;
    TailContinues(c);
    if 0x80 <= c < 0x800 {
      assert s[0] as int == 0xC0 + c / 64 && s[1] == Tail(c);
    } else if 0x800 <= c < 0x1_0000 {
      TailContinues(c / 64);
      assert s[0] as int == 0xE0 + c / 4096 && s[1] == Tail(c / 64) && s[2] == Tail(c);
      assert c / 4096 == 0 ==> c / 64 % 64 >= 0x20;
      assert c / 4096 == 0xD ==> c / 64 % 64 < 0x20;
    } else if 0x1_0000 <= c {
      TailContinues(c / 64);
      TailContinues(c / 4096);
      assert s[0] as int == 0xF0 + c / 262144 && s[1] == Tail(c / 4096) && s[2] == Tail(c / 64) && s[3] == Tail(c);
      assert c / 262144 == 0 ==> c / 4096 % 64 >= 0x10;
      assert c / 262144 == 4 ==> c / 4096 % 64 < 0x10;
    }
    hide EncodeRune;
  }

  lemma TailContinues(c: nat)
    ensures Continuation(Tail(c)) && Tail(c) as int == 0x80 + c % 64
  {
  }

  lemma Digits(high: nat, low: nat)
    requires low < 64
    ensures (64 * high + low) / 64 == high && (64 * high + low) % 64 == low
  {
  }

  lemma EncodesTwo(a: nat, x: nat)
    requires 0xC2 <= a <= 0xDF && x < 64
    ensures var c := 64 * (a - 0xC0) + x; Scalar(c) && EncodeRune(c) == [a as char, (0x80 + x) as char]
  {
    Digits(a - 0xC0, x);
  }

  lemma EncodesThree(a: nat, x: nat, y: nat)
    requires 0xE0 <= a <= 0xEF && x < 64 && y < 64 && (a == 0xE0 ==> x >= 0x20) && (a == 0xED ==> x < 0x20)
    ensures var c := 64 * (64 * (a - 0xE0) + x) + y;
      Scalar(c) && EncodeRune(c) == [a as char, (0x80 + x) as char, (0x80 + y) as char]
  {
    var high := 64 * (a - 0xE0) + x;
    Digits(a - 0xE0, x);
    Digits(high, y);
    assert (64 * high + y) / 4096 == high / 64;
  }

  lemma EncodesFour(a: nat, x: nat, y: nat, z: nat)
    requires 0xF0 <= a <= 0xF4 && x < 64 && y < 64 && z < 64 && (a == 0xF0 ==> x >= 0x10) && (a == 0xF4 ==> x < 0x10)
    ensures var c := 64 * (64 * (64 * (a - 0xF0) + x) + y) + z;
      Scalar(c) && EncodeRune(c) == [a as char, (0x80 + x) as char, (0x80 + y) as char, (0x80 + z) as char]
  {
    var top := 64 * (a - 0xF0) + x;
    var high := 64 * top + y;
    Digits(a - 0xF0, x);
    Digits(top, y);
    Digits(high, z);
    assert (64 * high + z) / 4096 == high / 64 && (64 * high + z) / 262144 == top / 64;
  }

  /** A valid rune is the encoding of a scalar value. */
  lemma RuneIsEncoding(s: string) returns (c: nat)
    requires RuneLength(s) > 0
    ensures Scalar(c) && EncodeRune(c) == s[..RuneLength(s)]
  {
    RuneBytes(s);
    hide EncodeRune, Scalar, RuneLength;
    var n, a := RuneLength(s), s[0] as int;
    if n == 1 {
      c := a;
      EncodesOne(s[0]);
    } else if n == 2 {
      c := 64 * (a - 0xC0) + (s[1] as int - 0x80);
      EncodesTwo(a, s[1] as int - 0x80);
    } else if n == 3 {
      c := 64 * (64 * (a - 0xE0) + (s[1] as int - 0x80)) + (s[2] as int - 0x80);
      EncodesThree(a, s[1] as int - 0x80, s[2] as int - 0x80);
    } else {
      c := 64 * (64 * (64 * (a - 0xF0) + (s[1] as int - 0x80)) + (s[2] as int - 0x80)) + (s[3] as int - 0x80);
      EncodesFour(a, s[1] as int - 0x80, s[2] as int - 0x80, s[3] as int - 0x80);
    }
  }

  lemma EncodesOne(c: char)
    requires c as int < 0x80
    ensures Scalar(c as int) && EncodeRune(c as int) == [c]
  {
  }

  /** The bytes of a valid rune, by its length. */
  lemma RuneBytes(s: string)
    requires RuneLength(s) > 0
    ensures var n, a := RuneLength(s), s[0] as int;
      && 1 <= n <= 4 && n <= |s| && (forall i | 1 <= i < n :: Continuation(s[i]))
      && (n == 1 ==> a < 0x80) && (n == 2 ==> 0xC2 <= a <= 0xDF)
      && (n == 3 ==> 0xE0 <= a <= 0xEF && (a == 0xE0 ==> s[1] as int >= 0xA0) && (a == 0xED ==> (s[1] as int) < 0xA0))
      && (n == 4 ==> 0xF0 <= a <= 0xF4 && (a == 0xF0 ==> s[1] as int >= 0x90) && (a == 0xF4 ==> (s[1] as int) < 0x90))
  {
  }

  /** Valid text is a sequence of encodings; in any other, each byte at which none begins becomes U+FFFD. */
  lemma ToValidExactly(c: nat, s: string)
    requires Scalar(c)
    ensures Valid(EncodeRune(c) + s) == Valid(s) && ToValid(EncodeRune(c) + s) == EncodeRune(c) + ToValid(s)
    ensures s != "" && (forall r | Scalar(r) :: !(EncodeRune(r) <= s)) ==>
              !Valid(s) && ToValid(s) == EncodeRune(0xFFFD) + ToValid(s[1..])
  {
    var rune := EncodeRune(c);
    EncodingIsRune(c, s);
    assert (rune + s)[..|rune|] == rune && (rune + s)[|rune|..] == s;
    if RuneLength(s) > 0 {
      var r := RuneIsEncoding(s);
      assert EncodeRune(r) <= s;
    }
    ReplacementIs();
    hide EncodeRune, RuneLength;
  }

  lemma ReplacementIs()
    ensures REPLACEMENT == EncodeRune(0xFFFD)
  {
    EncodesThree(0xEF, 0x3F, 0x3D);
  }
}
