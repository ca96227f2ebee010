/** The server side of the WebSocket framing of section 5 of RFC 6455 (internal/bridge/websocket.go). */
module WebSocket {

  type Byte = b: int | 0 <= b < 256

  type Bytes = seq<Byte>

  /** b & 0x80 != 0. */
  predicate TopBit(b: Byte) {
    b >= 128
  }

  /** 0x80 | b. */
  function WithTopBit(b: Byte): Byte {
    128 + b % 128
  }

  /** b & 0x7F. */
  function Low7(b: Byte): Byte {
    b % 128
  }

  /** b & 0x0F. */
  function Low4(b: Byte): Byte {
    b % 16
  }

  /** b & 0x70, shifted down: the reserved bits of a first header byte. */
  function Reserved(b: Byte): Byte {
    b / 16 % 8
  }

  /** x ^ m on the lowest `bits` bits. */
  function XorBits(x: nat, m: nat, bits: nat): nat {
    if bits == 0 then 0 else 2 * XorBits(x / 2, m / 2, bits - 1) + (x + m) % 2
  }

  function Power2(bits: nat): (p: nat)
    ensures p > 0
  {
    if bits == 0 then 1 else 2 * Power2(bits - 1)
  }

  lemma {:induction false} XorBitsBound(x: nat, m: nat, bits: nat)
    ensures XorBits(x, m, bits) < Power2(bits)
  {
    if bits > 0 {
      XorBitsBound(x / 2, m / 2, bits - 1);
    }
  }

  lemma {:induction false} XorBitsTwice(x: nat, m: nat, bits: nat)
    requires x < Power2(bits)
    ensures XorBits(XorBits(x, m, bits), m, bits) == x
  {
    if bits > 0 {
      XorBitsTwice(x / 2, m / 2, bits - 1);
      LowestBitTwice(x, m, XorBits(x / 2, m / 2, bits - 1));
    }
  }

  lemma LowestBitTwice(x: nat, m: nat, high: nat)
    ensures var r := 2 * high + (x + m) % 2;
      r / 2 == high && 2 * (x / 2) + (r + m) % 2 == x
  {
    assert x == 2 * (x / 2) + x % 2 && m == 2 * (m / 2) + m % 2;
    assert (x + m) % 2 == (x % 2 + m % 2) % 2;
  }

  lemma Power2Of8()
    ensures Power2(8) == 256
  {
    assert Power2(4) == 16;
  }

  function Xor(x: Byte, m: Byte): Byte {
    Power2Of8();
    XorBitsBound(x, m, 8);
    XorBits(x, m, 8)
  }

  const FRAME_LIMIT: nat := 65536

  /** A Go slice is shorter than this. */
  const MAX_SLICE: nat := 0x8000_0000_0000_0000

  const TEXT: Byte := 0x1
  const CLOSE: Byte := 0x8
  const PING: Byte := 0x9
  const PONG: Byte := 0xA

  datatype ReadError = EOF | UnexpectedEOF | Fragmented | ExceedsLimit | Unmasked

  datatype Outcome = Frame(opcode: Byte, payload: Bytes) | Failed(error: ReadError)

  /** What one read yields and what it leaves in the reader. */
  datatype Parsed = Parsed(outcome: Outcome, rest: Bytes)

  // ---------- Big-endian integers ----------

  function Pow256(width: nat): (p: nat)
    ensures p > 0
  {
    if width == 0 then 1 else 256 * Pow256(width - 1)
  }

  function BigEndian(n: nat, width: nat): (b: Bytes)
    ensures |b| == width
  {
    if width == 0 then [] else BigEndian(n / 256, width - 1) + [n % 256]
  }

  function FromBigEndian(b: Bytes): (n: nat) {
    if b == [] then 0 else 256 * FromBigEndian(b[..|b| - 1]) + b[|b| - 1]
  }

  lemma {:induction false} BigEndianDecodes(n: nat, width: nat)
    requires n < Pow256(width)
    ensures FromBigEndian(BigEndian(n, width)) == n
  {
    if width > 0 {
      assert n / 256 < Pow256(width - 1);
      BigEndianDecodes(n / 256, width - 1);
      var b := BigEndian(n, width);
      assert b[..|b| - 1] == BigEndian(n / 256, width - 1);
    }
  }

  lemma {:induction false} BigEndianEncodes(b: Bytes)
    ensures FromBigEndian(b) < Pow256(|b|)
    ensures BigEndian(FromBigEndian(b), |b|) == b
  {
    if b != [] {
      var front, last := b[..|b| - 1], b[|b| - 1];
      BigEndianEncodes(front);
      assert FromBigEndian(b) / 256 == FromBigEndian(front) && FromBigEndian(b) % 256 == last;
      assert b == front + [b[|b| - 1]];
    }
  }

  lemma WidthBounds()
    ensures Pow256(2) == 0x1_0000 && Pow256(8) == 0x1_0000_0000_0000_0000
  {
    assert Pow256(4) == 0x1_0000_0000;
  }

  // ---------- Frames on the wire ----------

  datatype LengthForm = Short | Medium | Long

  function ExtendedWidth(form: LengthForm): nat {
    match form case Short => 0 case Medium => 2 case Long => 8
  }

  predicate FormFits(form: LengthForm, length: nat) {
    match form case Short => length < 126 case Medium => length <= 0xFFFF case Long => length < 0x1_0000_0000_0000_0000
  }

  /** The second header byte and the extended length; `flag` is the mask bit, 0x80 or 0. */
  function LengthBytes(flag: Byte, form: LengthForm, length: nat): Bytes
    requires flag in {0, 0x80} && FormFits(form, length)
  {
    match form
    case Short => [flag + length]
    case Medium => [flag + 126] + BigEndian(length, 2)
    case Long => [flag + 127] + BigEndian(length, 8)
  }

  /** The shortest form the length fits, which section 5.2 asks the sender to use. */
  function ShortestForm(length: nat): LengthForm {
    if length < 126 then Short else if length <= 0xFFFF then Medium else Long
  }

  function Masked(payload: Bytes, mask: Bytes): (masked: Bytes)
    requires |mask| == 4
    ensures |masked| == |payload|
    ensures forall i | 0 <= i < |payload| :: masked[i] == Xor(payload[i], mask[i % 4])
  {
    seq(|payload|, i requires 0 <= i < |payload| => Xor(payload[i], mask[i % 4]))
  }

  lemma MaskTwice(payload: Bytes, mask: Bytes)
    requires |mask| == 4
    ensures Masked(Masked(payload, mask), mask) == payload
  {
    hide Xor;
    forall i | 0 <= i < |payload|
      ensures Masked(Masked(payload, mask), mask)[i] == payload[i]
    {
      XorTwice(payload[i], mask[i % 4]);
    }
  }

  lemma XorTwice(x: Byte, m: Byte)
    ensures Xor(Xor(x, m), m) == x
  {
    Power2Of8();
    XorBitsTwice(x, m, 8);
  }

  /** A final masked frame as a client may send it, in any length form that fits. */
  datatype ClientFrame = ClientFrame(reserved: Byte, opcode: Byte, form: LengthForm, mask: Bytes, payload: Bytes)
  {
    ghost predicate Valid() {
      && reserved < 8 && opcode < 16 && |mask| == 4
      && |payload| <= FRAME_LIMIT && FormFits(form, |payload|)
    }
  }

  function Encode(f: ClientFrame): (b: Bytes)
    requires f.reserved < 8 && f.opcode < 16 && |f.mask| == 4 && FormFits(f.form, |f.payload|)
    ensures |b| >= 6
  {
    [0x80 + 16 * f.reserved + f.opcode] + LengthBytes(0x80, f.form, |f.payload|) + f.mask + Masked(f.payload, f.mask)
  }

  // ---------- The reader ----------

  /** The error of a read that wants more than the non-empty or empty remainder `s`. */
  function ShortRead(s: Bytes): Parsed {
    Parsed(Failed(if s == [] then EOF else UnexpectedEOF), [])
  }

  function FormOf(second: Byte): LengthForm {
    if Low7(second) == 126 then Medium else if Low7(second) == 127 then Long else Short
  }

  /** One call of readWebSocketFrame on the bytes `s`. */
  function Parse(s: Bytes): (r: Parsed)
    ensures |r.rest| <= |s| && (r.outcome.Frame? ==> |r.rest| < |s|)
  {
    if |s| < 2 then Parsed(Failed(EOF), [])
    else if !TopBit(s[0]) then Parsed(Failed(Fragmented), s[2..])
    else
      var width := ExtendedWidth(FormOf(s[1]));
      if |s| < 2 + width then ShortRead(s[2..])
      else ParseSized(Low4(s[0]), TopBit(s[1]), LengthOf(s[1], s[2..2 + width]), s[2 + width..])
  }

  /** The payload length a second header byte and its extension announce. */
  function LengthOf(second: Byte, extended: Bytes): nat {
    if extended == [] then Low7(second) else FromBigEndian(extended)
  }

  /** The rest of the read, once the length is known. */
  function ParseSized(opcode: Byte, masked: bool, length: nat, s: Bytes): (r: Parsed)
    ensures |r.rest| <= |s|
  {
    if length > FRAME_LIMIT then Parsed(Failed(ExceedsLimit), s)
    else if !masked then Parsed(Failed(Unmasked), s)
    else if |s| < 4 then ShortRead(s)
    else if |s| < 4 + length then ShortRead(s[4..])
    else Parsed(Frame(opcode, Masked(s[4..4 + length], s[..4])), s[4 + length..])
  }

  class Reader {
    var rest: Bytes

    constructor (s: Bytes)
      ensures rest == s
    {
      rest := s;
    }

    method ReadByte() returns (b: Byte, ok: bool)
      modifies this
      ensures ok == (old(rest) != [])
      ensures ok ==> b == old(rest)[0] && rest == old(rest)[1..]
      ensures !ok ==> rest == []
    {
      if rest == [] {
        return 0, false;
      }
      b, ok := rest[0], true;
      rest := rest[1..];
    }

    /** io.ReadFull. */
    method ReadFull(buf: array<Byte>) returns (ok: bool, error: ReadError)
      modifies this, buf
      ensures ok == (|old(rest)| >= buf.Length)
      ensures ok ==> buf[..] == old(rest)[..buf.Length] && rest == old(rest)[buf.Length..]
      ensures !ok ==> rest == [] && error == if old(rest) == [] then EOF else UnexpectedEOF
    {
      ok, error := |rest| >= buf.Length, if rest == [] then EOF else UnexpectedEOF;
      var got := if ok then buf.Length else |rest|;
      forall i | 0 <= i < got {
        buf[i] := rest[i];
      }
      rest := rest[got..];
    }
  }

  method ReadFrame(reader: Reader) returns (outcome: Outcome)
    modifies reader
    ensures Parsed(outcome, reader.rest) == Parse(old(reader.rest))
  {
    var first, ok := reader.ReadByte();
    if !ok { return Failed(EOF); }
    var second;
    second, ok := reader.ReadByte();
    if !ok { return Failed(EOF); }
    assert reader.rest == old(reader.rest)[2..];
    if !TopBit(first) {
      return Failed(Fragmented);
    }
    var length: nat := Low7(second);
    var error;
    var width := ExtendedWidth(FormOf(second));
    if width > 0 {
      var buf := new Byte[width];
      ok, error := reader.ReadFull(buf);
      if !ok { return Failed(error); }
      length := FromBigEndian(buf[..]);
      assert buf[..] == old(reader.rest)[2..2 + width];
    }
    assert reader.rest == old(reader.rest)[2 + width..];
    outcome := ReadSized(reader, Low4(first), TopBit(second), length);
  }

  method ReadSized(reader: Reader, opcode: Byte, masked: bool, length: nat) returns (outcome: Outcome)
    modifies reader
    ensures Parsed(outcome, reader.rest) == ParseSized(opcode, masked, length, old(reader.rest))
  {
    if length > FRAME_LIMIT {
      return Failed(ExceedsLimit);
    }
    if !masked {
      return Failed(Unmasked);
    }
    var mask := new Byte[4];
    var ok, error := reader.ReadFull(mask);
    if !ok { return Failed(error); }
    var payload := new Byte[length];
    ok, error := reader.ReadFull(payload);
    if !ok { return Failed(error); }
    assert payload[..] == old(reader.rest)[4..4 + length];
    Unmask(payload, mask);
    outcome := Frame(opcode, payload[..]);
  }

  /** The in-place XOR loop. */
  method Unmask(payload: array<Byte>, mask: array<Byte>)
    requires mask.Length == 4 && mask != payload
    modifies payload
    ensures payload[..] == Masked(old(payload[..]), mask[..])
  {
    hide Xor;
    for i := 0 to payload.Length
      invariant forall k | 0 <= k < i :: payload[k] == Xor(old(payload[k]), mask[k % 4])
      invariant forall k | i <= k < payload.Length :: payload[k] == old(payload[k])
    {
      payload[i] := Xor(payload[i], mask[i % 4]);
    }
  }

  lemma LengthBits(flag: Byte, form: LengthForm, length: nat)
    requires flag in {0, 0x80} && FormFits(form, length)
    ensures var b := LengthBytes(flag, form, length);
      && |b| == 1 + ExtendedWidth(form)
      && TopBit(b[0]) == (flag == 0x80) && FormOf(b[0]) == form
      && LengthOf(b[0], b[1..]) == length
  {
    WidthBounds();
    match form {
      case Short =>
      case Medium =>
        BigEndianDecodes(length, 2);
        assert LengthBytes(flag, form, length)[1..] == BigEndian(length, 2);
      case Long =>
        BigEndianDecodes(length, 8);
        assert LengthBytes(flag, form, length)[1..] == BigEndian(length, 8);
    }
  }

  /** Reading undoes encoding: whatever follows stays in the reader. */
  lemma ReadUndoesEncode(f: ClientFrame, tail: Bytes)
    requires f.Valid()
    ensures Parse(Encode(f) + tail) == Parsed(Frame(f.opcode, f.payload), tail)
  {
    hide LengthBytes, Masked, Parse, ParseSized;
    var head, body := LengthBytes(0x80, f.form, |f.payload|), f.mask + Masked(f.payload, f.mask) + tail;
    LengthBits(0x80, f.form, |f.payload|);
    var first := 0x80 + 16 * f.reserved + f.opcode;
    assert Low4(first) == f.opcode && TopBit(first);
    ParseHeader(first, head, body);
    assert Encode(f) + tail == [first] + head + body;
    SizedUndoesMask(f.opcode, f.mask, f.payload, tail);
  }

  lemma ParseHeader(first: Byte, head: Bytes, body: Bytes)
    requires TopBit(first) && head != [] && |head| == 1 + ExtendedWidth(FormOf(head[0]))
    ensures Parse([first] + head + body) ==
            ParseSized(Low4(first), TopBit(head[0]), LengthOf(head[0], head[1..]), body)
  {
    var s := [first] + head + body;
    assert s[0] == first && s[1] == head[0];
    assert s[2..1 + |head|] == head[1..];
    assert s[1 + |head|..] == body;
  }

  lemma SizedUndoesMask(opcode: Byte, mask: Bytes, payload: Bytes, tail: Bytes)
    requires |mask| == 4 && |payload| <= FRAME_LIMIT
    ensures ParseSized(opcode, true, |payload|, mask + Masked(payload, mask) + tail) ==
            Parsed(Frame(opcode, payload), tail)
  {
    var s := mask + Masked(payload, mask) + tail;
    assert s[..4] == mask;
    assert s[4..4 + |payload|] == Masked(payload, mask);
    assert s[4 + |payload|..] == tail;
    MaskTwice(payload, mask);
  }

  /** The frame the reader saw at the head of `s`. */
  function FrameAt(s: Bytes): (f: ClientFrame)
    requires Parse(s).outcome.Frame?
  {
    ParseOpens(s);
    var start := 2 + ExtendedWidth(FormOf(s[1]));
    assert |s| >= start + 4;
    ClientFrame(Reserved(s[0]), Low4(s[0]), FormOf(s[1]), s[start..start + 4], Parse(s).outcome.payload)
  }

  lemma FirstByteBits(first: Byte)
    requires TopBit(first)
    ensures first == 0x80 + 16 * Reserved(first) + Low4(first)
  {
  }

  lemma SecondByteBits(second: Byte, extended: Bytes)
    requires TopBit(second) && |extended| == ExtendedWidth(FormOf(second))
    ensures var length := LengthOf(second, extended);
      FormFits(FormOf(second), length) && LengthBytes(0x80, FormOf(second), length) == [second] + extended
  {
    WidthBounds();
    BigEndianEncodes(extended);
  }

  lemma ParseOpens(s: Bytes)
    requires Parse(s).outcome.Frame?
    ensures |s| >= 2 && TopBit(s[0]) && |s| >= 2 + ExtendedWidth(FormOf(s[1]))
    ensures var start := 2 + ExtendedWidth(FormOf(s[1]));
      Parse(s) == ParseSized(Low4(s[0]), TopBit(s[1]), LengthOf(s[1], s[2..start]), s[start..])
  {
    hide ParseSized, LengthOf;
  }

  lemma SizedReadsMasked(opcode: Byte, masked: bool, length: nat, s: Bytes)
    requires ParseSized(opcode, masked, length, s).outcome.Frame?
    ensures var r := ParseSized(opcode, masked, length, s);
      masked && length <= FRAME_LIMIT && |r.outcome.payload| == length && r.outcome.opcode == opcode
      && s == s[..4] + Masked(r.outcome.payload, s[..4]) + r.rest
  {
    MaskTwice(s[4..4 + length], s[..4]);
  }

  lemma FrameAtIsValid(s: Bytes)
    requires Parse(s).outcome.Frame?
    ensures var f, start := FrameAt(s), 2 + ExtendedWidth(FormOf(s[1]));
      && f.Valid() && f.opcode == Parse(s).outcome.opcode
      && 2 <= start <= |s| && s[start..] == f.mask + Masked(f.payload, f.mask) + Parse(s).rest
      && [0x80 + 16 * f.reserved + f.opcode] == [s[0]]
      && LengthBytes(0x80, f.form, |f.payload|) == [s[1]] + s[2..start]
  {
    ParseOpens(s);
    hide Parse, ParseSized, Masked, LengthBytes;
    var start := 2 + ExtendedWidth(FormOf(s[1]));
    SizedReadsMasked(Low4(s[0]), TopBit(s[1]), LengthOf(s[1], s[2..start]), s[start..]);
    FirstByteBits(s[0]);
    SecondByteBits(s[1], s[2..start]);
    assert s[start..][..4] == FrameAt(s).mask;
  }

  /** A frame is read exactly when the bytes begin with the encoding of a valid client frame. */
  lemma ReadExactlyEncodings(s: Bytes)
    requires Parse(s).outcome.Frame?
    ensures FrameAt(s).Valid() && FrameAt(s).opcode == Parse(s).outcome.opcode
    ensures s == Encode(FrameAt(s)) + Parse(s).rest
  {
    hide Parse, FrameAt, Masked, LengthBytes, FormOf, ExtendedWidth;
    FrameAtIsValid(s);
    var f, start := FrameAt(s), 2 + ExtendedWidth(FormOf(s[1]));
    Reassemble(s, start, f.mask, Masked(f.payload, f.mask), Parse(s).rest);
  }

  lemma Reassemble(s: Bytes, start: nat, mask: Bytes, masked: Bytes, rest: Bytes)
    requires 2 <= start <= |s| && s[start..] == mask + masked + rest
    ensures s == [s[0]] + ([s[1]] + s[2..start]) + mask + masked + rest
  {
    assert s == [s[0]] + ([s[1]] + s[2..start]) + s[start..];
  }

  // ---------- Streams ----------

  ghost predicate AllValid(fs: seq<ClientFrame>) {
    forall i | 0 <= i < |fs| :: fs[i].Valid()
  }

  ghost function EncodeAll(fs: seq<ClientFrame>): Bytes
    requires AllValid(fs)
  {
    if fs == [] then [] else Encode(fs[0]) + EncodeAll(fs[1..])
  }

  /** Reads frames until one fails; the last outcome is that failure. */
  function ReadAll(s: Bytes): seq<Outcome>
    decreases |s|
  {
    var r := Parse(s);
    if r.outcome.Failed? then [r.outcome] else [r.outcome] + ReadAll(r.rest)
  }

  function Contents(fs: seq<ClientFrame>): seq<Outcome> {
    if fs == [] then [] else [Frame(fs[0].opcode, fs[0].payload)] + Contents(fs[1..])
  }

  lemma EmptyReadsEOF()
    ensures Parse([]) == Parsed(Failed(EOF), [])
  {
  }

  /** A whole stream of encodings reads back as exactly its frames, then a clean end of input. */
  lemma {:induction false} StreamReadsBack(fs: seq<ClientFrame>)
    requires AllValid(fs)
    ensures ReadAll(EncodeAll(fs)) == Contents(fs) + [Failed(EOF)]
  {
    hide Parse, Encode, FormFits;
    if fs == [] {
      EmptyReadsEOF();
    } else {
      ReadUndoesEncode(fs[0], EncodeAll(fs[1..]));
      StreamReadsBack(fs[1..]);
    }
  }

  // ---------- The writer ----------

  function ServerFrameIn(form: LengthForm, opcode: Byte, payload: Bytes): Bytes
    requires FormFits(form, |payload|)
  {
    [WithTopBit(opcode)] + LengthBytes(0, form, |payload|) + payload
  }

  /** The bytes writeWebSocketFrame produces. */
  function ServerFrame(opcode: Byte, payload: Bytes): Bytes
    requires |payload| < MAX_SLICE
  {
    ServerFrameIn(ShortestForm(|payload|), opcode, payload)
  }

  /** No length form that fits the payload gives a shorter frame. */
  lemma WriterPicksShortest(opcode: Byte, payload: Bytes, form: LengthForm)
    requires |payload| < MAX_SLICE && FormFits(form, |payload|)
    ensures |ServerFrame(opcode, payload)| <= |ServerFrameIn(form, opcode, payload)|
    ensures |ServerFrame(opcode, payload)| == |ServerFrameIn(form, opcode, payload)| <==>
            form == ShortestForm(|payload|)
  {
  }

  /** A connection that accepts `capacity` bytes and then fails. */
  class Conn {
    const capacity: nat
    var written: Bytes

    constructor (capacity: nat)
      ensures this.capacity == capacity && written == []
    {
      this.capacity := capacity;
      written := [];
    }

    method Write(data: Bytes) returns (ok: bool)
      requires |written| <= capacity
      modifies this
      ensures written == Clip(old(written) + data, capacity)
      ensures ok == (|old(written) + data| <= capacity)
    {
      ok := |written + data| <= capacity;
      written := Clip(written + data, capacity);
    }
  }

  function Clip(data: Bytes, capacity: nat): (kept: Bytes)
    ensures |kept| <= capacity
  {
    if |data| <= capacity then data else data[..capacity]
  }

  lemma ClipMore(a: Bytes, b: Bytes, capacity: nat)
    ensures |a| >= capacity ==> Clip(a + b, capacity) == Clip(a, capacity)
    ensures |a| > capacity ==> |a + b| > capacity
  {
  }

  method PutBigEndian(header: array<Byte>, n: nat)
    requires header.Length >= 2
    modifies header
    ensures header[0] == old(header[0]) && header[1] == old(header[1])
    ensures header[2..] == BigEndian(n, header.Length - 2)
  {
    var left := n;
    var i := header.Length;
    assert header[i..] == [];
    while i > 2
      invariant 2 <= i <= header.Length
      invariant header[0] == old(header[0]) && header[1] == old(header[1])
      invariant BigEndian(left, i - 2) + header[i..] == BigEndian(n, header.Length - 2)
    {
      i := i - 1;
      ghost var done := header[i + 1..];
      header[i] := left % 256;
      assert header[i..] == [left % 256] + done;
      left := left / 256;
    }
  }

  method WriteFrame(conn: Conn, opcode: Byte, payload: Bytes) returns (ok: bool)
    requires |payload| < MAX_SLICE && |conn.written| <= conn.capacity
    modifies conn
    ensures conn.written == Clip(old(conn.written) + ServerFrame(opcode, payload), conn.capacity)
    ensures ok == (|old(conn.written) + ServerFrame(opcode, payload)| <= conn.capacity)
  {
    var header: array<Byte>;
    if |payload| < 126 {
      header := new Byte[2];
      header[0], header[1] := WithTopBit(opcode), |payload|;
    } else if |payload| <= 0xFFFF {
      header := new Byte[4];
      header[0], header[1] := WithTopBit(opcode), 126;
      PutBigEndian(header, |payload|);
    } else {
      header := new Byte[10];
      header[0], header[1] := WithTopBit(opcode), 127;
      PutBigEndian(header, |payload|);
    }
    var form := ShortestForm(|payload|);
    assert header[..] == [header[0]] + ([header[1]] + header[2..]);
    assert header[..] == [WithTopBit(opcode)] + LengthBytes(0, form, |payload|);
    assert ServerFrame(opcode, payload) == header[..] + payload;
    assert old(conn.written) + ServerFrame(opcode, payload) == (old(conn.written) + header[..]) + payload;
    ClipMore(old(conn.written) + header[..], payload, conn.capacity);
    ok := conn.Write(header[..]);
    if !ok {
      return;
    }
    ok := conn.Write(payload);
  }

  /** A client's view of one server frame: section 5.1 forbids the mask. */
  function ClientParse(s: Bytes): (r: Parsed)
    ensures r.outcome.Frame? ==> |r.rest| < |s|
  {
    if |s| < 2 || !TopBit(s[0]) || TopBit(s[1]) || |s| < 2 + ExtendedWidth(FormOf(s[1])) then ShortRead(s)
    else
      var start := 2 + ExtendedWidth(FormOf(s[1]));
      var length := LengthOf(s[1], s[2..start]);
      if |s| < start + length then ShortRead(s)
      else Parsed(Frame(Low4(s[0]), s[start..start + length]), s[start + length..])
  }

  lemma ClientReadsServerFrame(opcode: Byte, payload: Bytes, tail: Bytes)
    requires opcode < 16 && |payload| < MAX_SLICE
    ensures ClientParse(ServerFrame(opcode, payload) + tail) == Parsed(Frame(opcode, payload), tail)
  {
    var s, form := ServerFrame(opcode, payload) + tail, ShortestForm(|payload|);
    var head := LengthBytes(0, form, |payload|);
    LengthBits(0, form, |payload|);
    assert Low4(WithTopBit(opcode)) == opcode;
    var start := 2 + ExtendedWidth(form);
    assert s == [WithTopBit(opcode)] + head + payload + tail;
    hide LengthBytes, ServerFrame;
    assert s[1..start] == head;
    assert s[1] == head[0] && s[2..start] == s[1..start][1..];
    assert s[start..start + |payload|] == payload;
    assert s[start + |payload|..] == tail;
  }

  // ---------- The wire, byte by byte ----------

  /** Bit k of `b`. */
  predicate Bit(b: nat, k: nat) {
    b / Power2(k) % 2 == 1
  }

  lemma HalveFirst(x: nat, p: nat)
    requires p > 0
    ensures x / (2 * p) == x / 2 / p
  {
    var q, r := x / 2 / p, x / 2 % p;
    assert x / 2 == p * q + r;
    assert x == (2 * p) * q + (2 * r + x % 2);
    DividesOnce(2 * p, q, 2 * r + x % 2);
  }

  lemma DividesOnce(d: nat, q: nat, r: nat)
    requires r < d
    ensures (d * q + r) / d == q
  {
    var quotient := (d * q + r) / d;
    assert d * q + r == d * quotient + (d * q + r) % d;
    assert quotient < q ==> d * (quotient + 1) <= d * q;
    assert q < quotient ==> d * (q + 1) <= d * quotient;
  }

  lemma BitOfHalf(x: nat, k: nat)
    requires k > 0
    ensures Bit(x, k) <==> Bit(x / 2, k - 1)
  {
    HalveFirst(x, Power2(k - 1));
  }

  lemma {:induction false} XorBitsAt(x: nat, m: nat, bits: nat, k: nat)
    requires k < bits
    ensures Bit(XorBits(x, m, bits), k) <==> Bit(x, k) != Bit(m, k)
  {
    LowestBit(x, m, XorBits(x / 2, m / 2, bits - 1));
    if k > 0 {
      XorBitsAt(x / 2, m / 2, bits - 1, k - 1);
      BitOfHalf(XorBits(x, m, bits), k);
      BitOfHalf(x, k);
      BitOfHalf(m, k);
      hide Bit;
    }
  }

  lemma LowestBit(x: nat, m: nat, high: nat)
    ensures var r := 2 * high + (x + m) % 2;
      r / 2 == high && (Bit(r, 0) <==> Bit(x, 0) != Bit(m, 0))
  {
    assert Power2(0) == 1;
  }

  /** A bit of the result is set exactly if it is set in just one of the two. */
  lemma XorIsBitwise(x: Byte, m: Byte, k: nat)
    requires k < 8
    ensures Bit(Xor(x, m), k) <==> Bit(x, k) != Bit(m, k)
  {
    XorBitsAt(x, m, 8, k);
  }

  /** The first byte weighs most. */
  lemma Weights(b: Bytes)
    ensures |b| == 2 ==> FromBigEndian(b) == 0x100 * (b[0] as int) + b[1]
    ensures |b| == 8 ==>
              FromBigEndian(b) ==
              0x100_0000_0000_0000 * (b[0] as int) + 0x1_0000_0000_0000 * (b[1] as int)
              + 0x100_0000_0000 * (b[2] as int) + 0x1_0000_0000 * (b[3] as int)
              + 0x100_0000 * (b[4] as int) + 0x1_0000 * (b[5] as int) + 0x100 * (b[6] as int) + b[7]
  {
    if |b| == 2 {
      TwoWeights(b);
    } else if |b| == 8 {
      FourWeights(b[4..]);
      FourWeights(b[..4]);
      FromHalves(b[..4], b[4..]);
      assert b[..4] + b[4..] == b && Pow256(4) == 0x1_0000_0000;
    }
  }

  lemma TwoWeights(b: Bytes)
    requires |b| == 2
    ensures FromBigEndian(b) == 0x100 * (b[0] as int) + b[1]
  {
    assert b[..1][..0] == [];
    assert FromBigEndian(b[..1]) == b[0];
  }

  lemma FourWeights(b: Bytes)
    requires |b| == 4
    ensures FromBigEndian(b) == 0x100_0000 * (b[0] as int) + 0x1_0000 * (b[1] as int) + 0x100 * (b[2] as int) + b[3]
  {
    TwoWeights(b[..2]);
    assert b[..3][..2] == b[..2];
    assert FromBigEndian(b[..3]) == 256 * FromBigEndian(b[..2]) + b[2];
  }

  lemma {:induction false} FromHalves(a: Bytes, b: Bytes)
    ensures FromBigEndian(a + b) == FromBigEndian(a) * Pow256(|b|) + FromBigEndian(b)
    decreases |b|
  {
    if b == [] {
      assert a + b == a;
    } else {
      var front, last := b[..|b| - 1], b[|b| - 1];
      assert (a + b)[..|a + b| - 1] == a + front;
      FromHalves(a, front);
      Horner(FromBigEndian(a), Pow256(|b| - 1), FromBigEndian(front), last);
    }
  }

  lemma Horner(x: nat, power: nat, y: nat, z: nat)
    ensures 256 * (x * power + y) + z == x * (256 * power) + (256 * y + z)
  {
  }

  /** Where the mask of a client frame begins, by its second byte. */
  function MaskStart(s: Bytes): nat
    requires |s| >= 2
  {
    if s[1] % 128 == 126 then 4 else if s[1] % 128 == 127 then 10 else 2
  }

  /** The payload length its header gives, as a sum of weighted bytes. */
  function WireLength(s: Bytes): nat
    requires |s| >= 2 && |s| >= MaskStart(s)
  {
    if s[1] % 128 == 126 then 0x100 * (s[2] as int) + s[3] as int
    else if s[1] % 128 == 127 then
      0x100_0000_0000_0000 * (s[2] as int) + 0x1_0000_0000_0000 * (s[3] as int) + 0x100_0000_0000 * (s[4] as int)
      + 0x1_0000_0000 * (s[5] as int) + 0x100_0000 * (s[6] as int) + 0x1_0000 * (s[7] as int) + 0x100 * (s[8] as int)
      + s[9] as int
    else s[1] % 128
  }

  /** The bytes begin with a whole final masked frame within the limit. */
  predicate Framed(s: Bytes) {
    && |s| >= 2 && s[0] >= 0x80 && s[1] >= 0x80 && |s| >= MaskStart(s)
    && WireLength(s) <= 65536 && |s| >= MaskStart(s) + 4 + WireLength(s)
  }

  lemma LengthOnTheWire(s: Bytes)
    requires |s| >= 2 && |s| >= MaskStart(s)
    ensures MaskStart(s) == 2 + ExtendedWidth(FormOf(s[1]))
    ensures LengthOf(s[1], s[2..MaskStart(s)]) == WireLength(s)
  {
    Weights(s[2..MaskStart(s)]);
    hide FromBigEndian;
  }

  /** A frame is read exactly where one begins; it has the opcode of the lowest four bits and as many bytes as the
      header says, bit by bit those on the wire flipped where the mask byte at the same place modulo four has a
      bit set; what follows stays. */
  lemma ReadsTheWire(s: Bytes)
    ensures Parse(s).outcome.Frame? <==> Framed(s)
    ensures Framed(s) ==>
              var (outcome, start, length) := (Parse(s).outcome, MaskStart(s), WireLength(s));
              && outcome.opcode == s[0] % 16 && |outcome.payload| == length
              && Parse(s).rest == s[start + 4 + length..]
              && forall i, k | 0 <= i < length && 0 <= k < 8 ::
                   Bit(outcome.payload[i], k) <==> Bit(s[start + 4 + i], k) != Bit(s[start + i % 4], k)
  {
    if |s| >= 2 && |s| >= MaskStart(s) {
      LengthOnTheWire(s);
    }
    hide WireLength, LengthOf, Bit;
    if Framed(s) {
      var start, length := MaskStart(s), WireLength(s);
      var masked, mask := s[start..][4..4 + length], s[start..][..4];
      assert Parse(s) == ParseSized(Low4(s[0]), true, length, s[start..]);
      assert Parse(s).outcome.payload == Masked(masked, mask) && Parse(s).rest == s[start..][4 + length..];
      hide Parse, Masked;
      MaskedBits(masked, mask);
      assert forall i | 0 <= i < length :: masked[i] == s[start + 4 + i];
      assert forall i | 0 <= i < length :: mask[i % 4] == s[start + i % 4];
    }
  }

  lemma MaskedBits(payload: Bytes, mask: Bytes)
    requires |mask| == 4
    ensures forall i, k | 0 <= i < |payload| && 0 <= k < 8 ::
              Bit(Masked(payload, mask)[i], k) <==> Bit(payload[i], k) != Bit(mask[i % 4], k)
  {
    hide Bit, Xor;
    forall i, k | 0 <= i < |payload| && 0 <= k < 8
      ensures Bit(Masked(payload, mask)[i], k) <==> Bit(payload[i], k) != Bit(mask[i % 4], k)
    {
      XorIsBitwise(payload[i], mask[i % 4], k);
    }
  }

  /** What the writer puts on the wire, for payloads of every length. */
  lemma WritesTheWire(opcode: Byte, payload: Bytes)
    requires opcode < 16 && |payload| < MAX_SLICE
    ensures var b, n := ServerFrame(opcode, payload), |payload|;
      && |b| >= 2 && b[0] == 0x80 + opcode && b[1] < 0x80 && |b| >= MaskStart(b)
      && WireLength(b) == n && b[MaskStart(b)..] == payload
      && b[1] == if n < 126 then n else if n < 0x1_0000 then 126 else 127
  {
    var b, form := ServerFrame(opcode, payload), ShortestForm(|payload|);
    LengthBits(0, form, |payload|);
    var head := LengthBytes(0, form, |payload|);
    assert b == [WithTopBit(opcode)] + head + payload;
    assert b[1] == head[0] && b[2..1 + |head|] == head[1..];
    assert b[1 + |head|..] == payload;
    LengthOnTheWire(b);
    hide WireLength, LengthOf;
  }

  // ---------- What is refused ----------

  /** A frame cut short fails with a clean end where a part of it is missing as a whole, else with an unexpected
      one; nothing is left to read. */
  lemma CutFrameFails(f: ClientFrame, n: nat)
    requires f.Valid() && n < |Encode(f)|
    ensures var start := 2 + ExtendedWidth(f.form);
      Parse(Encode(f)[..n]) ==
      Parsed(Failed(if n <= 2 || n == start || n == start + 4 then EOF else UnexpectedEOF), [])
  {
    var s, start, length := Encode(f)[..n], 2 + ExtendedWidth(f.form), |f.payload|;
    var first, head := 0x80 + 16 * f.reserved + f.opcode, LengthBytes(0x80, f.form, length);
    var body := f.mask + Masked(f.payload, f.mask);
    LengthBits(0x80, f.form, length);
    assert TopBit(first);
    assert Encode(f) == [first] + head + body;
    hide LengthBytes, Masked;
    if n >= start {
      assert s == [first] + head + body[..n - start];
      ParseHeader(first, head, body[..n - start]);
      hide Parse;
    } else if n >= 2 {
      assert s[0] == first && s[1] == head[0];
    }
  }

  /** So do, with the error for it, frames over the limit, frames without a mask and frames that go on. */
  lemma RefusedFrames(f: ClientFrame, opcode: Byte, payload: Bytes, first: Byte, second: Byte, tail: Bytes)
    requires f.reserved < 8 && f.opcode < 16 && |f.mask| == 4 && FormFits(f.form, |f.payload|)
    requires |payload| < MAX_SLICE && opcode < 16 && first < 0x80
    ensures |f.payload| > 65536 ==> Parse(Encode(f) + tail).outcome == Failed(ExceedsLimit)
    ensures Parse(ServerFrame(opcode, payload) + tail).outcome ==
            Failed(if |payload| > 65536 then ExceedsLimit else Unmasked)
    ensures Parse([first, second] + tail).outcome == Failed(Fragmented)
  {
    hide LengthBytes, Masked, Parse, ParseSized;
    var head, body := LengthBytes(0x80, f.form, |f.payload|), f.mask + Masked(f.payload, f.mask) + tail;
    LengthBits(0x80, f.form, |f.payload|);
    ParseHeader(0x80 + 16 * f.reserved + f.opcode, head, body);
    assert Encode(f) + tail == [0x80 + 16 * f.reserved + f.opcode] + head + body;
    SizedRefuses(Low4(0x80 + 16 * f.reserved + f.opcode), true, |f.payload|, body);
    var head', form := LengthBytes(0, ShortestForm(|payload|), |payload|), ShortestForm(|payload|);
    LengthBits(0, form, |payload|);
    ParseHeader(WithTopBit(opcode), head', payload + tail);
    assert ServerFrame(opcode, payload) + tail == [WithTopBit(opcode)] + head' + (payload + tail);
    SizedRefuses(Low4(WithTopBit(opcode)), false, |payload|, payload + tail);
    FirstRefuses(first, second, tail);
  }

  lemma SizedRefuses(opcode: Byte, masked: bool, length: nat, s: Bytes)
    ensures length > 65536 ==> ParseSized(opcode, masked, length, s).outcome == Failed(ExceedsLimit)
    ensures length <= 65536 && !masked ==> ParseSized(opcode, masked, length, s).outcome == Failed(Unmasked)
  {
  }

  lemma FirstRefuses(first: Byte, second: Byte, tail: Bytes)
    requires first < 0x80
    ensures Parse([first, second] + tail).outcome == Failed(Fragmented)
  {
  }
}
