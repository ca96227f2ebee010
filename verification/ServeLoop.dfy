/** The serve loop over the WebSocket codec (internal/bridge/websocket.go, section 5.5 of RFC 6455). */
module ServeLoop {
  import opened WebSocket

  /** The rendered JSON answers: to the latest of all text payloads so far, to a failed read, and to
      an opcode the loop does not handle. */
  datatype Handler = Handler(reply: seq<Bytes> -> Bytes, failure: ReadError -> Bytes, unsupported: Bytes)
  {
    ghost predicate Fits() {
      && (forall texts :: |reply(texts)| < MAX_SLICE)
      && (forall e :: |failure(e)| < MAX_SLICE)
      && |unsupported| < MAX_SLICE
    }
  }

  /** All bytes the loop writes for the input `s` on a connection that never fails. */
  ghost function Served(h: Handler, s: Bytes, texts: seq<Bytes>): Bytes
    requires h.Fits()
    decreases |s|
  {
    var r := Parse(s);
    match r.outcome
    case Failed(e) => if e == EOF then [] else ServerFrame(TEXT, h.failure(e))
    case Frame(opcode, payload) =>
      if opcode == TEXT then
        ServerFrame(TEXT, h.reply(texts + [payload])) + Served(h, r.rest, texts + [payload])
      else if opcode == CLOSE then ServerFrame(CLOSE, [])
      else if opcode == PING then PayloadBound(s); ServerFrame(PONG, payload) + Served(h, r.rest, texts)
      else ServerFrame(TEXT, h.unsupported)
  }

  lemma PayloadBound(s: Bytes)
    requires Parse(s).outcome.Frame?
    ensures |Parse(s).outcome.payload| <= FRAME_LIMIT
  {
    ReadExactlyEncodings(s);
  }

  /** The loop writes exactly those bytes, cut off where the connection fails. */
  method ServeWebSocket(conn: Conn, reader: Reader, h: Handler)
    requires h.Fits() && |conn.written| <= conn.capacity
    modifies conn, reader
    ensures conn.written == Clip(old(conn.written) + Served(h, old(reader.rest), []), conn.capacity)
  {
    hide Served;
    var texts: seq<Bytes>, going := [], true;
    ghost var goal := old(conn.written) + Served(h, reader.rest, texts);
    while going
      invariant |conn.written| <= conn.capacity
      invariant going ==> conn.written + Served(h, reader.rest, texts) == goal
      invariant !going ==> conn.written == Clip(goal, conn.capacity)
      decreases going, |reader.rest|
    {
      texts, going := ServeOne(conn, reader, h, texts);
    }
  }

  /** One round: reads a frame and answers it; `going` unless that ends the loop. */
  method ServeOne(conn: Conn, reader: Reader, h: Handler, texts: seq<Bytes>) returns (seen: seq<Bytes>, going: bool)
    requires h.Fits() && |conn.written| <= conn.capacity
    modifies conn, reader
    ensures |conn.written| <= conn.capacity
    ensures var goal := old(conn.written) + Served(h, old(reader.rest), texts);
      if going then conn.written + Served(h, reader.rest, seen) == goal && |reader.rest| < |old(reader.rest)|
      else conn.written == Clip(goal, conn.capacity)
  {
    hide Parse, ServerFrame, Served;
    ghost var before := conn.written;
    ServedUnfolds(h, reader.rest, texts);
    var outcome := ReadFrame(reader);
    seen, going := texts, false;
    if outcome.Failed? {
      if outcome.error == EOF {
        assert before + [] == before;
        return;
      }
      var sent := WriteFrame(conn, TEXT, h.failure(outcome.error));
      return;
    }
    if outcome.opcode == TEXT {
      seen := texts + [outcome.payload];
      going := WriteFrame(conn, TEXT, h.reply(seen));
      Clipped(before, ServerFrame(TEXT, h.reply(seen)), Served(h, reader.rest, seen), conn.capacity);
    } else if outcome.opcode == CLOSE {
      var sent := WriteFrame(conn, CLOSE, []);
    } else if outcome.opcode == PING {
      going := WriteFrame(conn, PONG, outcome.payload);
      Clipped(before, ServerFrame(PONG, outcome.payload), Served(h, reader.rest, seen), conn.capacity);
    } else {
      var sent := WriteFrame(conn, TEXT, h.unsupported);
    }
  }

  /** The definition of Served, for what a frame's payload allows. */
  lemma ServedUnfolds(h: Handler, s: Bytes, texts: seq<Bytes>)
    requires h.Fits()
    ensures Parse(s).outcome.Failed? ==>
              var e := Parse(s).outcome.error;
              Served(h, s, texts) == if e == EOF then [] else ServerFrame(TEXT, h.failure(e))
    ensures Parse(s).outcome.Frame? ==>
              var (frame, rest) := (Parse(s).outcome, Parse(s).rest);
              && |frame.payload| < MAX_SLICE && |rest| < |s|
              && Served(h, s, texts) ==
                 if frame.opcode == TEXT then
                   ServerFrame(TEXT, h.reply(texts + [frame.payload])) + Served(h, rest, texts + [frame.payload])
                 else if frame.opcode == CLOSE then ServerFrame(CLOSE, [])
                 else if frame.opcode == PING then ServerFrame(PONG, frame.payload) + Served(h, rest, texts)
                 else ServerFrame(TEXT, h.unsupported)
  {
    if Parse(s).outcome.Frame? {
      PayloadBound(s);
    }
    hide Parse, ServerFrame;
  }

  /** A frame and what would follow it, on a connection that may fail within the frame. */
  lemma Clipped(before: Bytes, frame: Bytes, rest: Bytes, capacity: nat)
    ensures before + (frame + rest) == (before + frame) + rest
    ensures |before + frame| <= capacity ==> Clip(before + frame, capacity) == before + frame
    ensures |before + frame| > capacity ==> Clip(before + frame, capacity) == Clip(before + (frame + rest), capacity)
  {
    assert before + (frame + rest) == (before + frame) + rest;
    ClipMore(before + frame, rest, capacity);
  }

  // ---------- What the client sees ----------

  /** The payloads of the text frames, in order. */
  function TextsOf(fs: seq<ClientFrame>): seq<Bytes> {
    if fs == [] then []
    else TextsOf(fs[..|fs| - 1]) + (if fs[|fs| - 1].opcode == TEXT then [fs[|fs| - 1].payload] else [])
  }

  predicate Continues(f: ClientFrame) {
    f.opcode == TEXT || f.opcode == PING
  }

  /** How many frames are answered: all of them, or those up to and including the first that is
      neither text nor ping. */
  function Answered(fs: seq<ClientFrame>): (n: nat)
    ensures n <= |fs|
    ensures forall i | 0 <= i < n - 1 :: Continues(fs[i])
    ensures n < |fs| ==> n > 0 && !Continues(fs[n - 1])
  {
    if fs == [] then 0
    else if !Continues(fs[0]) then 1
    else 1 + Answered(fs[1..])
  }

  /** The answer to the last of `fs`. */
  function AnswerToLast(h: Handler, fs: seq<ClientFrame>): Outcome
    requires fs != []
  {
    var f := fs[|fs| - 1];
    if f.opcode == TEXT then Frame(TEXT, h.reply(TextsOf(fs)))
    else if f.opcode == PING then Frame(PONG, f.payload)
    else if f.opcode == CLOSE then Frame(CLOSE, [])
    else Frame(TEXT, h.unsupported)
  }

  /** One answer per answered frame, in order. */
  function Answers(h: Handler, fs: seq<ClientFrame>): (answers: seq<Outcome>)
    ensures |answers| == Answered(fs)
  {
    seq(Answered(fs), i requires 0 <= i < Answered(fs) => AnswerToLast(h, fs[..i + 1]))
  }

  lemma {:induction false} TextsOfParts(a: seq<ClientFrame>, b: seq<ClientFrame>)
    ensures TextsOf(a + b) == TextsOf(a) + TextsOf(b)
    decreases |b|
  {
    if b == [] {
      assert a + b == a;
    } else {
      var front, f := b[..|b| - 1], b[|b| - 1];
      var last := if f.opcode == TEXT then [f.payload] else [];
      assert (a + b)[..|a + b| - 1] == a + front && (a + b)[|a + b| - 1] == f;
      assert TextsOf(a + b) == TextsOf(a + front) + last && TextsOf(b) == TextsOf(front) + last;
      TextsOfParts(a, front);
      hide TextsOf;
      assert TextsOf(a) + (TextsOf(front) + last) == (TextsOf(a) + TextsOf(front)) + last;
    }
  }

  /** A text frame says its payload, any other nothing. */
  lemma TextsOfOne(f: ClientFrame)
    ensures TextsOf([f]) == if f.opcode == 0x1 then [f.payload] else []
  {
    assert [f][..0] == [];
  }

  /** What the answers are: to a text the reply to all texts so far, to a ping a pong with the same payload, to a
      close a close without one, to anything else a text that says so. Only texts and pings let the loop go on. */
  lemma AnswersAre(h: Handler, fs: seq<ClientFrame>, i: nat)
    requires i < |Answers(h, fs)|
    ensures i < |fs| && Answers(h, fs)[i] ==
            match fs[i].opcode
            case 0x1 => Frame(0x1, h.reply(TextsOf(fs[..i + 1])))
            case 0x9 => Frame(0xA, fs[i].payload)
            case 0x8 => Frame(0x8, [])
            case _ => Frame(0x1, h.unsupported)
    ensures i < |Answers(h, fs)| - 1 ==> fs[i].opcode in {0x1, 0x9}
    ensures i == |Answers(h, fs)| - 1 < |fs| - 1 ==> fs[i].opcode !in {0x1, 0x9}
  {
    hide TextsOf;
  }

  /** Reads server frames until one is incomplete. */
  function ClientReadAll(s: Bytes): seq<Outcome>
    decreases |s|
  {
    var r := ClientParse(s);
    if r.outcome.Failed? then [r.outcome] else [r.outcome] + ClientReadAll(r.rest)
  }

  lemma ClientReadsOne(opcode: Byte, payload: Bytes, tail: Bytes)
    requires opcode < 16 && |payload| < MAX_SLICE
    ensures ClientReadAll(ServerFrame(opcode, payload) + tail) == [Frame(opcode, payload)] + ClientReadAll(tail)
  {
    ClientReadsServerFrame(opcode, payload, tail);
  }

  lemma ClientReadsEnd()
    ensures ClientReadAll([]) == [Failed(EOF)]
  {
  }

  /** One round of the loop, on the encoding of one valid frame. */
  lemma ServedStep(h: Handler, f: ClientFrame, tail: Bytes, texts: seq<Bytes>)
    requires h.Fits() && f.Valid()
    ensures Served(h, Encode(f) + tail, texts) ==
            if f.opcode == TEXT then
              ServerFrame(TEXT, h.reply(texts + [f.payload])) + Served(h, tail, texts + [f.payload])
            else if f.opcode == CLOSE then ServerFrame(CLOSE, [])
            else if f.opcode == PING then ServerFrame(PONG, f.payload) + Served(h, tail, texts)
            else ServerFrame(TEXT, h.unsupported)
  {
    hide Parse, Encode, FormFits, ServerFrame;
    ReadUndoesEncode(f, tail);
  }

  /** The texts seen once `f` has been handled. */
  function TextsAfter(texts: seq<Bytes>, f: ClientFrame): seq<Bytes> {
    if f.opcode == TEXT then texts + [f.payload] else texts
  }

  /** The client reads the answer to one frame, then whatever the loop writes for the rest. */
  lemma ClientReadsRound(h: Handler, f: ClientFrame, rest: Bytes, texts: seq<Bytes>)
    requires h.Fits() && f.Valid()
    ensures ClientReadAll(Served(h, Encode(f) + rest, texts)) ==
            [Reply(h, f, texts)]
            + (if Continues(f) then ClientReadAll(Served(h, rest, TextsAfter(texts, f))) else [Failed(EOF)])
  {
    hide Parse, Encode, FormFits, ServerFrame, ClientParse, ClientReadAll, Served;
    ServedStep(h, f, rest, texts);
    ClientReadsEnd();
    var reply, tail := Reply(h, f, texts), if Continues(f) then Served(h, rest, TextsAfter(texts, f)) else [];
    ReplyReads(h, f, texts, tail);
    assert !Continues(f) ==> ServerFrame(reply.opcode, reply.payload) + [] == ServerFrame(reply.opcode, reply.payload);
  }

  /** The answers in the order the loop gives them, with `texts` already seen. */
  function AnswersFrom(h: Handler, fs: seq<ClientFrame>, texts: seq<Bytes>): seq<Outcome> {
    if fs == [] then []
    else if Continues(fs[0]) then [Reply(h, fs[0], texts)] + AnswersFrom(h, fs[1..], TextsAfter(texts, fs[0]))
    else [Reply(h, fs[0], texts)]
  }

  /** What the loop has to say about the bytes behind the frames: nothing once a frame has ended it, nor at the
      end of the input, else why they are no frame. */
  function LastWord(h: Handler, fs: seq<ClientFrame>, tail: Bytes): seq<Outcome> {
    var r := Parse(tail).outcome;
    if (exists i :: 0 <= i < |fs| && !Continues(fs[i])) || r.Frame? || r.error == EOF then []
    else [Frame(TEXT, h.failure(r.error))]
  }

  /** The bytes behind the frames begin no frame, or a frame has ended the loop before. */
  ghost predicate Ends(fs: seq<ClientFrame>, tail: Bytes) {
    Parse(tail).outcome.Failed? || exists i :: 0 <= i < |fs| && !Continues(fs[i])
  }

  lemma {:induction false} ClientReadsAnswers(h: Handler, fs: seq<ClientFrame>, tail: Bytes, texts: seq<Bytes>)
    requires h.Fits() && AllValid(fs) && Ends(fs, tail)
    ensures ClientReadAll(Served(h, EncodeAll(fs) + tail, texts)) ==
            AnswersFrom(h, fs, texts) + LastWord(h, fs, tail) + [Failed(EOF)]
  {
    hide Encode, ClientReadAll, Served, Reply, Parse;
    if fs == [] {
      ServedFailure(h, tail, texts);
      assert EncodeAll(fs) + tail == tail;
      assert AnswersFrom(h, fs, texts) + LastWord(h, fs, tail) == LastWord(h, fs, tail);
    } else {
      var f, rest := fs[0], EncodeAll(fs[1..]) + tail;
      assert EncodeAll(fs) + tail == Encode(f) + rest;
      ClientReadsRound(h, f, rest, texts);
      if Continues(f) {
        OnlyRest(h, fs, tail);
        ClientReadsAnswers(h, fs[1..], tail, TextsAfter(texts, f));
        Regrouped(Reply(h, f, texts), AnswersFrom(h, fs[1..], TextsAfter(texts, f)), LastWord(h, fs, tail));
      } else {
        assert LastWord(h, fs, tail) == [];
        assert AnswersFrom(h, fs, texts) + [] == AnswersFrom(h, fs, texts);
      }
    }
  }

  lemma Regrouped(reply: Outcome, answers: seq<Outcome>, last: seq<Outcome>)
    ensures [reply] + (answers + last + [Failed(EOF)]) == ([reply] + answers) + last + [Failed(EOF)]
  {
  }

  /** A frame that lets the loop go on does not bear on how it ends. */
  lemma OnlyRest(h: Handler, fs: seq<ClientFrame>, tail: Bytes)
    requires fs != [] && Continues(fs[0])
    ensures Ends(fs, tail) == Ends(fs[1..], tail) && LastWord(h, fs, tail) == LastWord(h, fs[1..], tail)
  {
    hide Parse, Continues;
    var more := fs[1..];
    if i :| 0 <= i < |fs| && !Continues(fs[i]) {
      assert more[i - 1] == fs[i];
    }
    if i :| 0 <= i < |more| && !Continues(more[i]) {
      assert more[i] == fs[i + 1];
    }
  }

  /** The loop on bytes that begin no frame. */
  lemma ServedFailure(h: Handler, tail: Bytes, texts: seq<Bytes>)
    requires h.Fits() && Parse(tail).outcome.Failed?
    ensures ClientReadAll(Served(h, tail, texts)) == LastWord(h, [], tail) + [Failed(EOF)]
  {
    hide Parse, ServerFrame, ClientParse, ClientReadAll;
    ClientReadsEnd();
    var e := Parse(tail).outcome.error;
    assert LastWord(h, [], tail) == if e == EOF then [] else [Frame(TEXT, h.failure(e))];
    if e == EOF {
      assert Served(h, tail, texts) == [];
    } else {
      ClientReadsOne(TEXT, h.failure(e), []);
      assert Served(h, tail, texts) == ServerFrame(TEXT, h.failure(e)) + [];
    }
  }

  /** The loop's order is the order of the frames. */
  lemma {:induction false} AnswersFromIndex(h: Handler, fs: seq<ClientFrame>, n: nat)
    requires n <= Answered(fs) && (n == 0 || Continues(fs[n - 1]))
    ensures AnswersFrom(h, fs[n..], TextsOf(fs[..n])) == Answers(h, fs)[n..]
    decreases |fs| - n
  {
    hide AnswerToLast, Reply;
    if n < Answered(fs) {
      AnswerStep(h, fs, n);
      assert fs[n..][1..] == fs[n + 1..];
      if Continues(fs[n]) {
        AnswersFromIndex(h, fs, n + 1);
      } else {
        assert Answered(fs) == n + 1;
      }
    }
  }

  lemma AnswerStep(h: Handler, fs: seq<ClientFrame>, n: nat)
    requires n < |fs|
    ensures AnswerToLast(h, fs[..n + 1]) == Reply(h, fs[n], TextsOf(fs[..n]))
    ensures TextsOf(fs[..n + 1]) == TextsAfter(TextsOf(fs[..n]), fs[n])
  {
    assert fs[..n + 1][..n] == fs[..n];
    assert TextsOf(fs[..n]) + [] == TextsOf(fs[..n]);
  }

  function Reply(h: Handler, f: ClientFrame, texts: seq<Bytes>): Outcome {
    if f.opcode == TEXT then Frame(TEXT, h.reply(texts + [f.payload]))
    else if f.opcode == PING then Frame(PONG, f.payload)
    else if f.opcode == CLOSE then Frame(CLOSE, [])
    else Frame(TEXT, h.unsupported)
  }

  lemma ReplyReads(h: Handler, f: ClientFrame, texts: seq<Bytes>, tail: Bytes)
    requires h.Fits() && f.Valid()
    ensures Reply(h, f, texts).opcode < 16 && |Reply(h, f, texts).payload| < MAX_SLICE
    ensures ClientReadAll(ServerFrame(Reply(h, f, texts).opcode, Reply(h, f, texts).payload) + tail)
         == [Reply(h, f, texts)] + ClientReadAll(tail)
  {
    hide ServerFrame, ClientReadAll;
    ClientReadsOne(Reply(h, f, texts).opcode, Reply(h, f, texts).payload, tail);
  }

  /** End to end: whatever valid frames a client sends, in whatever length forms, it reads back one answer per
      frame up to and including the answer to the first close or unsupported opcode, and nothing after it.
      Bytes behind such a frame do not matter; without one, bytes that begin no frame are answered by why. */
  lemma ServeAnswersClient(h: Handler, fs: seq<ClientFrame>, tail: Bytes)
    requires h.Fits() && AllValid(fs) && Ends(fs, tail)
    ensures ClientReadAll(Served(h, EncodeAll(fs) + tail, [])) == Answers(h, fs) + LastWord(h, fs, tail) + [Failed(EOF)]
  {
    assert fs[0..] == fs && fs[..0] == [];
    assert Answers(h, fs)[0..] == Answers(h, fs);
    hide LastWord, Ends, Served;
    ClientReadsAnswers(h, fs, tail, []);
    AnswersFromIndex(h, fs, 0);
  }

  /** That is every input there is: any bytes are valid frames followed by bytes that begin none. */
  lemma {:induction false} EveryInputSplits(s: Bytes) returns (fs: seq<ClientFrame>, tail: Bytes)
    ensures AllValid(fs) && s == EncodeAll(fs) + tail && Ends(fs, tail)
    decreases |s|
  {
    hide Parse, Encode, FrameAt;
    fs, tail := [], s;
    assert EncodeAll(fs) + tail == s;
    if Parse(s).outcome.Frame? {
      ReadExactlyEncodings(s);
      var f := FrameAt(s);
      fs, tail := EveryInputSplits(Parse(s).rest);
      assert ([f] + fs)[1..] == fs;
      assert Encode(f) + (EncodeAll(fs) + tail) == (Encode(f) + EncodeAll(fs)) + tail;
      if i :| 0 <= i < |fs| && !Continues(fs[i]) {
        assert ([f] + fs)[i + 1] == fs[i];
      }
      fs := [f] + fs;
    }
  }

  /** So whatever bytes a client sends, what it reads back is this. */
  lemma ServeAnswersAnyone(h: Handler, s: Bytes) returns (fs: seq<ClientFrame>, tail: Bytes)
    requires h.Fits()
    ensures AllValid(fs) && s == EncodeAll(fs) + tail
    ensures ClientReadAll(Served(h, s, [])) == Answers(h, fs) + LastWord(h, fs, tail) + [Failed(EOF)]
  {
    hide Ends, LastWord, Served, ClientReadAll, Answers;
    fs, tail := EveryInputSplits(s);
    ServeAnswersClient(h, fs, tail);
  }
}
