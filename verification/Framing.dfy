/** The byte stream of a TCP connection between switches: what the sender puts on it and what the
    receiver makes of it. */
module Framing {
  import opened Bytes
  import opened Wrappers
  import opened Cipher

  const DATA: byte := 0x01
  const HEARTBEAT: byte := 0x02
  const READ_BUFFER_SIZE: nat := 1048576   // configs.TCPSocketReadBufferSize

  /** binary.BigEndian, uint32. */
  function BigEndian(n: nat): (r: Bytes)
    requires n < 0x1_0000_0000
    ensures |r| == 4
  {
    [n / 0x100_0000, n / 0x1_0000 % 0x100, n / 0x100 % 0x100, n % 0x100]
  }

  function FromBigEndian(b: Bytes): (n: nat)
    requires |b| == 4
  {
    b[0] as int * 0x100_0000 + b[1] as int * 0x1_0000 + b[2] as int * 0x100 + b[3]
  }

  lemma BigEndianRoundTrip(n: nat)
    requires n < 0x1_0000_0000
    ensures FromBigEndian(BigEndian(n)) == n
  {
    assert n / 0x1_0000 == n / 0x100_0000 * 0x100 + n / 0x1_0000 % 0x100;
    assert n / 0x100 == n / 0x1_0000 * 0x100 + n / 0x100 % 0x100;
  }

  // ---------- the sending side ----------

  /** What one turn of the sender leaves on the stream: nothing, a heartbeat, a whole frame, a lone type
      byte (when encryption fails after the type has been written), or the part of a frame that a
      failed write got through. */
  datatype Piece = Nothing | Beat | Frame(payload: Bytes) | StrayType | Cut(bytes: Bytes)

  /** The payload length as a uint32. */
  function LengthField(payload: Bytes): (r: Bytes)
    ensures |r| == 4
  {
    BigEndian(|payload| % 0x1_0000_0000)
  }

  function FrameBytes(payload: Bytes): Bytes {
    [DATA] + LengthField(payload) + payload
  }

  function Wire(p: Piece): Bytes {
    match p
    case Nothing => []
    case Beat => [HEARTBEAT]
    case Frame(payload) => FrameBytes(payload)
    case StrayType => [DATA]
    case Cut(bytes) => bytes
  }

  function WireAll(ps: seq<Piece>): Bytes {
    if ps == [] then [] else Wire(ps[0]) + WireAll(ps[1..])
  }

  // ---------- the receiving side ----------

  datatype Stop = EndOfStream | TruncatedLength | TooLong | TruncatedPayload | Undecryptable | Unparsable | UnknownType(t: byte)

  datatype Received<M> = Received(msgs: seq<M>, stop: Stop)

  /** One turn of the receiver: what it delivers, if anything, and where it reads on; or why it drops
      the connection. */
  datatype Turn<M> = Go(delivered: Option<M>, rest: Bytes) | Drop(stop: Stop)

  function NextTurn<M>(c: CipherUtil, unmarshal: Bytes -> Option<M>, s: Bytes): (t: Turn<M>)
    ensures t.Go? ==> |t.rest| < |s|
  {
    if s == [] then Drop(EndOfStream)
    else if s[0] == HEARTBEAT then Go(None, s[1..])
    else if s[0] != DATA then Drop(UnknownType(s[0]))
    else if |s| < 5 then Drop(TruncatedLength)
    else
      var n := FromBigEndian(s[1..5]);
      if n > READ_BUFFER_SIZE then Drop(TooLong)
      else if |s| < 5 + n then Drop(TruncatedPayload)
      else
        var text := Decrypt(c, s[5..5 + n]);
        if text.None? then Drop(Undecryptable)
        else
          var m := unmarshal(text.value);
          if m.None? then Drop(Unparsable) else Go(m, s[5 + n..])
  }

  function OneOrNone<M>(d: Option<M>): seq<M> {
    if d.Some? then [d.value] else []
  }

  /** Everything the receiver makes of a stream that ends after `s`. */
  function Receive<M>(c: CipherUtil, unmarshal: Bytes -> Option<M>, s: Bytes): Received<M>
    decreases |s|
  {
    match NextTurn(c, unmarshal, s)
    case Drop(stop) => Received([], stop)
    case Go(d, rest) =>
      var r := Receive(c, unmarshal, rest);
      Received(OneOrNone(d) + r.msgs, r.stop)
  }

  // ---------- any stream ----------

  /** A truncated stream makes the receiver do the same as the whole one for as long as it can. */
  lemma TurnOfPrefix<M>(c: CipherUtil, unmarshal: Bytes -> Option<M>, s: Bytes, k: nat)
    requires k <= |s|
    ensures var t, u := NextTurn(c, unmarshal, s[..k]), NextTurn(c, unmarshal, s);
      && (t.Go? ==> u.Go? && t.delivered == u.delivered && |u.rest| + k >= |s| && t.rest == u.rest[..|u.rest| + k - |s|])
      && (t.Drop? && t.stop !in {EndOfStream, TruncatedLength, TruncatedPayload} ==> t == u)
  {
    if k >= 5 {
      assert s[..k][1..5] == s[1..5];
      var n := FromBigEndian(s[1..5]);
      if k >= 5 + n {
        assert s[..k][5..5 + n] == s[5..5 + n];
      }
    }
  }

  /** Truncation safety: whatever the bytes are and wherever the stream is cut, the messages
      delivered are the first of those that the whole stream would deliver. */
  lemma {:induction false} CutDeliversPrefix<M>(c: CipherUtil, unmarshal: Bytes -> Option<M>, s: Bytes, k: nat)
    requires k <= |s|
    ensures Receive(c, unmarshal, s[..k]).msgs <= Receive(c, unmarshal, s).msgs
    decreases |s|
  {
    hide NextTurn;
    TurnOfPrefix(c, unmarshal, s, k);
    var t, u := NextTurn(c, unmarshal, s[..k]), NextTurn(c, unmarshal, s);
    if t.Go? {
      CutDeliversPrefix(c, unmarshal, u.rest, |u.rest| + k - |s|);
    }
  }

  /** A clean piece: nothing, a heartbeat, or a frame that fits the receiver's buffer and opens. */
  ghost predicate Clean<M>(c: CipherUtil, unmarshal: Bytes -> Option<M>, p: Piece) {
    match p
    case Nothing | Beat => true
    case Frame(payload) => |payload| <= READ_BUFFER_SIZE && Opened(c, unmarshal, payload).Some?
    case StrayType | Cut(_) => false
  }

  function Opened<M>(c: CipherUtil, unmarshal: Bytes -> Option<M>, payload: Bytes): Option<M> {
    var text := Decrypt(c, payload);
    if text.None? then None else unmarshal(text.value)
  }

  function PieceMessage<M>(c: CipherUtil, unmarshal: Bytes -> Option<M>, p: Piece): Option<M> {
    if p.Frame? then Opened(c, unmarshal, p.payload) else None
  }

  function Delivered<M>(c: CipherUtil, unmarshal: Bytes -> Option<M>, ps: seq<Piece>): seq<M> {
    if ps == [] then []
    else OneOrNone(PieceMessage(c, unmarshal, ps[0])) + Delivered(c, unmarshal, ps[1..])
  }

  lemma TurnOfClean<M>(c: CipherUtil, unmarshal: Bytes -> Option<M>, p: Piece, rest: Bytes)
    requires Clean(c, unmarshal, p) && p != Nothing
    ensures NextTurn(c, unmarshal, Wire(p) + rest) == Go(PieceMessage(c, unmarshal, p), rest)
  {
    if p.Frame? {
      LengthIsRead(p.payload, rest);
      PayloadIsRead(p.payload, rest);
      hide BigEndian, FromBigEndian, FrameBytes, Decrypt;
    } else {
      assert (Wire(p) + rest)[1..] == rest;
    }
  }

  lemma LengthIsRead(payload: Bytes, rest: Bytes)
    ensures var s := FrameBytes(payload) + rest;
      |s| == 5 + |payload| + |rest| && s[0] == DATA && FromBigEndian(s[1..5]) == |payload| % 0x1_0000_0000
  {
    var n := |payload| % 0x1_0000_0000;
    BigEndianRoundTrip(n);
    hide BigEndian, FromBigEndian;
    assert (FrameBytes(payload) + rest)[1..5] == BigEndian(n);
  }

  lemma PayloadIsRead(payload: Bytes, rest: Bytes)
    ensures var s := FrameBytes(payload) + rest; s[5..5 + |payload|] == payload && s[5 + |payload|..] == rest
  {
    hide LengthField;
    var s := FrameBytes(payload) + rest;
    assert s == ([DATA] + LengthField(payload)) + payload + rest;
  }

  lemma ReceiveClean<M>(c: CipherUtil, unmarshal: Bytes -> Option<M>, p: Piece, rest: Bytes)
    requires Clean(c, unmarshal, p)
    ensures var r := Receive(c, unmarshal, rest);
      Receive(c, unmarshal, Wire(p) + rest) == Received(OneOrNone(PieceMessage(c, unmarshal, p)) + r.msgs, r.stop)
  {
    if p == Nothing {
      assert [] + rest == rest;
    } else {
      TurnOfClean(c, unmarshal, p, rest);
      hide NextTurn, Wire, Clean, PieceMessage;
    }
  }

  lemma Associates<T>(a: seq<T>, b: seq<T>, c: seq<T>)
    ensures (a + b) + c == a + (b + c)
  {}

  /** Clean pieces are received one by one, and reading goes on right behind them. */
  lemma {:induction false} CleanPiecesAreDelivered<M>(c: CipherUtil, unmarshal: Bytes -> Option<M>, ps: seq<Piece>, rest: Bytes)
    requires forall p <- ps :: Clean(c, unmarshal, p)
    ensures var r := Receive(c, unmarshal, rest);
      Receive(c, unmarshal, WireAll(ps) + rest) == Received(Delivered(c, unmarshal, ps) + r.msgs, r.stop)
  {
    hide Receive, NextTurn, Wire, Clean, PieceMessage;
    if ps == [] {
      assert WireAll(ps) + rest == rest;
    } else {
      var p, tail, r := ps[0], ps[1..], Receive(c, unmarshal, rest);
      CleanPiecesAreDelivered(c, unmarshal, tail, rest);
      ReceiveClean(c, unmarshal, p, WireAll(tail) + rest);
      Associates(Wire(p), WireAll(tail), rest);
      Associates(OneOrNone(PieceMessage(c, unmarshal, p)), Delivered(c, unmarshal, tail), r.msgs);
    }
  }

  /** Conversely, every delivered message comes from a whole frame at its place in the stream: what
      was read is the wire image of clean pieces that open to exactly the delivered messages. */
  lemma {:induction false} DeliveredWereFramed<M>(c: CipherUtil, unmarshal: Bytes -> Option<M>, s: Bytes) returns (ps: seq<Piece>)
    ensures forall p <- ps :: Clean(c, unmarshal, p)
    ensures WireAll(ps) <= s
    ensures Receive(c, unmarshal, s).msgs == Delivered(c, unmarshal, ps)
    ensures Receive(c, unmarshal, s).stop == EndOfStream ==> WireAll(ps) == s
    decreases |s|
  {
    var t := NextTurn(c, unmarshal, s);
    if t.Drop? {
      return [];
    }
    var tail := DeliveredWereFramed(c, unmarshal, t.rest);
    var p := FirstPiece(c, unmarshal, s);
    ps := [p] + tail;
    assert ps[1..] == tail;
    assert s == Wire(p) + t.rest;
  }

  lemma FirstPiece<M>(c: CipherUtil, unmarshal: Bytes -> Option<M>, s: Bytes) returns (p: Piece)
    requires NextTurn(c, unmarshal, s).Go?
    ensures var t := NextTurn(c, unmarshal, s);
      && Clean(c, unmarshal, p) && s == Wire(p) + t.rest
      && t.delivered == PieceMessage(c, unmarshal, p)
  {
    if s[0] == HEARTBEAT {
      return Beat;
    }
    var n := FromBigEndian(s[1..5]);
    p := Frame(s[5..5 + n]);
    BigEndianInverse(s[1..5]);
  }

  lemma BigEndianInverse(b: Bytes)
    requires |b| == 4
    ensures FromBigEndian(b) < 0x1_0000_0000 && BigEndian(FromBigEndian(b)) == b
  {
    var n := FromBigEndian(b);
    assert n / 0x1_0000 == b[0] as int * 0x100 + b[1];
    assert n / 0x100 == b[0] as int * 0x1_0000 + b[1] as int * 0x100 + b[2];
  }

  // ---------- what the sender sends ----------

  /** Round trip: for every interleaving of heartbeats and frames that fit the receiver's buffer, the
      receiver delivers exactly the messages, in order, and consumes every byte. */
  lemma StreamRoundTrip<M>(c: CipherUtil, unmarshal: Bytes -> Option<M>, ps: seq<Piece>)
    requires forall p <- ps :: Clean(c, unmarshal, p)
    ensures Receive(c, unmarshal, WireAll(ps)) == Received(Delivered(c, unmarshal, ps), EndOfStream)
  {
    assert WireAll(ps) + [] == WireAll(ps);
    CleanPiecesAreDelivered(c, unmarshal, ps, []);
  }

  /** Cutting such a stream anywhere delivers a prefix of the messages sent, none altered. */
  lemma CutStreamDeliversPrefix<M>(c: CipherUtil, unmarshal: Bytes -> Option<M>, ps: seq<Piece>, k: nat)
    requires (forall p <- ps :: Clean(c, unmarshal, p)) && k <= |WireAll(ps)|
    ensures Receive(c, unmarshal, WireAll(ps)[..k]).msgs <= Delivered(c, unmarshal, ps)
    ensures Receive(c, unmarshal, WireAll(ps)[..k]).stop in {EndOfStream, TruncatedLength, TruncatedPayload}
  {
    StreamRoundTrip(c, unmarshal, ps);
    CutDeliversPrefix(c, unmarshal, WireAll(ps), k);
    CutStops(c, unmarshal, WireAll(ps), k);
  }

  /** A cut by itself never makes the receiver reject anything. */
  lemma {:induction false} CutStops<M>(c: CipherUtil, unmarshal: Bytes -> Option<M>, s: Bytes, k: nat)
    requires k <= |s|
    ensures var stop := Receive(c, unmarshal, s[..k]).stop;
      stop in {EndOfStream, TruncatedLength, TruncatedPayload} || stop == Receive(c, unmarshal, s).stop
    decreases |s|
  {
    TurnOfPrefix(c, unmarshal, s, k);
    var t, u := NextTurn(c, unmarshal, s[..k]), NextTurn(c, unmarshal, s);
    if t.Go? {
      CutStops(c, unmarshal, u.rest, |u.rest| + k - |s|);
    }
  }

  /** The receiver's size check, on what the sender made of a serialised message: the message is
      delivered, and reading goes on right behind its frame, if and only if the envelope is at most
      1 MiB, i.e. the text at most 1 MiB minus the 28 bytes of nonce and tag. A larger one ends the
      connection, as long as its length fits the length field. */
  lemma SealedFrameFits<M>(c: CipherUtil, unmarshal: Bytes -> Option<M>, nonce: Bytes, text: Bytes, rest: Bytes)
    requires Sound(c) && |nonce| == NONCE_SIZE && unmarshal(text).Some?
    ensures var t, size := NextTurn(c, unmarshal, Wire(Frame(Encrypt(c, nonce, text))) + rest), |text| + if c.Enabled? then 28 else 0;
      && (t == Go(unmarshal(text), rest) <==> size <= 1048576)
      && (1048576 < size < 0x1_0000_0000 ==> t == Drop(TooLong))
  {
    hide Encrypt, Decrypt, FromBigEndian, FrameBytes, NextTurn;
    DecryptInvertsEncrypt(c, nonce, text);
    var payload := Encrypt(c, nonce, text);
    if |payload| <= READ_BUFFER_SIZE {
      TurnOfClean(c, unmarshal, Frame(payload), rest);
    } else {
      TurnOfLarge(c, unmarshal, payload, rest);
    }
  }

  lemma TurnOfLarge<M>(c: CipherUtil, unmarshal: Bytes -> Option<M>, payload: Bytes, rest: Bytes)
    requires |payload| > READ_BUFFER_SIZE
    ensures var t := NextTurn(c, unmarshal, FrameBytes(payload) + rest);
      && (t.Go? ==> |t.rest| > |rest|)
      && (|payload| < 0x1_0000_0000 ==> t == Drop(TooLong))
  {
    hide Decrypt, FromBigEndian, FrameBytes;
    LengthIsRead(payload, rest);
  }

  // ---------- after a failed encryption ----------

  /** A cut piece is the beginning of some frame. */
  ghost predicate WellCut(p: Piece) {
    p.Cut? ==> exists payload :: p.bytes <= FrameBytes(payload)
  }

  lemma {:induction false} WireAllStarts(ps: seq<Piece>)
    requires forall p <- ps :: WellCut(p)
    ensures WireAll(ps) == [] || WireAll(ps)[0] in {DATA, HEARTBEAT}
  {
    if ps != [] {
      if Wire(ps[0]) == [] {
        WireAllStarts(ps[1..]);
      } else if ps[0].Cut? {
        assert WellCut(ps[0]);
        var payload :| ps[0].bytes <= FrameBytes(payload);
        assert ps[0].bytes[0] == FrameBytes(payload)[0];
      }
      assert WireAll(ps) == Wire(ps[0]) + WireAll(ps[1..]);
    }
  }

  /** A lone type byte swallows what follows as a length; whatever the sender sends next, that length
      is at least 0x01000000 and the receiver drops the connection. */
  lemma StrayTypeStops<M>(c: CipherUtil, unmarshal: Bytes -> Option<M>, ps: seq<Piece>)
    requires forall p <- ps :: WellCut(p)
    ensures Receive(c, unmarshal, [DATA] + WireAll(ps)).msgs == []
    ensures Receive(c, unmarshal, [DATA] + WireAll(ps)).stop in {TruncatedLength, TooLong}
  {
    WireAllStarts(ps);
    var s := [DATA] + WireAll(ps);
    if |s| >= 5 {
      assert s[1..5][0] == WireAll(ps)[0];
      assert FromBigEndian(s[1..5]) >= 0x100_0000;
    }
  }

  /** So with encryption failures anywhere, exactly the messages before the first one arrive. */
  lemma DeliveredUpToStray<M>(c: CipherUtil, unmarshal: Bytes -> Option<M>, before: seq<Piece>, after: seq<Piece>)
    requires (forall p <- before :: Clean(c, unmarshal, p)) && (forall p <- after :: WellCut(p))
    ensures Receive(c, unmarshal, WireAll(before + [StrayType] + after)).msgs == Delivered(c, unmarshal, before)
  {
    WireAllConcat(before, [StrayType] + after);
    assert before + [StrayType] + after == before + ([StrayType] + after);
    assert ([StrayType] + after)[1..] == after;
    CleanPiecesAreDelivered(c, unmarshal, before, [DATA] + WireAll(after));
    StrayTypeStops(c, unmarshal, after);
  }



  lemma {:induction false} WireAllConcat(ps: seq<Piece>, qs: seq<Piece>)
    ensures WireAll(ps + qs) == WireAll(ps) + WireAll(qs)
  {
    hide Wire;
    if ps == [] {
      assert ps + qs == qs;
      assert [] + WireAll(qs) == WireAll(qs);
    } else {
      WireAllConcat(ps[1..], qs);
      WireAllSplits(ps, qs);
      hide WireAll;
      Associates(Wire(ps[0]), WireAll(ps[1..]), WireAll(qs));
    }
  }

  lemma WireAllSplits(ps: seq<Piece>, qs: seq<Piece>)
    requires ps != []
    ensures WireAll(ps) == Wire(ps[0]) + WireAll(ps[1..]) && WireAll(ps + qs) == Wire(ps[0]) + WireAll(ps[1..] + qs)
  {
    hide Wire;
    assert (ps + qs)[1..] == ps[1..] + qs;
  }

  // ---------- the bytes of the format ----------

  /** A heartbeat is the byte 2; a frame is the byte 1, four bytes of length with the most significant
      first, and the payload. */
  lemma FrameIsSpelled(payload: Bytes)
    requires |payload| < 0x1_0000_0000
    ensures Wire(Beat) == [2]
    ensures var s := Wire(Frame(payload));
      && |s| == 5 + |payload| && s[0] == 1 && s[5..] == payload
      && s[1] as int * 16777216 + s[2] as int * 65536 + s[3] as int * 256 + s[4] as int == |payload|
  {
    BigEndianRoundTrip(|payload|);
    hide BigEndian;
    var s := FrameBytes(payload);
    assert s[1..5] == BigEndian(|payload|);
    assert s[1..5][0] == s[1] && s[1..5][1] == s[2] && s[1..5][2] == s[3] && s[1..5][3] == s[4];
    assert s[5..] == payload;
  }

  // ---------- only what was sealed is delivered ----------

  /** The payloads of the frames among the pieces. */
  function Payloads(ps: seq<Piece>): seq<Bytes> {
    if ps == [] then [] else (if ps[0].Frame? then [ps[0].payload] else []) + Payloads(ps[1..])
  }

  /** The texts are those sealed in the payloads, and the messages are what they unmarshal to. */
  ghost predicate SealedTexts<M>(a: Aead, unmarshal: Bytes -> Option<M>, payloads: seq<Bytes>, texts: seq<Bytes>, msgs: seq<M>) {
    |payloads| == |texts| == |msgs|
    && forall i | 0 <= i < |texts| :: IsSealed(a, payloads[i], texts[i]) && unmarshal(texts[i]) == Some(msgs[i])
  }

  /** A clean frame is a sealed text, and its message is what that unmarshals to. */
  lemma CleanFrameIsSealed<M>(c: CipherUtil, unmarshal: Bytes -> Option<M>, payload: Bytes) returns (text: Bytes)
    requires Genuine(c) && c.Enabled? && Clean(c, unmarshal, Frame(payload))
    ensures IsSealed(c.aead, payload, text) && unmarshal(text).Some? && unmarshal(text) == PieceMessage(c, unmarshal, Frame(payload))
  {
    hide Genuine, IsSealed, Decrypt;
    text := Decrypt(c, payload).value;
    DecryptExactly(c, payload, text);
  }

  lemma SealedTextsPrepend<M>(a: Aead, unmarshal: Bytes -> Option<M>, payloads: seq<Bytes>, texts: seq<Bytes>, msgs: seq<M>,
                              payload: Bytes, text: Bytes, m: M)
    requires SealedTexts(a, unmarshal, payloads, texts, msgs) && IsSealed(a, payload, text) && unmarshal(text) == Some(m)
    ensures SealedTexts(a, unmarshal, [payload] + payloads, [text] + texts, [m] + msgs)
  {
    hide IsSealed;
  }

  lemma {:induction false} CleanFramesAreSealed<M>(c: CipherUtil, unmarshal: Bytes -> Option<M>, ps: seq<Piece>) returns (texts: seq<Bytes>)
    requires Genuine(c) && c.Enabled? && forall p <- ps :: Clean(c, unmarshal, p)
    ensures SealedTexts(c.aead, unmarshal, Payloads(ps), texts, Delivered(c, unmarshal, ps))
  {
    hide Genuine, IsSealed, Clean, Opened;
    if ps == [] {
      texts := [];
    } else {
      texts := CleanFramesAreSealed(c, unmarshal, ps[1..]);
      hide SealedTexts;
      if ps[0].Frame? {
        var text := CleanFrameIsSealed(c, unmarshal, ps[0].payload);
        SealedTextsPrepend(c.aead, unmarshal, Payloads(ps[1..]), texts, Delivered(c, unmarshal, ps[1..]),
                           ps[0].payload, text, unmarshal(text).value);
        texts := [text] + texts;
      } else {
        assert [] + Payloads(ps[1..]) == Payloads(ps[1..]);
        assert [] + Delivered(c, unmarshal, ps[1..]) == Delivered(c, unmarshal, ps[1..]);
      }
    }
  }

  /** On any stream, with a secret: the bytes read before the receiver stops are heartbeats and frames,
      every frame is some text sealed under the key, and what was delivered is what these texts
      unmarshal to, in order. Nothing unsealed or altered gets through. */
  lemma OnlySealedIsDelivered<M>(c: CipherUtil, unmarshal: Bytes -> Option<M>, s: Bytes) returns (ps: seq<Piece>, texts: seq<Bytes>)
    requires Genuine(c) && c.Enabled?
    ensures WireAll(ps) <= s && forall p <- ps :: p.Nothing? || p.Beat? || p.Frame?
    ensures SealedTexts(c.aead, unmarshal, Payloads(ps), texts, Receive(c, unmarshal, s).msgs)
  {
    hide Genuine, IsSealed, Decrypt, WireAll, Receive, Opened;
    ps := DeliveredWereFramed(c, unmarshal, s);
    texts := CleanFramesAreSealed(c, unmarshal, ps);
  }

  lemma RefusedTurn<M>(c: CipherUtil, unmarshal: Bytes -> Option<M>, payload: Bytes, rest: Bytes)
    requires Decrypt(c, payload) == None && |payload| <= READ_BUFFER_SIZE
    ensures NextTurn(c, unmarshal, FrameBytes(payload) + rest) == Drop(Undecryptable)
  {
    hide Decrypt, FromBigEndian, FrameBytes;
    LengthIsRead(payload, rest);
    PayloadIsRead(payload, rest);
  }

  /** And a frame of anything else ends delivery: exactly the messages before it arrive. */
  lemma RefusedFrameStops<M>(c: CipherUtil, unmarshal: Bytes -> Option<M>, before: seq<Piece>, payload: Bytes, rest: Bytes)
    requires Genuine(c) && c.Enabled? && (forall p <- before :: Clean(c, unmarshal, p)) && |payload| <= 1048576
    requires forall text :: !IsSealed(c.aead, payload, text)
    ensures Receive(c, unmarshal, WireAll(before) + (Wire(Frame(payload)) + rest)) == Received(Delivered(c, unmarshal, before), Undecryptable)
  {
    hide Genuine, IsSealed, Decrypt, WireAll, FrameBytes, Clean, NextTurn, Delivered;
    RefusedExactly(c, payload);
    CleanPiecesAreDelivered(c, unmarshal, before, Wire(Frame(payload)) + rest);
    RefusedTurn(c, unmarshal, payload, rest);
    assert Delivered(c, unmarshal, before) + [] == Delivered(c, unmarshal, before);
  }
}
