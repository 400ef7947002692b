/** The two loops that serve a TCP connection between switches. */
module TcpCore {
  import opened Bytes
  import opened Wrappers
  import opened Cipher
  import opened Framing

  /** Whether a write failed, and whether it did because the connection is closed. */
  datatype WriteError = NoError | ConnClosed | OtherError

  /** The writing end of a connection: `sent` is what the stream has accepted, `failures` counts the
      operations that reported an error, and `errors` has what each write reported. */
  class Conn {
    var sent: Bytes
    ghost var failures: nat
    ghost var errors: seq<WriteError>

    /** Accepts some of the data; a success with data to write accepts at least one byte. */
    method Write(data: Bytes) returns (n: nat, err: WriteError)
      modifies this
      ensures n <= |data| && sent == old(sent) + data[..n]
      ensures err == NoError && data != [] ==> n > 0
      ensures failures == old(failures) + if err == NoError then 0 else 1
      ensures errors == old(errors) + [err]
    {
      n :| 0 <= n <= |data|;
      err := *;
      if err == NoError && n == 0 {
        n := |data|;
      }
      sent := sent + data[..n];
      if err != NoError {
        failures := failures + 1;
      }
      errors := errors + [err];
    }

    /** binary.Write: one write; a short one is an error. */
    method BinaryWrite(data: Bytes) returns (err: WriteError, ghost k: nat)
      modifies this
      ensures k <= |data| && sent == old(sent) + data[..k]
      ensures err == NoError ==> k == |data|
      ensures failures == old(failures) + if err == NoError then 0 else 1
      ensures |errors| == |old(errors)| + 1 && errors[..|old(errors)|] == old(errors)
      ensures err == ConnClosed <==> errors[|old(errors)|] == ConnClosed
    {
      var n;
      n, err := Write(data);
      k := n;
      if err == NoError && n < |data| {
        err := OtherError;
        failures := failures + 1;
      }
    }
  }

  /** On success all of the data is on the stream, however short the writes; on failure a prefix. */
  method WriteAllBytes(conn: Conn, data: Bytes) returns (ok: bool, ghost k: nat)
    modifies conn
    ensures k <= |data| && conn.sent == old(conn.sent) + data[..k]
    ensures ok ==> k == |data|
    ensures conn.failures == old(conn.failures) + if ok then 0 else 1
    ensures old(conn.errors) <= conn.errors
  {
    var rest := data;
    k := 0;
    while |rest| > 0
      invariant k <= |data| && rest == data[k..]
      invariant conn.sent == old(conn.sent) + data[..k]
      invariant conn.failures == old(conn.failures) && old(conn.errors) <= conn.errors
      decreases |rest|
    {
      var n, err := conn.Write(rest);
      assert data[..k + n] == data[..k] + rest[..n];
      k := k + n;
      if err != NoError {
        return false, k;
      }
      rest := rest[n..];
    }
    ok := true;
  }

  /** crypto/rand; `draws` are the nonces it has given out. */
  class RandomSource {
    ghost var failures: nat
    ghost var draws: seq<Bytes>

    method Nonce() returns (nonce: Bytes, ok: bool)
      modifies this
      ensures |nonce| == NONCE_SIZE
      ensures failures == old(failures) + if ok then 0 else 1
      ensures draws == old(draws) + if ok then [nonce] else []
    {
      assert |seq(NONCE_SIZE, _ => 0 as byte)| == NONCE_SIZE;
      nonce :| |nonce| == NONCE_SIZE;
      ok := *;
      if ok {
        draws := draws + [nonce];
      } else {
        failures := failures + 1;
      }
    }
  }

  // ---------- sending ----------

  datatype Event<M> = Send(m: M) | Tick

  ghost predicate Sealed(c: CipherUtil, text: Bytes, payload: Bytes) {
    exists nonce :: |nonce| == NONCE_SIZE && payload == Encrypt(c, nonce, text)
  }

  /** SwitchDataCipherUtil.Encrypt: fails only for want of randomness. With a secret the result is the
      nonce drawn by this call, and no other, followed by the text sealed under it; without one it is
      the text, and nothing is drawn. */
  method EncryptRandomly(c: CipherUtil, rand: RandomSource, text: Bytes) returns (r: Option<Bytes>)
    modifies rand
    ensures r.Some? ==> Sealed(c, text, r.value)
    ensures r.None? ==> c.Enabled? && rand.draws == old(rand.draws)
    ensures rand.failures == old(rand.failures) + if r.Some? then 0 else 1
    ensures c.Disabled? ==> r == Some(text) && rand.draws == old(rand.draws)
    ensures c.Enabled? && r.Some? ==>
              && |rand.draws| == |old(rand.draws)| + 1 && rand.draws[..|old(rand.draws)|] == old(rand.draws)
              && var nonce := rand.draws[|old(rand.draws)|];
                 |nonce| == 12 && r.value == nonce + c.aead.seal(nonce, text)
  {
    if c.Disabled? {
      var unused := seq(NONCE_SIZE, _ => 0 as byte);
      assert text == Encrypt(c, unused, text);
      return Some(text);
    }
    var nonce, ok := rand.Nonce();
    if !ok {
      return None;
    }
    r := Some(Encrypt(c, nonce, text));
  }

  /** What one turn of the sending loop may leave on the stream. */
  ghost predicate TurnSends<M>(c: CipherUtil, marshal: M -> Option<Bytes>, e: Event<M>, p: Piece) {
    match e
    case Tick => p in {Nothing, Beat}
    case Send(m) =>
      match marshal(m)
      case None => p == Nothing
      case Some(text) => SendsText(c, text, p)
  }

  ghost predicate SendsText(c: CipherUtil, text: Bytes, p: Piece) {
    match p
    case Frame(payload) => Sealed(c, text, payload)
    case Cut(_) => WellCut(p)
    case StrayType => c.Enabled?
    case _ => false
  }

  ghost predicate Transcript<M>(c: CipherUtil, marshal: M -> Option<Bytes>, events: seq<Event<M>>, log: seq<Piece>) {
    |log| <= |events| && forall i | 0 <= i < |log| :: TurnSends(c, marshal, events[i], log[i])
  }

  lemma FrameSplits(payload: Bytes)
    ensures FrameBytes(payload) == [DATA] + (LengthField(payload) + payload)
  {
    hide LengthField;
    Associates([DATA], LengthField(payload), payload);
  }

  lemma CutOfFrame(payload: Bytes, written: Bytes)
    requires written <= LengthField(payload) + payload
    ensures WellCut(Cut([DATA] + written))
  {
    hide LengthField;
    assert FrameBytes(payload) == [DATA] + (LengthField(payload) + payload);
    assert [DATA] + written <= FrameBytes(payload);
  }

  lemma CutOfType(k: nat)
    requires k <= 1
    ensures WellCut(Cut([DATA][..k]))
  {
    assert [DATA][..k] <= FrameBytes([]);
  }

  method SendType(conn: Conn) returns (err: WriteError, ghost written: Bytes)
    modifies conn
    ensures conn.sent == old(conn.sent) + written
    ensures if err == NoError then written == [DATA] else WellCut(Cut(written))
    ensures conn.failures == old(conn.failures) + if err == NoError then 0 else 1
    ensures |conn.errors| == |old(conn.errors)| + 1 && conn.errors[..|old(conn.errors)|] == old(conn.errors)
    ensures err == ConnClosed <==> conn.errors[|old(conn.errors)|] == ConnClosed
  {
    ghost var k;
    err, k := conn.BinaryWrite([DATA]);
    CutOfType(k);
    written := [DATA][..k];
    hide WellCut;
  }

  /** Length and payload. */
  method SendPayload(conn: Conn, payload: Bytes) returns (ok: bool, ghost written: Bytes)
    modifies conn
    ensures conn.sent == old(conn.sent) + written && written <= LengthField(payload) + payload
    ensures ok ==> written == LengthField(payload) + payload
    ensures conn.failures == old(conn.failures) + if ok then 0 else 1
    ensures old(conn.errors) <= conn.errors
  {
    hide LengthField;
    var length := LengthField(payload);
    ghost var k;
    var err;
    err, k := conn.BinaryWrite(length);
    if err != NoError {
      return false, length[..k];
    }
    assert length[..k] == length;
    ok, k := WriteAllBytes(conn, payload);
    written := length + payload[..k];
    Associates(old(conn.sent), length, payload[..k]);
  }

  /** What one turn draws: one nonce at most. With a secret a frame is that nonce and the text sealed
      under it; without one, it is the text. */
  ghost predicate TextDraws(c: CipherUtil, text: Bytes, p: Piece, draws: seq<Bytes>) {
    && |draws| <= 1 && (c.Disabled? ==> draws == []) && (p.StrayType? ==> draws == [])
    && (p.Frame? && c.Enabled? ==> |draws| == 1 && |draws[0]| == 12 && p.payload == draws[0] + c.aead.seal(draws[0], text))
    && (p.Frame? && c.Disabled? ==> p.payload == text)
  }

  /** A turn ends the loop if its first write finds the connection closed. */
  predicate TurnStops(errors: seq<WriteError>) {
    errors != [] && errors[0] == ConnClosed
  }

  /** One serialised message: type, then length and payload. It goes on after any failure, but for a
      connection closed at the first byte. */
  method SendText(conn: Conn, c: CipherUtil, rand: RandomSource, text: Bytes) returns (goOn: bool, ghost p: Piece)
    modifies conn, rand
    ensures SendsText(c, text, p) && conn.sent == old(conn.sent) + Wire(p)
    ensures conn.failures == old(conn.failures) + if p.Cut? then 1 else 0
    ensures rand.failures == old(rand.failures) + if p.StrayType? then 1 else 0
    ensures old(rand.draws) <= rand.draws && TextDraws(c, text, p, rand.draws[|old(rand.draws)|..])
    ensures old(conn.errors) <= conn.errors && (goOn <==> !TurnStops(conn.errors[|old(conn.errors)|..]))
    ensures !goOn ==> p.Cut?
  {
    hide LengthField, WellCut, Encrypt, FrameBytes, Sealed;
    ghost var written;
    var err;
    err, written := SendType(conn);
    assert conn.errors[|old(conn.errors)|..][0] == conn.errors[|old(conn.errors)|];
    if err != NoError {
      return err != ConnClosed, Cut(written);
    }
    var sealed := EncryptRandomly(c, rand, text);
    if sealed.None? {
      return true, StrayType;
    }
    var payload := sealed.value;
    var ok;
    ok, written := SendPayload(conn, payload);
    Associates(old(conn.sent), [DATA], written);
    if !ok {
      CutOfFrame(payload, written);
      return true, Cut([DATA] + written);
    }
    FrameSplits(payload);
    goOn, p := true, Frame(payload);
  }

  method SendMessage<M>(conn: Conn, c: CipherUtil, rand: RandomSource, marshal: M -> Option<Bytes>, m: M)
    returns (goOn: bool, ghost p: Piece)
    modifies conn, rand
    ensures TurnSends(c, marshal, Send(m), p) && conn.sent == old(conn.sent) + Wire(p)
    ensures conn.failures == old(conn.failures) + if p.Cut? then 1 else 0
    ensures rand.failures == old(rand.failures) + if p.StrayType? then 1 else 0
    ensures old(rand.draws) <= rand.draws && TurnDraws(c, marshal, Send(m), p, rand.draws[|old(rand.draws)|..])
    ensures old(conn.errors) <= conn.errors && (goOn <==> !TurnStops(conn.errors[|old(conn.errors)|..]))
    ensures !goOn ==> p.Cut?
  {
    hide WellCut, Encrypt, Wire;
    var text := marshal(m);
    if text.None? {
      assert Wire(Nothing) == [] by { NothingIsWritten(); }
      return true, Nothing;
    }
    goOn, p := SendText(conn, c, rand, text.value);
  }

  lemma NothingIsWritten()
    ensures Wire(Nothing) == []
  {}

  ghost predicate TurnDraws<M>(c: CipherUtil, marshal: M -> Option<Bytes>, e: Event<M>, p: Piece, draws: seq<Bytes>) {
    match e
    case Tick => draws == []
    case Send(m) =>
      match marshal(m)
      case None => draws == []
      case Some(text) => TextDraws(c, text, p, draws)
  }

  method SendHeartbeat(conn: Conn) returns (goOn: bool, ghost p: Piece)
    modifies conn
    ensures p in {Nothing, Beat} && conn.sent == old(conn.sent) + Wire(p)
    ensures conn.failures == old(conn.failures) ==> goOn && p == Beat
    ensures conn.failures >= old(conn.failures)
    ensures old(conn.errors) <= conn.errors && (goOn <==> !TurnStops(conn.errors[|old(conn.errors)|..]))
  {
    ghost var k;
    var err;
    err, k := conn.BinaryWrite([HEARTBEAT]);
    assert conn.errors[|old(conn.errors)|..][0] == conn.errors[|old(conn.errors)|];
    p := if k == 1 then Beat else Nothing;
    goOn := err != ConnClosed;
  }

  /** A turn without a failed write or encryption. */
  predicate Whole(p: Piece) {
    !p.StrayType? && !p.Cut?
  }

  /** Every event has had its turn, none with a failure. */
  ghost predicate Flawless<M>(events: seq<Event<M>>, log: seq<Piece>) {
    |log| == |events| && forall i | 0 <= i < |log| :: Whole(log[i]) && (events[i].Tick? ==> log[i] == Beat)
  }

  /** What a turn made of its connection and of the random source: the errors of its writes, and the
      nonces it drew. */
  datatype Trace = Trace(errors: seq<WriteError>, draws: seq<Bytes>)

  function AllErrors(traces: seq<Trace>): seq<WriteError> {
    if traces == [] then [] else AllErrors(traces[..|traces| - 1]) + traces[|traces| - 1].errors
  }

  function AllDraws(traces: seq<Trace>): seq<Bytes> {
    if traces == [] then [] else AllDraws(traces[..|traces| - 1]) + traces[|traces| - 1].draws
  }

  /** What each turn drew. */
  ghost predicate DrawsOf<M>(c: CipherUtil, marshal: M -> Option<Bytes>, events: seq<Event<M>>, log: seq<Piece>, traces: seq<Trace>) {
    |log| == |traces| && |log| <= |events|
    && forall i | 0 <= i < |log| :: TurnDraws(c, marshal, events[i], log[i], traces[i].draws)
  }

  /** Only the last turn may have ended the loop, and it has if events are left. */
  ghost predicate StopsWhenClosed(n: nat, traces: seq<Trace>) {
    && (forall i | 0 <= i < |traces| - 1 :: !TurnStops(traces[i].errors))
    && (|traces| < n ==> traces != [] && TurnStops(traces[|traces| - 1].errors))
  }

  /** The sending loop over the messages of its channel and the ticks of its heartbeat timer. If no
      write and no draw of randomness fails, every event has its turn and none is a failure. The loop
      goes on after every other failure than a connection closed at the first byte of a turn. */
  method HandleSend<M>(conn: Conn, c: CipherUtil, rand: RandomSource, marshal: M -> Option<Bytes>, events: seq<Event<M>>)
    returns (ghost log: seq<Piece>, ghost traces: seq<Trace>)
    modifies conn, rand
    ensures Transcript(c, marshal, events, log)
    ensures conn.sent == old(conn.sent) + WireAll(log)
    ensures conn.failures == old(conn.failures) && rand.failures == old(rand.failures) ==> Flawless(events, log)
    ensures DrawsOf(c, marshal, events, log, traces) && rand.draws == old(rand.draws) + AllDraws(traces)
    ensures StopsWhenClosed(|events|, traces) && conn.errors == old(conn.errors) + AllErrors(traces)
  {
    hide WireAll, Wire, TurnSends, TurnDraws, TurnStops, AllErrors, AllDraws;
    log, traces := [], [];
    NothingSent(conn.sent);
    NothingTraced(conn.errors, rand.draws);
    var i := 0;
    while i < |events|
      invariant 0 <= i <= |events| && |log| == |traces| == i
      invariant Transcript(c, marshal, events, log)
      invariant conn.sent == old(conn.sent) + WireAll(log)
      invariant conn.failures >= old(conn.failures) && rand.failures >= old(rand.failures)
      invariant conn.failures == old(conn.failures) && rand.failures == old(rand.failures) ==> Flawless(events[..i], log)
      invariant DrawsOf(c, marshal, events, log, traces) && rand.draws == old(rand.draws) + AllDraws(traces)
      invariant conn.errors == old(conn.errors) + AllErrors(traces)
      invariant forall j | 0 <= j < |traces| :: !TurnStops(traces[j].errors)
    {
      var goOn;
      ghost var p;
      ghost var errors, draws := conn.errors, rand.draws;
      match events[i] {
        case Send(m) =>
          goOn, p := SendMessage(conn, c, rand, marshal, m);
        case Tick =>
          goOn, p := SendHeartbeat(conn);
          HeartbeatTurn(c, marshal, p);
          assert rand.draws[|draws|..] == [];
      }
      ghost var trace := Trace(conn.errors[|errors|..], rand.draws[|draws|..]);
      OneMorePiece(old(conn.sent), log, p);
      OneMoreTrace(old(conn.errors), old(rand.draws), conn.errors, rand.draws, traces, trace);
      log, traces := log + [p], traces + [trace];
      if !goOn {
        return;
      }
      i := i + 1;
    }
    assert events[..i] == events;
  }

  lemma NothingTraced(errors: seq<WriteError>, draws: seq<Bytes>)
    ensures errors == errors + AllErrors([]) && draws == draws + AllDraws([])
  {}

  lemma OneMoreTrace(errors: seq<WriteError>, draws: seq<Bytes>, errors': seq<WriteError>, draws': seq<Bytes>, traces: seq<Trace>, trace: Trace)
    requires errors + AllErrors(traces) <= errors' && draws + AllDraws(traces) <= draws'
    requires trace == Trace(errors'[|errors + AllErrors(traces)|..], draws'[|draws + AllDraws(traces)|..])
    ensures errors' == errors + AllErrors(traces + [trace]) && draws' == draws + AllDraws(traces + [trace])
  {
    assert (traces + [trace])[..|traces|] == traces;
    Associates(errors, AllErrors(traces), trace.errors);
    Associates(draws, AllDraws(traces), trace.draws);
  }

  lemma NothingSent(sent: Bytes)
    ensures sent == sent + WireAll([])
  {}

  lemma HeartbeatTurn<M>(c: CipherUtil, marshal: M -> Option<Bytes>, p: Piece)
    requires p in {Nothing, Beat}
    ensures TurnSends(c, marshal, Tick, p) && TurnDraws(c, marshal, Tick, p, [])
  {}

  lemma OneMorePiece(sent: Bytes, log: seq<Piece>, p: Piece)
    ensures (sent + WireAll(log)) + Wire(p) == sent + WireAll(log + [p])
  {
    WireAllConcat(log, [p]);
    assert WireAll([p]) == Wire(p) + WireAll([]);
    hide WireAll, Wire;
    Associates(sent, WireAll(log), Wire(p));
  }

  // ---------- nonces on the stream ----------

  lemma {:induction false} DrawOfTurn(traces: seq<Trace>, i: nat)
    requires i < |traces|
    ensures var n := |AllDraws(traces[..i])|;
      n + |traces[i].draws| <= |AllDraws(traces)| && AllDraws(traces)[n..n + |traces[i].draws|] == traces[i].draws
    decreases |traces|
  {
    var m := |traces| - 1;
    if i < m {
      DrawOfTurn(traces[..m], i);
      assert traces[..m][..i] == traces[..i];
    } else {
      assert AllDraws(traces) == AllDraws(traces[..m]) + traces[m].draws;
    }
  }

  lemma {:induction false} DrawsGrow(traces: seq<Trace>, i: nat, j: nat)
    requires i < j <= |traces|
    ensures |AllDraws(traces[..i])| + |traces[i].draws| <= |AllDraws(traces[..j])|
  {
    DrawOfTurn(traces[..j], i);
    assert traces[..j][..i] == traces[..i];
  }

  /** With a secret, every frame begins with the nonce drawn in its turn: the one that follows the draws
      of all turns before it. */
  lemma FrameUsesItsDraw<M>(c: CipherUtil, marshal: M -> Option<Bytes>, events: seq<Event<M>>, log: seq<Piece>, traces: seq<Trace>, i: nat)
    requires DrawsOf(c, marshal, events, log, traces) && c.Enabled? && i < |log| && log[i].Frame?
    requires Transcript(c, marshal, events, log)
    ensures |AllDraws(traces[..i])| < |AllDraws(traces)| && events[i].Send? && marshal(events[i].m).Some?
    ensures var nonce := AllDraws(traces)[|AllDraws(traces[..i])|];
      |nonce| == 12 && log[i].payload == nonce + c.aead.seal(nonce, marshal(events[i].m).value)
  {
    DrawOfTurn(traces, i);
    assert TurnDraws(c, marshal, events[i], log[i], traces[i].draws);
    assert TurnSends(c, marshal, events[i], log[i]);
    hide AllDraws, Sealed, WellCut;
    var n := |AllDraws(traces[..i])|;
    assert AllDraws(traces)[n..n + 1][0] == AllDraws(traces)[n];
  }

  /** So if the random source does not repeat itself, no two frames of a connection share a nonce. */
  lemma NoncesAreDistinct<M>(c: CipherUtil, marshal: M -> Option<Bytes>, events: seq<Event<M>>, log: seq<Piece>, traces: seq<Trace>, i: nat, j: nat)
    requires DrawsOf(c, marshal, events, log, traces) && Transcript(c, marshal, events, log) && c.Enabled?
    requires forall k, l | 0 <= k < l < |AllDraws(traces)| :: AllDraws(traces)[k] != AllDraws(traces)[l]
    requires i < j < |log| && log[i].Frame? && log[j].Frame?
    ensures |log[i].payload| >= 12 && |log[j].payload| >= 12 && log[i].payload[..12] != log[j].payload[..12]
  {
    FrameUsesItsDraw(c, marshal, events, log, traces, i);
    FrameUsesItsDraw(c, marshal, events, log, traces, j);
    DrawsGrow(traces, i, j);
    assert TurnDraws(c, marshal, events[i], log[i], traces[i].draws);
    hide DrawsOf, Transcript, AllDraws, Sealed;
    var k, l := |AllDraws(traces[..i])|, |AllDraws(traces[..j])|;
    assert log[i].payload[..12] == AllDraws(traces)[k] && log[j].payload[..12] == AllDraws(traces)[l];
  }

  /** Without a cut frame the nonces drawn and the frames on the stream correspond one to one, in order:
      the k-th frame opens under the k-th nonce drawn. */
  lemma {:induction false} FramesUseDrawsInOrder<M>(
      c: CipherUtil, marshal: M -> Option<Bytes>, events: seq<Event<M>>, log: seq<Piece>, traces: seq<Trace>, k: nat)
    requires DrawsOf(c, marshal, events, log, traces) && Transcript(c, marshal, events, log) && c.Enabled? && Correct(c.aead)
    requires forall p <- log :: !p.Cut?
    ensures |Payloads(log)| == |AllDraws(traces)|
    ensures k < |Payloads(log)| ==>
      var nonce, payload := AllDraws(traces)[k], Payloads(log)[k];
      |payload| >= 12 && payload[..12] == nonce && c.aead.open(nonce, payload[12..]).Some?
    decreases |log|
  {
    if log != [] {
      var m := |log| - 1;
      assert forall p <- log[..m] :: p in log;
      assert DrawsOf(c, marshal, events, log[..m], traces[..m]) && Transcript(c, marshal, events, log[..m]);
      FramesUseDrawsInOrder(c, marshal, events, log[..m], traces[..m], k);
      PayloadsSplit(log);
      LastTurnDraws(c, marshal, events, log, traces);
      hide DrawsOf, Transcript, Payloads, Correct;
    }
  }

  lemma {:induction false} PayloadsSplit(log: seq<Piece>)
    requires log != []
    ensures var m := |log| - 1; Payloads(log) == Payloads(log[..m]) + if log[m].Frame? then [log[m].payload] else []
  {
    if |log| > 1 {
      PayloadsSplit(log[1..]);
      assert log[..|log| - 1][1..] == log[1..][..|log| - 2];
    } else {
      assert log[1..] == [];
    }
  }

  lemma LastTurnDraws<M>(c: CipherUtil, marshal: M -> Option<Bytes>, events: seq<Event<M>>, log: seq<Piece>, traces: seq<Trace>)
    requires DrawsOf(c, marshal, events, log, traces) && Transcript(c, marshal, events, log) && c.Enabled? && Correct(c.aead)
    requires log != [] && !log[|log| - 1].Cut?
    ensures var p, draws := log[|log| - 1], traces[|log| - 1].draws;
      if p.Frame? then |draws| == 1 && |p.payload| >= 12 && p.payload[..12] == draws[0] && c.aead.open(draws[0], p.payload[12..]).Some?
      else draws == []
  {
    var i := |log| - 1;
    assert TurnDraws(c, marshal, events[i], log[i], traces[i].draws);
    assert TurnSends(c, marshal, events[i], log[i]);
    hide Sealed, WellCut;
    if log[i].Frame? {
      var nonce, text := traces[i].draws[0], marshal(events[i].m).value;
      assert log[i].payload[..12] == nonce && log[i].payload[12..] == c.aead.seal(nonce, text);
    }
  }

  // ---------- receiving ----------

  /** The reading end: `input` is what is still to come before the stream ends, for whatever reason. */
  class Reader {
    var input: Bytes

    /** io.ReadFull into the first `n` bytes of the buffer; a short stream is used up. */
    method ReadFull(buf: array<byte>, n: nat) returns (ok: bool)
      requires n <= buf.Length
      modifies this, buf
      ensures ok <==> n <= |old(input)|
      ensures ok ==> buf[..n] == old(input)[..n] && input == old(input)[n..]
      ensures !ok ==> input == []
    {
      ok := n <= |input|;
      var available := if ok then n else |input|;
      forall i | 0 <= i < available {
        buf[i] := input[i];
      }
      assert ok ==> buf[..n] == input[..n];
      input := input[available..];
    }
  }

  /** With `msgs` delivered already, the receiver stands at `rest` of the stream `s`. */
  ghost predicate ResumesAt<M>(c: CipherUtil, unmarshal: Bytes -> Option<M>, s: Bytes, msgs: seq<M>, rest: Bytes) {
    var r := Receive(c, unmarshal, rest);
    Receive(c, unmarshal, s) == Received(msgs + r.msgs, r.stop)
  }

  lemma ResumesAtStart<M>(c: CipherUtil, unmarshal: Bytes -> Option<M>, s: Bytes)
    ensures ResumesAt(c, unmarshal, s, [], s)
  {
    hide Receive;
    assert [] + Receive(c, unmarshal, s).msgs == Receive(c, unmarshal, s).msgs;
  }

  lemma ResumesAtNext<M>(c: CipherUtil, unmarshal: Bytes -> Option<M>, s: Bytes, msgs: seq<M>, rest: Bytes)
    requires ResumesAt(c, unmarshal, s, msgs, rest)
    ensures var t := NextTurn(c, unmarshal, rest);
      && (t.Drop? ==> Receive(c, unmarshal, s) == Received(msgs, t.stop))
      && (t.Go? ==> ResumesAt(c, unmarshal, s, msgs + OneOrNone(t.delivered), t.rest))
  {
    var t := NextTurn(c, unmarshal, rest);
    hide NextTurn;
    if t.Go? {
      Associates(msgs, OneOrNone(t.delivered), Receive(c, unmarshal, t.rest).msgs);
    } else {
      assert msgs + [] == msgs;
    }
  }

  /** The receiving loop, with one buffer for all payloads: delivers what Receive says of the stream
      and stops for the reason it says. */
  method HandleRecv<M>(conn: Reader, c: CipherUtil, unmarshal: Bytes -> Option<M>) returns (msgs: seq<M>, stop: Stop)
    modifies conn
    ensures Received(msgs, stop) == Receive(c, unmarshal, old(conn.input))
  {
    var buf := new byte[READ_BUFFER_SIZE](_ => 0);
    var dataType := new byte[1](_ => 0);
    var dataLength := new byte[4](_ => 0);
    msgs := [];
    hide Receive, FromBigEndian, Decrypt, ResumesAt;
    ResumesAtStart(c, unmarshal, conn.input);
    while true
      invariant fresh(buf) && fresh(dataType) && fresh(dataLength)
      invariant buf != dataType && buf != dataLength && dataType != dataLength
      invariant ResumesAt(c, unmarshal, old(conn.input), msgs, conn.input)
      decreases |conn.input|
    {
      ghost var s := conn.input;
      ResumesAtNext(c, unmarshal, old(conn.input), msgs, s);
      var ok := conn.ReadFull(dataType, 1);
      if !ok {
        return msgs, EndOfStream;
      }
      assert dataType[0] == dataType[..1][0] == s[0];
      if dataType[0] == HEARTBEAT {
        assert msgs + [] == msgs;
        continue;
      }
      if dataType[0] != DATA {
        return msgs, UnknownType(dataType[0]);
      }
      ok := conn.ReadFull(dataLength, 4);
      if !ok {
        return msgs, TruncatedLength;
      }
      assert dataLength[..4] == s[1..][..4] == s[1..5];
      var n := FromBigEndian(dataLength[..4]);
      if n > READ_BUFFER_SIZE {
        return msgs, TooLong;
      }
      ok := conn.ReadFull(buf, n);
      if !ok {
        return msgs, TruncatedPayload;
      }
      assert buf[..n] == s[1..][4..][..n] == s[5..5 + n];
      var text := Decrypt(c, buf[..n]);
      if text.None? {
        return msgs, Undecryptable;
      }
      var m := unmarshal(text.value);
      if m.None? {
        return msgs, Unparsable;
      }
      msgs := msgs + [m.value];
      assert conn.input == s[5 + n..];
    }
  }

  // ---------- end to end ----------

  /** The messages of the events that can be serialised. */
  function Sendable<M>(marshal: M -> Option<Bytes>, events: seq<Event<M>>): seq<M> {
    if events == [] then []
    else (if events[0].Send? && marshal(events[0].m).Some? then [events[0].m] else []) + Sendable(marshal, events[1..])
  }

  ghost predicate Inverts<M(!new)>(marshal: M -> Option<Bytes>, unmarshal: Bytes -> Option<M>) {
    forall m: M | marshal(m).Some? :: unmarshal(marshal(m).value) == Some(m)
  }

  /** Every message, once serialised and sealed, fits the receiver's buffer. */
  ghost predicate Fits<M>(c: CipherUtil, marshal: M -> Option<Bytes>, events: seq<Event<M>>) {
    forall e <- events | e.Send? && marshal(e.m).Some? :: |marshal(e.m).value| + Overhead(c) <= READ_BUFFER_SIZE
  }

  lemma WholeTurnIsClean<M(!new)>(c: CipherUtil, marshal: M -> Option<Bytes>, unmarshal: Bytes -> Option<M>, e: Event<M>, p: Piece)
    requires Sound(c) && Inverts(marshal, unmarshal) && TurnSends(c, marshal, e, p) && Whole(p)
    requires e.Send? && marshal(e.m).Some? ==> |marshal(e.m).value| + Overhead(c) <= READ_BUFFER_SIZE
    ensures Clean(c, unmarshal, p)
    ensures PieceMessage(c, unmarshal, p) == if e.Send? && marshal(e.m).Some? then Some(e.m) else None
  {
    if p.Frame? {
      var text := marshal(e.m).value;
      var nonce :| |nonce| == NONCE_SIZE && p.payload == Encrypt(c, nonce, text);
      DecryptInvertsEncrypt(c, nonce, text);
    }
  }

  lemma {:induction false} WholeTranscriptIsClean<M(!new)>(
      c: CipherUtil, marshal: M -> Option<Bytes>, unmarshal: Bytes -> Option<M>, events: seq<Event<M>>, log: seq<Piece>)
    requires Sound(c) && Inverts(marshal, unmarshal) && Transcript(c, marshal, events, log) && Fits(c, marshal, events)
    requires forall p <- log :: Whole(p)
    ensures forall p <- log :: Clean(c, unmarshal, p)
    ensures Delivered(c, unmarshal, log) == Sendable(marshal, events[..|log|])
  {
    if log != [] {
      assert TurnSends(c, marshal, events[0], log[0]);
      assert events[0] in events;
      WholeTurnIsClean(c, marshal, unmarshal, events[0], log[0]);
      assert Fits(c, marshal, events[1..]);
      forall i | 0 <= i < |log| - 1 ensures TurnSends(c, marshal, events[1..][i], log[1..][i]) {
        assert TurnSends(c, marshal, events[i + 1], log[i + 1]);
      }
      hide TurnSends, Clean, Fits, Inverts;
      WholeTranscriptIsClean(c, marshal, unmarshal, events[1..], log[1..]);
      assert events[..|log|][1..] == events[1..][..|log| - 1];
      forall p <- log ensures Clean(c, unmarshal, p) {
        if p != log[0] { assert p in log[1..]; }
      }
    }
  }

  /** End to end: what HandleSend leaves on a stream when nothing fails, HandleRecv turns back into
      exactly the messages sent, through serialisation, encryption and framing, with heartbeats
      anywhere. */
  lemma EndToEnd<M(!new)>(c: CipherUtil, marshal: M -> Option<Bytes>, unmarshal: Bytes -> Option<M>, events: seq<Event<M>>, log: seq<Piece>)
    requires Sound(c) && Inverts(marshal, unmarshal) && Transcript(c, marshal, events, log) && Fits(c, marshal, events)
    requires Flawless(events, log)
    ensures Receive(c, unmarshal, WireAll(log)) == Received(Sendable(marshal, events), EndOfStream)
  {
    assert events[..|log|] == events;
    WholeTranscriptIsClean(c, marshal, unmarshal, events, log);
    StreamRoundTrip(c, unmarshal, log);
  }

  lemma PiecesAreWellCut<M>(c: CipherUtil, marshal: M -> Option<Bytes>, events: seq<Event<M>>, log: seq<Piece>)
    requires Transcript(c, marshal, events, log)
    ensures forall p <- log :: WellCut(p)
  {
    hide WellCut, Sealed;
    forall p <- log ensures WellCut(p) {
      var i :| 0 <= i < |log| && log[i] == p;
      assert TurnSends(c, marshal, events[i], log[i]);
      if !p.Cut? { WholeIsWellCut(p); }
    }
  }

  lemma WholeIsWellCut(p: Piece)
    requires !p.Cut?
    ensures WellCut(p)
  {}

  /** With the first failure an encryption failure at turn `n`, exactly the messages of the turns
      before it arrive, whatever is sent afterwards and wherever that is cut. */
  lemma EncryptionFailureEndsDelivery<M(!new)>(
      c: CipherUtil, marshal: M -> Option<Bytes>, unmarshal: Bytes -> Option<M>, events: seq<Event<M>>, log: seq<Piece>, n: nat)
    requires Sound(c) && Inverts(marshal, unmarshal) && Transcript(c, marshal, events, log) && Fits(c, marshal, events)
    requires n < |log| && log[n] == StrayType && forall p <- log[..n] :: Whole(p)
    ensures Receive(c, unmarshal, WireAll(log)).msgs == Sendable(marshal, events[..n])
  {
    hide TurnSends, Fits, Inverts, Clean, WellCut, Receive, WireAll;
    assert Transcript(c, marshal, events, log[..n]);
    WholeTranscriptIsClean(c, marshal, unmarshal, events, log[..n]);
    var after := log[n + 1..];
    PiecesAreWellCut(c, marshal, events, log);
    DeliveredUpToStray(c, unmarshal, log[..n], after);
    assert log[..n] + [StrayType] + after == log;
  }

  /** And whatever fails first, at turn `n`, at least those messages arrive, first and in order. */
  lemma MessagesBeforeFailureArrive<M(!new)>(
      c: CipherUtil, marshal: M -> Option<Bytes>, unmarshal: Bytes -> Option<M>, events: seq<Event<M>>, log: seq<Piece>, n: nat)
    requires Sound(c) && Inverts(marshal, unmarshal) && Transcript(c, marshal, events, log) && Fits(c, marshal, events)
    requires n <= |log| && forall p <- log[..n] :: Whole(p)
    ensures Sendable(marshal, events[..n]) <= Receive(c, unmarshal, WireAll(log)).msgs
  {
    hide TurnSends, Fits, Inverts, Clean, Receive, WireAll;
    assert Transcript(c, marshal, events, log[..n]);
    WholeTranscriptIsClean(c, marshal, unmarshal, events, log[..n]);
    WireAllConcat(log[..n], log[n..]);
    assert log == log[..n] + log[n..];
    CleanPiecesAreDelivered(c, unmarshal, log[..n], WireAll(log[n..]));
  }
}
