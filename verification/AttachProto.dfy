/** The attach protocol: framed messages between a client and a session's sidecar. */
module AttachProto {
  import opened Wrappers
  import opened Bytes
  import R = Recording

  const MSG_DATA: byte := 0x01
  const MSG_RESIZE: byte := 0x02
  const MSG_DETACH: byte := 0x03
  const MSG_HELLO: byte := 0x04
  const MSG_ACCEPTED: byte := 0x05
  const MSG_REJECTED: byte := 0x06
  const MSG_RETIRED: byte := 0x07
  const MSG_INPUT_DONE: byte := 0x08
  const PROTOCOL_VERSION: byte := 1
  const MAX_FRAME_PAYLOAD := 65_536

  datatype Mode = Attach | Takeover | Push

  datatype RejectClass = ProtocolClass | ControlClass | RuntimeClass | IdentityClass

  /** The bytes written and the bytes lost of a push that was cut off. */
  datatype Progress = Progress(accepted: u64, unwritten: u64)

  datatype PushOutcome = Written(bytes: u64) | Revoked(progress: Progress) | ClosedEarly(progress: Progress)

  datatype Frame =
    | Hello(mode: Mode)
    | Data(bytes: seq<byte>)
    | Resize(size: R.Geometry)
    | Detach
    | Accepted(epoch: u64)
    | Rejected(refusal: RejectClass, reason: seq<byte>)
    | Retired(epoch: u64)
    | InputDone(outcome: PushOutcome)

  datatype ProtocolError =
    | UnknownType(msgType: byte)
    | UnsupportedHello
    | Malformed(what: string)
    | UnknownRejectClass(refusal: byte)
    | UnknownOutcome(status: byte)
    | InconsistentOutcome(accepted: u64, received: u64)

  /** Text as it is kept when received: bytes that are not UTF-8 are replaced. */
  type Lossy = seq<byte> -> seq<byte>

  // ---------------------------------------------------------------- push outcomes

  /** Bytes received, held at the largest 64-bit number. */
  function Received(p: Progress): u64 {
    if p.accepted + p.unwritten > U64_MAX then U64_MAX else p.accepted + p.unwritten
  }

  function Status(o: PushOutcome): byte {
    match o
    case Written(_) => 0
    case Revoked(_) => 1
    case ClosedEarly(_) => 2
  }

  function EncodeOutcome(o: PushOutcome): (s: seq<byte>)
    ensures |s| == 17
  {
    match o
    case Written(bytes) => [Status(o)] + U64Bytes(bytes) + U64Bytes(bytes)
    case Revoked(p) => [Status(o)] + U64Bytes(p.accepted) + U64Bytes(Received(p))
    case ClosedEarly(p) => [Status(o)] + U64Bytes(p.accepted) + U64Bytes(Received(p))
  }

  function DecodeProgress(accepted: u64, received: u64): Result<Progress, ProtocolError> {
    if received < accepted then Failure(InconsistentOutcome(accepted, received))
    else Success(Progress(accepted, received - accepted))
  }

  function DecodeOutcome(payload: seq<byte>): Result<PushOutcome, ProtocolError> {
    if |payload| != 17 then Failure(Malformed("input done"))
    else
      var accepted, received := ReadU64(payload, 1), ReadU64(payload, 9);
      if payload[0] == 0 then
        if accepted == received then Success(Written(accepted)) else Failure(InconsistentOutcome(accepted, received))
      else if payload[0] == 1 then
        match DecodeProgress(accepted, received)
        case Success(p) => Success(Revoked(p))
        case Failure(e) => Failure(e)
      else if payload[0] == 2 then
        match DecodeProgress(accepted, received)
        case Success(p) => Success(ClosedEarly(p))
        case Failure(e) => Failure(e)
      else Failure(UnknownOutcome(payload[0]))
  }

  // ---------------------------------------------------------------- frames

  function ModeByte(mode: Mode): byte {
    match mode
    case Attach => 1
    case Takeover => 2
    case Push => 3
  }

  function ModeOf(b: byte): Option<Mode> {
    if b == 1 then Some(Attach) else if b == 2 then Some(Takeover) else if b == 3 then Some(Push) else None
  }

  function ClassByte(c: RejectClass): byte {
    match c
    case ProtocolClass => 1
    case ControlClass => 2
    case RuntimeClass => 3
    case IdentityClass => 4
  }

  function ClassOf(b: byte): Option<RejectClass> {
    if b == 1 then Some(ProtocolClass) else if b == 2 then Some(ControlClass)
    else if b == 3 then Some(RuntimeClass) else if b == 4 then Some(IdentityClass) else None
  }

  function TypeOf(f: Frame): byte {
    match f
    case Hello(_) => MSG_HELLO
    case Data(_) => MSG_DATA
    case Resize(_) => MSG_RESIZE
    case Detach => MSG_DETACH
    case Accepted(_) => MSG_ACCEPTED
    case Rejected(_, _) => MSG_REJECTED
    case Retired(_) => MSG_RETIRED
    case InputDone(_) => MSG_INPUT_DONE
  }

  function Payload(f: Frame): seq<byte> {
    match f
    case Hello(mode) => [PROTOCOL_VERSION, ModeByte(mode)]
    case Data(bytes) => bytes
    case Resize(size) => U16Bytes(size.rows) + U16Bytes(size.cols)
    case Detach => []
    case Accepted(epoch) => U64Bytes(epoch)
    case Rejected(c, reason) => [ClassByte(c)] + reason
    case Retired(epoch) => U64Bytes(epoch)
    case InputDone(outcome) => EncodeOutcome(outcome)
  }

  /** Four bytes or more; a size with a zero dimension is no size. */
  function ParseResize(payload: seq<byte>): Option<R.Geometry> {
    if |payload| < 4 then None
    else
      var rows, cols := ReadU16(payload, 0), ReadU16(payload, 2);
      if rows == 0 || cols == 0 then None else Some(R.Geometry(rows, cols))
  }

  function DecodeEpoch(payload: seq<byte>, what: string): Result<u64, ProtocolError> {
    if |payload| == 8 then Success(ReadU64(payload, 0)) else Failure(Malformed(what))
  }

  function DecodeHello(payload: seq<byte>): Result<Frame, ProtocolError> {
    if |payload| != 2 || payload[0] != PROTOCOL_VERSION || ModeOf(payload[1]).None? then Failure(UnsupportedHello)
    else Success(Hello(ModeOf(payload[1]).value))
  }

  function DecodeRejected(lossy: Lossy, payload: seq<byte>): Result<Frame, ProtocolError> {
    if payload == [] then Failure(Malformed("rejected"))
    else if ClassOf(payload[0]).None? then Failure(UnknownRejectClass(payload[0]))
    else Success(Rejected(ClassOf(payload[0]).value, lossy(payload[1..])))
  }

  function Decode(lossy: Lossy, msgType: byte, payload: seq<byte>): Result<Frame, ProtocolError> {
    if msgType == MSG_DATA then Success(Data(payload))
    else if msgType == MSG_RESIZE then
      match ParseResize(payload)
      case None => Failure(Malformed("resize"))
      case Some(size) => Success(Resize(size))
    else if msgType == MSG_DETACH then Success(Detach)
    else if msgType == MSG_HELLO then DecodeHello(payload)
    else if msgType == MSG_ACCEPTED then
      match DecodeEpoch(payload, "accepted")
      case Success(epoch) => Success(Accepted(epoch))
      case Failure(e) => Failure(e)
    else if msgType == MSG_REJECTED then DecodeRejected(lossy, payload)
    else if msgType == MSG_RETIRED then
      match DecodeEpoch(payload, "retired")
      case Success(epoch) => Success(Retired(epoch))
      case Failure(e) => Failure(e)
    else if msgType == MSG_INPUT_DONE then
      match DecodeOutcome(payload)
      case Success(outcome) => Success(InputDone(outcome))
      case Failure(e) => Failure(e)
    else Failure(UnknownType(msgType))
  }

  // ---------------------------------------------------------------- messages on a stream

  /** The length field holds the low 32 bits of the length. */
  function WriteMsg(msgType: byte, payload: seq<byte>): seq<byte> {
    [msgType] + U32Bytes(|payload| % 0x1_0000_0000) + payload
  }

  function WriteFrame(f: Frame): seq<byte> {
    WriteMsg(TypeOf(f), Payload(f))
  }

  datatype IoError = EndOfStream | OversizedPayload(declared: u32)

  datatype FrameError = Io(error: IoError) | BadPayload(problem: ProtocolError) | Unknown(msgType: byte)

  /** A message read off a stream, and what is left of the stream. */
  datatype Msg = Msg(msgType: byte, payload: seq<byte>, rest: seq<byte>)

  /** An oversized length is refused before any of the payload is read. */
  function ReadMsg(stream: seq<byte>): Result<Msg, IoError> {
    if |stream| < 5 then Failure(EndOfStream)
    else
      var len := ReadU32(stream, 1);
      if len > MAX_FRAME_PAYLOAD then Failure(OversizedPayload(len))
      else if |stream| < 5 + len then Failure(EndOfStream)
      else Success(Msg(stream[0], stream[5..5 + len], stream[5 + len..]))
  }

  /** What reading a frame says, and the stream after it; a whole frame is read even if it does not decode. */
  function ReadFrame(lossy: Lossy, stream: seq<byte>): (Result<Frame, FrameError>, seq<byte>) {
    match ReadMsg(stream)
    case Failure(e) => (Failure(Io(e)), stream)
    case Success(msg) =>
      match Decode(lossy, msg.msgType, msg.payload)
      case Success(f) => (Success(f), msg.rest)
      case Failure(UnknownType(t)) => (Failure(Unknown(t)), msg.rest)
      case Failure(e) => (Failure(BadPayload(e)), msg.rest)
  }

  // ---------------------------------------------------------------- round trips

  lemma {:induction false} ThreeParts(status: byte, a: u64, b: u64)
    ensures var s := [status] + U64Bytes(a) + U64Bytes(b);
      s[0] == status && ReadU64(s, 1) == a && ReadU64(s, 9) == b
  {
    var s := [status] + U64Bytes(a) + U64Bytes(b);
    assert s[1..9] == U64Bytes(a) && s[9..17] == U64Bytes(b);
    WordU64(s, 1, a);
    WordU64(s, 9, b);
  }

  /** What a decoded encoding of an outcome says. */
  function AfterTheWire(o: PushOutcome): PushOutcome {
    match o
    case Written(_) => o
    case Revoked(p) => Revoked(Progress(p.accepted, Received(p) - p.accepted))
    case ClosedEarly(p) => ClosedEarly(Progress(p.accepted, Received(p) - p.accepted))
  }

  /** Every outcome survives the wire exactly if what it received fits 64 bits; the accepted count always does. */
  lemma {:induction false} OutcomeRoundTrip(o: PushOutcome)
    ensures DecodeOutcome(EncodeOutcome(o)) == Success(AfterTheWire(o))
    ensures AfterTheWire(o) == o <==> (o.Written? || o.progress.accepted + o.progress.unwritten <= U64_MAX)
  {
    hide ReadU64, U64Bytes;
    match o
    case Written(bytes) => ThreeParts(0, bytes, bytes);
    case Revoked(p) => ThreeParts(1, p.accepted, Received(p));
    case ClosedEarly(p) => ThreeParts(2, p.accepted, Received(p));
  }

  /** Only encodings decode, each to the outcome it encodes. */
  lemma {:induction false} OnlyEncodingsDecode(payload: seq<byte>)
    requires DecodeOutcome(payload).Success?
    ensures EncodeOutcome(DecodeOutcome(payload).value) == payload
  {
    hide ReadU64, U64Bytes;
    var accepted, received := ReadU64(payload, 1), ReadU64(payload, 9);
    WordU64(payload, 1, accepted);
    WordU64(payload, 9, received);
    assert payload == [payload[0]] + payload[1..9] + payload[9..17];
  }

  /** No decoded progress claims more bytes written than received. */
  lemma {:induction false} ProgressIsConsistent(payload: seq<byte>)
    requires DecodeOutcome(payload).Success? && !DecodeOutcome(payload).value.Written?
    ensures var p := DecodeOutcome(payload).value.progress;
      p.accepted + p.unwritten == ReadU64(payload, 9) && p.accepted == ReadU64(payload, 1)
  {
    hide ReadU64;
  }

  /** A frame the protocol carries unchanged. */
  predicate Carried(lossy: Lossy, f: Frame) {
    && |Payload(f)| <= MAX_FRAME_PAYLOAD
    && (f.Rejected? ==> lossy(f.reason) == f.reason)
    && (f.InputDone? ==> AfterTheWire(f.outcome) == f.outcome)
  }

  lemma {:induction false} EpochReads(epoch: u64)
    ensures ReadU64(U64Bytes(epoch), 0) == epoch
  {
    var s := U64Bytes(epoch);
    assert s[0..8] == s;
    WordU64(s, 0, epoch);
  }

  lemma {:induction false} ResizeReads(size: R.Geometry)
    ensures ParseResize(U16Bytes(size.rows) + U16Bytes(size.cols)) == Some(size)
  {
    hide ReadU16, U16Bytes;
    var s := U16Bytes(size.rows) + U16Bytes(size.cols);
    assert s[0..2] == U16Bytes(size.rows) && s[2..4] == U16Bytes(size.cols);
    WordU16(s, 0, size.rows);
    WordU16(s, 2, size.cols);
  }

  /** Encoding a frame and decoding its payload gives it back. */
  lemma {:induction false} FrameRoundTrip(lossy: Lossy, f: Frame)
    requires Carried(lossy, f)
    ensures Decode(lossy, TypeOf(f), Payload(f)) == Success(f)
  {
    hide ReadU64, U64Bytes, ParseResize, DecodeOutcome, EncodeOutcome, AfterTheWire, U16Bytes;
    match f
    case Resize(size) => ResizeReads(size);
    case Accepted(epoch) => EpochReads(epoch);
    case Retired(epoch) => EpochReads(epoch);
    case InputDone(outcome) => OutcomeRoundTrip(outcome);
    case Rejected(c, reason) => assert ([ClassByte(c)] + reason)[1..] == reason;
    case _ =>
  }

  lemma {:induction false} MsgReads(msgType: byte, payload: seq<byte>, rest: seq<byte>)
    requires |payload| <= MAX_FRAME_PAYLOAD
    ensures ReadMsg(WriteMsg(msgType, payload) + rest) == Success(Msg(msgType, payload, rest))
  {
    hide ReadU32, U32Bytes;
    var s := WriteMsg(msgType, payload) + rest;
    assert s[1..5] == U32Bytes(|payload|);
    WordU32(s, 1, |payload|);
    assert s[5..5 + |payload|] == payload && s[5 + |payload|..] == rest;
  }

  /** A payload over the limit does not survive: the reader refuses it, or, past 32 bits of length, loses its place. */
  lemma {:induction false} OversizedIsRefused(msgType: byte, payload: seq<byte>, rest: seq<byte>)
    requires MAX_FRAME_PAYLOAD < |payload|
    ensures ReadMsg(WriteMsg(msgType, payload) + rest) != Success(Msg(msgType, payload, rest))
    ensures |payload| < 0x1_0000_0000 ==> ReadMsg(WriteMsg(msgType, payload) + rest) == Failure(OversizedPayload(|payload|))
  {
    hide ReadU32, U32Bytes;
    var s := WriteMsg(msgType, payload) + rest;
    assert s[1..5] == U32Bytes(|payload| % 0x1_0000_0000);
    WordU32(s, 1, |payload| % 0x1_0000_0000);
  }

  /** Frames written one after another. */
  function WriteAll(frames: seq<Frame>): seq<byte> {
    if frames == [] then [] else WriteFrame(frames[0]) + WriteAll(frames[1..])
  }

  /** Frames read until the stream ends or something that is no frame of this version. */
  function ReadAll(lossy: Lossy, stream: seq<byte>): (seq<Frame>, seq<byte>)
    decreases |stream|
  {
    var (r, rest) := ReadFrame(lossy, stream);
    if r.Failure? || |rest| >= |stream| then ([], stream)
    else var (frames, left) := ReadAll(lossy, rest); ([r.value] + frames, left)
  }

  /** A stream of frames reads back frame by frame, whatever follows that is not yet a whole frame. */
  lemma {:induction false} StreamRoundTrip(lossy: Lossy, frames: seq<Frame>, tail: seq<byte>)
    requires forall i :: 0 <= i < |frames| ==> Carried(lossy, frames[i])
    requires ReadFrame(lossy, tail).0.Failure?
    ensures ReadAll(lossy, WriteAll(frames) + tail) == (frames, tail)
    decreases |frames|
  {
    hide ReadFrame, WriteFrame, Carried;
    if frames == [] {
      assert WriteAll(frames) + tail == tail;
    } else {
      var f, rest := frames[0], WriteAll(frames[1..]) + tail;
      assert WriteAll(frames) + tail == WriteFrame(f) + rest;
      FirstFrame(lossy, f, rest);
      StreamRoundTrip(lossy, frames[1..], tail);
      assert [f] + frames[1..] == frames;
    }
  }

  lemma {:induction false} FirstFrame(lossy: Lossy, f: Frame, rest: seq<byte>)
    requires Carried(lossy, f)
    ensures ReadFrame(lossy, WriteFrame(f) + rest) == (Success(f), rest)
    ensures |WriteFrame(f) + rest| > |rest|
  {
    hide Decode, ReadMsg, WriteMsg, Payload, TypeOf, Carried;
    CarriedFits(lossy, f);
    MsgReads(TypeOf(f), Payload(f), rest);
    FrameRoundTrip(lossy, f);
    LongerMsg(TypeOf(f), Payload(f), rest);
  }

  lemma CarriedFits(lossy: Lossy, f: Frame)
    requires Carried(lossy, f)
    ensures |Payload(f)| <= MAX_FRAME_PAYLOAD
  {
  }

  lemma LongerMsg(msgType: byte, payload: seq<byte>, rest: seq<byte>)
    ensures |WriteMsg(msgType, payload) + rest| > |rest|
  {
  }
}
