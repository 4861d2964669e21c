/**
 The PTY recording format, version 1: its values, its byte layout, and the encoder that writes
 one segment while enforcing the sequence, time, payload and input-policy rules.
 */
module Recording {
  import opened Wrappers
  import opened Bytes

  const MAX_PAYLOAD := 65_536
  const MAX_TERM_LEN := 256
  const FORMAT_VERSION: u16 := 1
  /** "TNDRREC" and a zero byte. */
  const MAGIC: seq<byte> := [0x54, 0x4E, 0x44, 0x52, 0x52, 0x45, 0x43, 0x00]
  const HEADER_FIXED_LEN := 56
  const CRC_LEN := 4
  const HEADER_MIN_LEN := 60
  const HEADER_MAX_LEN := 316
  const FLAG_INPUT_RECORDED: u16 := 1
  const PREFIX_LEN := 8
  const BODY_FIXED_LEN := 17
  const BODY_MAX_LEN := 65_553
  const RESIZE_PAYLOAD_LEN := 9
  const KIND_OUTPUT: byte := 0x01
  const KIND_RESIZE: byte := 0x02
  const KIND_INPUT: byte := 0x03
  const CAUSE_USER: byte := 0x01
  const CAUSE_REPAINT: byte := 0x02

  datatype Geometry = Geometry(rows: NonZeroU16, cols: NonZeroU16)

  /** A record's position in the run, from one. */
  type Sequence = NonZeroU64
  const FIRST_SEQUENCE: Sequence := 1

  function NextSequence(s: Sequence): Option<Sequence> {
    if s == U64_MAX then None else Some(s + 1)
  }

  predicate IsTermName(t: seq<byte>) {
    |t| <= MAX_TERM_LEN && forall i :: 0 <= i < |t| ==> 0x21 <= t[i] <= 0x7E
  }

  type TermName = t: seq<byte> | IsTermName(t)

  /** Sixteen UUID bytes; the version is the high half of byte six. */
  predicate IsRunId(b: seq<byte>) {
    |b| == 16 && b[6] / 16 == 7
  }

  type RunId = b: seq<byte> | IsRunId(b)
    witness [0, 0, 0, 0, 0, 0, 0x70, 0, 0, 0, 0, 0, 0, 0, 0, 0]

  datatype ResizeCause = User | Repaint(correlation: NonZeroU32)

  datatype RecordKind =
    | Output(bytes: seq<byte>)
    | Resize(geometry: Geometry, cause: ResizeCause)
    | Input(bytes: seq<byte>)

  datatype Record = Record(sequence: Sequence, elapsedNs: u64, kind: RecordKind)

  datatype SegmentHeader = SegmentHeader(
    runId: RunId,
    segmentIndex: u32,
    firstSequence: Sequence,
    originUnixNs: u64,
    geometry: Geometry,
    inputRecorded: bool,
    term: TermName)

  datatype EncodeError =
    | FirstSequence
    | WrongSequence(expected: Sequence, got: Sequence)
    | SequenceExhausted
    | ElapsedRegressed(previous: u64, elapsed: u64)
    | EmptyPayload
    | PayloadTooLarge(len: nat)
    | InputNotRecorded
    | EmptySegmentRotation
    | SegmentIndexExhausted

  // ---------------------------------------------------------------- layout

  /** Magic, version, lengths, flags and run: the first thirty bytes. */
  function HeaderIdentity(h: SegmentHeader): seq<byte> {
    MAGIC
    + U16Bytes(FORMAT_VERSION)
    + U16Bytes(HEADER_MIN_LEN + |h.term|)
    + U16Bytes(if h.inputRecorded then FLAG_INPUT_RECORDED else 0)
    + h.runId
  }

  /** Where the segment starts: index, sequence, time origin, geometry; and the length of the name that follows. */
  function HeaderPosition(h: SegmentHeader): seq<byte> {
    U32Bytes(h.segmentIndex)
    + U64Bytes(h.firstSequence)
    + U64Bytes(h.originUnixNs)
    + U16Bytes(h.geometry.rows)
    + U16Bytes(h.geometry.cols)
    + U16Bytes(|h.term|)
  }

  function HeaderFields(h: SegmentHeader): seq<byte> {
    HeaderIdentity(h) + HeaderPosition(h) + h.term
  }

  function HeaderBytes(crc: Checksum, h: SegmentHeader): seq<byte> {
    HeaderFields(h) + U32Bytes(crc(HeaderFields(h)))
  }

  function KindByte(kind: RecordKind): byte {
    match kind
    case Output(_) => KIND_OUTPUT
    case Resize(_, _) => KIND_RESIZE
    case Input(_) => KIND_INPUT
  }

  function CauseByte(cause: ResizeCause): byte {
    if cause.User? then CAUSE_USER else CAUSE_REPAINT
  }

  function Payload(kind: RecordKind): seq<byte> {
    match kind
    case Output(bytes) => bytes
    case Input(bytes) => bytes
    case Resize(geometry, cause) =>
      U16Bytes(geometry.rows) + U16Bytes(geometry.cols)
      + [CauseByte(cause)] + U32Bytes(if cause.User? then 0 else cause.correlation)
  }

  function BodyBytes(r: Record): seq<byte> {
    [KindByte(r.kind)] + U64Bytes(r.sequence) + U64Bytes(r.elapsedNs) + Payload(r.kind)
  }

  /** The length and its complement, then the body: what the record checksum covers. */
  function RecordFields(r: Record): seq<byte>
    requires PayloadFits(r.kind)
  {
    U32Bytes(|BodyBytes(r)|) + U32Bytes(U32_MAX - |BodyBytes(r)|) + BodyBytes(r)
  }

  function RecordBytes(crc: Checksum, r: Record): seq<byte>
    requires PayloadFits(r.kind)
  {
    RecordFields(r) + U32Bytes(crc(RecordFields(r)))
  }

  // ---------------------------------------------------------------- encoder

  predicate PayloadFits(kind: RecordKind) {
    kind.Resize? || 1 <= |kind.bytes| <= MAX_PAYLOAD
  }

  datatype EncoderState = EncoderState(
    header: SegmentHeader,
    nextSequence: Option<Sequence>,
    lastElapsedNs: Option<u64>,
    geometry: Geometry,
    records: nat)

  function NewEncoder(header: SegmentHeader): Result<EncoderState, EncodeError> {
    if header.segmentIndex == 0 && header.firstSequence != FIRST_SEQUENCE then
      Failure(FirstSequence)
    else
      Success(EncoderState(header, Some(header.firstSequence), None, header.geometry, 0))
  }

  /** Why `r` may not follow the records encoded so far; `None` if it may. */
  function Refusal(st: EncoderState, r: Record): Option<EncodeError> {
    if st.nextSequence.None? then
      Some(SequenceExhausted)
    else if r.sequence != st.nextSequence.value then
      Some(WrongSequence(st.nextSequence.value, r.sequence))
    else if st.lastElapsedNs.Some? && r.elapsedNs < st.lastElapsedNs.value then
      Some(ElapsedRegressed(st.lastElapsedNs.value, r.elapsedNs))
    else if r.kind.Resize? then
      None
    else if r.kind.bytes == [] then
      Some(EmptyPayload)
    else if |r.kind.bytes| > MAX_PAYLOAD then
      Some(PayloadTooLarge(|r.kind.bytes|))
    else if r.kind.Input? && !st.header.inputRecorded then
      Some(InputNotRecorded)
    else
      None
  }

  predicate Accepts(st: EncoderState, r: Record) {
    Refusal(st, r).None?
  }

  function Advance(st: EncoderState, r: Record): EncoderState {
    st.(nextSequence := NextSequence(r.sequence),
        lastElapsedNs := Some(r.elapsedNs),
        geometry := if r.kind.Resize? then r.kind.geometry else st.geometry,
        records := st.records + 1)
  }

  function NextSegment(st: EncoderState): Result<EncoderState, EncodeError> {
    if st.records == 0 then
      Failure(EmptySegmentRotation)
    else if st.nextSequence.None? then
      Failure(SequenceExhausted)
    else if st.header.segmentIndex == U32_MAX then
      Failure(SegmentIndexExhausted)
    else
      var header := st.header.(segmentIndex := st.header.segmentIndex + 1,
                               firstSequence := st.nextSequence.value,
                               geometry := st.geometry);
      Success(EncoderState(header, st.nextSequence, st.lastElapsedNs, st.geometry, 0))
  }

  /** Writes one segment, refusing every record the decoder would refuse. */
  class SegmentEncoder {
    var header: SegmentHeader
    var nextSequence: Option<Sequence>
    var lastElapsedNs: Option<u64>
    var geometry: Geometry
    var records: nat

    function State(): EncoderState
      reads this
    {
      EncoderState(header, nextSequence, lastElapsedNs, geometry, records)
    }

    constructor FromState(st: EncoderState)
      ensures State() == st
    {
      header := st.header;
      nextSequence := st.nextSequence;
      lastElapsedNs := st.lastElapsedNs;
      geometry := st.geometry;
      records := st.records;
    }

    static method New(header: SegmentHeader) returns (r: Result<SegmentEncoder, EncodeError>)
      ensures r.Success? <==> NewEncoder(header).Success?
      ensures r.Success? ==> fresh(r.value) && r.value.State() == NewEncoder(header).value
      ensures r.Failure? ==> r.error == NewEncoder(header).error
    {
      if header.segmentIndex == 0 && header.firstSequence != FIRST_SEQUENCE {
        return Failure(FirstSequence);
      }
      var encoder := new SegmentEncoder.FromState(
        EncoderState(header, Some(header.firstSequence), None, header.geometry, 0));
      return Success(encoder);
    }

    /** A refused record changes nothing. */
    method Encode(crc: Checksum, record: Record) returns (r: Result<seq<byte>, EncodeError>)
      modifies this
      ensures match Refusal(old(State()), record)
              case Some(e) => r == Failure(e) && State() == old(State())
              case None =>
                && PayloadFits(record.kind)
                && r == Success(RecordBytes(crc, record))
                && State() == Advance(old(State()), record)
    {
      if nextSequence.None? {
        return Failure(SequenceExhausted);
      }
      var expected := nextSequence.value;
      if record.sequence != expected {
        return Failure(WrongSequence(expected, record.sequence));
      }
      if lastElapsedNs.Some? && record.elapsedNs < lastElapsedNs.value {
        return Failure(ElapsedRegressed(lastElapsedNs.value, record.elapsedNs));
      }
      if !record.kind.Resize? {
        if record.kind.bytes == [] {
          return Failure(EmptyPayload);
        }
        if |record.kind.bytes| > MAX_PAYLOAD {
          return Failure(PayloadTooLarge(|record.kind.bytes|));
        }
        if record.kind.Input? && !header.inputRecorded {
          return Failure(InputNotRecorded);
        }
      }
      var payload := Payload(record.kind);
      var bodyLen := BODY_FIXED_LEN + |payload|;
      var out := U32Bytes(bodyLen);
      out := out + U32Bytes(U32_MAX - bodyLen);
      out := out + [KindByte(record.kind)];
      out := out + U64Bytes(record.sequence);
      out := out + U64Bytes(record.elapsedNs);
      out := out + payload;
      assert out == RecordFields(record);
      out := out + U32Bytes(crc(out));

      nextSequence := NextSequence(expected);
      lastElapsedNs := Some(record.elapsedNs);
      if record.kind.Resize? {
        geometry := record.kind.geometry;
      }
      records := records + 1;
      return Success(out);
    }

    method Rotate() returns (r: Result<SegmentEncoder, EncodeError>)
      ensures r.Success? <==> NextSegment(State()).Success?
      ensures r.Success? ==> fresh(r.value) && r.value.State() == NextSegment(State()).value
      ensures r.Failure? ==> r.error == NextSegment(State()).error
    {
      if records == 0 {
        return Failure(EmptySegmentRotation);
      }
      if nextSequence.None? {
        return Failure(SequenceExhausted);
      }
      if header.segmentIndex == U32_MAX {
        return Failure(SegmentIndexExhausted);
      }
      var next := new SegmentEncoder.FromState(NextSegment(State()).value);
      return Success(next);
    }
  }

  // ---------------------------------------------------------------- many records

  predicate AcceptsAll(st: EncoderState, rs: seq<Record>)
    decreases |rs|
  {
    rs == [] || (Accepts(st, rs[0]) && AcceptsAll(Advance(st, rs[0]), rs[1..]))
  }

  function AdvanceAll(st: EncoderState, rs: seq<Record>): EncoderState
    decreases |rs|
  {
    if rs == [] then st else AdvanceAll(Advance(st, rs[0]), rs[1..])
  }

  predicate AllFit(rs: seq<Record>) {
    forall i :: 0 <= i < |rs| ==> PayloadFits(rs[i].kind)
  }

  function RecordsBytes(crc: Checksum, rs: seq<Record>): seq<byte>
    requires AllFit(rs)
  {
    if rs == [] then [] else RecordBytes(crc, rs[0]) + RecordsBytes(crc, rs[1..])
  }

  function SegmentBytes(crc: Checksum, header: SegmentHeader, rs: seq<Record>): seq<byte>
    requires AllFit(rs)
  {
    HeaderBytes(crc, header) + RecordsBytes(crc, rs)
  }

  lemma {:induction false} AcceptedFit(st: EncoderState, rs: seq<Record>)
    requires AcceptsAll(st, rs)
    ensures AllFit(rs)
    decreases |rs|
  {
    if rs != [] {
      AcceptedFit(Advance(st, rs[0]), rs[1..]);
      forall i | 0 <= i < |rs|
        ensures PayloadFits(rs[i].kind)
      {
        if i > 0 {
          assert rs[i] == rs[1..][i - 1];
        }
      }
    }
  }

  lemma {:induction false} AcceptOneMore(st: EncoderState, rs: seq<Record>, r: Record)
    ensures AcceptsAll(st, rs + [r]) <==> AcceptsAll(st, rs) && Accepts(AdvanceAll(st, rs), r)
    ensures AdvanceAll(st, rs + [r]) == Advance(AdvanceAll(st, rs), r)
    decreases |rs|
  {
    var more := rs + [r];
    if rs == [] {
      assert more[1..] == [];
    } else {
      assert more[1..] == rs[1..] + [r];
      AcceptOneMore(Advance(st, rs[0]), rs[1..], r);
    }
  }

  lemma {:induction false} RecordsBytesOneMore(crc: Checksum, rs: seq<Record>, r: Record)
    requires AllFit(rs) && PayloadFits(r.kind)
    ensures AllFit(rs + [r])
    ensures RecordsBytes(crc, rs + [r]) == RecordsBytes(crc, rs) + RecordBytes(crc, r)
  {
    hide RecordBytes;
    var more := rs + [r];
    if rs == [] {
      assert more[1..] == [];
    } else {
      assert more[1..] == rs[1..] + [r];
      RecordsBytesOneMore(crc, rs[1..], r);
    }
  }

  /** What the encoder keeps from segment start: count, position and header never disagree. */
  lemma {:induction false} AdvanceAllEffect(st: EncoderState, rs: seq<Record>)
    requires AcceptsAll(st, rs)
    ensures var end := AdvanceAll(st, rs);
            && end.header == st.header
            && end.records == st.records + |rs|
            && (|rs| > 0 ==> end.nextSequence == NextSequence(rs[|rs| - 1].sequence))
            && (|rs| > 0 ==> end.lastElapsedNs == Some(rs[|rs| - 1].elapsedNs))
            && (|rs| == 0 ==> end == st)
    decreases |rs|
  {
    if rs != [] {
      AdvanceAllEffect(Advance(st, rs[0]), rs[1..]);
    }
  }
}
