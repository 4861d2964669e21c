/**
 Decoding recorded segments: headers, records, one segment, and an ordered list of segments,
 with every failure kind and its position.
 */
module Decoder {
  import opened Wrappers
  import opened Bytes
  import opened Recording

  datatype SegmentEnd = Clean | Truncated(offset: nat)

  datatype Corruption =
    | HeaderIncomplete
    | HeaderLength
    | HeaderChecksum
    | LengthCheck
    | LengthBounds
    | RecordChecksum
    | TruncatedInteriorSegment

  datatype Violation =
    | HeaderLengthMismatch
    | ReservedFlags
    | RunIdVersion
    | BadFirstSequence
    | ZeroGeometry
    | TermByte
    | UnknownKind(kind: byte)
    | PayloadSize
    | UnknownResizeCause(cause: byte)
    | Correlation
    | InputForbidden
    | BadSequence
    | TimeRegressed
    | NoSegments
    | SegmentIndex
    | SegmentRun
    | SegmentOrigin
    | SegmentFlags
    | SegmentTerm
    | SegmentFirstSequence
    | SegmentGeometry
    | SegmentElapsed
    | EmptyInteriorSegment

  datatype DecodeErrorKind =
    | BadMagic
    | UnsupportedVersion(version: u16)
    | Corrupt(corruption: Corruption)
    | Invalid(violation: Violation)

  datatype DecodeError = DecodeError(
    kind: DecodeErrorKind,
    segment: Option<u32>,
    offset: nat,
    lastValid: Option<Sequence>)

  datatype DecodedSegment = DecodedSegment(header: SegmentHeader, records: seq<Record>, end: SegmentEnd)

  datatype DecodedRecording = DecodedRecording(
    header: SegmentHeader,
    segmentCount: u32,
    records: seq<Record>,
    end: SegmentEnd)

  datatype SegmentSummary = SegmentSummary(
    headerLen: nat,
    nextSequence: Option<Sequence>,
    lastSequence: Option<Sequence>,
    lastElapsedNs: Option<u64>,
    finalGeometry: Geometry)

  /** Where a segment sits in a recording: its position, the first header and the segment before. */
  datatype Continuity = Continuity(position: u32, previous: Option<(SegmentHeader, SegmentSummary)>)

  // ---------------------------------------------------------------- header and body

  function DecodeHeader(crc: Checksum, bytes: seq<byte>): Result<(SegmentHeader, nat), DecodeErrorKind> {
    if |bytes| < HEADER_MIN_LEN then
      Failure(Corrupt(HeaderIncomplete))
    else if bytes[..8] != MAGIC then
      Failure(BadMagic)
    else if ReadU16(bytes, 8) != FORMAT_VERSION then
      Failure(UnsupportedVersion(ReadU16(bytes, 8)))
    else if !(HEADER_MIN_LEN <= ReadU16(bytes, 10) <= HEADER_MAX_LEN) then
      Failure(Corrupt(HeaderLength))
    else
      var headerLen := ReadU16(bytes, 10);
      if |bytes| < headerLen then
        Failure(Corrupt(HeaderIncomplete))
      else if crc(bytes[..headerLen - CRC_LEN]) != ReadU32(bytes, headerLen - CRC_LEN) then
        Failure(Corrupt(HeaderChecksum))
      else if HEADER_MIN_LEN + ReadU16(bytes, 54) != headerLen then
        Failure(Invalid(HeaderLengthMismatch))
      else
        DecodeHeaderFields(bytes, headerLen)
  }

  /** The semantic rules of a checksummed header. */
  function DecodeHeaderFields(bytes: seq<byte>, headerLen: nat): Result<(SegmentHeader, nat), DecodeErrorKind>
    requires HEADER_MIN_LEN <= headerLen <= |bytes|
  {
    var flags := ReadU16(bytes, 12);
    var run := bytes[14..30];
    var index := ReadU32(bytes, 30);
    var first := ReadU64(bytes, 34);
    var rows, cols := ReadU16(bytes, 50), ReadU16(bytes, 52);
    var term := bytes[HEADER_FIXED_LEN..headerLen - CRC_LEN];
    if flags > FLAG_INPUT_RECORDED then
      Failure(Invalid(ReservedFlags))
    else if !IsRunId(run) then
      Failure(Invalid(RunIdVersion))
    else if first == 0 || (index == 0 && first != FIRST_SEQUENCE) then
      Failure(Invalid(BadFirstSequence))
    else if rows == 0 || cols == 0 then
      Failure(Invalid(ZeroGeometry))
    else if !IsTermName(term) then
      Failure(Invalid(TermByte))
    else
      Success((SegmentHeader(run, index, first, ReadU64(bytes, 42), Geometry(rows, cols),
                             flags == FLAG_INPUT_RECORDED, term), headerLen))
  }

  function DecodeKind(body: seq<byte>, header: SegmentHeader): Result<RecordKind, Violation>
    requires |body| >= BODY_FIXED_LEN
  {
    var payload := body[BODY_FIXED_LEN..];
    if body[0] == KIND_OUTPUT then
      if payload == [] then Failure(PayloadSize) else Success(Output(payload))
    else if body[0] == KIND_INPUT then
      if payload == [] then Failure(PayloadSize)
      else if !header.inputRecorded then Failure(InputForbidden)
      else Success(Input(payload))
    else if body[0] == KIND_RESIZE then
      DecodeResize(payload)
    else
      Failure(UnknownKind(body[0]))
  }

  function DecodeResize(payload: seq<byte>): (r: Result<RecordKind, Violation>)
    ensures r.Success? ==> r.value.Resize?
  {
    if |payload| != RESIZE_PAYLOAD_LEN then
      Failure(PayloadSize)
    else
      var rows, cols := ReadU16(payload, 0), ReadU16(payload, 2);
      var correlation := ReadU32(payload, 5);
      if rows == 0 || cols == 0 then
        Failure(ZeroGeometry)
      else if payload[4] == CAUSE_USER then
        if correlation == 0 then Success(Resize(Geometry(rows, cols), User)) else Failure(Correlation)
      else if payload[4] == CAUSE_REPAINT then
        if correlation == 0 then Failure(Correlation)
        else Success(Resize(Geometry(rows, cols), Repaint(correlation)))
      else
        Failure(UnknownResizeCause(payload[4]))
  }

  function DecodeBody(body: seq<byte>, header: SegmentHeader, summary: SegmentSummary): Result<Record, Violation>
    requires |body| >= BODY_FIXED_LEN
  {
    var kind := DecodeKind(body, header);
    var sequence, elapsed := ReadU64(body, 1), ReadU64(body, 9);
    if kind.Failure? then
      Failure(kind.error)
    else if summary.nextSequence.None? || summary.nextSequence.value != sequence then
      Failure(BadSequence)
    else if summary.lastElapsedNs.Some? && elapsed < summary.lastElapsedNs.value then
      Failure(TimeRegressed)
    else
      Success(Record(summary.nextSequence.value, elapsed, kind.value))
  }

  function HeaderContinuity(header: SegmentHeader, c: Continuity): Option<Violation> {
    if header.segmentIndex != c.position then
      Some(SegmentIndex)
    else if c.previous.None? then
      None
    else
      var (first, prev) := c.previous.value;
      if header.runId != first.runId then Some(SegmentRun)
      else if header.originUnixNs != first.originUnixNs then Some(SegmentOrigin)
      else if header.inputRecorded != first.inputRecorded then Some(SegmentFlags)
      else if header.term != first.term then Some(SegmentTerm)
      else if prev.nextSequence != Some(header.firstSequence) then Some(SegmentFirstSequence)
      else if header.geometry != prev.finalGeometry then Some(SegmentGeometry)
      else None
  }

  // ---------------------------------------------------------------- one segment

  function ErrorAt(kind: DecodeErrorKind, offset: nat, last: Option<Sequence>): DecodeError {
    DecodeError(kind, None, offset, last)
  }

  function InitialSummary(header: SegmentHeader, headerLen: nat): SegmentSummary {
    SegmentSummary(headerLen, Some(header.firstSequence), None, None, header.geometry)
  }

  function Summarize(summary: SegmentSummary, r: Record): SegmentSummary {
    summary.(nextSequence := NextSequence(r.sequence),
             lastSequence := Some(r.sequence),
             lastElapsedNs := Some(r.elapsedNs),
             finalGeometry := if r.kind.Resize? then r.kind.geometry else summary.finalGeometry)
  }

  /** What the bytes at one record position hold. */
  datatype RecordRead =
    | AtEnd(end: SegmentEnd)
    | Bad(error: DecodeError)
    | Got(record: Record, next: nat)

  /** `floor` is the previous segment's last time, which bounds this segment's first record. */
  function ReadRecord(crc: Checksum, bytes: seq<byte>, header: SegmentHeader, floor: Option<u64>,
                      pos: nat, summary: SegmentSummary): (r: RecordRead)
    requires pos <= |bytes|
    ensures r.Got? ==> pos < r.next <= |bytes|
  {
    var remaining := |bytes| - pos;
    if remaining == 0 then
      AtEnd(Clean)
    else if remaining < PREFIX_LEN then
      AtEnd(Truncated(pos))
    else
      var bodyLen := ReadU32(bytes, pos);
      if ReadU32(bytes, pos + 4) != U32_MAX - bodyLen then
        Bad(ErrorAt(Corrupt(LengthCheck), pos, summary.lastSequence))
      else if !(BODY_FIXED_LEN <= bodyLen <= BODY_MAX_LEN) then
        Bad(ErrorAt(Corrupt(LengthBounds), pos, summary.lastSequence))
      else if remaining < PREFIX_LEN + bodyLen + CRC_LEN then
        AtEnd(Truncated(pos))
      else
        var crcAt := pos + PREFIX_LEN + bodyLen;
        if crc(bytes[pos..crcAt]) != ReadU32(bytes, crcAt) then
          Bad(ErrorAt(Corrupt(RecordChecksum), pos, summary.lastSequence))
        else
          var record := DecodeBody(bytes[pos + PREFIX_LEN..crcAt], header, summary);
          if record.Failure? then
            Bad(ErrorAt(Invalid(record.error), pos, summary.lastSequence))
          else if summary.lastSequence.None? && floor.Some? && record.value.elapsedNs < floor.value then
            Bad(ErrorAt(Invalid(SegmentElapsed), pos, None))
          else
            Got(record.value, crcAt + CRC_LEN)
  }

  type SegmentResult = Result<(DecodedSegment, SegmentSummary), DecodeError>

  function DecodeRecords(crc: Checksum, bytes: seq<byte>, header: SegmentHeader, floor: Option<u64>,
                         pos: nat, summary: SegmentSummary, records: seq<Record>): SegmentResult
    requires pos <= |bytes|
    decreases |bytes| - pos
  {
    match ReadRecord(crc, bytes, header, floor, pos, summary)
    case AtEnd(end) => Success((DecodedSegment(header, records, end), summary))
    case Bad(error) => Failure(error)
    case Got(record, next) =>
      DecodeRecords(crc, bytes, header, floor, next, Summarize(summary, record), records + [record])
  }

  function Floor(c: Option<Continuity>): Option<u64> {
    if c.Some? && c.value.previous.Some? then c.value.previous.value.1.lastElapsedNs else None
  }

  function SegmentDecoding(crc: Checksum, bytes: seq<byte>, c: Option<Continuity>): SegmentResult {
    var header := DecodeHeader(crc, bytes);
    if header.Failure? then
      Failure(ErrorAt(header.error, 0, None))
    else
      var (h, headerLen) := header.value;
      if c.Some? && HeaderContinuity(h, c.value).Some? then
        Failure(ErrorAt(Invalid(HeaderContinuity(h, c.value).value), 0, None))
      else
        DecodeRecords(crc, bytes, h, Floor(c), headerLen, InitialSummary(h, headerLen), [])
  }

  method DecodeSegmentWithSummary(crc: Checksum, bytes: seq<byte>, c: Option<Continuity>) returns (r: SegmentResult)
    ensures r == SegmentDecoding(crc, bytes, c)
  {
    var decoded := DecodeHeader(crc, bytes);
    if decoded.Failure? {
      return Failure(ErrorAt(decoded.error, 0, None));
    }
    var (header, headerLen) := decoded.value;
    if c.Some? && HeaderContinuity(header, c.value).Some? {
      return Failure(ErrorAt(Invalid(HeaderContinuity(header, c.value).value), 0, None));
    }
    var floor := Floor(c);
    var summary := InitialSummary(header, headerLen);
    var records: seq<Record> := [];
    var pos := headerLen;
    while true
      invariant pos <= |bytes|
      invariant SegmentDecoding(crc, bytes, c) == DecodeRecords(crc, bytes, header, floor, pos, summary, records)
      decreases |bytes| - pos
    {
      match ReadRecord(crc, bytes, header, floor, pos, summary) {
        case AtEnd(end) =>
          return Success((DecodedSegment(header, records, end), summary));
        case Bad(error) =>
          return Failure(error);
        case Got(record, next) =>
          summary := Summarize(summary, record);
          records := records + [record];
          pos := next;
      }
    }
  }

  function DecodeSegment(crc: Checksum, bytes: seq<byte>): Result<DecodedSegment, DecodeError> {
    match SegmentDecoding(crc, bytes, None)
    case Success((segment, _)) => Success(segment)
    case Failure(error) => Failure(error)
  }

  // ---------------------------------------------------------------- a list of segments

  /** What decoding the segments so far leaves for the next one. */
  datatype Progress = Progress(
    first: Option<SegmentHeader>,
    previous: Option<SegmentSummary>,
    records: seq<Record>,
    end: SegmentEnd)

  function ContinuityAt(position: u32, p: Progress): Continuity {
    Continuity(position,
               if p.first.Some? && p.previous.Some? then Some((p.first.value, p.previous.value)) else None)
  }

  function LastSoFar(p: Progress): Option<Sequence> {
    if p.previous.Some? then p.previous.value.lastSequence else None
  }

  function OrElse<T>(a: Option<T>, b: Option<T>): Option<T> {
    if a.Some? then a else b
  }

  function AbsorbSegment(crc: Checksum, bytes: seq<byte>, position: u32, p: Progress, final: bool): (r: Result<Progress, DecodeError>)
    ensures r.Success? ==> position < U32_MAX && r.value.first.Some?
  {
    match SegmentDecoding(crc, bytes, Some(ContinuityAt(position, p)))
    case Failure(e) =>
      Failure(DecodeError(e.kind, Some(position), e.offset, OrElse(e.lastValid, LastSoFar(p))))
    case Success((segment, summary)) =>
      if segment.end.Truncated? && !final then
        Failure(DecodeError(Corrupt(TruncatedInteriorSegment), Some(position), segment.end.offset,
                            OrElse(summary.lastSequence, LastSoFar(p))))
      else if segment.records == [] && !final then
        Failure(DecodeError(Invalid(EmptyInteriorSegment), Some(position), summary.headerLen, LastSoFar(p)))
      else if position == U32_MAX then
        Failure(DecodeError(Invalid(SegmentIndex), Some(position), 0, LastSoFar(p)))
      else
        Success(Progress(OrElse(p.first, Some(segment.header)), Some(summary),
                         p.records + segment.records, segment.end))
  }

  const NOTHING_DECODED := Progress(None, None, [], Clean)

  /** The first `n` segments, none of them final. */
  function DecodeInterior(crc: Checksum, segments: seq<seq<byte>>, n: nat): (r: Result<Progress, DecodeError>)
    requires n <= |segments|
    ensures r.Success? ==> n <= U32_MAX
  {
    if n == 0 then
      Success(NOTHING_DECODED)
    else
      var before := DecodeInterior(crc, segments, n - 1);
      if before.Failure? then before
      else AbsorbSegment(crc, segments[n - 1], n - 1, before.value, false)
  }

  function RecordingDecoding(crc: Checksum, segments: seq<seq<byte>>): Result<DecodedRecording, DecodeError> {
    if segments == [] then
      Failure(ErrorAt(Invalid(NoSegments), 0, None))
    else
      var last := |segments| - 1;
      var before := DecodeInterior(crc, segments, last);
      if before.Failure? then
        Failure(before.error)
      else
        match AbsorbSegment(crc, segments[last], last, before.value, true)
        case Failure(e) => Failure(e)
        case Success(p) => Success(DecodedRecording(p.first.value, last + 1, p.records, p.end))
  }

  /** One segment of the list, decoded and checked against what came before it. */
  method DecodeNext(crc: Checksum, bytes: seq<byte>, position: u32, p: Progress, isFinal: bool)
      returns (r: Result<Progress, DecodeError>)
    ensures r == AbsorbSegment(crc, bytes, position, p, isFinal)
  {
    var lastSoFar := LastSoFar(p);
    var decoded := DecodeSegmentWithSummary(crc, bytes, Some(ContinuityAt(position, p)));
    if decoded.Failure? {
      var e := decoded.error;
      return Failure(DecodeError(e.kind, Some(position), e.offset, OrElse(e.lastValid, lastSoFar)));
    }
    var (segment, summary) := decoded.value;
    if segment.end.Truncated? && !isFinal {
      return Failure(DecodeError(Corrupt(TruncatedInteriorSegment), Some(position), segment.end.offset,
                                 OrElse(summary.lastSequence, lastSoFar)));
    }
    if segment.records == [] && !isFinal {
      return Failure(DecodeError(Invalid(EmptyInteriorSegment), Some(position), summary.headerLen, lastSoFar));
    }
    var first := p.first;
    if first.None? {
      first := Some(segment.header);
    }
    if position == U32_MAX {
      return Failure(DecodeError(Invalid(SegmentIndex), Some(position), 0, lastSoFar));
    }
    return Success(Progress(first, Some(summary), p.records + segment.records, segment.end));
  }

  method DecodeRecording(crc: Checksum, segments: seq<seq<byte>>) returns (r: Result<DecodedRecording, DecodeError>)
    ensures r == RecordingDecoding(crc, segments)
  {
    hide AbsorbSegment, SegmentDecoding;
    if segments == [] {
      return Failure(ErrorAt(Invalid(NoSegments), 0, None));
    }
    var p := NOTHING_DECODED;
    var position: u32 := 0;
    while position + 1 < |segments|
      invariant position < |segments|
      invariant DecodeInterior(crc, segments, position) == Success(p)
      decreases |segments| - position
    {
      var next := DecodeNext(crc, segments[position], position, p, false);
      assert DecodeInterior(crc, segments, position + 1) == next;
      if next.Failure? {
        FailureIsFinal(crc, segments, position + 1);
        return Failure(next.error);
      }
      p := next.value;
      position := position + 1;
    }
    var last := DecodeNext(crc, segments[position], position, p, true);
    if last.Failure? {
      return Failure(last.error);
    }
    return Success(DecodedRecording(last.value.first.value, position + 1, last.value.records, last.value.end));
  }

  /** A failure among the first segments is the recording's failure. */
  lemma {:induction false} FailureIsFinal(crc: Checksum, segments: seq<seq<byte>>, n: nat)
    requires n < |segments| && DecodeInterior(crc, segments, n).Failure?
    ensures RecordingDecoding(crc, segments) == Failure(DecodeInterior(crc, segments, n).error)
    decreases |segments| - n
  {
    hide AbsorbSegment;
    if n + 1 < |segments| {
      assert DecodeInterior(crc, segments, n + 1) == DecodeInterior(crc, segments, n);
      FailureIsFinal(crc, segments, n + 1);
    }
  }
}
