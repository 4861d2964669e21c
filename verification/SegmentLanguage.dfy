/**
 The decoder accepts exactly what the encoder writes: one segment at a time, with or without an
 incomplete record at the end.
 */
module SegmentLanguage {
  import opened Wrappers
  import opened Bytes
  import opened Recording
  import opened Decoder

  // ---------------------------------------------------------------- headers

  /** The fields of a header, each at its offset. */
  predicate HeaderAt(bytes: seq<byte>, h: SegmentHeader) {
    && |bytes| == HEADER_FIXED_LEN + |h.term|
    && bytes[0..8] == MAGIC
    && bytes[8..10] == U16Bytes(FORMAT_VERSION)
    && bytes[10..12] == U16Bytes(HEADER_MIN_LEN + |h.term|)
    && bytes[12..14] == U16Bytes(if h.inputRecorded then FLAG_INPUT_RECORDED else 0)
    && bytes[14..30] == h.runId
    && bytes[30..34] == U32Bytes(h.segmentIndex)
    && bytes[34..42] == U64Bytes(h.firstSequence)
    && bytes[42..50] == U64Bytes(h.originUnixNs)
    && bytes[50..52] == U16Bytes(h.geometry.rows)
    && bytes[52..54] == U16Bytes(h.geometry.cols)
    && bytes[54..56] == U16Bytes(|h.term|)
    && bytes[56..] == h.term
  }

  lemma IdentityLayout(b: seq<byte>, h: SegmentHeader)
    requires |b| == 30
    ensures b == HeaderIdentity(h) <==>
              && b[0..8] == MAGIC
              && b[8..10] == U16Bytes(FORMAT_VERSION)
              && b[10..12] == U16Bytes(HEADER_MIN_LEN + |h.term|)
              && b[12..14] == U16Bytes(if h.inputRecorded then FLAG_INPUT_RECORDED else 0)
              && b[14..30] == h.runId
  {
    hide U16Bytes;
    assert b == b[0..8] + b[8..10] + b[10..12] + b[12..14] + b[14..30];
  }

  lemma PositionLayout(b: seq<byte>, h: SegmentHeader)
    requires |b| == 26
    ensures b == HeaderPosition(h) <==>
              && b[0..4] == U32Bytes(h.segmentIndex)
              && b[4..12] == U64Bytes(h.firstSequence)
              && b[12..20] == U64Bytes(h.originUnixNs)
              && b[20..22] == U16Bytes(h.geometry.rows)
              && b[22..24] == U16Bytes(h.geometry.cols)
              && b[24..26] == U16Bytes(|h.term|)
  {
    hide U16Bytes, U32Bytes, U64Bytes;
    assert b == b[0..4] + b[4..12] + b[12..20] + b[20..22] + b[22..24] + b[24..26];
  }

  lemma HeaderLayout(bytes: seq<byte>, h: SegmentHeader)
    ensures bytes == HeaderFields(h) <==> HeaderAt(bytes, h)
  {
    hide U16Bytes, U32Bytes, U64Bytes;
    if |bytes| == HEADER_FIXED_LEN + |h.term| {
      var a, b := bytes[0..30], bytes[30..56];
      IdentityLayout(a, h);
      PositionLayout(b, h);
      assert bytes == a + b + bytes[56..];
      assert a[0..8] == bytes[0..8] && a[8..10] == bytes[8..10] && a[10..12] == bytes[10..12];
      assert a[12..14] == bytes[12..14] && a[14..30] == bytes[14..30];
      assert b[0..4] == bytes[30..34] && b[4..12] == bytes[34..42] && b[12..20] == bytes[42..50];
      assert b[20..22] == bytes[50..52] && b[22..24] == bytes[52..54] && b[24..26] == bytes[54..56];
    }
  }

  /** Reading every field of a header at its offset gives back the header, and only that header. */
  predicate FieldsRead(bytes: seq<byte>, h: SegmentHeader) {
    && |bytes| >= HEADER_FIXED_LEN + |h.term|
    && bytes[..8] == MAGIC
    && ReadU16(bytes, 8) == FORMAT_VERSION
    && ReadU16(bytes, 10) == HEADER_MIN_LEN + |h.term|
    && ReadU16(bytes, 12) == (if h.inputRecorded then FLAG_INPUT_RECORDED else 0)
    && bytes[14..30] == h.runId
    && ReadU32(bytes, 30) == h.segmentIndex
    && ReadU64(bytes, 34) == h.firstSequence
    && ReadU64(bytes, 42) == h.originUnixNs
    && ReadU16(bytes, 50) == h.geometry.rows
    && ReadU16(bytes, 52) == h.geometry.cols
    && ReadU16(bytes, 54) == |h.term|
    && bytes[HEADER_FIXED_LEN..HEADER_FIXED_LEN + |h.term|] == h.term
  }

  lemma FieldsReadBack(bytes: seq<byte>, h: SegmentHeader)
    requires |bytes| >= HEADER_FIXED_LEN + |h.term|
    ensures bytes[..HEADER_FIXED_LEN + |h.term|] == HeaderFields(h) <==> FieldsRead(bytes, h)
  {
    hide U16Bytes, U32Bytes, U64Bytes, ReadU16, ReadU32, ReadU64, HeaderFields;
    var f := bytes[..HEADER_FIXED_LEN + |h.term|];
    HeaderLayout(f, h);
    assert f[0..8] == bytes[..8] && f[8..10] == bytes[8..10] && f[10..12] == bytes[10..12];
    assert f[12..14] == bytes[12..14] && f[14..30] == bytes[14..30] && f[30..34] == bytes[30..34];
    assert f[34..42] == bytes[34..42] && f[42..50] == bytes[42..50] && f[50..52] == bytes[50..52];
    assert f[52..54] == bytes[52..54] && f[54..56] == bytes[54..56] && f[56..] == bytes[56..56 + |h.term|];
    WordU16(bytes, 8, FORMAT_VERSION);
    WordU16(bytes, 10, HEADER_MIN_LEN + |h.term|);
    WordU16(bytes, 12, if h.inputRecorded then FLAG_INPUT_RECORDED else 0);
    WordU32(bytes, 30, h.segmentIndex);
    WordU64(bytes, 34, h.firstSequence);
    WordU64(bytes, 42, h.originUnixNs);
    WordU16(bytes, 50, h.geometry.rows);
    WordU16(bytes, 52, h.geometry.cols);
    WordU16(bytes, 54, |h.term|);
  }

  lemma HeaderDecodes(crc: Checksum, bytes: seq<byte>, h: SegmentHeader, len: nat)
    ensures DecodeHeader(crc, bytes) == Success((h, len)) <==>
              && NewEncoder(h).Success?
              && len == HEADER_MIN_LEN + |h.term| <= |bytes|
              && bytes[..len] == HeaderBytes(crc, h)
  {
    hide U16Bytes, U32Bytes, U64Bytes, ReadU16, ReadU32, ReadU64, HeaderFields;
    var n := HEADER_FIXED_LEN + |h.term|;
    if n + CRC_LEN <= |bytes| {
      var f := bytes[..n];
      FieldsReadBack(bytes, h);
      HeaderLayout(HeaderFields(h), h);
      WordU32(bytes, n, crc(f));
      assert bytes[..n + CRC_LEN] == f + bytes[n..n + CRC_LEN];
      assert bytes[..n + CRC_LEN] == HeaderBytes(crc, h) <==>
             f == HeaderFields(h) && bytes[n..n + CRC_LEN] == U32Bytes(crc(f)) by {
        if bytes[..n + CRC_LEN] == HeaderBytes(crc, h) {
          assert f == HeaderBytes(crc, h)[..n];
          assert bytes[n..n + CRC_LEN] == HeaderBytes(crc, h)[n..];
        }
      }
    }
  }

  lemma SameWord(a: seq<byte>, b: seq<byte>, at: nat)
    requires at + 2 <= |a| && at + 2 <= |b|
    requires a[at] == b[at] && a[at + 1] == b[at + 1]
    ensures ReadU16(a, at) == ReadU16(b, at)
  {
    assert a[at..at + 2] == b[at..at + 2];
  }

  /** A published header is whole: any shorter prefix is corruption, never a truncated tail. */
  lemma HeaderCut(crc: Checksum, h: SegmentHeader, n: nat)
    requires n < |HeaderBytes(crc, h)|
    ensures DecodeHeader(crc, HeaderBytes(crc, h)[..n]) == Failure(Corrupt(HeaderIncomplete))
  {
    hide U16Bytes, U32Bytes, U64Bytes, ReadU16, ReadU32, ReadU64, HeaderFields;
    HeaderLayout(HeaderFields(h), h);
    var whole := HeaderBytes(crc, h);
    var cut := whole[..n];
    if n >= HEADER_MIN_LEN {
      FieldsReadBack(whole, h) by {
        assert whole[..HEADER_FIXED_LEN + |h.term|] == HeaderFields(h);
      }
      assert cut[..8] == whole[..8];
      SameWord(cut, whole, 8);
      SameWord(cut, whole, 10);
    }
  }

  // ---------------------------------------------------------------- records

  lemma ResizeReads(payload: seq<byte>, k: RecordKind)
    requires k.Resize?
    ensures DecodeResize(payload) == Success(k) <==> payload == Payload(k)
  {
    hide U16Bytes, U32Bytes, ReadU16, ReadU32;
    var correlation: u32 := if k.cause.User? then 0 else k.cause.correlation;
    if |payload| == RESIZE_PAYLOAD_LEN {
      WordU16(payload, 0, k.geometry.rows);
      WordU16(payload, 2, k.geometry.cols);
      WordU32(payload, 5, correlation);
      assert payload == payload[0..2] + payload[2..4] + [payload[4]] + payload[5..9];
    }
  }

  lemma PayloadOfBytes(k: RecordKind)
    ensures !k.Resize? ==> Payload(k) == k.bytes
  {
  }

  lemma KindReads(body: seq<byte>, header: SegmentHeader, k: RecordKind)
    requires |body| >= BODY_FIXED_LEN
    ensures DecodeKind(body, header) == Success(k) <==>
              && body[0] == KindByte(k)
              && body[BODY_FIXED_LEN..] == Payload(k)
              && (!k.Resize? ==> k.bytes != [])
              && (k.Input? ==> header.inputRecorded)
  {
    hide Payload, DecodeResize;
    var payload := body[BODY_FIXED_LEN..];
    if k.Resize? {
      ResizeReads(payload, k);
    } else {
      PayloadOfBytes(k);
    }
  }

  lemma BodyLayout(body: seq<byte>, r: Record)
    requires |body| >= BODY_FIXED_LEN
    ensures body == BodyBytes(r) <==>
              && body[0] == KindByte(r.kind)
              && ReadU64(body, 1) == r.sequence
              && ReadU64(body, 9) == r.elapsedNs
              && body[BODY_FIXED_LEN..] == Payload(r.kind)
  {
    hide U64Bytes, ReadU64, Payload;
    WordU64(body, 1, r.sequence);
    WordU64(body, 9, r.elapsedNs);
    assert body == [body[0]] + body[1..9] + body[9..17] + body[17..];
    var whole := BodyBytes(r);
    assert whole[1..9] == U64Bytes(r.sequence) && whole[9..17] == U64Bytes(r.elapsedNs)
           && whole[17..] == Payload(r.kind);
  }

  /** The decoder's running summary and an encoder that wrote the same records so far. */
  predicate Mirrors(st: EncoderState, header: SegmentHeader, floor: Option<u64>, summary: SegmentSummary) {
    && st.header == header
    && st.nextSequence == summary.nextSequence
    && st.geometry == summary.finalGeometry
    && (summary.lastSequence.None? <==> summary.lastElapsedNs.None?)
    && st.lastElapsedNs == (if summary.lastElapsedNs.Some? then summary.lastElapsedNs else floor)
  }

  /** The time check the first record of a segment also passes. */
  predicate AboveFloor(floor: Option<u64>, summary: SegmentSummary, r: Record) {
    summary.lastSequence.None? && floor.Some? ==> r.elapsedNs >= floor.value
  }

  lemma BodyReads(body: seq<byte>, st: EncoderState, header: SegmentHeader, floor: Option<u64>,
                  summary: SegmentSummary, r: Record)
    requires Mirrors(st, header, floor, summary)
    requires BODY_FIXED_LEN <= |body| <= BODY_MAX_LEN
    ensures DecodeBody(body, header, summary) == Success(r) && AboveFloor(floor, summary, r) <==>
              Accepts(st, r) && body == BodyBytes(r)
  {
    hide Payload, DecodeKind, ReadU64, U64Bytes, KindByte;
    BodyLayout(body, r);
    KindReads(body, header, r.kind);
    PayloadOfBytes(r.kind);
  }

  function RecordLen(r: Record): nat {
    PREFIX_LEN + |BodyBytes(r)| + CRC_LEN
  }

  lemma BodyLengths(r: Record)
    requires PayloadFits(r.kind)
    ensures BODY_FIXED_LEN <= |BodyBytes(r)| <= BODY_MAX_LEN
  {
  }

  /** The bytes of one record, split at its length words, body and checksum. */
  lemma RecordLayout(crc: Checksum, bytes: seq<byte>, pos: nat, r: Record)
    requires PayloadFits(r.kind)
    requires pos + RecordLen(r) <= |bytes|
    ensures var bodyAt := pos + PREFIX_LEN;
            var crcAt := bodyAt + |BodyBytes(r)|;
            bytes[pos..pos + RecordLen(r)] == RecordBytes(crc, r) <==>
              && ReadU32(bytes, pos) == |BodyBytes(r)|
              && ReadU32(bytes, pos + 4) == U32_MAX - |BodyBytes(r)|
              && bytes[bodyAt..crcAt] == BodyBytes(r)
              && crc(bytes[pos..crcAt]) == ReadU32(bytes, crcAt)
  {
    hide U32Bytes, ReadU32, BodyBytes;
    var body := BodyBytes(r);
    var bodyAt := pos + PREFIX_LEN;
    var crcAt := bodyAt + |body|;
    BodyLengths(r);
    WordU32(bytes, pos, |body|);
    WordU32(bytes, pos + 4, U32_MAX - |body|);
    WordU32(bytes, crcAt, crc(bytes[pos..crcAt]));
    var fields := bytes[pos..crcAt];
    assert fields == bytes[pos..pos + 4] + bytes[pos + 4..bodyAt] + bytes[bodyAt..crcAt];
    assert bytes[pos..pos + RecordLen(r)] == fields + bytes[crcAt..crcAt + 4];
    var whole := RecordBytes(crc, r);
    assert whole[..|fields|] == RecordFields(r);
    assert RecordFields(r)[0..4] == U32Bytes(|body|) && RecordFields(r)[4..8] == U32Bytes(U32_MAX - |body|)
           && RecordFields(r)[8..] == body;
    assert whole[|fields|..] == U32Bytes(crc(RecordFields(r)));
    if bytes[pos..pos + RecordLen(r)] == whole {
      assert fields == whole[..|fields|];
      assert bytes[crcAt..crcAt + 4] == whole[|fields|..];
      assert bytes[pos..pos + 4] == fields[0..4] && bytes[pos + 4..bodyAt] == fields[4..8]
             && bytes[bodyAt..crcAt] == fields[8..];
    }
  }

  /** A record position yields `r` exactly when the encoder accepts `r` there and its bytes are there. */
  lemma RecordReads(crc: Checksum, bytes: seq<byte>, st: EncoderState, header: SegmentHeader, floor: Option<u64>,
                    pos: nat, summary: SegmentSummary, r: Record, next: nat)
    requires pos <= |bytes|
    requires Mirrors(st, header, floor, summary)
    ensures ReadRecord(crc, bytes, header, floor, pos, summary) == Got(r, next) <==>
              && Accepts(st, r)
              && next == pos + RecordLen(r) <= |bytes|
              && bytes[pos..next] == RecordBytes(crc, r)
    ensures Accepts(st, r) ==> Mirrors(Advance(st, r), header, floor, Summarize(summary, r))
  {
    hide ReadU32, BodyBytes, DecodeBody;
    var read := ReadRecord(crc, bytes, header, floor, pos, summary);
    if Accepts(st, r) {
      BodyLengths(r);
      if next == pos + RecordLen(r) <= |bytes| {
        RecordLayout(crc, bytes, pos, r);
        var body := bytes[pos + PREFIX_LEN..next - CRC_LEN];
        BodyReads(body, st, header, floor, summary, r);
      }
    }
    if read == Got(r, next) {
      var body := bytes[pos + PREFIX_LEN..next - CRC_LEN];
      BodyReads(body, st, header, floor, summary, r);
      RecordLayout(crc, bytes, pos, r);
    }
  }

  // ---------------------------------------------------------------- segments

  /** Bytes that end inside a record: too short for its lengths, or sound lengths and too short for the rest. */
  predicate IncompleteTail(t: seq<byte>) {
    |t| < PREFIX_LEN ||
    (&& ReadU32(t, 4) == U32_MAX - ReadU32(t, 0)
     && BODY_FIXED_LEN <= ReadU32(t, 0) <= BODY_MAX_LEN
     && |t| < PREFIX_LEN + ReadU32(t, 0) + CRC_LEN)
  }

  function EndAt(bytes: seq<byte>, pos: nat): SegmentEnd {
    if pos == |bytes| then Clean else Truncated(pos)
  }

  lemma TailReads(crc: Checksum, bytes: seq<byte>, header: SegmentHeader, floor: Option<u64>, pos: nat,
                  summary: SegmentSummary, end: SegmentEnd)
    requires pos <= |bytes|
    ensures ReadRecord(crc, bytes, header, floor, pos, summary) == AtEnd(end) <==>
              IncompleteTail(bytes[pos..]) && end == EndAt(bytes, pos)
  {
    hide DecodeBody;
    var t := bytes[pos..];
    if |t| >= PREFIX_LEN {
      assert t[0..4] == bytes[pos..pos + 4] && t[4..8] == bytes[pos + 4..pos + 8];
    }
  }

  /** What decoding accepts from `pos` on: the encodings of `rs`, then at most one incomplete record. */
  predicate Holds(crc: Checksum, bytes: seq<byte>, pos: nat, st: EncoderState, rs: seq<Record>, end: SegmentEnd)
    requires pos <= |bytes|
  {
    && AcceptsAll(st, rs)
    && AllFit(rs)
    && RecordsBytes(crc, rs) <= bytes[pos..]
    && IncompleteTail(bytes[pos + |RecordsBytes(crc, rs)|..])
    && end == EndAt(bytes, pos + |RecordsBytes(crc, rs)|)
  }

  /** One record more at the front. */
  lemma HoldsStep(crc: Checksum, bytes: seq<byte>, pos: nat, st: EncoderState, rs: seq<Record>, end: SegmentEnd)
    requires pos <= |bytes| && rs != []
    ensures Holds(crc, bytes, pos, st, rs, end) <==>
              && Accepts(st, rs[0])
              && pos + RecordLen(rs[0]) <= |bytes|
              && bytes[pos..pos + RecordLen(rs[0])] == RecordBytes(crc, rs[0])
              && Holds(crc, bytes, pos + RecordLen(rs[0]), Advance(st, rs[0]), rs[1..], end)
  {
    hide RecordBytes, BodyBytes, IncompleteTail, EndAt, Advance;
    var r, rest := rs[0], rs[1..];
    AllFitSplit(rs);
    if Accepts(st, r) && AllFit(rest) {
      RecordBytesLen(crc, r);
      var a, b := RecordBytes(crc, r), RecordsBytes(crc, rest);
      PrefixSplit(a, b, bytes[pos..]);
      if pos + |a| <= |bytes| {
        assert bytes[pos..][..|a|] == bytes[pos..pos + |a|];
        assert bytes[pos..][|a|..] == bytes[pos + |a|..];
      }
    }
  }

  lemma AllFitSplit(rs: seq<Record>)
    requires rs != []
    ensures AllFit(rs) <==> PayloadFits(rs[0].kind) && AllFit(rs[1..])
  {
    if PayloadFits(rs[0].kind) && AllFit(rs[1..]) {
      forall i | 0 <= i < |rs|
        ensures PayloadFits(rs[i].kind)
      {
        assert i > 0 ==> rs[i] == rs[1..][i - 1];
      }
    }
  }

  lemma PrefixSplit(a: seq<byte>, b: seq<byte>, whole: seq<byte>)
    ensures a + b <= whole <==> a <= whole && b <= whole[|a|..]
  {
    if a <= whole && b <= whole[|a|..] {
      assert whole == a + whole[|a|..];
    }
    if a + b <= whole {
      assert whole[..|a|] == a;
      assert whole[|a|..][..|b|] == b;
    }
  }

  lemma RecordBytesLen(crc: Checksum, r: Record)
    requires PayloadFits(r.kind)
    ensures |RecordBytes(crc, r)| == RecordLen(r)
  {
  }

  lemma {:induction false} RecordsDecode(crc: Checksum, bytes: seq<byte>, header: SegmentHeader, floor: Option<u64>,
                                         pos: nat, summary: SegmentSummary, done: seq<Record>,
                                         st: EncoderState, rs: seq<Record>, end: SegmentEnd)
    requires pos <= |bytes|
    requires Mirrors(st, header, floor, summary)
    requires Holds(crc, bytes, pos, st, rs, end)
    ensures var d := DecodeRecords(crc, bytes, header, floor, pos, summary, done);
            && d.Success?
            && d.value.0 == DecodedSegment(header, done + rs, end)
            && Mirrors(AdvanceAll(st, rs), header, floor, d.value.1)
            && d.value.1.headerLen == summary.headerLen
            && d.value.1.lastSequence == (if rs == [] then summary.lastSequence else Some(rs[|rs| - 1].sequence))
    decreases |rs|
  {
    hide ReadRecord, RecordBytes, BodyBytes, IncompleteTail;
    if rs == [] {
      TailReads(crc, bytes, header, floor, pos, summary, end);
      assert done + rs == done;
    } else {
      var next := pos + RecordLen(rs[0]);
      HoldsStep(crc, bytes, pos, st, rs, end);
      RecordReads(crc, bytes, st, header, floor, pos, summary, rs[0], next);
      RecordsDecode(crc, bytes, header, floor, next, Summarize(summary, rs[0]), done + [rs[0]],
                    Advance(st, rs[0]), rs[1..], end);
      assert done + rs == done + [rs[0]] + rs[1..];
    }
  }

  lemma {:induction false} RecordsDecoded(crc: Checksum, bytes: seq<byte>, header: SegmentHeader, floor: Option<u64>,
                                          pos: nat, summary: SegmentSummary, done: seq<Record>,
                                          st: EncoderState) returns (rs: seq<Record>)
    requires pos <= |bytes|
    requires Mirrors(st, header, floor, summary)
    requires DecodeRecords(crc, bytes, header, floor, pos, summary, done).Success?
    ensures var d := DecodeRecords(crc, bytes, header, floor, pos, summary, done).value.0;
            && d == DecodedSegment(header, done + rs, d.end)
            && Holds(crc, bytes, pos, st, rs, d.end)
    decreases |bytes| - pos
  {
    hide ReadRecord, RecordBytes, BodyBytes, IncompleteTail, Mirrors, Advance, Summarize, Accepts, RecordLen;
    match ReadRecord(crc, bytes, header, floor, pos, summary) {
      case AtEnd(end) =>
        rs := [];
        TailReads(crc, bytes, header, floor, pos, summary, end);
        assert done + rs == done;
      case Got(r, next) =>
        RecordReads(crc, bytes, st, header, floor, pos, summary, r, next);
        var rest := RecordsDecoded(crc, bytes, header, floor, next, Summarize(summary, r), done + [r], Advance(st, r));
        rs := [r] + rest;
        assert done + rs == done + [r] + rest;
        assert rs[0] == r && rs[1..] == rest;
        HoldsStep(crc, bytes, pos, st, rs,
                  DecodeRecords(crc, bytes, header, floor, pos, summary, done).value.0.end);
    }
  }

  /** An encoder at the start of a segment whose records may not precede `floor`. */
  function StartState(h: SegmentHeader, floor: Option<u64>): EncoderState {
    EncoderState(h, Some(h.firstSequence), floor, h.geometry, 0)
  }

  /** `bytes` is the header `h`, the encodings of `rs`, and at most one incomplete record, in its place. */
  predicate Written(crc: Checksum, bytes: seq<byte>, c: Option<Continuity>, h: SegmentHeader, rs: seq<Record>, end: SegmentEnd) {
    && NewEncoder(h).Success?
    && (c.Some? ==> HeaderContinuity(h, c.value).None?)
    && HeaderBytes(crc, h) <= bytes
    && Holds(crc, bytes, |HeaderBytes(crc, h)|, StartState(h, Floor(c)), rs, end)
  }

  lemma HeaderBytesLen(crc: Checksum, h: SegmentHeader)
    ensures |HeaderBytes(crc, h)| == HEADER_MIN_LEN + |h.term|
  {
    hide U16Bytes, U32Bytes, U64Bytes;
  }

  /** Every success of the segment decoder, characterised; and what its summary says of the encoder. */
  lemma SegmentDecodes(crc: Checksum, bytes: seq<byte>, c: Option<Continuity>, h: SegmentHeader, rs: seq<Record>, end: SegmentEnd)
    ensures var d := SegmentDecoding(crc, bytes, c);
            && (d.Success? && d.value.0 == DecodedSegment(h, rs, end) <==> Written(crc, bytes, c, h, rs, end))
            && (Written(crc, bytes, c, h, rs, end) ==>
                  && Mirrors(AdvanceAll(StartState(h, Floor(c)), rs), h, Floor(c), d.value.1)
                  && d.value.1.lastSequence == (if rs == [] then None else Some(rs[|rs| - 1].sequence)))
  {
    hide DecodeHeader, HeaderBytes, Holds, AdvanceAll, HeaderContinuity;
    var d := SegmentDecoding(crc, bytes, c);
    var floor := Floor(c);
    var st := StartState(h, floor);
    var len := HEADER_MIN_LEN + |h.term|;
    HeaderBytesLen(crc, h);
    HeaderDecodes(crc, bytes, h, len);
    assert Mirrors(st, h, floor, InitialSummary(h, len));
    if Written(crc, bytes, c, h, rs, end) {
      RecordsDecode(crc, bytes, h, floor, len, InitialSummary(h, len), [], st, rs, end);
      assert [] + rs == rs;
    }
    if d.Success? && d.value.0 == DecodedSegment(h, rs, end) {
      HeaderDecodes(crc, bytes, h, DecodeHeader(crc, bytes).value.1);
      RecordsKeepHeader(crc, bytes, DecodeHeader(crc, bytes).value.0, floor, DecodeHeader(crc, bytes).value.1,
                        InitialSummary(DecodeHeader(crc, bytes).value.0, DecodeHeader(crc, bytes).value.1), []);
      var found := RecordsDecoded(crc, bytes, h, floor, len, InitialSummary(h, len), [], st);
      assert [] + found == found;
    }
  }

  lemma {:induction false} RecordsKeepHeader(crc: Checksum, bytes: seq<byte>, header: SegmentHeader, floor: Option<u64>,
                                             pos: nat, summary: SegmentSummary, done: seq<Record>)
    requires pos <= |bytes|
    requires DecodeRecords(crc, bytes, header, floor, pos, summary, done).Success?
    ensures DecodeRecords(crc, bytes, header, floor, pos, summary, done).value.0.header == header
    decreases |bytes| - pos
  {
    hide ReadRecord;
    match ReadRecord(crc, bytes, header, floor, pos, summary) {
      case AtEnd(_) =>
      case Got(r, next) =>
        RecordsKeepHeader(crc, bytes, header, floor, next, Summarize(summary, r), done + [r]);
    }
  }

  /**
   * A segment decodes cleanly to `h` and `rs` exactly when its bytes are `h` encoded and then each record
   * of `rs` as a fresh encoder, accepting each in turn, writes it.
   */
  lemma DecodesExactlyWhatIsEncoded(crc: Checksum, bytes: seq<byte>, h: SegmentHeader, rs: seq<Record>)
    ensures DecodeSegment(crc, bytes) == Success(DecodedSegment(h, rs, Clean)) <==>
              && NewEncoder(h).Success?
              && AcceptsAll(NewEncoder(h).value, rs)
              && AllFit(rs)
              && bytes == SegmentBytes(crc, h, rs)
  {
    hide HeaderBytes, RecordsBytes, SegmentDecoding;
    SegmentDecodes(crc, bytes, None, h, rs, Clean);
    var head := HeaderBytes(crc, h);
    if AllFit(rs) {
      var body := RecordsBytes(crc, rs);
      assert bytes == SegmentBytes(crc, h, rs) <==>
             head <= bytes && body <= bytes[|head|..] && |head| + |body| == |bytes| by {
        if head <= bytes && body <= bytes[|head|..] && |head| + |body| == |bytes| {
          assert bytes == head + bytes[|head|..];
        }
        if bytes == SegmentBytes(crc, h, rs) {
          assert bytes[|head|..] == body;
        }
      }
    }
  }

  // ---------------------------------------------------------------- truncation

  /** How many of the records `rs` lie wholly within their first `n` encoded bytes. */
  function WhollyWithin(crc: Checksum, rs: seq<Record>, n: nat): (k: nat)
    requires AllFit(rs)
    ensures k <= |rs|
    ensures |RecordsBytes(crc, rs[..k])| <= n
    ensures k < |rs| ==> n < |RecordsBytes(crc, rs[..k + 1])|
  {
    if rs == [] || n < |RecordBytes(crc, rs[0])| then
      assert rs != [] ==> rs[..1][1..] == [] && RecordsBytes(crc, rs[..1]) == RecordBytes(crc, rs[0]) + [];
      0
    else
      var k := WhollyWithin(crc, rs[1..], n - |RecordBytes(crc, rs[0])|);
      assert rs[..k + 1][1..] == rs[1..][..k];
      assert k + 1 < |rs| ==> rs[..k + 2][1..] == rs[1..][..k + 1];
      k + 1
  }

  lemma {:induction false} RecordsBytesSplit(crc: Checksum, a: seq<Record>, b: seq<Record>)
    requires AllFit(a) && AllFit(b)
    ensures AllFit(a + b)
    ensures RecordsBytes(crc, a + b) == RecordsBytes(crc, a) + RecordsBytes(crc, b)
  {
    hide RecordBytes;
    if a == [] {
      assert a + b == b;
    } else {
      assert (a + b)[1..] == a[1..] + b;
      RecordsBytesSplit(crc, a[1..], b);
    }
  }

  lemma {:induction false} AcceptedPrefix(st: EncoderState, rs: seq<Record>, k: nat)
    requires AcceptsAll(st, rs) && k <= |rs|
    ensures AcceptsAll(st, rs[..k])
    decreases k
  {
    if k > 0 {
      assert rs[..k][1..] == rs[1..][..k - 1];
      AcceptedPrefix(Advance(st, rs[0]), rs[1..], k - 1);
    }
  }

  /** A proper prefix of a record's bytes is an incomplete tail. */
  lemma CutRecord(crc: Checksum, r: Record, t: seq<byte>)
    requires PayloadFits(r.kind)
    requires t < RecordBytes(crc, r)
    ensures IncompleteTail(t)
  {
    hide BodyBytes;
    BodyLengths(r);
    RecordBytesLen(crc, r);
    if |t| >= PREFIX_LEN {
      var whole := RecordBytes(crc, r);
      RecordLayout(crc, whole, 0, r) by {
        assert whole[0..RecordLen(r)] == whole;
      }
      assert whole[0..RecordLen(r)] == whole;
      assert t[0..4] == whole[0..4] && t[4..8] == whole[4..8];
    }
  }

  /**
   * Cutting an encoded segment anywhere keeps exactly the records that lie wholly before the cut, clean
   * at a record boundary and otherwise truncated where the cut record starts; a cut header is corruption.
   */
  lemma CutSegment(crc: Checksum, h: SegmentHeader, rs: seq<Record>, n: nat)
    requires NewEncoder(h).Success? && AcceptsAll(NewEncoder(h).value, rs) && AllFit(rs)
    requires n <= |SegmentBytes(crc, h, rs)|
    ensures var cut := SegmentBytes(crc, h, rs)[..n];
            if n < |HeaderBytes(crc, h)| then
              DecodeSegment(crc, cut) == Failure(ErrorAt(Corrupt(HeaderIncomplete), 0, None))
            else
              var k := WhollyWithin(crc, rs, n - |HeaderBytes(crc, h)|);
              DecodeSegment(crc, cut)
                == Success(DecodedSegment(h, rs[..k], EndAt(cut, |SegmentBytes(crc, h, rs[..k])|)))
  {
    hide HeaderBytes, RecordsBytes, RecordBytes, SegmentDecoding, WhollyWithin, IncompleteTail;
    var head, body := HeaderBytes(crc, h), RecordsBytes(crc, rs);
    var cut := SegmentBytes(crc, h, rs)[..n];
    if n < |head| {
      assert cut == head[..n];
      CutHeader(crc, h, n);
    } else {
      var k := WhollyWithin(crc, rs, n - |head|);
      AcceptedPrefix(NewEncoder(h).value, rs, k);
      var tail := CutRecords(crc, rs, n - |head|);
      CutParts(head, body, n, RecordsBytes(crc, rs[..k]), tail);
      WrittenThenTail(crc, h, rs[..k], cut, tail);
    }
  }

  /** Records cut at any byte: those wholly within, then an incomplete tail. */
  lemma CutRecords(crc: Checksum, rs: seq<Record>, m: nat) returns (tail: seq<byte>)
    requires AllFit(rs) && m <= |RecordsBytes(crc, rs)|
    ensures RecordsBytes(crc, rs)[..m] == RecordsBytes(crc, rs[..WhollyWithin(crc, rs, m)]) + tail
    ensures IncompleteTail(tail)
  {
    hide RecordsBytes, WhollyWithin, IncompleteTail;
    var k := WhollyWithin(crc, rs, m);
    var whole, rest := RecordsBytes(crc, rs[..k]), RecordsBytes(crc, rs[k..]);
    assert rs == rs[..k] + rs[k..];
    RecordsBytesSplit(crc, rs[..k], rs[k..]);
    tail := rest[..m - |whole|];
    assert (whole + rest)[..m] == whole + tail;
    TailWithin(crc, rs, k, m, tail);
  }

  lemma WrittenThenTail(crc: Checksum, h: SegmentHeader, rs: seq<Record>, bytes: seq<byte>, tail: seq<byte>)
    requires NewEncoder(h).Success? && AllFit(rs) && AcceptsAll(NewEncoder(h).value, rs) && IncompleteTail(tail)
    requires bytes == HeaderBytes(crc, h) + RecordsBytes(crc, rs) + tail
    ensures DecodeSegment(crc, bytes) == Success(DecodedSegment(h, rs, EndAt(bytes, |SegmentBytes(crc, h, rs)|)))
  {
    hide HeaderBytes, RecordsBytes, SegmentDecoding, IncompleteTail;
    var written := SegmentBytes(crc, h, rs);
    assert bytes[..|written|] == written && bytes[|written|..] == tail;
    SegmentDecodes(crc, bytes, None, h, rs, EndAt(bytes, |written|));
  }

  lemma CutParts(head: seq<byte>, body: seq<byte>, n: nat, whole: seq<byte>, tail: seq<byte>)
    requires |head| <= n <= |head + body| && body[..n - |head|] == whole + tail
    ensures (head + body)[..n] == head + whole + tail
    ensures (head + body)[..n][|head| + |whole|..] == tail
  {
    assert (head + body)[..n] == head + body[..n - |head|];
  }

  lemma CutHeader(crc: Checksum, h: SegmentHeader, n: nat)
    requires n < |HeaderBytes(crc, h)|
    ensures DecodeSegment(crc, HeaderBytes(crc, h)[..n]) == Failure(ErrorAt(Corrupt(HeaderIncomplete), 0, None))
  {
    hide HeaderBytes, DecodeHeader;
    HeaderCut(crc, h, n);
  }

  lemma TailWithin(crc: Checksum, rs: seq<Record>, k: nat, m: nat, tail: seq<byte>)
    requires AllFit(rs) && k == WhollyWithin(crc, rs, m)
    requires |RecordsBytes(crc, rs[..k])| <= m <= |RecordsBytes(crc, rs[..k])| + |RecordsBytes(crc, rs[k..])|
    requires tail == RecordsBytes(crc, rs[k..])[..m - |RecordsBytes(crc, rs[..k])|]
    ensures IncompleteTail(tail)
  {
    hide RecordBytes, WhollyWithin;
    if k < |rs| {
      assert rs[..k + 1] == rs[..k] + [rs[k]];
      RecordsBytesOneMore(crc, rs[..k], rs[k]);
      CutRecord(crc, rs[k], tail);
    }
  }
}
