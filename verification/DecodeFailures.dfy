/** What a decoding failure says: where it is, and that everything before it is a recording of its own. */
module DecodeFailures {
  import opened Wrappers
  import opened Bytes
  import opened Recording
  import opened Decoder
  import opened SegmentLanguage
  import opened RecordingLanguage

  function LastOf(rs: seq<Record>): Option<Sequence> {
    if rs == [] then None else Some(rs[|rs| - 1].sequence)
  }

  // ---------------------------------------------------------------- within a segment

  lemma WordEarlier(bytes: seq<byte>, at: nat, i: nat)
    requires i + 4 <= at <= |bytes|
    ensures ReadU32(bytes[..at], i) == ReadU32(bytes, i)
  {
    assert bytes[..at][i..i + 4] == bytes[i..i + 4];
  }

  /** A record read depends on nothing after it. */
  lemma {:induction false} ReadEarlier(crc: Checksum, bytes: seq<byte>, at: nat, header: SegmentHeader, floor: Option<u64>,
                                       pos: nat, summary: SegmentSummary)
    requires pos <= at <= |bytes|
    requires var r := ReadRecord(crc, bytes, header, floor, pos, summary); r.Got? && r.next <= at
    ensures ReadRecord(crc, bytes[..at], header, floor, pos, summary) == ReadRecord(crc, bytes, header, floor, pos, summary)
  {
    hide ReadU32, DecodeBody;
    var crcAt := ReadRecord(crc, bytes, header, floor, pos, summary).next - CRC_LEN;
    WordEarlier(bytes, at, pos);
    WordEarlier(bytes, at, pos + 4);
    WordEarlier(bytes, at, crcAt);
    assert bytes[..at][pos..crcAt] == bytes[pos..crcAt];
    assert bytes[..at][pos + PREFIX_LEN..crcAt] == bytes[pos + PREFIX_LEN..crcAt];
  }

  /** Where reading records stopped short of the end: a failure's position, or that of a record cut short. */
  predicate StopsAt(r: SegmentResult, at: nat) {
    match r
    case Success((segment, _)) => segment.end == Truncated(at)
    case Failure(e) => e.offset == at
  }

  /** What a stop says of the records before it. */
  predicate Agrees(stopped: SegmentResult, before: SegmentResult) {
    && before.Success? && before.value.0.end == Clean
    && match stopped
       case Success((segment, summary)) =>
         before.value.0 == segment.(end := Clean) && before.value.1 == summary
       case Failure(e) => e.lastValid == before.value.1.lastSequence
  }

  /** Cut where reading stopped, the records read so far are read cleanly. */
  lemma {:induction false} CleanUpTo(crc: Checksum, bytes: seq<byte>, header: SegmentHeader, floor: Option<u64>,
                                     pos: nat, summary: SegmentSummary, records: seq<Record>, at: nat)
    requires pos <= |bytes| && StopsAt(DecodeRecords(crc, bytes, header, floor, pos, summary, records), at)
    ensures pos <= at <= |bytes|
    ensures Agrees(DecodeRecords(crc, bytes, header, floor, pos, summary, records),
                   DecodeRecords(crc, bytes[..at], header, floor, pos, summary, records))
    decreases |bytes| - pos
  {
    hide ReadRecord, Summarize;
    var read := ReadRecord(crc, bytes, header, floor, pos, summary);
    if read.Got? {
      CleanUpTo(crc, bytes, header, floor, read.next, Summarize(summary, read.record), records + [read.record], at);
      ReadEarlier(crc, bytes, at, header, floor, pos, summary);
    } else {
      StopsThere(crc, bytes, header, floor, pos, summary);
      NothingThere(crc, bytes[..pos], header, floor, pos, summary);
    }
  }

  lemma StopsThere(crc: Checksum, bytes: seq<byte>, header: SegmentHeader, floor: Option<u64>, pos: nat, summary: SegmentSummary)
    requires pos <= |bytes|
    ensures match ReadRecord(crc, bytes, header, floor, pos, summary)
      case AtEnd(end) => end == Clean || end == Truncated(pos)
      case Bad(e) => e.offset == pos && e.lastValid == summary.lastSequence
      case Got(_, _) => true
  {
    hide ReadU32, DecodeBody;
  }

  lemma NothingThere(crc: Checksum, bytes: seq<byte>, header: SegmentHeader, floor: Option<u64>, pos: nat, summary: SegmentSummary)
    requires pos == |bytes|
    ensures ReadRecord(crc, bytes, header, floor, pos, summary) == AtEnd(Clean)
  {
  }

  /** Cut where its decoding stopped, a segment decodes cleanly; a refused header leaves nothing of it. */
  lemma {:induction false} SegmentUpTo(crc: Checksum, bytes: seq<byte>, c: Option<Continuity>, at: nat)
    requires StopsAt(SegmentDecoding(crc, bytes, c), at)
    ensures at <= |bytes|
    ensures at > 0 ==> Agrees(SegmentDecoding(crc, bytes, c), SegmentDecoding(crc, bytes[..at], c))
    ensures at == 0 ==> SegmentDecoding(crc, bytes, c).Failure? && SegmentDecoding(crc, bytes, c).error.lastValid.None?
  {
    hide DecodeHeader, HeaderContinuity, DecodeRecords;
    var header := DecodeHeader(crc, bytes);
    if header.Success? {
      var (h, len) := header.value;
      HeaderDecodes(crc, bytes, h, len);
      if c.None? || HeaderContinuity(h, c.value).None? {
        CleanUpTo(crc, bytes, h, Floor(c), len, InitialSummary(h, len), [], at);
        assert bytes[..at][..len] == bytes[..len];
        HeaderDecodes(crc, bytes[..at], h, len);
      }
    }
  }

  /** A decoded segment's summary names its last record. */
  lemma LastInSummary(crc: Checksum, bytes: seq<byte>, c: Option<Continuity>)
    requires SegmentDecoding(crc, bytes, c).Success?
    ensures var (segment, summary) := SegmentDecoding(crc, bytes, c).value;
      summary.lastSequence == LastOf(segment.records)
  {
    hide SegmentDecoding;
    var segment := SegmentDecoding(crc, bytes, c).value.0;
    SegmentDecodes(crc, bytes, c, segment.header, segment.records, segment.end);
  }

  // ---------------------------------------------------------------- within a recording

  lemma {:induction false} LastInProgress(crc: Checksum, segments: seq<seq<byte>>, n: nat)
    requires n <= |segments| && DecodeInterior(crc, segments, n).Success?
    ensures LastSoFar(DecodeInterior(crc, segments, n).value) == LastOf(DecodeInterior(crc, segments, n).value.records)
  {
    hide SegmentDecoding;
    if n > 0 {
      var p := DecodeInterior(crc, segments, n - 1).value;
      LastInSummary(crc, segments[n - 1], Some(ContinuityAt(n - 1, p)));
    }
  }

  /** The segments before a failing one decode; the last record before the failure is the one it names. */
  predicate Located(crc: Checksum, segments: seq<seq<byte>>, e: DecodeError) {
    && e.segment.Some? && e.segment.value < |segments| && e.offset <= |segments[e.segment.value]|
    && DecodeInterior(crc, segments, e.segment.value).Success?
    && var p := DecodeInterior(crc, segments, e.segment.value).value;
       if e.offset == 0 then e.lastValid == LastOf(p.records)
       else
         var cut := SegmentDecoding(crc, segments[e.segment.value][..e.offset], Some(ContinuityAt(e.segment.value, p)));
         && cut.Success? && cut.value.0.end == Clean && e.lastValid == LastOf(p.records + cut.value.0.records)
  }

  lemma {:induction false} AbsorbLocated(crc: Checksum, segments: seq<seq<byte>>, i: u32, final: bool)
    requires i < |segments| && DecodeInterior(crc, segments, i).Success?
    requires AbsorbSegment(crc, segments[i], i, DecodeInterior(crc, segments, i).value, final).Failure?
    ensures Located(crc, segments, AbsorbSegment(crc, segments[i], i, DecodeInterior(crc, segments, i).value, final).error)
  {
    hide SegmentDecoding, DecodeInterior;
    var p := DecodeInterior(crc, segments, i).value;
    var c := Some(ContinuityAt(i, p));
    var bytes, d := segments[i], SegmentDecoding(crc, segments[i], c);
    LastInProgress(crc, segments, i);
    if d.Failure? {
      SegmentUpTo(crc, bytes, c, d.error.offset);
      if d.error.offset > 0 {
        LastInSummary(crc, bytes[..d.error.offset], c);
      }
    } else {
      LastInSummary(crc, bytes, c);
      if d.value.0.end.Truncated? {
        SegmentUpTo(crc, bytes, c, d.value.0.end.offset);
      } else if d.value.0.records == [] {
        HeaderAlone(crc, bytes, c);
        assert bytes[..|bytes|] == bytes;
      }
    }
  }

  lemma HeaderAlone(crc: Checksum, bytes: seq<byte>, c: Option<Continuity>)
    requires var d := SegmentDecoding(crc, bytes, c); d.Success? && d.value.0.records == [] && d.value.0.end == Clean
    ensures SegmentDecoding(crc, bytes, c).value.1.headerLen == |bytes|
  {
    hide DecodeHeader, HeaderContinuity, ReadRecord, Summarize;
    var (h, len) := DecodeHeader(crc, bytes).value;
    HeaderDecodes(crc, bytes, h, len);
    var summary := InitialSummary(h, len);
    var read := ReadRecord(crc, bytes, h, Floor(c), len, summary);
    if read.Got? {
      RecordsKept(crc, bytes, h, Floor(c), read.next, Summarize(summary, read.record), [] + [read.record]);
    } else {
      CleanAtEnd(crc, bytes, h, Floor(c), len, summary);
    }
  }

  lemma CleanAtEnd(crc: Checksum, bytes: seq<byte>, header: SegmentHeader, floor: Option<u64>, pos: nat, summary: SegmentSummary)
    requires pos <= |bytes| && ReadRecord(crc, bytes, header, floor, pos, summary) == AtEnd(Clean)
    ensures pos == |bytes|
  {
    hide ReadU32, DecodeBody;
  }

  lemma {:induction false} RecordsKept(crc: Checksum, bytes: seq<byte>, header: SegmentHeader, floor: Option<u64>,
                                      pos: nat, summary: SegmentSummary, records: seq<Record>)
    requires pos <= |bytes| && DecodeRecords(crc, bytes, header, floor, pos, summary, records).Success?
    ensures |DecodeRecords(crc, bytes, header, floor, pos, summary, records).value.0.records| >= |records|
    decreases |bytes| - pos
  {
    hide ReadRecord, Summarize;
    var read := ReadRecord(crc, bytes, header, floor, pos, summary);
    if read.Got? {
      RecordsKept(crc, bytes, header, floor, read.next, Summarize(summary, read.record), records + [read.record]);
    }
  }

  lemma {:induction false} InteriorLocated(crc: Checksum, segments: seq<seq<byte>>, n: nat)
    requires n <= |segments| && DecodeInterior(crc, segments, n).Failure?
    ensures Located(crc, segments, DecodeInterior(crc, segments, n).error)
  {
    hide AbsorbSegment, Located;
    if DecodeInterior(crc, segments, n - 1).Failure? {
      InteriorLocated(crc, segments, n - 1);
    } else {
      AbsorbLocated(crc, segments, n - 1, false);
    }
  }

  /**
   Every failure names the segment it is in and a position of it such that all before decode, and the last record
   that did: the earlier segments' last, or the last of the failing segment up to the position.
   */
  lemma FailureIsLocated(crc: Checksum, segments: seq<seq<byte>>)
    requires segments != [] && RecordingDecoding(crc, segments).Failure?
    ensures Located(crc, segments, RecordingDecoding(crc, segments).error)
  {
    hide AbsorbSegment, Located, DecodeInterior;
    var last := |segments| - 1;
    if DecodeInterior(crc, segments, last).Failure? {
      InteriorLocated(crc, segments, last);
    } else {
      AbsorbLocated(crc, segments, last, true);
    }
  }

  // ---------------------------------------------------------------- what is before a failure

  /** The recording cut where a failure is. */
  function Before(segments: seq<seq<byte>>, e: DecodeError): seq<seq<byte>>
    requires e.segment.Some? && e.segment.value < |segments| && e.offset <= |segments[e.segment.value]|
  {
    segments[..e.segment.value] + if e.offset == 0 then [] else [segments[e.segment.value][..e.offset]]
  }

  lemma {:induction false} InteriorOfStart(crc: Checksum, segments: seq<seq<byte>>, longer: seq<seq<byte>>, n: nat)
    requires n <= |segments| && n <= |longer| && segments[..n] == longer[..n]
    ensures DecodeInterior(crc, segments, n) == DecodeInterior(crc, longer, n)
  {
    hide AbsorbSegment;
    if n > 0 {
      assert segments[..n][..n - 1] == segments[..n - 1] && longer[..n][..n - 1] == longer[..n - 1];
      InteriorOfStart(crc, segments, longer, n - 1);
      assert segments[..n][n - 1] == longer[..n][n - 1];
    }
  }

  /** Segments that decode as interior ones are a recording that ends cleanly. */
  lemma {:induction false} InteriorIsRecording(crc: Checksum, segments: seq<seq<byte>>)
    requires segments != [] && DecodeInterior(crc, segments, |segments|).Success?
    ensures var r := RecordingDecoding(crc, segments);
      r.Success? && r.value.end == Clean && r.value.records == DecodeInterior(crc, segments, |segments|).value.records
  {
    hide SegmentDecoding;
  }

  lemma {:induction false} LastIsRecording(crc: Checksum, segments: seq<seq<byte>>, bytes: seq<byte>)
    requires |segments| < U32_MAX && DecodeInterior(crc, segments, |segments|).Success?
    requires var p := DecodeInterior(crc, segments, |segments|).value;
      var d := SegmentDecoding(crc, bytes, Some(ContinuityAt(|segments|, p))); d.Success? && d.value.0.end == Clean
    ensures var p := DecodeInterior(crc, segments, |segments|).value;
      var d := SegmentDecoding(crc, bytes, Some(ContinuityAt(|segments|, p)));
      var r := RecordingDecoding(crc, segments + [bytes]);
      r.Success? && r.value.end == Clean && r.value.records == p.records + d.value.0.records
  {
    hide SegmentDecoding, DecodeInterior;
    InteriorOfStart(crc, segments, segments + [bytes], |segments|);
  }

  /**
   What is before a failure is a recording of its own, written by one encoder chain, and the failure names its last
   record; where nothing is before it, it names none.
   */
  lemma {:induction false} BeforeAFailure(crc: Checksum, segments: seq<seq<byte>>)
    requires segments != [] && RecordingDecoding(crc, segments).Failure?
    ensures var e := RecordingDecoding(crc, segments).error;
      && Located(crc, segments, e)
      && var before := Before(segments, e);
         && (before == [] ==> e.lastValid == None)
         && (before != [] && |before| <= U32_MAX ==>
               exists t :: ValidTape(t) && before == TapeBytes(crc, t) && e.lastValid == LastOf(TapeRecords(t)))
  {
    hide AbsorbSegment, SegmentDecoding, DecodeInterior, ValidTape, TapeBytes, RecordingDecoding, TapeRecords;
    FailureIsLocated(crc, segments);
    var e := RecordingDecoding(crc, segments).error;
    var before := Before(segments, e);
    if before == [] {
      NothingBefore(crc, segments);
    } else if |before| <= U32_MAX {
      CutDecodes(crc, segments, e);
      var t := DecodedTape(crc, before);
      CleanTape(crc, before, t);
    }
  }

  lemma NothingBefore(crc: Checksum, segments: seq<seq<byte>>)
    ensures DecodeInterior(crc, segments, 0) == Success(NOTHING_DECODED)
  {
  }

  lemma {:induction false} CutDecodes(crc: Checksum, segments: seq<seq<byte>>, e: DecodeError)
    requires Located(crc, segments, e) && Before(segments, e) != [] && |Before(segments, e)| <= U32_MAX
    ensures var r := RecordingDecoding(crc, Before(segments, e));
      r.Success? && r.value.end == Clean && e.lastValid == LastOf(r.value.records)
  {
    hide SegmentDecoding, DecodeInterior, RecordingDecoding;
    var i := e.segment.value;
    var early := segments[..i];
    InteriorOfStart(crc, early, segments, i);
    if e.offset == 0 {
      assert Before(segments, e) == early;
      InteriorIsRecording(crc, early);
    } else {
      LastIsRecording(crc, early, segments[i][..e.offset]);
    }
  }
}
