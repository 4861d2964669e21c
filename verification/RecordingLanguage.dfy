/**
 A list of segments decodes exactly when it is a chain of encoders, each started by `NextSegment` from
 the one before, with only the last segment possibly empty or cut short; and what such a chain holds.
 */
module RecordingLanguage {
  import opened Wrappers
  import opened Bytes
  import opened Recording
  import opened Decoder
  import opened SegmentLanguage

  /** Everything a recording's encoders were asked to write: closed segments, then the open one. */
  datatype Tape = Tape(header: SegmentHeader, closed: seq<seq<Record>>, open: seq<Record>)

  /** The encoder that starts the segment after `closed`, if every record was accepted and every rotation allowed. */
  function SegmentStart(h: SegmentHeader, closed: seq<seq<Record>>): Option<EncoderState> {
    if closed == [] then
      if NewEncoder(h).Success? then Some(NewEncoder(h).value) else None
    else
      var n := |closed| - 1;
      var st := SegmentStart(h, closed[..n]);
      if st.Some? && AcceptsAll(st.value, closed[n]) && NextSegment(AdvanceAll(st.value, closed[n])).Success? then
        Some(NextSegment(AdvanceAll(st.value, closed[n])).value)
      else
        None
  }

  predicate ValidTape(t: Tape) {
    && t.header.segmentIndex == 0
    && SegmentStart(t.header, t.closed).Some?
    && AcceptsAll(SegmentStart(t.header, t.closed).value, t.open)
  }

  function TapeStart(t: Tape): EncoderState
    requires ValidTape(t)
  {
    SegmentStart(t.header, t.closed).value
  }

  /** The encoder after everything on the tape. */
  function TapeEnd(t: Tape): EncoderState
    requires ValidTape(t)
  {
    AdvanceAll(TapeStart(t), t.open)
  }

  function Flatten(parts: seq<seq<Record>>): seq<Record> {
    if parts == [] then [] else Flatten(parts[..|parts| - 1]) + parts[|parts| - 1]
  }

  function TapeRecords(t: Tape): seq<Record> {
    Flatten(t.closed) + t.open
  }

  function ClosedBytes(crc: Checksum, h: SegmentHeader, closed: seq<seq<Record>>): (s: seq<seq<byte>>)
    requires SegmentStart(h, closed).Some?
    ensures |s| == |closed|
  {
    if closed == [] then []
    else
      var n := |closed| - 1;
      var st := SegmentStart(h, closed[..n]).value;
      AcceptedFit(st, closed[n]);
      ClosedBytes(crc, h, closed[..n]) + [SegmentBytes(crc, st.header, closed[n])]
  }

  function OpenBytes(crc: Checksum, t: Tape): seq<byte>
    requires ValidTape(t)
  {
    AcceptedFit(TapeStart(t), t.open);
    SegmentBytes(crc, TapeStart(t).header, t.open)
  }

  function TapeBytes(crc: Checksum, t: Tape): seq<seq<byte>>
    requires ValidTape(t)
  {
    ClosedBytes(crc, t.header, t.closed) + [OpenBytes(crc, t)]
  }

  /** `segments` is the tape as its encoders wrote it, with at most one incomplete record at the very end. */
  predicate Holding(crc: Checksum, segments: seq<seq<byte>>, t: Tape, end: SegmentEnd) {
    && ValidTape(t)
    && |segments| == |t.closed| + 1 <= U32_MAX
    && segments[..|t.closed|] == ClosedBytes(crc, t.header, t.closed)
    && OpenBytes(crc, t) <= segments[|t.closed|]
    && IncompleteTail(segments[|t.closed|][|OpenBytes(crc, t)|..])
    && end == EndAt(segments[|t.closed|], |OpenBytes(crc, t)|)
  }

  // ---------------------------------------------------------------- one encoder after another

  lemma {:induction false} StartShape(h: SegmentHeader, closed: seq<seq<Record>>)
    requires h.segmentIndex == 0 && SegmentStart(h, closed).Some?
    ensures var st := SegmentStart(h, closed).value;
            && |closed| <= U32_MAX
            && st.header == h.(segmentIndex := |closed|, firstSequence := st.header.firstSequence, geometry := st.header.geometry)
            && st == StartState(st.header, st.lastElapsedNs)
            && (closed == [] ==> st.header == h && st.lastElapsedNs.None?)
            && NewEncoder(st.header).Success?
  {
    if closed != [] {
      var n := |closed| - 1;
      StartShape(h, closed[..n]);
      AdvanceAllEffect(SegmentStart(h, closed[..n]).value, closed[n]);
    }
  }

  function Rotated(t: Tape): Tape {
    Tape(t.header, t.closed + [t.open], [])
  }

  lemma RotatedTape(crc: Checksum, t: Tape)
    requires ValidTape(t)
    ensures ValidTape(Rotated(t)) <==> NextSegment(TapeEnd(t)).Success?
    ensures ValidTape(Rotated(t)) ==>
              && TapeEnd(Rotated(t)) == NextSegment(TapeEnd(t)).value
              && TapeRecords(Rotated(t)) == TapeRecords(t)
              && TapeBytes(crc, Rotated(t)) == TapeBytes(crc, t) + [HeaderBytes(crc, TapeEnd(Rotated(t)).header)]
  {
    hide NextSegment, HeaderBytes;
    var closed := t.closed + [t.open];
    assert closed[..|t.closed|] == t.closed;
    assert AcceptsAll(SegmentStart(t.header, t.closed).value, []);
    if ValidTape(Rotated(t)) {
      var next := TapeEnd(Rotated(t));
      assert HeaderBytes(crc, next.header) + RecordsBytes(crc, []) == HeaderBytes(crc, next.header);
    }
  }

  lemma LongerTape(crc: Checksum, t: Tape, r: Record)
    requires ValidTape(t)
    ensures var more := t.(open := t.open + [r]);
            && (ValidTape(more) <==> Accepts(TapeEnd(t), r))
            && (ValidTape(more) ==>
                  && PayloadFits(r.kind)
                  && TapeEnd(more) == Advance(TapeEnd(t), r)
                  && TapeRecords(more) == TapeRecords(t) + [r]
                  && OpenBytes(crc, more) == OpenBytes(crc, t) + RecordBytes(crc, r))
  {
    hide RecordBytes, HeaderBytes;
    var st := TapeStart(t);
    AcceptOneMore(st, t.open, r);
    if Accepts(TapeEnd(t), r) {
      AcceptedFit(st, t.open);
      RecordsBytesOneMore(crc, t.open, r);
    }
  }

  // ---------------------------------------------------------------- decoding one more segment

  /** What decoding has gathered once it has read the whole of `t`. */
  predicate Gathered(p: Progress, t: Tape) {
    && ValidTape(t)
    && p.first == Some(t.header)
    && p.records == TapeRecords(t)
    && p.previous.Some?
    && Mirrors(TapeEnd(t), TapeStart(t).header, TapeStart(t).lastElapsedNs, p.previous.value)
    && (p.previous.value.lastElapsedNs.None? <==> t.open == [])
  }

  /** What decoding has gathered after the closed segments alone. */
  predicate GatheredClosed(p: Progress, h: SegmentHeader, closed: seq<seq<Record>>) {
    if closed == [] then
      p == NOTHING_DECODED
    else
      var n := |closed| - 1;
      closed[n] != [] && Gathered(p, Tape(h, closed[..n], closed[n]))
  }

  /** The header the decoder insists on next is the one `NextSegment` would write. */
  lemma ContinuityIsRotation(p: Progress, h: SegmentHeader, closed: seq<seq<Record>>, next: SegmentHeader)
    requires GatheredClosed(p, h, closed) && closed != [] && |closed| <= U32_MAX
    ensures HeaderContinuity(next, ContinuityAt(|closed|, p)).None? <==>
              SegmentStart(h, closed).Some? && SegmentStart(h, closed).value.header == next
    ensures SegmentStart(h, closed).Some? ==>
              SegmentStart(h, closed).value.lastElapsedNs == Floor(Some(ContinuityAt(|closed|, p)))
  {
    var n := |closed| - 1;
    var t := Tape(h, closed[..n], closed[n]);
    StartShape(h, closed[..n]);
    AdvanceAllEffect(TapeStart(t), t.open);
  }

  lemma WrittenAsTape(crc: Checksum, bytes: seq<byte>, c: Continuity, st: EncoderState, rs: seq<Record>, end: SegmentEnd)
    requires NewEncoder(st.header).Success? && HeaderContinuity(st.header, c).None?
    requires st == StartState(st.header, Floor(Some(c)))
    ensures Written(crc, bytes, Some(c), st.header, rs, end) <==>
              && AcceptsAll(st, rs)
              && AllFit(rs)
              && SegmentBytes(crc, st.header, rs) <= bytes
              && IncompleteTail(bytes[|SegmentBytes(crc, st.header, rs)|..])
              && end == EndAt(bytes, |SegmentBytes(crc, st.header, rs)|)
  {
    hide HeaderBytes, RecordsBytes, IncompleteTail, AcceptsAll, HeaderContinuity;
    if AllFit(rs) {
      var head, body := HeaderBytes(crc, st.header), RecordsBytes(crc, rs);
      if head <= bytes && body <= bytes[|head|..] {
        assert bytes == head + (body + bytes[|head| + |body|..]);
        assert head + body <= bytes;
      }
      if head + body <= bytes {
        assert bytes[|head|..][..|body|] == body;
      }
    }
  }

  lemma AbsorbWritten(crc: Checksum, segments: seq<seq<byte>>, p: Progress, t: Tape, end: SegmentEnd, final: bool)
    requires GatheredClosed(p, t.header, t.closed)
    requires Holding(crc, segments, t, end)
    requires final || (t.open != [] && end.Clean?)
    ensures var a := AbsorbSegment(crc, segments[|t.closed|], |t.closed|, p, final);
            a.Success? && Gathered(a.value, t) && a.value.end == end
  {
    hide SegmentDecoding, IncompleteTail, SegmentBytes, HeaderContinuity;
    var st := TapeStart(t);
    var c := ContinuityAt(|t.closed|, p);
    StartShape(t.header, t.closed);
    AcceptedFit(st, t.open);
    FirstContinuity(st.header, p);
    if t.closed != [] {
      ContinuityIsRotation(p, t.header, t.closed, st.header);
    }
    WrittenAsTape(crc, segments[|t.closed|], c, st, t.open, end);
    SegmentDecodes(crc, segments[|t.closed|], Some(c), st.header, t.open, end);
    AdvanceAllEffect(st, t.open);
  }

  lemma FirstContinuity(h: SegmentHeader, p: Progress)
    ensures p == NOTHING_DECODED ==> (HeaderContinuity(h, ContinuityAt(0, p)).None? <==> h.segmentIndex == 0)
  {
  }

  lemma AbsorbedTape(crc: Checksum, segments: seq<seq<byte>>, p: Progress, h: SegmentHeader, closed: seq<seq<Record>>,
                     final: bool) returns (t: Tape)
    requires GatheredClosed(p, h, closed)
    requires |segments| == |closed| + 1
    requires |closed| <= U32_MAX && AbsorbSegment(crc, segments[|closed|], |closed|, p, final).Success?
    requires closed != [] ==> SegmentStart(h, closed).Some? ==> segments[..|closed|] == ClosedBytes(crc, h, closed)
    ensures t.closed == closed && (closed != [] ==> t.header == h)
    ensures var a := AbsorbSegment(crc, segments[|closed|], |closed|, p, final).value;
            && Holding(crc, segments, t, a.end)
            && Gathered(a, t)
            && (final || (t.open != [] && a.end.Clean?))
  {
    hide SegmentDecoding, IncompleteTail, SegmentBytes, HeaderContinuity, HeaderBytes, RecordsBytes, AdvanceAll;
    var bytes := segments[|closed|];
    var c := ContinuityAt(|closed|, p);
    var d := SegmentDecoding(crc, bytes, Some(c)).value.0;
    SegmentDecodes(crc, bytes, Some(c), d.header, d.records, d.end);
    FirstContinuity(d.header, p);
    if closed == [] {
      t := Tape(d.header, [], d.records);
    } else {
      ContinuityIsRotation(p, h, closed, d.header);
      t := Tape(h, closed, d.records);
    }
    StartShape(t.header, closed);
    var st := SegmentStart(t.header, closed).value;
    WrittenAsTape(crc, bytes, c, st, d.records, d.end);
    AdvanceAllEffect(st, t.open);
    assert segments[..0] == [];
  }

  // ---------------------------------------------------------------- the whole recording

  /** The interior tape: all of `closed`, the last of them read as if still open. */
  function Reopened(h: SegmentHeader, closed: seq<seq<Record>>): Tape
    requires closed != []
  {
    Tape(h, closed[..|closed| - 1], closed[|closed| - 1])
  }

  lemma ReopenedTape(h: SegmentHeader, closed: seq<seq<Record>>)
    requires closed != [] && SegmentStart(h, closed).Some? && h.segmentIndex == 0
    ensures ValidTape(Reopened(h, closed)) && closed[|closed| - 1] != [] && |closed| <= U32_MAX
  {
    var t := Reopened(h, closed);
    AdvanceAllEffect(TapeStart(t), t.open);
    StartShape(h, closed);
  }

  lemma ReopenedBytes(crc: Checksum, segments: seq<seq<byte>>, h: SegmentHeader, closed: seq<seq<Record>>)
    requires closed != [] && SegmentStart(h, closed).Some? && h.segmentIndex == 0
    ensures closed[|closed| - 1] != []
    ensures segments == ClosedBytes(crc, h, closed) <==> Holding(crc, segments, Reopened(h, closed), Clean)
  {
    hide SegmentBytes, IncompleteTail, SegmentStart, AcceptsAll;
    var n := |closed| - 1;
    var t := Reopened(h, closed);
    ReopenedTape(h, closed);
    EmptyTail();
    var whole := ClosedBytes(crc, h, closed);
    ClosedBytesSplit(crc, h, closed);
    if segments == whole {
      assert segments[n][|OpenBytes(crc, t)|..] == [];
    }
    if Holding(crc, segments, t, Clean) {
      assert segments[n] == whole[n];
      assert segments == segments[..n] + [segments[n]];
    }
  }

  lemma ClosedBytesSplit(crc: Checksum, h: SegmentHeader, closed: seq<seq<Record>>)
    requires closed != [] && SegmentStart(h, closed).Some? && h.segmentIndex == 0
    ensures var n := |closed| - 1;
            && ValidTape(Reopened(h, closed))
            && ClosedBytes(crc, h, closed)[..n] == ClosedBytes(crc, h, closed[..n])
            && ClosedBytes(crc, h, closed)[n] == OpenBytes(crc, Reopened(h, closed))
  {
    hide SegmentBytes, AcceptsAll;
    ReopenedTape(h, closed);
  }

  lemma EmptyTail()
    ensures IncompleteTail([])
  {
  }

  lemma {:induction false} InteriorDecodes(crc: Checksum, segments: seq<seq<byte>>, h: SegmentHeader, closed: seq<seq<Record>>)
    requires h.segmentIndex == 0 && SegmentStart(h, closed).Some?
    requires |closed| <= |segments| && segments[..|closed|] == ClosedBytes(crc, h, closed)
    ensures var p := DecodeInterior(crc, segments, |closed|);
            p.Success? && GatheredClosed(p.value, h, closed)
    decreases |closed|
  {
    hide AbsorbSegment, IncompleteTail, SegmentBytes, Gathered;
    if closed != [] {
      var n := |closed| - 1;
      var interior := segments[..|closed|];
      assert interior[..n] == segments[..n] && interior[..n] == ClosedBytes(crc, h, closed[..n]);
      InteriorDecodes(crc, segments, h, closed[..n]);
      ReopenedBytes(crc, interior, h, closed);
      AbsorbWritten(crc, interior, DecodeInterior(crc, segments, n).value, Reopened(h, closed), Clean, false);
    }
  }

  lemma {:induction false} InteriorTape(crc: Checksum, segments: seq<seq<byte>>, n: nat)
      returns (h: SegmentHeader, closed: seq<seq<Record>>)
    requires n <= |segments| && DecodeInterior(crc, segments, n).Success?
    ensures |closed| == n
    ensures GatheredClosed(DecodeInterior(crc, segments, n).value, h, closed)
    ensures n > 0 ==> Holding(crc, segments[..n], Reopened(h, closed), Clean)
    decreases n
  {
    hide AbsorbSegment, IncompleteTail, SegmentBytes, Gathered;
    if n == 0 {
      closed := [];
      h := *;
    } else {
      h, closed := InteriorTape(crc, segments, n - 1);
      var interior := segments[..n];
      assert interior[..n - 1] == segments[..n - 1];
      var p := DecodeInterior(crc, segments, n - 1).value;
      ClosedIfStarted(crc, interior[..n - 1], h, closed);
      var t := AbsorbedTape(crc, interior, p, h, closed, false);
      h := t.header;
      closed := closed + [t.open];
      assert closed[..n - 1] == t.closed;
    }
  }

  lemma ClosedIfStarted(crc: Checksum, segments: seq<seq<byte>>, h: SegmentHeader, closed: seq<seq<Record>>)
    requires closed != [] ==> Holding(crc, segments, Reopened(h, closed), Clean)
    ensures closed != [] && SegmentStart(h, closed).Some? ==> segments == ClosedBytes(crc, h, closed)
  {
    if closed != [] && SegmentStart(h, closed).Some? {
      ReopenedBytes(crc, segments, h, closed);
    }
  }

  /** Whatever a chain of encoders wrote, cut short or not within its last record, decodes to exactly that. */
  lemma TapeDecodes(crc: Checksum, segments: seq<seq<byte>>, t: Tape, end: SegmentEnd)
    requires Holding(crc, segments, t, end)
    ensures RecordingDecoding(crc, segments)
              == Success(DecodedRecording(t.header, |segments|, TapeRecords(t), end))
  {
    hide AbsorbSegment, IncompleteTail, SegmentBytes;
    InteriorDecodes(crc, segments, t.header, t.closed);
    AbsorbWritten(crc, segments, DecodeInterior(crc, segments, |t.closed|).value, t, end, true);
  }

  /** Whatever decodes was written by a chain of encoders. */
  lemma DecodedTape(crc: Checksum, segments: seq<seq<byte>>) returns (t: Tape)
    requires RecordingDecoding(crc, segments).Success?
    ensures var d := RecordingDecoding(crc, segments).value;
            && Holding(crc, segments, t, d.end)
            && d == DecodedRecording(t.header, |segments|, TapeRecords(t), d.end)
  {
    hide AbsorbSegment, IncompleteTail, SegmentBytes;
    var last := |segments| - 1;
    var h, closed := InteriorTape(crc, segments, last);
    ClosedIfStarted(crc, segments[..last], h, closed);
    t := AbsorbedTape(crc, segments, DecodeInterior(crc, segments, last).value, h, closed, true);
  }

  lemma CleanTape(crc: Checksum, segments: seq<seq<byte>>, t: Tape)
    ensures |segments| <= U32_MAX && ValidTape(t) ==>
              (Holding(crc, segments, t, Clean) <==> segments == TapeBytes(crc, t))
    ensures Holding(crc, segments, t, Clean) ==> ValidTape(t)
  {
    hide IncompleteTail, SegmentBytes, ClosedBytes, SegmentStart, AcceptsAll;
    EmptyTail();
    if ValidTape(t) && segments == TapeBytes(crc, t) {
      assert segments[..|t.closed|] == ClosedBytes(crc, t.header, t.closed);
      assert segments[|t.closed|][|OpenBytes(crc, t)|..] == [];
    }
    if Holding(crc, segments, t, Clean) {
      assert segments[|t.closed|] == OpenBytes(crc, t);
      assert segments == segments[..|t.closed|] + [segments[|t.closed|]];
    }
  }

  /**
   * Fewer than 2^32 segments decode cleanly to a recording exactly when they are what one chain of encoders
   * wrote: started by the first header, each later one by `NextSegment`, so none but the last can be empty.
   */
  lemma RecordingsAreEncoderChains(crc: Checksum, segments: seq<seq<byte>>, h: SegmentHeader, rs: seq<Record>)
    requires |segments| <= U32_MAX
    ensures RecordingDecoding(crc, segments) == Success(DecodedRecording(h, |segments|, rs, Clean)) <==>
              exists t: Tape :: ValidTape(t) && t.header == h && TapeRecords(t) == rs && TapeBytes(crc, t) == segments
  {
    hide IncompleteTail, SegmentBytes, ClosedBytes, Holding, TapeBytes, RecordingDecoding, ValidTape, TapeRecords;
    if RecordingDecoding(crc, segments) == Success(DecodedRecording(h, |segments|, rs, Clean)) {
      var t := DecodedTape(crc, segments);
      CleanTape(crc, segments, t);
    }
    if t: Tape :| ValidTape(t) && t.header == h && TapeRecords(t) == rs && TapeBytes(crc, t) == segments {
      CleanTape(crc, segments, t);
      TapeDecodes(crc, segments, t, Clean);
    }
  }

  // ---------------------------------------------------------------- what a recording holds

  predicate Numbered(rs: seq<Record>) {
    forall i :: 0 <= i < |rs| ==> rs[i].sequence == i + 1
  }

  predicate TimeOrdered(rs: seq<Record>) {
    forall i, j :: 0 <= i < j < |rs| ==> rs[i].elapsedNs <= rs[j].elapsedNs
  }

  /** The geometry in effect after `rs`, having started at `g`. */
  function GeometryAfter(g: Geometry, rs: seq<Record>): Geometry {
    if rs == [] then g
    else
      var r := rs[|rs| - 1];
      if r.kind.Resize? then r.kind.geometry else GeometryAfter(g, rs[..|rs| - 1])
  }

  /** An encoder standing after `rs`, the first records of a run that started at geometry `g`. */
  predicate Continues(st: EncoderState, g: Geometry, rs: seq<Record>) {
    && Numbered(rs)
    && TimeOrdered(rs)
    && st.geometry == GeometryAfter(g, rs)
    && st.nextSequence == (if |rs| < U64_MAX then Some(|rs| + 1) else None)
    && st.lastElapsedNs == (if rs == [] then None else Some(rs[|rs| - 1].elapsedNs))
  }

  lemma {:induction false} AcceptedContinue(st: EncoderState, g: Geometry, done: seq<Record>, rs: seq<Record>)
    requires Continues(st, g, done) && AcceptsAll(st, rs)
    ensures Continues(AdvanceAll(st, rs), g, done + rs)
    decreases |rs|
  {
    if rs == [] {
      assert done + rs == done;
    } else {
      var more := done + [rs[0]];
      assert more[..|done|] == done;
      assert Continues(Advance(st, rs[0]), g, more);
      AcceptedContinue(Advance(st, rs[0]), g, more, rs[1..]);
      assert more + rs[1..] == done + rs;
    }
  }

  lemma {:induction false} StartContinues(h: SegmentHeader, closed: seq<seq<Record>>)
    requires h.segmentIndex == 0 && SegmentStart(h, closed).Some?
    ensures Continues(SegmentStart(h, closed).value, h.geometry, Flatten(closed))
  {
    if closed != [] {
      var n := |closed| - 1;
      StartContinues(h, closed[..n]);
      AcceptedContinue(SegmentStart(h, closed[..n]).value, h.geometry, Flatten(closed[..n]), closed[n]);
    }
  }

  lemma TapeContinues(t: Tape)
    requires ValidTape(t)
    ensures Continues(TapeEnd(t), t.header.geometry, TapeRecords(t))
  {
    StartContinues(t.header, t.closed);
    AcceptedContinue(TapeStart(t), t.header.geometry, Flatten(t.closed), t.open);
  }

  lemma {:induction false} EarlierSegment(crc: Checksum, h: SegmentHeader, closed: seq<seq<Record>>, i: nat)
    requires i < |closed| && SegmentStart(h, closed).Some?
    ensures SegmentStart(h, closed[..i]).Some?
    ensures var head := HeaderBytes(crc, SegmentStart(h, closed[..i]).value.header);
            head <= ClosedBytes(crc, h, closed)[i]
    ensures Flatten(closed[..i]) <= Flatten(closed)
  {
    hide HeaderBytes;
    var n := |closed| - 1;
    if i == n {
      var st := SegmentStart(h, closed[..n]).value;
      AcceptedFit(st, closed[n]);
      assert ClosedBytes(crc, h, closed)[n] == SegmentBytes(crc, st.header, closed[n]);
    } else {
      EarlierSegment(crc, h, closed[..n], i);
      assert closed[..n][..i] == closed[..i];
    }
  }

  /**
   * Every recording that decodes, cut short at its end or not, holds records numbered from one without a gap
   * and in time order; segment `i` carries index `i` and starts in the geometry all earlier resizes left.
   */
  lemma DecodedRecordingsAreContinuous(crc: Checksum, segments: seq<seq<byte>>)
    requires RecordingDecoding(crc, segments).Success?
    ensures var d := RecordingDecoding(crc, segments).value;
            && Numbered(d.records)
            && TimeOrdered(d.records)
            && forall i :: 0 <= i < |segments| ==> SegmentInPlace(crc, segments[i], i, d)
  {
    hide IncompleteTail, SegmentBytes, RecordingDecoding, HeaderBytes, DecodeHeader;
    var d := RecordingDecoding(crc, segments).value;
    var t := DecodedTape(crc, segments);
    TapeContinues(t);
    forall i | 0 <= i < |segments|
      ensures SegmentInPlace(crc, segments[i], i, d)
    {
      TapeSegmentInPlace(crc, segments, t, d.end, i);
    }
  }

  /** Segment `i`'s header names its place, and its geometry is the one its earlier records left in effect. */
  predicate SegmentInPlace(crc: Checksum, bytes: seq<byte>, i: nat, d: DecodedRecording) {
    var header := DecodeHeader(crc, bytes);
    && header.Success?
    && header.value.0.segmentIndex == i
    && header.value.0.runId == d.header.runId
    && header.value.0.firstSequence - 1 <= |d.records|
    && header.value.0.geometry == GeometryAfter(d.header.geometry, d.records[..header.value.0.firstSequence - 1])
  }

  lemma TapeHead(crc: Checksum, segments: seq<seq<byte>>, t: Tape, end: SegmentEnd, i: nat)
    requires Holding(crc, segments, t, end) && i < |segments|
    ensures SegmentStart(t.header, t.closed[..i]).Some?
    ensures HeaderBytes(crc, SegmentStart(t.header, t.closed[..i]).value.header) <= segments[i]
    ensures Flatten(t.closed[..i]) <= TapeRecords(t)
  {
    hide IncompleteTail, HeaderBytes, AcceptsAll;
    if i == |t.closed| {
      assert t.closed[..i] == t.closed;
      var head := HeaderBytes(crc, TapeStart(t).header);
      assert head <= OpenBytes(crc, t) <= segments[i];
    } else {
      EarlierSegment(crc, t.header, t.closed, i);
      assert segments[i] == segments[..|t.closed|][i];
    }
  }

  lemma TapeSegmentInPlace(crc: Checksum, segments: seq<seq<byte>>, t: Tape, end: SegmentEnd, i: nat)
    requires Holding(crc, segments, t, end) && i < |segments|
    ensures SegmentInPlace(crc, segments[i], i, DecodedRecording(t.header, |segments|, TapeRecords(t), end))
  {
    hide IncompleteTail, HeaderBytes, DecodeHeader, SegmentStart, AcceptsAll, ClosedBytes, OpenBytes;
    TapeHead(crc, segments, t, end, i);
    var st := SegmentStart(t.header, t.closed[..i]).value;
    StartShape(t.header, t.closed[..i]);
    StartContinues(t.header, t.closed[..i]);
    HeaderBytesLen(crc, st.header);
    HeaderDecodes(crc, segments[i], st.header, HEADER_MIN_LEN + |st.header.term|);
    var before := Flatten(t.closed[..i]);
    assert TapeRecords(t)[..|before|] == before;
  }
}
