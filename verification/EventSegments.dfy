/** Reading event segments: append-only files of newline-terminated records, read again and again as they grow. */
module EventSegments {
  import opened Wrappers
  import opened Bytes

  const NEWLINE: byte := 0x0A
  const RETURN: byte := 0x0D

  /** Orders events across writers: time, writer, then the writer's own sequence. */
  datatype MergeKey = MergeKey(ts: nat, writer: nat, seqNo: nat)

  datatype Event = Event(key: MergeKey, body: seq<byte>)

  /** What makes an event of a line. Everything proved about reading holds for every such function. */
  type LineParser = seq<byte> -> Option<Event>

  datatype SegmentRecord = SegmentRecord(event: Event, start: nat, end: nat)

  datatype ReadOutcome = ReadOutcome(records: seq<SegmentRecord>, skipped: nat, consumedTo: nat)

  /** The first newline at or after `from`. */
  function NewlineAt(s: seq<byte>, from: nat): (r: Option<nat>)
    requires from <= |s|
    ensures r.Some? ==> from <= r.value < |s| && s[r.value] == NEWLINE && forall i :: from <= i < r.value ==> s[i] != NEWLINE
    ensures r.None? ==> forall i :: from <= i < |s| ==> s[i] != NEWLINE
    decreases |s| - from
  {
    if from == |s| then None else if s[from] == NEWLINE then Some(from) else NewlineAt(s, from + 1)
  }

  function WithoutReturn(line: seq<byte>): seq<byte> {
    if line != [] && line[|line| - 1] == RETURN then line[..|line| - 1] else line
  }

  /** One complete line: an event, a line skipped as unreadable, or an empty line. */
  function LineOutcome(line: seq<byte>, start: nat, end: nat, parse: LineParser): ReadOutcome {
    var raw := WithoutReturn(line);
    if raw == [] then ReadOutcome([], 0, end)
    else
      match parse(raw)
      case Some(event) => ReadOutcome([SegmentRecord(event, start, end)], 0, end)
      case None => ReadOutcome([], 1, end)
  }

  /** What one read gives and then another that started where it ended. */
  function Joined(a: ReadOutcome, b: ReadOutcome): ReadOutcome {
    ReadOutcome(a.records + b.records, a.skipped + b.skipped, b.consumedTo)
  }

  /** All complete lines from `from`; an unterminated last line is left for later. */
  function ReadFrom(content: seq<byte>, from: nat, parse: LineParser): (r: ReadOutcome)
    ensures r.consumedTo >= from
    ensures forall i :: 0 <= i < |r.records| ==> from <= r.records[i].start < r.records[i].end <= r.consumedTo
    decreases |content| - from
  {
    if from > |content| then ReadOutcome([], 0, from)
    else
      match NewlineAt(content, from)
      case None => ReadOutcome([], 0, from)
      case Some(nl) =>
        Joined(LineOutcome(content[from..nl], from, nl + 1, parse), ReadFrom(content, nl + 1, parse))
  }

  /** One read of a file whose length may have passed `from`, or not reached it. */
  method ReadSegmentRecords(content: seq<byte>, from: nat, parse: LineParser) returns (outcome: ReadOutcome)
    ensures outcome == ReadFrom(content, from, parse)
  {
    hide LineOutcome, ReadFrom, NewlineAt;
    outcome := ReadOutcome([], 0, from);
    NothingFirst(ReadFrom(content, from, parse), from);
    if from > |content| {
      PastTheEnd(content, from, parse);
      return;
    }
    var buffer := content[from..];
    var lineStart: nat := 0;
    var next := NewlineAt(buffer, 0);
    while next.Some?
      invariant lineStart <= |buffer| && outcome.consumedTo == from + lineStart
      invariant next == NewlineAt(buffer, lineStart)
      invariant Joined(outcome, ReadFrom(content, from + lineStart, parse)) == ReadFrom(content, from, parse)
      decreases |buffer| - lineStart
    {
      var lineEnd := next.value;
      NewlineShift(content, from, lineStart);
      ReadStep(content, from + lineStart, parse);
      SamePart(content, from, lineStart, lineEnd);
      var line := LineOutcome(buffer[lineStart..lineEnd], from + lineStart, from + lineEnd + 1, parse);
      JoinedTwice(outcome, line, ReadFrom(content, from + lineEnd + 1, parse));
      OneLine(buffer[lineStart..lineEnd], from + lineStart, from + lineEnd + 1, parse);
      outcome := Joined(outcome, line);
      lineStart := lineEnd + 1;
      next := NewlineAt(buffer, lineStart);
    }
    NewlineShift(content, from, lineStart);
    ReadStep(content, from + lineStart, parse);
    assert outcome.records + [] == outcome.records;
  }

  lemma SamePart(content: seq<byte>, from: nat, start: nat, end: nat)
    requires from <= |content| && start <= end <= |content| - from
    ensures content[from..][start..end] == content[from + start..from + end]
  {
  }

  lemma {:induction false} NewlineShift(content: seq<byte>, from: nat, at: nat)
    requires from <= |content| && at <= |content| - from
    ensures var (a, b) := (NewlineAt(content[from..], at), NewlineAt(content, from + at));
      b == if a.Some? then Some(from + a.value) else None
    decreases |content| - from - at
  {
    if at < |content| - from && content[from + at] != NEWLINE {
      NewlineShift(content, from, at + 1);
    }
  }

  // ---------------------------------------------------------------- growing files

  lemma {:induction false} NewlineStays(content: seq<byte>, more: seq<byte>, from: nat)
    requires from <= |content| && NewlineAt(content, from).Some?
    ensures NewlineAt(content + more, from) == NewlineAt(content, from)
    decreases |content| - from
  {
    if content[from] != NEWLINE {
      NewlineStays(content, more, from + 1);
    }
  }

  /** Reading a file again from where the last read ended, after it grew, completes one read of the grown file. */
  lemma {:induction false} ReadAgain(content: seq<byte>, more: seq<byte>, from: nat, parse: LineParser)
    ensures var first := ReadFrom(content, from, parse);
      ReadFrom(content + more, from, parse) == Joined(first, ReadFrom(content + more, first.consumedTo, parse))
    decreases |content| - from
  {
    hide LineOutcome, ReadFrom, NewlineAt;
    var whole := content + more;
    if from > |content| {
      PastTheEnd(content, from, parse);
      NothingFirst(ReadFrom(whole, from, parse), from);
    } else {
      ReadStep(content, from, parse);
      match NewlineAt(content, from)
      case None => NothingFirst(ReadFrom(whole, from, parse), from);
      case Some(nl) =>
        NewlineStays(content, more, from);
        ReadStep(whole, from, parse);
        ReadAgain(content, more, nl + 1, parse);
        assert whole[from..nl] == content[from..nl];
        var rest := ReadFrom(content, nl + 1, parse);
        JoinedTwice(LineOutcome(content[from..nl], from, nl + 1, parse), rest, ReadFrom(whole, rest.consumedTo, parse));
    }
  }

  lemma JoinedTwice(a: ReadOutcome, b: ReadOutcome, c: ReadOutcome)
    ensures Joined(a, Joined(b, c)) == Joined(Joined(a, b), c)
  {
    assert a.records + (b.records + c.records) == (a.records + b.records) + c.records;
  }

  lemma NothingFirst(a: ReadOutcome, from: nat)
    ensures Joined(ReadOutcome([], 0, from), a) == a
  {
    assert [] + a.records == a.records;
  }

  /** A series of reads, each of the file as it is then, each starting where the one before ended. */
  function Polls(snapshots: seq<seq<byte>>, from: nat, parse: LineParser): ReadOutcome {
    if snapshots == [] then ReadOutcome([], 0, from)
    else
      var before := Polls(snapshots[..|snapshots| - 1], from, parse);
      Joined(before, ReadFrom(snapshots[|snapshots| - 1], before.consumedTo, parse))
  }

  predicate Grows(snapshots: seq<seq<byte>>) {
    forall i, j :: 0 <= i < j < |snapshots| ==> snapshots[i] <= snapshots[j]
  }

  /** Any number of reads of a growing file give what one read of the last state of it gives. */
  lemma {:induction false} PollsAreOneRead(snapshots: seq<seq<byte>>, from: nat, parse: LineParser)
    requires snapshots != [] && Grows(snapshots)
    ensures Polls(snapshots, from, parse) == ReadFrom(snapshots[|snapshots| - 1], from, parse)
  {
    var n := |snapshots| - 1;
    var last := snapshots[n];
    if n == 0 {
      NothingFirst(ReadFrom(last, from, parse), from);
    } else {
      var earlier := snapshots[n - 1];
      assert snapshots[..n][n - 1] == earlier;
      PollsAreOneRead(snapshots[..n], from, parse);
      assert earlier + last[|earlier|..] == last;
      ReadAgain(earlier, last[|earlier|..], from, parse);
    }
  }

  // ---------------------------------------------------------------- which lines are read

  /** A complete line starts at `start` and its newline ends before `end`, reading from `from`. */
  predicate IsLine(content: seq<byte>, from: nat, start: nat, end: nat) {
    && from <= start < end <= |content| && content[end - 1] == NEWLINE
    && (forall i :: start <= i < end - 1 ==> content[i] != NEWLINE)
    && (start == from || content[start - 1] == NEWLINE)
  }

  predicate IsRecord(content: seq<byte>, from: nat, r: SegmentRecord, parse: LineParser) {
    && IsLine(content, from, r.start, r.end)
    && var raw := WithoutReturn(content[r.start..r.end - 1]); raw != [] && parse(raw) == Some(r.event)
  }

  /** The one line before a newline gives at most one record. */
  lemma {:induction false} FirstLine(content: seq<byte>, from: nat, nl: nat, parse: LineParser, r: SegmentRecord)
    requires from <= |content| && NewlineAt(content, from) == Some(nl)
    ensures r in LineOutcome(content[from..nl], from, nl + 1, parse).records
            <==> r.start == from && r.end == nl + 1 && IsRecord(content, from, r, parse)
  {
    hide NewlineAt;
  }

  /** The records read are exactly the complete, readable lines, in file order, with their byte ranges. */
  lemma {:induction false} RecordsAreLines(content: seq<byte>, from: nat, parse: LineParser, r: SegmentRecord)
    requires from <= |content|
    ensures r in ReadFrom(content, from, parse).records <==> IsRecord(content, from, r, parse)
    decreases |content| - from
  {
    hide LineOutcome, WithoutReturn;
    match NewlineAt(content, from)
    case None =>
      NoLines(content, from, r.start, r.end);
    case Some(nl) =>
      hide IsLine;
      RecordsAreLines(content, nl + 1, parse, r);
      FirstLine(content, from, nl, parse, r);
      FirstOrLater(content, from, nl, r.start, r.end);
      InEither(LineOutcome(content[from..nl], from, nl + 1, parse).records, ReadFrom(content, nl + 1, parse).records, r);
  }

  lemma NoLines(content: seq<byte>, from: nat, start: nat, end: nat)
    requires from <= |content| && NewlineAt(content, from).None?
    ensures !IsLine(content, from, start, end)
  {
    hide NewlineAt;
  }

  lemma InEither<T>(a: seq<T>, b: seq<T>, x: T)
    ensures x in a + b <==> x in a || x in b
  {
  }

  lemma {:induction false} FirstOrLater(content: seq<byte>, from: nat, nl: nat, start: nat, end: nat)
    requires from <= |content| && NewlineAt(content, from) == Some(nl)
    ensures IsLine(content, from, start, end) <==> (start == from && end == nl + 1) || IsLine(content, nl + 1, start, end)
  {
    hide NewlineAt;
  }

  /** The bytes consumed end just past the last newline. */
  lemma {:induction false} ConsumedToLastNewline(content: seq<byte>, from: nat, parse: LineParser)
    requires from <= |content|
    ensures var to := ReadFrom(content, from, parse).consumedTo;
      && from <= to <= |content| && (to == from || content[to - 1] == NEWLINE)
      && forall i :: to <= i < |content| ==> content[i] != NEWLINE
    decreases |content| - from
  {
    hide ReadFrom, LineOutcome, NewlineAt;
    ReadStep(content, from, parse);
    if NewlineAt(content, from).Some? {
      ConsumedToLastNewline(content, NewlineAt(content, from).value + 1, parse);
    }
  }

  // ---------------------------------------------------------------- starting at a line

  /** One line, then the rest. */
  lemma {:induction false} ReadStep(content: seq<byte>, from: nat, parse: LineParser)
    requires from <= |content|
    ensures ReadFrom(content, from, parse) == match NewlineAt(content, from)
      case None => ReadOutcome([], 0, from)
      case Some(nl) => Joined(LineOutcome(content[from..nl], from, nl + 1, parse), ReadFrom(content, nl + 1, parse))
  {
  }

  /** Reading from a record's start, or from where a read ended, gives the records from there on. */
  lemma {:induction false} ReadFromRecord(content: seq<byte>, from: nat, parse: LineParser, k: nat)
    requires k <= |ReadFrom(content, from, parse).records|
    ensures var r := ReadFrom(content, from, parse);
      && (k < |r.records| ==> ReadFrom(content, r.records[k].start, parse).records == r.records[k..])
      && ReadFrom(content, r.consumedTo, parse).records == []
    decreases |content| - from
  {
    hide LineOutcome, ReadFrom;
    if from > |content| {
      PastTheEnd(content, from, parse);
    } else {
      ReadStep(content, from, parse);
      match NewlineAt(content, from)
      case None =>
      case Some(nl) =>
        var line := LineOutcome(content[from..nl], from, nl + 1, parse);
        var rest := ReadFrom(content, nl + 1, parse);
        OneLine(content[from..nl], from, nl + 1, parse);
        PastFirst(line.records, rest.records, k);
        ReadFromRecord(content, nl + 1, parse, if k < |line.records| then 0 else k - |line.records|);
    }
  }

  /** A record of the line read first is where reading began; a later one is among the rest. */
  lemma PastFirst<T>(first: seq<T>, rest: seq<T>, k: nat)
    requires |first| <= 1 && k <= |first + rest|
    ensures k >= |first| ==> (first + rest)[k..] == rest[k - |first|..]
    ensures k < |first| ==> (first + rest)[k] == first[0] && (first + rest)[k..] == first + rest
    ensures |first| <= k < |first + rest| ==> (first + rest)[k] == rest[k - |first|]
  {
  }

  lemma PastTheEnd(content: seq<byte>, from: nat, parse: LineParser)
    requires from > |content|
    ensures ReadFrom(content, from, parse) == ReadOutcome([], 0, from)
  {
  }

  lemma OneLine(line: seq<byte>, start: nat, end: nat, parse: LineParser)
    ensures var o := LineOutcome(line, start, end, parse);
      |o.records| <= 1 && (o.records != [] ==> o.records[0].start == start) && o.consumedTo == end
  {
  }

  /** Starts grow. */
  lemma {:induction false} StartsGrow(content: seq<byte>, from: nat, parse: LineParser, i: nat, j: nat)
    requires i < j < |ReadFrom(content, from, parse).records|
    ensures var rs := ReadFrom(content, from, parse).records; rs[i].end <= rs[j].start
    decreases |content| - from
  {
    hide LineOutcome, ReadFrom, NewlineAt;
    if from > |content| {
      PastTheEnd(content, from, parse);
    } else {
      ReadStep(content, from, parse);
      var nl := NewlineAt(content, from).value;
      var line := LineOutcome(content[from..nl], from, nl + 1, parse);
      OneLine(content[from..nl], from, nl + 1, parse);
      LineEnds(content[from..nl], from, nl + 1, parse);
      if i >= |line.records| {
        StartsGrow(content, nl + 1, parse, i - |line.records|, j - |line.records|);
      }
    }
  }

  lemma LineEnds(line: seq<byte>, start: nat, end: nat, parse: LineParser)
    ensures var o := LineOutcome(line, start, end, parse);
      forall i :: 0 <= i < |o.records| ==> o.records[i].end == end
  {
  }
}
