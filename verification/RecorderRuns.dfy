/** A run of the recorder in which a segment cannot be cut back, and what it leaves behind. */
module RecorderRuns {
  import opened Wrappers
  import opened Bytes
  import opened Recording
  import opened Decoder
  import opened RecordingLanguage
  import opened Recorder
  import opened RecorderInvariant

  /** A run and the state it led to. */
  datatype Course = Course(states: seq<System>, events: seq<Event>)

  predicate Leads(cfg: Config, c: Course, s: System) {
    Run(cfg, c.states, c.events) && c.states[|c.events|] == s
  }

  lemma Onward(cfg: Config, c: Course, s: System, e: Event) returns (longer: Course)
    requires Leads(cfg, c, s) && Enabled(cfg, s, e)
    ensures Leads(cfg, longer, Next(cfg, s, e))
  {
    hide Enabled, Next, Initial;
    longer := Course(c.states + [Next(cfg, s, e)], c.events + [e]);
  }

  lemma AtStart(cfg: Config) returns (c: Course)
    ensures Leads(cfg, c, Initial(cfg))
  {
    hide Initial;
    c := Course([Initial(cfg)], []);
  }

  /** The first record of a run that offers `kind`. */
  function FirstRecord(elapsedNs: u64, kind: RecordKind): Record {
    Record(FIRST_SEQUENCE, elapsedNs, kind)
  }

  /** The limits leave room for the first segment's header and one record. */
  predicate RoomForOne(cfg: Config, r: Record) {
    && Configured(cfg) && NewEncoder(cfg.header).Success? && Offerable(r.kind)
    && Cost(r) <= cfg.limits.backlogBytes
    && |HeaderBytes(cfg.crc, cfg.header)| + |RecordBytes(cfg.crc, r)| <= cfg.limits.maxBytes
  }

  /** A record taken from the backlog, its bytes about to be written to the first segment. */
  lemma {:induction false} FirstWriting(cfg: Config, elapsedNs: u64, kind: RecordKind) returns (c: Course, s: System)
    requires RoomForOne(cfg, FirstRecord(elapsedNs, kind))
    ensures Leads(cfg, c, s) && s.shared.stopped.None? && s.shared.appended.None? && !s.shared.writerDone
    ensures var r := FirstRecord(elapsedNs, kind);
      && s.writer.pc == Writing(r, RecordBytes(cfg.crc, r), 0) && s.store == [HeaderBytes(cfg.crc, cfg.header)]
      && s.writer.segmentLen == |HeaderBytes(cfg.crc, cfg.header)|
  {
    hide Leads, HeaderBytes, RecordBytes;
    var r := FirstRecord(elapsedNs, kind);
    c := AtStart(cfg);
    var s0 := Initial(cfg);
    c := Onward(cfg, c, s0, Offer(elapsedNs, kind));
    var s1 := Next(cfg, s0, Offer(elapsedNs, kind));
    assert s1.shared.backlog == [r];
    c := Onward(cfg, c, s1, Start(Done));
    var s2 := Next(cfg, s1, Start(Done));
    assert s2.store == [HeaderBytes(cfg.crc, cfg.header)];
    c := Onward(cfg, c, s2, Take(false));
    var s3 := Next(cfg, s2, Take(false));
    c := Onward(cfg, c, s3, Prepare);
    s := Next(cfg, s3, Prepare);
  }

  /** The record wholly written when the close gives up on the writer. */
  lemma {:induction false} WrittenThenStopped(cfg: Config, c: Course, s: System, r: Record) returns (longer: Course, t: System)
    requires Leads(cfg, c, s) && s.shared.stopped.None? && s.shared.appended.None? && !s.shared.writerDone
    requires PayloadFits(r.kind) && s.writer.pc == Writing(r, RecordBytes(cfg.crc, r), 0) && |s.store| == 1
    ensures Leads(cfg, longer, t) && t.writer.pc == Settling(r, s.writer.segmentLen, true, None)
    ensures t.shared.stopped == Some(Stopped(None, Stalled)) && t.store == [s.store[0] + RecordBytes(cfg.crc, r)]
  {
    hide Leads, RecordBytes;
    var bytes := RecordBytes(cfg.crc, r);
    SomeBytes(cfg.crc, r);
    longer := Onward(cfg, c, s, Write(|bytes|));
    var s1 := Next(cfg, s, Write(|bytes|));
    assert bytes[0..|bytes|] == bytes;
    assert s1.store == [s.store[0] + bytes];
    longer := Onward(cfg, longer, s1, Close);
    var s2 := Next(cfg, s1, Close);
    longer := Onward(cfg, longer, s2, CloseTimeout);
    t := Next(cfg, s2, CloseTimeout);
  }

  /** It is beyond the stop, and is not cut off. */
  lemma {:induction false} NotCutOff(cfg: Config, c: Course, s: System, error: int) returns (longer: Course, t: System)
    requires Leads(cfg, c, s) && s.shared.stopped.Some? && |s.store| == 1
    requires s.writer.pc.Settling? && s.writer.pc.attempted && s.writer.pc.before <= |s.store[0]|
    ensures Leads(cfg, longer, t) && t.shared.writerDone && t.ledger.cutFailed
    ensures t.shared.stopped == s.shared.stopped && t.store == s.store
  {
    hide Leads, Stop;
    longer := Onward(cfg, c, s, Settle(false));
    var s1 := Next(cfg, s, Settle(false));
    longer := Onward(cfg, longer, s1, Cut(Failed(error, false)));
    var s2 := Next(cfg, s1, Cut(Failed(error, false)));
    longer, t := Exits(cfg, longer, s2);
  }

  lemma {:induction false} Exits(cfg: Config, c: Course, s: System) returns (longer: Course, t: System)
    requires Leads(cfg, c, s) && s.writer.pc.FinalSync?
    ensures Leads(cfg, longer, t) && t.shared.writerDone
    ensures t.shared.stopped == s.shared.stopped && t.store == s.store && t.ledger == s.ledger
  {
    hide Leads, Stop;
    longer := Onward(cfg, c, s, SyncAtEnd(Done));
    var s1 := Next(cfg, s, SyncAtEnd(Done));
    longer := Onward(cfg, longer, s1, Exit);
    t := Next(cfg, s1, Exit);
  }

  lemma SomeBytes(crc: Checksum, r: Record)
    requires PayloadFits(r.kind)
    ensures |RecordBytes(crc, r)| >= 1
  {
  }

  lemma OneRecordDecodes(cfg: Config, r: Record)
    requires RoomForOne(cfg, r) && r.sequence == FIRST_SEQUENCE
    ensures RecordingDecoding(cfg.crc, [HeaderBytes(cfg.crc, cfg.header) + RecordBytes(cfg.crc, r)])
            == Success(DecodedRecording(cfg.header, 1, [r], Clean))
  {
    hide HeaderBytes, RecordBytes, OpenBytes, RecordingDecoding, ValidTape, Holding;
    var none, one := Tape(cfg.header, [], []), Tape(cfg.header, [], [r]);
    FirstSegment(cfg);
    assert none.(open := none.open + [r]) == one;
    LongerTape(cfg.crc, none, r);
    var store := [HeaderBytes(cfg.crc, cfg.header) + RecordBytes(cfg.crc, r)];
    assert store == TapeBytes(cfg.crc, one);
    CleanTape(cfg.crc, store, one);
    TapeDecodes(cfg.crc, store, one, Clean);
    assert TapeRecords(one) == [r];
  }

  /**
   For every configuration with room for a record, every record and every way to fail: a run that ends with a
   segment that could not be cut back, so that its store decodes to one record more than its stop declared.
   */
  lemma {:induction false} FailedCutKeepsOneMore(cfg: Config, elapsedNs: u64, kind: RecordKind, error: int) returns (c: Course)
    requires RoomForOne(cfg, FirstRecord(elapsedNs, kind))
    ensures Run(cfg, c.states, c.events)
    ensures var s := c.states[|c.events|];
      && s.shared.writerDone && s.ledger.cutFailed && s.shared.stopped == Some(Stopped(None, Stalled))
      && RecordingDecoding(cfg.crc, s.store)
         == Success(DecodedRecording(cfg.header, 1, [FirstRecord(elapsedNs, kind)], Clean))
  {
    hide HeaderBytes, RecordBytes, RecordingDecoding, Run;
    var r := FirstRecord(elapsedNs, kind);
    var s, stopped, t;
    c, s := FirstWriting(cfg, elapsedNs, kind);
    c, stopped := WrittenThenStopped(cfg, c, s, r);
    c, t := NotCutOff(cfg, c, stopped, error);
    OneRecordDecodes(cfg, r);
  }
}
