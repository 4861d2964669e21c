/** What every step of the recorder keeps. */
module RecorderInvariant {
  import opened Wrappers
  import opened Bytes
  import opened Recording
  import opened Decoder
  import opened SegmentLanguage
  import opened RecordingLanguage
  import opened Recorder

  // ---------------------------------------------------------------- the invariant's parts

  function TotalCost(rs: seq<Record>): nat {
    if rs == [] then 0 else Cost(rs[0]) + TotalCost(rs[1..])
  }

  function TotalBytes(segments: seq<seq<byte>>): nat {
    if segments == [] then 0 else TotalBytes(segments[..|segments| - 1]) + |segments[|segments| - 1]|
  }

  function Number(s: Option<Sequence>): nat {
    if s.None? then 0 else s.value
  }

  function Last(rs: seq<Record>): Option<Sequence> {
    if rs == [] then None else Some(rs[|rs| - 1].sequence)
  }

  /** The record the writer has taken and not yet appended. */
  function InFlight(pc: Pc): seq<Record> {
    match pc
    case Preparing(r) => [r]
    case RotationSync(r, _, _) => [r]
    case RotationPublish(r, _, _) => [r]
    case Writing(r, _, _) => [r]
    case Settling(r, _, _, _) => [r]
    case _ => []
  }

  /** The records appended. */
  function Appended(ledger: Ledger): seq<Record> {
    if ledger.tape.None? then [] else TapeRecords(ledger.tape.value)
  }

  predicate Accounting(cfg: Config, shared: State, trace: Trace) {
    && shared.backlogBytes == TotalCost(shared.backlog) <= cfg.limits.backlogBytes
    && (shared.stopped.Some? ==> shared.backlog == [] && shared.stopped.value.lastRecorded == shared.appended)
    && (shared.reportArmed <==> shared.stopped.None?)
    && trace.reports == (if shared.stopped.Some? then [shared.stopped.value] else [])
  }

  predicate SequencedWell(next: Option<Sequence>, sequenced: seq<Record>, now: u64) {
    && Numbered(sequenced)
    && TimeOrdered(sequenced)
    && (sequenced != [] ==> sequenced[|sequenced| - 1].elapsedNs <= now)
    && (forall i :: 0 <= i < |sequenced| ==> Offerable(sequenced[i].kind))
    && next == (if |sequenced| < U64_MAX then Some(|sequenced| + 1) else None)
  }

  /** Appended, in flight and queued are the sequenced records in order; nothing is lost before a stop. */
  predicate InOrder(appended: seq<Record>, pc: Pc, shared: State, sequenced: seq<Record>, beyond: Option<Record>) {
    var known := appended + InFlight(pc) + shared.backlog;
    && known <= sequenced
    && (shared.stopped.None? ==> known == sequenced)
    && (beyond.Some? ==> appended + [beyond.value] <= sequenced)
  }

  predicate Marks(shared: State, writer: Writer, appended: seq<Record>) {
    && shared.appended == writer.lastAppended == Last(appended)
    && Number(shared.synced) <= Number(shared.appended)
    && (!writer.unsynced ==> shared.synced == shared.appended)
  }

  /** The store holds the tape, then part of the record beyond it, within the size limit. */
  predicate Stored(cfg: Config, store: seq<seq<byte>>, ledger: Ledger) {
    && TotalBytes(store) <= cfg.limits.maxBytes
    && match ledger.tape
       case None => store == [] && ledger.beyond.None?
       case Some(t) => ValidTape(t) && t.header == cfg.header && StoredTape(cfg.crc, store, t, ledger.beyond)
  }

  predicate StoredTape(crc: Checksum, store: seq<seq<byte>>, t: Tape, beyond: Option<Record>)
    requires ValidTape(t)
  {
    && |store| == |t.closed| + 1
    && store[..|t.closed|] == ClosedBytes(crc, t.header, t.closed)
    && OpenBytes(crc, t) <= store[|t.closed|]
    && (beyond.None? ==> store[|t.closed|] == OpenBytes(crc, t))
    && (beyond.Some? ==> Accepts(TapeEnd(t), beyond.value)
                         && Excess(crc, store, t) <= RecordBytes(crc, beyond.value))
  }

  /** What the last segment holds beyond the tape. */
  function Excess(crc: Checksum, store: seq<seq<byte>>, t: Tape): seq<byte>
    requires ValidTape(t) && store != [] && OpenBytes(crc, t) <= store[|store| - 1]
  {
    store[|store| - 1][|OpenBytes(crc, t)|..]
  }

  /** The writer's lengths and segment count are the store's. */
  predicate Measured(cfg: Config, writer: Writer, segments: nat, t: Tape)
    requires ValidTape(t)
  {
    && writer.segmentLen == |OpenBytes(cfg.crc, t)|
    && writer.totalLen == TotalBytes(TapeBytes(cfg.crc, t))
    && segments == |t.closed| + 1
  }

  /** A record to be written after a rotation, within the size limit. */
  predicate Rotating(cfg: Config, writer: Writer, t: Tape, r: Record, bytes: seq<byte>, rotated: EncoderState)
    requires ValidTape(t)
  {
    var next := NextSegment(TapeEnd(t));
    && next.Success?
    && Accepts(next.value, r)
    && rotated == Advance(next.value, r)
    && bytes == RecordBytes(cfg.crc, r)
    && writer.totalLen + |HeaderBytes(cfg.crc, rotated.header)| + |bytes| <= cfg.limits.maxBytes
  }

  /** Mid-append: `written` of the record's bytes lie beyond the tape. */
  predicate Appending(cfg: Config, writer: Writer, store: seq<seq<byte>>, t: Tape, r: Record, bytes: seq<byte>, written: nat)
    requires ValidTape(t)
  {
    && Accepts(TapeEnd(t), r)
    && writer.encoder == Advance(TapeEnd(t), r)
    && bytes == RecordBytes(cfg.crc, r)
    && written < |bytes|
    && writer.totalLen + |bytes| <= cfg.limits.maxBytes
    && store != [] && OpenBytes(cfg.crc, t) <= store[|store| - 1]
    && Excess(cfg.crc, store, t) == bytes[..written]
  }

  /** A whole record appended and not yet accepted. */
  predicate AppendedWhole(cfg: Config, writer: Writer, store: seq<seq<byte>>, segments: nat, t: Tape, r: Record)
    requires ValidTape(t)
  {
    && Accepts(TapeEnd(t), r)
    && writer.encoder == Advance(TapeEnd(t), r)
    && writer.segmentLen == |OpenBytes(cfg.crc, t)| + |RecordBytes(cfg.crc, r)|
    && writer.totalLen == TotalBytes(TapeBytes(cfg.crc, t)) + |RecordBytes(cfg.crc, r)|
    && segments == |t.closed| + 1
    && writer.unsynced
    && store != [] && OpenBytes(cfg.crc, t) <= store[|store| - 1]
    && Excess(cfg.crc, store, t) == RecordBytes(cfg.crc, r)
  }

  /** Between records, with nothing beyond the tape. */
  predicate Between(cfg: Config, writer: Writer, ledger: Ledger, segments: nat, t: Tape)
    requires ValidTape(t)
  {
    ledger.beyond.None? && Measured(cfg, writer, segments, t)
  }

  predicate Working(cfg: Config, writer: Writer, store: seq<seq<byte>>, ledger: Ledger, segments: nat, t: Tape)
    requires ValidTape(t)
  {
    match writer.pc
    case Ready => Between(cfg, writer, ledger, segments, t) && writer.encoder == TapeEnd(t)
    case Syncing => Between(cfg, writer, ledger, segments, t) && writer.encoder == TapeEnd(t)
    case Preparing(_) => Between(cfg, writer, ledger, segments, t) && writer.encoder == TapeEnd(t)
    case RotationSync(r, bytes, rotated) =>
      Between(cfg, writer, ledger, segments, t) && Rotating(cfg, writer, t, r, bytes, rotated)
    case RotationPublish(r, bytes, rotated) =>
      Between(cfg, writer, ledger, segments, t) && Rotating(cfg, writer, t, r, bytes, rotated)
    case Writing(r, bytes, written) =>
      && ledger.beyond == Some(r)
      && Measured(cfg, writer, segments, t)
      && Appending(cfg, writer, store, t, r, bytes, written)
    case Settling(r, before, attempted, failure) =>
      && ledger.beyond == (if attempted then Some(r) else None)
      && (attempted ==> before == |OpenBytes(cfg.crc, t)|)
      && (!attempted ==> failure.Some?)
      && (failure.None? ==> AppendedWhole(cfg, writer, store, segments, t, r))
    case Cutting(before) => ledger.beyond.Some? && before == |OpenBytes(cfg.crc, t)|
    case _ => true
  }

  predicate Idle(pc: Pc) {
    pc.NotStarted? || pc.FinalSync? || pc.Exiting? || pc.Exited?
  }

  predicate AtPc(cfg: Config, s: System) {
    && (s.shared.writerDone <==> s.writer.pc.Exited?)
    && (s.writer.pc.Cutting? ==> s.shared.stopped.Some?)
    && (s.writer.pc.NotStarted? ==>
          s.ledger == Ledger(None, None, false) && s.writer.totalLen == 0 && !s.writer.unsynced)
    && (s.writer.pc.FinalSync? || s.writer.pc.Exiting? || s.writer.pc.Exited? ==> Leaving(s.shared, s.ledger))
    && (s.writer.pc.Exiting? || s.writer.pc.Exited? ==> s.shared.stopped.Some? || !s.writer.unsynced)
    && (!Idle(s.writer.pc) ==>
          && !s.ledger.cutFailed
          && s.ledger.tape.Some?
          && ValidTape(s.ledger.tape.value)
          && Working(cfg, s.writer, s.store, s.ledger, s.shared.segments, s.ledger.tape.value))
  }

  /** The writer leaves with nothing to do, or stopped; and with nothing beyond the tape unless a cut failed. */
  predicate Leaving(shared: State, ledger: Ledger) {
    && (shared.stopped.None? ==> !shared.accepting && shared.backlog == [] && ledger.tape.Some?)
    && (ledger.beyond.Some? ==> ledger.cutFailed)
    && (ledger.cutFailed ==> shared.stopped.Some?)
  }

  predicate Inv(cfg: Config, s: System) {
    && Accounting(cfg, s.shared, s.trace)
    && SequencedWell(s.shared.next, s.trace.sequenced, s.trace.now)
    && InOrder(Appended(s.ledger), s.writer.pc, s.shared, s.trace.sequenced, s.ledger.beyond)
    && Marks(s.shared, s.writer, Appended(s.ledger))
    && Stored(cfg, s.store, s.ledger)
    && AtPc(cfg, s)
  }

  /** What the recorder asks of its caller: the header describes segment 0. */
  predicate Configured(cfg: Config) {
    cfg.header.segmentIndex == 0 && cfg.header.firstSequence == FIRST_SEQUENCE
  }

  lemma InitialInv(cfg: Config)
    requires Configured(cfg)
    ensures Inv(cfg, Initial(cfg))
  {
  }

  // ---------------------------------------------------------------- producers, close and stops

  lemma {:induction false} TotalCostOneMore(rs: seq<Record>, r: Record)
    ensures TotalCost(rs + [r]) == TotalCost(rs) + Cost(r)
  {
    if rs == [] {
      assert (rs + [r])[1..] == [];
    } else {
      assert (rs + [r])[1..] == rs[1..] + [r];
      TotalCostOneMore(rs[1..], r);
    }
  }

  /** A stop at any point keeps everything but what the writer's position may ask of it. */
  lemma StoppingKeeps(cfg: Config, s: System, reason: StopReason)
    requires Inv(cfg, s)
    ensures var q := Stopping(s, reason);
            && Inv(cfg, q)
            && q.shared.stopped.Some?
            && q.writer == s.writer && q.store == s.store && q.ledger == s.ledger
            && q.shared.writerDone == s.shared.writerDone && q.shared.segments == s.shared.segments
  {
    hide Appended, Stored, Working, ValidTape, SequencedWell;
    var known := Appended(s.ledger) + InFlight(s.writer.pc);
    assert known + [] == known;
    assert known <= known + s.shared.backlog;
  }

  lemma SequencedOneMore(sequenced: seq<Record>, now: u64, next: Option<Sequence>, r: Record)
    requires SequencedWell(next, sequenced, now)
    requires next == Some(r.sequence) && now <= r.elapsedNs && Offerable(r.kind)
    ensures SequencedWell(NextSequence(r.sequence), sequenced + [r], r.elapsedNs)
  {
  }

  lemma QueuedKeeps(cfg: Config, s: System, r: Record)
    requires Inv(cfg, s) && s.shared.stopped.None? && s.shared.accepting
    requires s.shared.next == Some(r.sequence) && s.trace.now <= r.elapsedNs && Offerable(r.kind)
    requires s.shared.backlogBytes + Cost(r) <= cfg.limits.backlogBytes
    ensures Inv(cfg, WithFront(s, Queue(Front(s.shared, s.trace.(now := r.elapsedNs)), r)))
  {
    hide Appended, Stored, Working, ValidTape, SequencedWell;
    var known := Appended(s.ledger) + InFlight(s.writer.pc);
    TotalCostOneMore(s.shared.backlog, r);
    SequencedOneMore(s.trace.sequenced, s.trace.now, s.shared.next, r);
    assert known + (s.shared.backlog + [r]) == known + s.shared.backlog + [r];
  }

  lemma HeardKeeps(cfg: Config, s: System, now: u64)
    requires Inv(cfg, s) && s.trace.now <= now
    ensures Inv(cfg, s.(trace := s.trace.(now := now)))
  {
    hide Appended, Stored, Working, ValidTape, InOrder, Marks;
  }

  lemma OfferKeeps(cfg: Config, s: System, elapsedNs: u64, kind: RecordKind)
    requires Inv(cfg, s) && Enabled(cfg, s, Offer(elapsedNs, kind))
    ensures Inv(cfg, WithFront(s, Enqueue(cfg.limits, FrontOf(s), elapsedNs, kind)))
  {
    hide Inv, Stop;
    var heard := s.(trace := s.trace.(now := elapsedNs));
    HeardKeeps(cfg, s, elapsedNs);
    if s.shared.stopped.None? && s.shared.accepting {
      StoppingKeeps(cfg, heard, SizeLimit);
      StoppingKeeps(cfg, heard, BacklogFull);
      if s.shared.next.Some? {
        var r := Record(s.shared.next.value, elapsedNs, kind);
        if s.shared.backlogBytes + Cost(r) <= cfg.limits.backlogBytes {
          QueuedKeeps(cfg, s, r);
        }
      }
    }
  }

  lemma CloseKeeps(cfg: Config, s: System)
    requires Inv(cfg, s)
    ensures Inv(cfg, s.(shared := s.shared.(accepting := false)))
  {
    hide Appended, Stored, Working, ValidTape, SequencedWell;
  }

  // ---------------------------------------------------------------- the writer

  /** The encoder never refuses a sequenced record, whether it continues the segment or starts the next. */
  lemma SequencedAreAccepted(t: Tape, sequenced: seq<Record>, r: Record, next: Option<Sequence>, now: u64)
    requires ValidTape(t)
    requires SequencedWell(next, sequenced, now)
    requires TapeRecords(t) + [r] <= sequenced
    ensures Accepts(TapeEnd(t), r) && PayloadFits(r.kind)
    ensures NextSegment(TapeEnd(t)).Success? ==> Accepts(NextSegment(TapeEnd(t)).value, r)
  {
    hide SegmentStart, AcceptsAll, AdvanceAll, Flatten, TapeEnd;
    var done := TapeRecords(t);
    TapeContinues(t);
    assert sequenced[|done|] == r;
    if done != [] {
      assert sequenced[|done| - 1] == done[|done| - 1];
    }
  }

  lemma TakenInOrder(appended: seq<Record>, shared: State, sequenced: seq<Record>)
    requires InOrder(appended, Ready, shared, sequenced, None) && shared.backlog != []
    ensures InOrder(appended, Preparing(shared.backlog[0]), shared.(backlog := shared.backlog[1..]), sequenced, None)
    ensures appended + [shared.backlog[0]] <= sequenced
  {
    var b := shared.backlog;
    assert appended + [] + b == appended + [b[0]] + b[1..];
  }

  lemma TakeKeeps(cfg: Config, s: System, syncDue: bool)
    requires Inv(cfg, s) && Enabled(cfg, s, Take(syncDue))
    ensures Inv(cfg, Taking(s, syncDue))
  {
    hide Inv, Working;
    if s.shared.stopped.Some? || (s.shared.backlog == [] && !s.shared.accepting) {
      GoneKeeps(cfg, s);
    } else if s.shared.backlog != [] {
      TakenKeeps(cfg, s);
    } else {
      IdleKeeps(cfg, s);
    }
  }

  lemma GoneKeeps(cfg: Config, s: System)
    requires Inv(cfg, s) && s.writer.pc.Ready?
    requires s.shared.stopped.Some? || (s.shared.backlog == [] && !s.shared.accepting)
    ensures Inv(cfg, At(s, FinalSync))
  {
    hide Appended, Stored, ValidTape, SequencedWell, OpenBytes, TapeBytes, TapeEnd, ClosedBytes;
  }

  lemma IdleKeeps(cfg: Config, s: System)
    requires Inv(cfg, s) && s.writer.pc.Ready?
    ensures Inv(cfg, At(s, Syncing))
  {
    hide Appended, Stored, ValidTape, SequencedWell, OpenBytes, TapeBytes, TapeEnd, ClosedBytes;
  }

  lemma TakenKeeps(cfg: Config, s: System)
    requires Inv(cfg, s) && s.writer.pc.Ready? && s.shared.backlog != [] && s.shared.stopped.None?
    ensures var r := s.shared.backlog[0];
      Inv(cfg, At(s.(shared := s.shared.(backlog := s.shared.backlog[1..],
                                         backlogBytes := Monus(s.shared.backlogBytes, Cost(r)))), Preparing(r)))
  {
    hide Appended, Stored, ValidTape, SequencedWell, OpenBytes, TapeBytes, TapeEnd, ClosedBytes;
    TakenInOrder(Appended(s.ledger), s.shared, s.trace.sequenced);
  }

  lemma SyncedKeeps(cfg: Config, s: System, pc: Pc)
    requires Inv(cfg, s)
    requires (s.writer.pc.Syncing? && pc.Ready?) || (s.writer.pc.FinalSync? && pc.Exiting?)
    ensures Inv(cfg, At(s.(writer := s.writer.(unsynced := false), shared := s.shared.(synced := s.writer.lastAppended)), pc))
    ensures !s.writer.unsynced ==> Inv(cfg, At(s, pc))
  {
    hide Appended, Stored, ValidTape, SequencedWell, OpenBytes, TapeBytes, TapeEnd, ClosedBytes;
  }

  lemma RotationSyncedKeeps(cfg: Config, s: System)
    requires Inv(cfg, s) && s.writer.pc.RotationSync?
    ensures var pc := s.writer.pc;
            var to := RotationPublish(pc.record, pc.bytes, pc.rotated);
            && Inv(cfg, At(s.(writer := s.writer.(unsynced := false), shared := s.shared.(synced := s.writer.lastAppended)), to))
            && (!s.writer.unsynced ==> Inv(cfg, At(s, to)))
  {
    hide Appended, Stored, ValidTape, SequencedWell, OpenBytes, TapeBytes, TapeEnd, ClosedBytes, NextSegment,
         HeaderBytes, RecordBytes, Accepts, Advance;
  }

  /** Giving up on a record before any of it is written. */
  lemma GivingUpKeeps(cfg: Config, s: System, r: Record, before: nat, reason: StopReason)
    requires Inv(cfg, s) && InFlight(s.writer.pc) == [r] && s.ledger.beyond.None?
    requires !Idle(s.writer.pc)
    ensures Inv(cfg, At(s, Settling(r, before, false, Some(reason))))
  {
    hide Appended, Stored, ValidTape, SequencedWell, OpenBytes, TapeBytes, TapeEnd, ClosedBytes, AppendedWhole;
  }

  lemma ExitKeeps(cfg: Config, s: System)
    requires Inv(cfg, s) && s.writer.pc.Exiting?
    ensures Inv(cfg, At(s.(shared := s.shared.(writerDone := true)), Exited))
  {
    hide Appended, Stored, ValidTape, SequencedWell, Working;
  }

  lemma PreparationKeeps(cfg: Config, s: System)
    requires Inv(cfg, s) && s.writer.pc.Preparing?
    ensures Inv(cfg, Preparation(cfg, s, s.writer.pc.record))
    ensures Preparation(cfg, s, s.writer.pc.record).writer.pc.Settling? ==>
              Preparation(cfg, s, s.writer.pc.record).writer.pc.failure == Some(SizeLimit)
  {
    hide Inv, TapeEnd, NextSegment, RecordBytes, HeaderBytes;
    var r := s.writer.pc.record;
    var t := PreparingFacts(cfg, s);
    GivingUpKeeps(cfg, s, r, s.writer.segmentLen, SizeLimit);
    var next := NextSegment(s.writer.encoder);
    if s.writer.segmentLen >= cfg.limits.segmentBytes && next.Success? {
      var bytes := RecordBytes(cfg.crc, r);
      if CheckSize(cfg, s.writer, |HeaderBytes(cfg.crc, next.value.header)| + |bytes|) {
        RotatingKeeps(cfg, s, t, r, Advance(next.value, r));
      }
    } else {
      var bytes := RecordBytes(cfg.crc, r);
      if CheckSize(cfg, s.writer, |bytes|) {
        WritingKeeps(cfg, s, t, r);
      } else {
        EncodedKeeps(cfg, s, r);
      }
    }
  }

  lemma PreparingFacts(cfg: Config, s: System) returns (t: Tape)
    requires Inv(cfg, s) && s.writer.pc.Preparing?
    ensures s.ledger.tape == Some(t) && s.ledger.beyond.None? && ValidTape(t) && s.writer.encoder == TapeEnd(t)
    ensures var r := s.writer.pc.record;
            && Accepts(s.writer.encoder, r) && PayloadFits(r.kind)
            && (NextSegment(s.writer.encoder).Success? ==> Accepts(NextSegment(s.writer.encoder).value, r))
  {
    hide SequencedWell, ValidTape, OpenBytes, TapeBytes, TapeEnd, ClosedBytes, TapeRecords, NextSegment, Accepts;
    t := s.ledger.tape.value;
    assert TapeRecords(t) + [s.writer.pc.record] <= s.trace.sequenced;
    SequencedAreAccepted(t, s.trace.sequenced, s.writer.pc.record, s.shared.next, s.trace.now);
  }

  lemma RotatingKeeps(cfg: Config, s: System, t: Tape, r: Record, rotated: EncoderState)
    requires PayloadFits(r.kind) && NextSegment(s.writer.encoder).Success?
    requires Accepts(NextSegment(s.writer.encoder).value, r) && rotated == Advance(NextSegment(s.writer.encoder).value, r)
    requires CheckSize(cfg, s.writer, |HeaderBytes(cfg.crc, rotated.header)| + |RecordBytes(cfg.crc, r)|)
    requires Inv(cfg, s) && s.writer.pc == Preparing(r) && s.ledger.tape == Some(t)
    ensures Inv(cfg, At(s, RotationSync(r, RecordBytes(cfg.crc, r), rotated)))
  {
    hide Appended, Stored, ValidTape, SequencedWell, OpenBytes, TapeBytes, TapeEnd, ClosedBytes, NextSegment,
         HeaderBytes, RecordBytes, Accepts, Advance;
  }

  lemma EncodedKeeps(cfg: Config, s: System, r: Record)
    requires Inv(cfg, s) && s.writer.pc == Preparing(r)
    ensures Inv(cfg, At(s.(writer := s.writer.(encoder := Advance(s.writer.encoder, r))),
                        Settling(r, s.writer.segmentLen, false, Some(SizeLimit))))
  {
    hide Appended, Stored, ValidTape, SequencedWell, OpenBytes, TapeBytes, TapeEnd, ClosedBytes, AppendedWhole, Advance;
  }

  lemma WritingKeeps(cfg: Config, s: System, t: Tape, r: Record)
    requires Inv(cfg, s) && s.writer.pc == Preparing(r) && s.ledger.tape == Some(t)
    requires Accepts(s.writer.encoder, r) && CheckSize(cfg, s.writer, |RecordBytes(cfg.crc, r)|)
    ensures Inv(cfg, At(s.(writer := s.writer.(encoder := Advance(s.writer.encoder, r)),
                           ledger := s.ledger.(beyond := Some(r))),
                        Writing(r, RecordBytes(cfg.crc, r), 0)))
  {
    hide ValidTape, SequencedWell, OpenBytes, TapeBytes, TapeEnd, ClosedBytes, RecordBytes, Advance, Accepts, TapeRecords;
    NothingBeyond(cfg, s.store, t, r);
  }

  lemma NothingBeyond(cfg: Config, store: seq<seq<byte>>, t: Tape, r: Record)
    requires ValidTape(t) && StoredTape(cfg.crc, store, t, None)
    requires Accepts(TapeEnd(t), r)
    ensures Excess(cfg.crc, store, t) == []
    ensures StoredTape(cfg.crc, store, t, Some(r))
    ensures |RecordBytes(cfg.crc, r)| > 0
  {
    hide ValidTape, TapeEnd, ClosedBytes, Accepts, OpenBytes;
  }

  lemma ExtendedTotal(store: seq<seq<byte>>, bytes: seq<byte>)
    requires store != []
    ensures TotalBytes(Extended(store, bytes)) == TotalBytes(store) + |bytes|
  {
    var last := |store| - 1;
    assert Extended(store, bytes)[..last] == store[..last];
  }

  lemma StoreTotal(crc: Checksum, store: seq<seq<byte>>, t: Tape, beyond: Option<Record>)
    requires ValidTape(t) && StoredTape(crc, store, t, beyond)
    ensures TotalBytes(store) == TotalBytes(TapeBytes(crc, t)) + |Excess(crc, store, t)|
  {
    hide SegmentStart, AcceptsAll, TapeEnd, ClosedBytes, Accepts, OpenBytes, RecordBytes;
    var n := |t.closed|;
    var whole := TapeBytes(crc, t);
    assert whole[..n] == ClosedBytes(crc, t.header, t.closed) == store[..n];
    assert whole[n] == OpenBytes(crc, t);
  }

  /** More of the record beyond the tape, up to the whole of it. */
  lemma ExtendedTape(crc: Checksum, store: seq<seq<byte>>, t: Tape, r: Record, from: nat, to: nat)
    requires ValidTape(t) && StoredTape(crc, store, t, Some(r))
    requires from <= to <= |RecordBytes(crc, r)|
    requires Excess(crc, store, t) == RecordBytes(crc, r)[..from]
    ensures var grown := Extended(store, RecordBytes(crc, r)[from..to]);
            && StoredTape(crc, grown, t, Some(r))
            && Excess(crc, grown, t) == RecordBytes(crc, r)[..to]
  {
    hide ValidTape, TapeEnd, ClosedBytes, OpenBytes, RecordBytes;
    var bytes := RecordBytes(crc, r);
    var grown := Extended(store, bytes[from..to]);
    var n := |t.closed|;
    var open := OpenBytes(crc, t);
    assert store[n] == open + bytes[..from];
    assert grown[n] == open + bytes[..from] + bytes[from..to];
    assert bytes[..from] + bytes[from..to] == bytes[..to];
    assert grown[n][|open|..] == bytes[..to];
    assert grown[..n] == store[..n];
  }

  /** The store once `count` more bytes of the record have landed. */
  lemma LandedStored(cfg: Config, s: System, count: nat)
    requires Inv(cfg, s) && s.writer.pc.Writing? && s.writer.pc.written + count <= |s.writer.pc.bytes|
    ensures s.store != [] && s.ledger.tape.Some? && ValidTape(s.ledger.tape.value)
    ensures var pc := s.writer.pc;
            var t := s.ledger.tape.value;
            var grown := Extended(s.store, pc.bytes[pc.written..pc.written + count]);
            && Stored(cfg, grown, s.ledger)
            && grown != [] && OpenBytes(cfg.crc, t) <= grown[|grown| - 1]
            && Excess(cfg.crc, grown, t) == pc.bytes[..pc.written + count]
  {
    hide ValidTape, OpenBytes, TapeBytes, TapeEnd, ClosedBytes, RecordBytes, Advance, Excess, Accounting, InOrder, Marks,
         SequencedWell;
    var t := s.ledger.tape.value;
    var pc := s.writer.pc;
    StoreTotal(cfg.crc, s.store, t, Some(pc.record));
    ExtendedTotal(s.store, pc.bytes[pc.written..pc.written + count]);
    ExtendedTape(cfg.crc, s.store, t, pc.record, pc.written, pc.written + count);
  }

  lemma WritingSomeKeeps(cfg: Config, s: System, count: nat)
    requires Inv(cfg, s) && s.writer.pc.Writing? && s.store != [] && s.writer.pc.written + count < |s.writer.pc.bytes|
    ensures Inv(cfg, WritingSome(s, count))
  {
    hide ValidTape, OpenBytes, TapeBytes, TapeEnd, ClosedBytes, RecordBytes, Advance, Accepts, Excess, Stored, SequencedWell,
         Extended, Appended;
    LandedStored(cfg, s, count);
  }

  lemma WritingAllKeeps(cfg: Config, s: System, count: nat)
    requires Inv(cfg, s) && s.writer.pc.Writing? && s.store != [] && s.writer.pc.written + count == |s.writer.pc.bytes|
    ensures Inv(cfg, WritingSome(s, count))
  {
    hide ValidTape, OpenBytes, TapeBytes, TapeEnd, ClosedBytes, RecordBytes, Advance, Accepts, Excess, Stored, SequencedWell,
         Extended, Appended;
    LandedStored(cfg, s, count);
    assert s.writer.pc.bytes[..|s.writer.pc.bytes|] == s.writer.pc.bytes;
  }

  lemma WriteFailingKeeps(cfg: Config, s: System, error: int, landed: nat)
    requires Inv(cfg, s) && s.writer.pc.Writing? && s.store != [] && s.writer.pc.written + landed <= |s.writer.pc.bytes|
    ensures Inv(cfg, WriteFailing(s, error, landed))
  {
    hide ValidTape, OpenBytes, TapeBytes, TapeEnd, ClosedBytes, RecordBytes, Advance, Accepts, Excess, Stored, SequencedWell,
         Extended, Appended, AppendedWhole;
    LandedStored(cfg, s, landed);
  }

  // ---------------------------------------------------------------- settling, cutting, publishing

  lemma LeavingAttempt(cfg: Config, s: System)
    requires Inv(cfg, s) && s.writer.pc.Settling? && s.shared.stopped.Some?
    ensures Inv(cfg, At(s, if s.writer.pc.attempted then Cutting(s.writer.pc.before) else FinalSync))
  {
    hide ValidTape, OpenBytes, Stored, SequencedWell, Appended, AppendedWhole;
    var known := Appended(s.ledger);
    assert known + [] <= known + InFlight(s.writer.pc) + s.shared.backlog;
  }

  /** The record the store now wholly holds becomes part of the tape. */
  lemma AppendedTape(cfg: Config, store: seq<seq<byte>>, t: Tape, r: Record)
    requires ValidTape(t) && StoredTape(cfg.crc, store, t, Some(r))
    requires Excess(cfg.crc, store, t) == RecordBytes(cfg.crc, r)
    ensures var more := t.(open := t.open + [r]);
            && ValidTape(more)
            && StoredTape(cfg.crc, store, more, None)
            && TapeEnd(more) == Advance(TapeEnd(t), r)
            && TapeRecords(more) == TapeRecords(t) + [r]
            && |OpenBytes(cfg.crc, more)| == |OpenBytes(cfg.crc, t)| + |RecordBytes(cfg.crc, r)|
            && TotalBytes(TapeBytes(cfg.crc, more)) == TotalBytes(TapeBytes(cfg.crc, t)) + |RecordBytes(cfg.crc, r)|
  {
    hide ValidTape, TapeEnd, ClosedBytes, OpenBytes, RecordBytes, TapeRecords, TapeBytes;
    LongerTape(cfg.crc, t, r);
    var more := t.(open := t.open + [r]);
    var n := |t.closed|;
    assert store[n] == OpenBytes(cfg.crc, t) + Excess(cfg.crc, store, t);
    StoreTotal(cfg.crc, store, t, Some(r));
    StoreTotal(cfg.crc, store, more, None);
  }

  lemma AcceptingKeeps(cfg: Config, s: System, syncDue: bool)
    requires Inv(cfg, s) && s.writer.pc.Settling? && s.shared.stopped.None? && s.writer.pc.failure.None?
    ensures Inv(cfg, Settlement(s, syncDue))
  {
    hide ValidTape, OpenBytes, TapeBytes, TapeEnd, ClosedBytes, RecordBytes, Advance, Accepts, Excess, SequencedWell,
         StoredTape, TapeRecords;
    var t := s.ledger.tape.value;
    var r := s.writer.pc.record;
    AppendedTape(cfg, s.store, t, r);
    var known := TapeRecords(t);
    assert known + [r] + s.shared.backlog == s.trace.sequenced;
    assert s.trace.sequenced[|known|] == r;
    NumbersIncrease(s, known, r);
  }

  /** The appended marks only move forward. */
  lemma NumbersIncrease(s: System, known: seq<Record>, r: Record)
    requires SequencedWell(s.shared.next, s.trace.sequenced, s.trace.now)
    requires known + [r] <= s.trace.sequenced
    ensures r.sequence == |known| + 1 && Number(Last(known)) == |known|
  {
    assert s.trace.sequenced[|known|] == r;
    if known != [] {
      assert s.trace.sequenced[|known| - 1] == known[|known| - 1];
    }
  }

  lemma SettlementKeeps(cfg: Config, s: System, syncDue: bool)
    requires Inv(cfg, s) && s.writer.pc.Settling?
    ensures Inv(cfg, Settlement(s, syncDue))
  {
    hide Inv;
    if s.shared.stopped.Some? {
      LeavingAttempt(cfg, s);
    } else if s.writer.pc.failure.Some? {
      StoppingKeeps(cfg, s, s.writer.pc.failure.value);
      LeavingAttempt(cfg, Stopping(s, s.writer.pc.failure.value));
    } else {
      AcceptingKeeps(cfg, s, syncDue);
    }
  }

  lemma CutStored(cfg: Config, s: System)
    requires Inv(cfg, s) && s.writer.pc.Cutting?
    ensures s.store != [] && s.writer.pc.before <= |s.store[|s.store| - 1]|
    ensures var last := |s.store| - 1;
            var cut := s.store[last := s.store[last][..s.writer.pc.before]];
            Stored(cfg, cut, s.ledger.(beyond := None))
  {
    hide ValidTape, OpenBytes, TapeEnd, ClosedBytes, RecordBytes, Accepts, SequencedWell, Appended, InOrder, Marks, Accounting;
    var last := |s.store| - 1;
    var cut := s.store[last := s.store[last][..s.writer.pc.before]];
    assert cut[..last] == s.store[..last];
  }

  lemma CuttingKeeps(cfg: Config, s: System, outcome: Outcome)
    requires Inv(cfg, s) && s.writer.pc.Cutting? && s.store != [] && s.writer.pc.before <= |s.store[|s.store| - 1]|
    ensures Inv(cfg, CuttingBack(s, outcome))
  {
    hide ValidTape, OpenBytes, TapeEnd, ClosedBytes, RecordBytes, Accepts, SequencedWell, Stored, Appended, Accounting,
         InOrder, Marks, Working;
    CutStored(cfg, s);
    StoredStillCut(cfg, s);
    SameAppended(s.ledger);
    CutInOrder(Appended(s.ledger), s.writer.pc, s.shared, s.trace.sequenced, s.ledger.beyond);
    SameMarks(s.shared, s.writer, CuttingBack(s, outcome).writer, Appended(s.ledger));
  }

  lemma SameAppended(ledger: Ledger)
    ensures Appended(ledger.(beyond := None)) == Appended(ledger) == Appended(ledger.(cutFailed := true))
  {
  }

  lemma CutInOrder(appended: seq<Record>, pc: Pc, shared: State, sequenced: seq<Record>, beyond: Option<Record>)
    requires pc.Cutting? && InOrder(appended, pc, shared, sequenced, beyond)
    ensures InOrder(appended, FinalSync, shared, sequenced, beyond) && InOrder(appended, FinalSync, shared, sequenced, None)
  {
  }

  lemma SameMarks(shared: State, w: Writer, w': Writer, appended: seq<Record>)
    requires Marks(shared, w, appended) && w'.lastAppended == w.lastAppended && w'.unsynced == w.unsynced
    ensures Marks(shared, w', appended)
  {
  }

  lemma StoredStillCut(cfg: Config, s: System)
    requires Stored(cfg, s.store, s.ledger)
    ensures Stored(cfg, s.store, s.ledger.(cutFailed := true))
  {
  }

  /** A header published after the tape starts its next segment. */
  lemma RotatedStore(cfg: Config, store: seq<seq<byte>>, t: Tape)
    requires ValidTape(t) && StoredTape(cfg.crc, store, t, None)
    requires NextSegment(TapeEnd(t)).Success?
    ensures var next := NextSegment(TapeEnd(t)).value;
            var grown := store + [HeaderBytes(cfg.crc, next.header)];
            && ValidTape(Rotated(t))
            && StoredTape(cfg.crc, grown, Rotated(t), None)
            && TapeEnd(Rotated(t)) == next
            && TapeRecords(Rotated(t)) == TapeRecords(t)
            && OpenBytes(cfg.crc, Rotated(t)) == HeaderBytes(cfg.crc, next.header)
            && TotalBytes(grown) == TotalBytes(store) + |HeaderBytes(cfg.crc, next.header)|
            && TotalBytes(TapeBytes(cfg.crc, Rotated(t))) == TotalBytes(grown)
            && next.header.segmentIndex == |t.closed| + 1
  {
    hide NextSegment, TapeEnd, HeaderBytes, TapeRecords, AcceptsAll, SegmentStart;
    RotatedTape(cfg.crc, t);
    var next := NextSegment(TapeEnd(t)).value;
    var header := HeaderBytes(cfg.crc, next.header);
    var grown := store + [header];
    assert grown[..|store|] == store;
    var bytes := TapeBytes(cfg.crc, t);
    assert store == bytes by {
      assert store == store[..|t.closed|] + [store[|t.closed|]];
    }
    assert grown == TapeBytes(cfg.crc, Rotated(t));
    NextIndex(t);
  }

  lemma NextIndex(t: Tape)
    requires ValidTape(t) && NextSegment(TapeEnd(t)).Success?
    ensures NextSegment(TapeEnd(t)).value.header.segmentIndex == |t.closed| + 1
  {
    StartShape(t.header, t.closed);
    AdvanceAllEffect(TapeStart(t), t.open);
  }

  predicate RotationLanded(cfg: Config, s: System, t: Tape)
    requires s.writer.pc.RotationPublish? && ValidTape(t) && ValidTape(Rotated(t))
  {
    var (record, bytes, rotated) := (s.writer.pc.record, s.writer.pc.bytes, s.writer.pc.rotated);
    var header := HeaderBytes(cfg.crc, rotated.header);
    && Stored(cfg, s.store + [header], s.ledger.(tape := Some(Rotated(t))))
    && StoredTape(cfg.crc, s.store + [header], Rotated(t), None)
    && rotated == Advance(TapeEnd(Rotated(t)), record)
    && Accepts(TapeEnd(Rotated(t)), record)
    && bytes == RecordBytes(cfg.crc, record)
    && TapeRecords(Rotated(t)) == TapeRecords(t)
    && |OpenBytes(cfg.crc, Rotated(t))| == |header|
    && TotalBytes(TapeBytes(cfg.crc, Rotated(t))) == s.writer.totalLen + |header|
    && s.writer.totalLen + |header| + |bytes| <= cfg.limits.maxBytes
    && rotated.header.segmentIndex == |t.closed| + 1
  }

  /** The rotation's segment in the store, before the writer's own lengths are brought up to date. */
  lemma LandedRotation(cfg: Config, s: System)
    requires Inv(cfg, s) && s.writer.pc.RotationPublish?
    ensures s.ledger.tape.Some? && ValidTape(s.ledger.tape.value)
    ensures var t := s.ledger.tape.value;
            ValidTape(Rotated(t)) && RotationLanded(cfg, s, t)
  {
    hide NextSegment, TapeEnd, HeaderBytes, TapeRecords, ValidTape, OpenBytes, TapeBytes, ClosedBytes, RecordBytes, Accepts,
         InOrder, Marks, Accounting, SequencedWell;
    var t := s.ledger.tape.value;
    RotatedStore(cfg, s.store, t);
    StoreTotal(cfg.crc, s.store, t, None);
    NothingBeyondTape(cfg, s.store, t);
  }

  lemma NothingBeyondTape(cfg: Config, store: seq<seq<byte>>, t: Tape)
    requires ValidTape(t) && StoredTape(cfg.crc, store, t, None)
    ensures Excess(cfg.crc, store, t) == []
  {
    hide ValidTape, TapeEnd, ClosedBytes, Accepts, OpenBytes;
  }

  lemma PublishedKeeps(cfg: Config, s: System, outcome: Outcome)
    requires Inv(cfg, s) && s.writer.pc.RotationPublish?
    ensures Inv(cfg, PublishingRotation(cfg, s, outcome))
    ensures PublishingRotation(cfg, s, outcome).writer.pc.Settling? ==>
              PublishingRotation(cfg, s, outcome).writer.pc.failure != Some(WriteFailed(EncoderRefused))
  {
    hide Inv, HeaderBytes, TapeEnd, Stored, StoredTape, OpenBytes, TapeBytes, RecordBytes, Accepts, TapeRecords, ValidTape;
    LandedRotation(cfg, s);
    var pc := s.writer.pc;
    PublishFits(cfg, s);
    if outcome.Done? {
      RotationPublished(cfg, s);
    } else if outcome.landed {
      RotationLandedKeeps(cfg, s, Storage(outcome.kind));
    } else {
      PublishFailed(cfg, s, Storage(outcome.kind));
    }
  }

  lemma PublishFits(cfg: Config, s: System)
    requires Inv(cfg, s) && s.writer.pc.RotationPublish?
    ensures CheckSize(cfg, s.writer, |HeaderBytes(cfg.crc, s.writer.pc.rotated.header)|)
  {
    hide ValidTape, Stored, InOrder, Marks, Accounting, SequencedWell, HeaderBytes, NextSegment, RecordBytes, TapeEnd,
         OpenBytes, TapeBytes;
  }

  lemma PublishFailed(cfg: Config, s: System, cause: FailureCause)
    requires Inv(cfg, s) && s.writer.pc.RotationPublish?
    ensures Inv(cfg, At(s, Settling(s.writer.pc.record, s.writer.segmentLen, false, Some(WriteFailed(cause)))))
  {
    hide ValidTape, Stored, SequencedWell, HeaderBytes, NextSegment, RecordBytes, TapeEnd,
         OpenBytes, TapeBytes, Appended, AppendedWhole, Rotating, Measured;
  }

  lemma RotationPublished(cfg: Config, s: System)
    requires Inv(cfg, s) && s.writer.pc.RotationPublish?
    ensures var pc := s.writer.pc;
            var header := HeaderBytes(cfg.crc, pc.rotated.header);
            s.ledger.tape.Some? &&
            Inv(cfg, s.(store := s.store + [header],
                        ledger := s.ledger.(tape := Some(Rotated(s.ledger.tape.value)), beyond := Some(pc.record)),
                        writer := s.writer.(encoder := pc.rotated, segmentLen := |header|,
                                            totalLen := s.writer.totalLen + |header|,
                                            pc := Writing(pc.record, pc.bytes, 0)),
                        shared := s.shared.(segments := pc.rotated.header.segmentIndex + 1)))
  {
    hide ValidTape, SequencedWell, HeaderBytes, NextSegment, RecordBytes, TapeEnd, OpenBytes, TapeBytes, Accepts, TapeRecords,
         StoredTape, Advance, Excess;
    LandedRotation(cfg, s);
    var pc := s.writer.pc;
    var t := Rotated(s.ledger.tape.value);
    NothingBeyond(cfg, s.store + [HeaderBytes(cfg.crc, pc.rotated.header)], t, pc.record);
    OpenIsPrefix(cfg, s.store + [HeaderBytes(cfg.crc, pc.rotated.header)], t, None);
  }

  lemma OpenIsPrefix(cfg: Config, store: seq<seq<byte>>, t: Tape, beyond: Option<Record>)
    requires ValidTape(t) && StoredTape(cfg.crc, store, t, beyond)
    ensures store != [] && OpenBytes(cfg.crc, t) <= store[|store| - 1]
  {
  }

  lemma RotationLandedKeeps(cfg: Config, s: System, cause: FailureCause)
    requires Inv(cfg, s) && s.writer.pc.RotationPublish?
    ensures var pc := s.writer.pc;
            var header := HeaderBytes(cfg.crc, pc.rotated.header);
            s.ledger.tape.Some? &&
            Inv(cfg, At(s.(store := s.store + [header], ledger := s.ledger.(tape := Some(Rotated(s.ledger.tape.value)))),
                        Settling(pc.record, s.writer.segmentLen, false, Some(WriteFailed(cause)))))
  {
    hide ValidTape, SequencedWell, HeaderBytes, NextSegment, RecordBytes, TapeEnd, OpenBytes, TapeBytes, Accepts, TapeRecords,
         StoredTape, Advance, Excess, Stored, AppendedWhole;
    LandedRotation(cfg, s);
  }

  lemma FirstSegment(cfg: Config)
    requires Configured(cfg)
    ensures var t := Tape(cfg.header, [], []);
            var header := HeaderBytes(cfg.crc, cfg.header);
            && ValidTape(t)
            && StoredTape(cfg.crc, [header], t, None)
            && TapeEnd(t) == NewEncoder(cfg.header).value
            && TapeRecords(t) == []
            && OpenBytes(cfg.crc, t) == header
            && TotalBytes([header]) == |header|
            && TotalBytes(TapeBytes(cfg.crc, t)) == |header|
  {
    hide HeaderBytes;
    var t := Tape(cfg.header, [], []);
    var header := HeaderBytes(cfg.crc, cfg.header);
    assert header + [] == header;
    assert OpenBytes(cfg.crc, t) == header;
    assert TapeBytes(cfg.crc, t) == [header];
    var only: seq<seq<byte>> := [header];
    assert only[..0] == [];
  }

  lemma StartingKeeps(cfg: Config, s: System, outcome: Outcome)
    requires Configured(cfg) && Inv(cfg, s) && s.writer.pc.NotStarted?
    ensures Inv(cfg, Starting(cfg, s, outcome))
  {
    hide HeaderBytes, ValidTape, StoredTape, TapeEnd, TapeRecords, OpenBytes, TapeBytes, SequencedWell, Inv;
    var header := HeaderBytes(cfg.crc, cfg.header);
    NotStartedFacts(cfg, s);
    StoppingKeeps(cfg, s, SizeLimit);
    StartFailed(cfg, Stopping(s, SizeLimit));
    if CheckSize(cfg, s.writer, |header|) {
      if outcome.Done? {
        Started(cfg, s);
      } else {
        StoppingKeeps(cfg, s, WriteFailed(Storage(outcome.kind)));
        StartFailed(cfg, Stopping(s, WriteFailed(Storage(outcome.kind))));
      }
    }
  }

  lemma NotStartedFacts(cfg: Config, s: System)
    requires Inv(cfg, s) && s.writer.pc.NotStarted?
    ensures s.store == [] && s.ledger == Ledger(None, None, false) && s.writer.totalLen == 0 && !s.writer.unsynced
  {
    hide SequencedWell;
  }

  /** The first publication failed: nothing stored, or a header alone. */
  lemma StartFailed(cfg: Config, s: System)
    requires Configured(cfg) && Inv(cfg, s) && s.writer.pc.NotStarted? && s.shared.stopped.Some?
    ensures Inv(cfg, At(s, Exiting))
    ensures var header := HeaderBytes(cfg.crc, cfg.header);
            |header| <= cfg.limits.maxBytes ==>
              Inv(cfg, At(s.(store := s.store + [header], ledger := s.ledger.(tape := Some(Tape(cfg.header, [], [])))), Exiting))
  {
    hide HeaderBytes, ValidTape, StoredTape, TapeEnd, TapeRecords, OpenBytes, TapeBytes, SequencedWell;
    NotStartedFacts(cfg, s);
    FirstSegment(cfg);
    assert s.store + [HeaderBytes(cfg.crc, cfg.header)] == [HeaderBytes(cfg.crc, cfg.header)];
  }

  lemma Started(cfg: Config, s: System)
    requires Configured(cfg) && Inv(cfg, s) && s.writer.pc.NotStarted?
    requires |HeaderBytes(cfg.crc, cfg.header)| <= cfg.limits.maxBytes
    ensures Inv(cfg, Starting(cfg, s, Done))
  {
    hide HeaderBytes, ValidTape, StoredTape, TapeEnd, TapeRecords, OpenBytes, TapeBytes, SequencedWell;
    NotStartedFacts(cfg, s);
    FirstSegment(cfg);
    assert s.store + [HeaderBytes(cfg.crc, cfg.header)] == [HeaderBytes(cfg.crc, cfg.header)];
  }

  // ---------------------------------------------------------------- every step, every run

  lemma NextKeeps(cfg: Config, s: System, e: Event)
    requires Configured(cfg) && Inv(cfg, s) && Enabled(cfg, s, e)
    ensures Inv(cfg, Next(cfg, s, e))
  {
    hide Inv, Synced, SyncingRotation, Enqueue, Starting, Taking, Preparation, PublishingRotation, WritingSome, WriteFailing, Settlement, CuttingBack,
         Stopping;
    match e {
      case Offer(elapsedNs, kind) => OfferKeeps(cfg, s, elapsedNs, kind);
      case Close => CloseKeeps(cfg, s);
      case CloseTimeout => StoppingKeeps(cfg, s, Stalled);
      case Start(outcome) => StartingKeeps(cfg, s, outcome);
      case Take(syncDue) => TakeKeeps(cfg, s, syncDue);
      case Sync(outcome) => SyncKeeps(cfg, s, outcome);
      case Prepare => PreparationKeeps(cfg, s);
      case SyncForRotation(outcome) => RotationSyncKeeps(cfg, s, outcome);
      case Publish(outcome) => PublishedKeeps(cfg, s, outcome);
      case Write(count) =>
        if s.writer.pc.written + count < |s.writer.pc.bytes| {
          WritingSomeKeeps(cfg, s, count);
        } else {
          WritingAllKeeps(cfg, s, count);
        }
      case WriteFails(error, landed) => WriteFailingKeeps(cfg, s, error, landed);
      case Settle(syncDue) => SettlementKeeps(cfg, s, syncDue);
      case Cut(outcome) => CuttingKeeps(cfg, s, outcome);
      case SyncAtEnd(outcome) => FinalSyncKeeps(cfg, s, outcome);
      case Exit => ExitKeeps(cfg, s);
    }
  }

  lemma SyncKeeps(cfg: Config, s: System, outcome: Outcome)
    requires Configured(cfg) && Inv(cfg, s) && s.writer.pc.Syncing?
    ensures Inv(cfg, Synced(s, outcome, Ready, FinalSync))
  {
    hide Inv;
    SyncedKeeps(cfg, s, Ready);
    if outcome.Failed? {
      StoppingKeeps(cfg, s, WriteFailed(Storage(outcome.kind)));
      GaveUpSync(cfg, Stopping(s, WriteFailed(Storage(outcome.kind))));
    }
  }

  lemma GaveUpSync(cfg: Config, s: System)
    requires Inv(cfg, s) && s.shared.stopped.Some?
    ensures s.writer.pc.Syncing? ==> Inv(cfg, At(s, FinalSync))
    ensures s.writer.pc.FinalSync? ==> Inv(cfg, At(s, Exiting))
  {
    hide ValidTape, OpenBytes, Stored, SequencedWell, Appended, AppendedWhole, Appending, Rotating, TapeEnd, TapeBytes;
  }

  lemma RotationSyncKeeps(cfg: Config, s: System, outcome: Outcome)
    requires Configured(cfg) && Inv(cfg, s) && s.writer.pc.RotationSync?
    ensures Inv(cfg, SyncingRotation(s, outcome))
  {
    hide Inv;
    RotationSyncedKeeps(cfg, s);
    NothingBeyondYet(cfg, s);
    if outcome.Failed? {
      GivingUpKeeps(cfg, s, s.writer.pc.record, s.writer.segmentLen, WriteFailed(Storage(outcome.kind)));
    }
  }

  lemma NothingBeyondYet(cfg: Config, s: System)
    requires Inv(cfg, s) && s.writer.pc.RotationSync?
    ensures s.ledger.beyond.None?
  {
    hide ValidTape, OpenBytes, Stored, SequencedWell, Appended, Rotating, Measured;
  }

  lemma FinalSyncKeeps(cfg: Config, s: System, outcome: Outcome)
    requires Configured(cfg) && Inv(cfg, s) && s.writer.pc.FinalSync?
    ensures Inv(cfg, Synced(s, outcome, Exiting, Exiting))
  {
    hide Inv;
    SyncedKeeps(cfg, s, Exiting);
    if outcome.Failed? {
      StoppingKeeps(cfg, s, WriteFailed(Storage(outcome.kind)));
      GaveUpSync(cfg, Stopping(s, WriteFailed(Storage(outcome.kind))));
    }
  }

  lemma {:induction false} RunKeeps(cfg: Config, states: seq<System>, events: seq<Event>, n: nat)
    requires Configured(cfg) && Run(cfg, states, events) && n <= |events|
    ensures Inv(cfg, states[n])
  {
    hide Inv, Next, Initial, Enabled;
    if n == 0 {
      InitialInv(cfg);
    } else {
      RunKeeps(cfg, states, events, n - 1);
      NextKeeps(cfg, states[n - 1], events[n - 1]);
    }
  }
}
