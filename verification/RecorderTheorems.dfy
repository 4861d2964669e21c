/** What every run of the recorder leaves in its store, whatever the storage did and whenever it stopped. */
module RecorderTheorems {
  import opened Wrappers
  import opened Bytes
  import opened Recording
  import opened Decoder
  import opened SegmentLanguage
  import opened RecordingLanguage
  import opened Recorder
  import opened RecorderInvariant

  /** The records appended when the writer's mark is `appended`. */
  function UpTo(sequenced: seq<Record>, appended: Option<Sequence>): seq<Record>
    requires Number(appended) <= |sequenced|
  {
    sequenced[..Number(appended)]
  }

  lemma AppendedAreSequenced(cfg: Config, s: System)
    requires Inv(cfg, s)
    ensures Number(s.shared.appended) <= |s.trace.sequenced|
    ensures Appended(s.ledger) == UpTo(s.trace.sequenced, s.shared.appended)
    ensures s.ledger.beyond.Some? ==>
              Number(s.shared.appended) < |s.trace.sequenced|
              && s.trace.sequenced[Number(s.shared.appended)] == s.ledger.beyond.value
  {
    hide Stored, AtPc, Appended;
    var a := Appended(s.ledger);
    assert a <= a + InFlight(s.writer.pc) + s.shared.backlog <= s.trace.sequenced;
    if a != [] {
      assert s.trace.sequenced[|a| - 1] == a[|a| - 1];
    }
    if s.ledger.beyond.Some? {
      assert (a + [s.ledger.beyond.value])[|a|] == s.trace.sequenced[|a|];
    }
  }

  /** Part of a record after a tape, as the decoder sees it: dropped if cut short, one record more if whole. */
  lemma ExcessDecodes(crc: Checksum, store: seq<seq<byte>>, t: Tape, beyond: Option<Record>) returns (held: Tape)
    requires ValidTape(t) && StoredTape(crc, store, t, beyond) && |store| <= U32_MAX
    ensures held == t || (beyond.Some? && held == t.(open := t.open + [beyond.value]))
    ensures beyond.None? ==> held == t && Holding(crc, store, t, Clean)
    ensures exists end :: Holding(crc, store, held, end)
  {
    hide ValidTape, TapeEnd, ClosedBytes, Accepts, OpenBytes, RecordBytes;
    held := t;
    var last := store[|t.closed|];
    EmptyTail();
    if beyond.None? {
      assert last[|OpenBytes(crc, t)|..] == [];
      assert Holding(crc, store, t, Clean);
    } else {
      LongerTape(crc, t, beyond.value);
      if Excess(crc, store, t) == RecordBytes(crc, beyond.value) {
        held := t.(open := t.open + [beyond.value]);
        assert last == OpenBytes(crc, t) + Excess(crc, store, t);
        assert last[|OpenBytes(crc, held)|..] == [];
        assert Holding(crc, store, held, EndAt(last, |OpenBytes(crc, held)|));
      } else {
        CutRecord(crc, beyond.value, Excess(crc, store, t));
        assert Holding(crc, store, t, EndAt(last, |OpenBytes(crc, t)|));
      }
    }
  }

  lemma TooManySegments(crc: Checksum, store: seq<seq<byte>>)
    requires |store| > U32_MAX
    ensures RecordingDecoding(crc, store).Failure?
  {
    hide AbsorbSegment;
  }

  /**
   * A crash at any moment leaves a recording: in every reachable state, mid-append included, whatever is stored
   * decodes (given fewer than 2^32 segments) to the run's first records in order: all those appended, and at
   * most the one then being appended.
   */
  lemma StoreAlwaysDecodes(cfg: Config, states: seq<System>, events: seq<Event>, n: nat)
    requires Configured(cfg) && Run(cfg, states, events) && n <= |events| && states[n].store != []
    ensures var s := states[n];
            var d := RecordingDecoding(cfg.crc, s.store);
            && (d.Success? <==> |s.store| <= U32_MAX)
            && (d.Success? ==>
                  && d.value.header == cfg.header
                  && Number(s.shared.appended) <= |d.value.records| <= Number(s.shared.appended) + 1
                  && d.value.records <= s.trace.sequenced)
  {
    hide RecordingDecoding, Holding, ValidTape, OpenBytes, TapeRecords;
    var s := states[n];
    RunKeeps(cfg, states, events, n);
    StoredStateDecodes(cfg, s);
  }

  lemma StoredStateDecodes(cfg: Config, s: System)
    requires Inv(cfg, s) && s.store != []
    ensures var d := RecordingDecoding(cfg.crc, s.store);
            && (d.Success? <==> |s.store| <= U32_MAX)
            && (d.Success? ==>
                  && d.value.header == cfg.header
                  && Number(s.shared.appended) <= |d.value.records| <= Number(s.shared.appended) + 1
                  && d.value.records <= s.trace.sequenced)
            && (d.Success? && s.ledger.beyond.None? ==>
                  && Number(s.shared.appended) <= |s.trace.sequenced|
                  && d.value == DecodedRecording(cfg.header, |s.store|, UpTo(s.trace.sequenced, s.shared.appended), Clean))
  {
    hide RecordingDecoding, Holding, ValidTape, OpenBytes, TapeRecords, ClosedBytes, Accepts, AtPc, SequencedWell, InOrder;
    AppendedAreSequenced(cfg, s);
    if |s.store| <= U32_MAX {
      var t := s.ledger.tape.value;
      var held := ExcessDecodes(cfg.crc, s.store, t, s.ledger.beyond);
      var end :| Holding(cfg.crc, s.store, held, end);
      TapeDecodes(cfg.crc, s.store, held, end);
      HeldRecords(t, held, s.ledger.beyond);
      if s.ledger.beyond.None? {
        TapeDecodes(cfg.crc, s.store, held, Clean);
      }
    } else {
      TooManySegments(cfg.crc, s.store);
    }
  }

  lemma HeldRecords(t: Tape, held: Tape, beyond: Option<Record>)
    ensures held == t ==> TapeRecords(held) == TapeRecords(t)
    ensures beyond.Some? && held == t.(open := t.open + [beyond.value]) ==>
              TapeRecords(held) == TapeRecords(t) + [beyond.value]
  {
  }

  /**
   * Once the writer has exited, and if no cut failed, the store decodes cleanly to exactly the records appended;
   * after a stop their last sequence is the one the stop declared, even if a later append had finished.
   */
  lemma FinishedRecordingIsExact(cfg: Config, states: seq<System>, events: seq<Event>, n: nat)
    requires Configured(cfg) && Run(cfg, states, events) && n <= |events|
    requires var s := states[n];
             s.shared.writerDone && !s.ledger.cutFailed && s.store != [] && |s.store| <= U32_MAX
    ensures var s := states[n];
            && Number(s.shared.appended) <= |s.trace.sequenced|
            && RecordingDecoding(cfg.crc, s.store)
               == Success(DecodedRecording(cfg.header, |s.store|, UpTo(s.trace.sequenced, s.shared.appended), Clean))
            && (s.shared.stopped.Some? ==> s.shared.stopped.value.lastRecorded == s.shared.appended)
  {
    hide RecordingDecoding, Stored, Working, ValidTape, Appended, SequencedWell;
    RunKeeps(cfg, states, events, n);
    StoredStateDecodes(cfg, states[n]);
  }

  /** Without a stop, everything sequenced was appended, synced, and decodes. */
  lemma FinishedWithoutStop(cfg: Config, states: seq<System>, events: seq<Event>, n: nat)
    requires Configured(cfg) && Run(cfg, states, events) && n <= |events|
    requires states[n].shared.writerDone && states[n].shared.stopped.None?
    ensures var s := states[n];
            && s.store != []
            && s.shared.synced == s.shared.appended == Last(s.trace.sequenced)
            && (|s.store| <= U32_MAX ==>
                  RecordingDecoding(cfg.crc, s.store)
                  == Success(DecodedRecording(cfg.header, |s.store|, s.trace.sequenced, Clean)))
  {
    hide RecordingDecoding, Working, ValidTape, SequencedWell, TapeRecords, StoredTape;
    var s := states[n];
    RunKeeps(cfg, states, events, n);
    var t := s.ledger.tape.value;
    assert TapeRecords(t) + [] + [] == s.trace.sequenced;
    assert |s.store| == |t.closed| + 1 by {
      TapeLength(cfg, s, t);
    }
    StoredStateDecodes(cfg, s);
    AppendedAreSequenced(cfg, s);
    assert s.ledger.beyond.None?;
  }

  lemma TapeLength(cfg: Config, s: System, t: Tape)
    requires ValidTape(t) && StoredTape(cfg.crc, s.store, t, s.ledger.beyond)
    ensures |s.store| == |t.closed| + 1
  {
  }

  // ---------------------------------------------------------------- stops

  /** A stop is final: the declared boundary, its one report and the sequenced records never change again. */
  lemma {:induction false} StopIsFinal(cfg: Config, states: seq<System>, events: seq<Event>, i: nat, j: nat)
    requires Configured(cfg) && Run(cfg, states, events) && i <= j <= |events|
    requires states[i].shared.stopped.Some?
    ensures states[j].shared.stopped == states[i].shared.stopped
    ensures states[j].shared.appended == states[i].shared.appended == states[i].shared.stopped.value.lastRecorded
    ensures states[j].trace.sequenced == states[i].trace.sequenced
    ensures states[j].trace.reports == [states[i].shared.stopped.value]
    decreases j - i
  {
    hide Inv, Next, Initial, Enabled, Last;
    RunKeeps(cfg, states, events, i);
    StoppedFacts(cfg, states[i]);
    if i < j {
      StopIsFinal(cfg, states, events, i, j - 1);
      RunKeeps(cfg, states, events, j);
      StoppedFacts(cfg, states[j]);
      StoppedStep(cfg, states[j - 1], events[j - 1]);
    }
  }

  lemma StoppedFacts(cfg: Config, s: System)
    requires Inv(cfg, s)
    ensures s.shared.stopped.Some? ==>
              s.trace.reports == [s.shared.stopped.value] && s.shared.appended == s.shared.stopped.value.lastRecorded
    ensures |s.trace.reports| <= 1
  {
    hide Stored, AtPc, SequencedWell, InOrder, Marks;
  }

  lemma StoppedStep(cfg: Config, s: System, e: Event)
    requires Enabled(cfg, s, e)
    ensures s.shared.stopped.Some? ==>
              var q := Next(cfg, s, e);
              q.shared.stopped == s.shared.stopped && q.trace.sequenced == s.trace.sequenced
  {
    hide Starting, Taking, Synced, SyncingRotation, Preparation, PublishingRotation, WritingSome, WriteFailing,
         Settlement, CuttingBack, Enqueue, Stop;
    StopStays(s, Stalled);
    match e {
      case Offer(elapsedNs, kind) => OfferStays(cfg, s, elapsedNs, kind);
      case Start(outcome) => StartStays(cfg, s, outcome);
      case Take(syncDue) => TakeStays(s, syncDue);
      case Sync(outcome) => SyncStays(s, outcome, Ready, FinalSync);
      case SyncAtEnd(outcome) => SyncStays(s, outcome, Exiting, Exiting);
      case SyncForRotation(outcome) => RotationSyncStays(s, outcome);
      case Prepare => PreparationStops(cfg, s);
      case Publish(outcome) => PublishingStops(cfg, s, outcome);
      case Write(count) => WriteStays(s, count);
      case WriteFails(error, landed) => WriteFailsStays(s, error, landed);
      case Settle(syncDue) => SettleStays(s, syncDue);
      case Cut(outcome) => CutStays(s, outcome);
      case _ =>
    }
  }

  /** A stop stays as it was, and with it the sequenced records; and no stop comes to blame the encoder. */
  predicate Follows(s: System, q: System) {
    && (s.shared.stopped.Some? ==> q.shared.stopped == s.shared.stopped && q.trace.sequenced == s.trace.sequenced)
    && (NeverRefused(s) ==> NeverRefused(q))
  }

  lemma StopStays(s: System, reason: StopReason)
    requires reason != WriteFailed(EncoderRefused)
    ensures Follows(s, Stopping(s, reason)) && Stopping(s, reason).writer == s.writer
  {
  }

  lemma OfferStays(cfg: Config, s: System, elapsedNs: u64, kind: RecordKind)
    ensures Follows(s, WithFront(s, Enqueue(cfg.limits, FrontOf(s), elapsedNs, kind)))
  {
  }

  lemma StartStays(cfg: Config, s: System, outcome: Outcome)
    requires s.writer.pc.NotStarted?
    ensures Follows(s, Starting(cfg, s, outcome))
  {
    hide HeaderBytes, NewEncoder, Rotated;
  }

  lemma TakeStays(s: System, syncDue: bool)
    requires s.writer.pc.Ready?
    ensures Follows(s, Taking(s, syncDue))
  {
  }

  lemma SyncStays(s: System, outcome: Outcome, onward: Pc, stopped: Pc)
    requires !onward.Settling? && !stopped.Settling?
    ensures Follows(s, Synced(s, outcome, onward, stopped))
  {
    hide Stopping, At, SyncOutcome, Follows;
    SyncOutcomeStays(s, outcome);
    match SyncOutcome(s, outcome)
    case Success(synced) => AtStays(s, synced, onward);
    case Failure(reason) =>
      StopStays(s, reason);
      AtStays(s, Stopping(s, reason), stopped);
  }

  lemma SyncOutcomeStays(s: System, outcome: Outcome)
    ensures match SyncOutcome(s, outcome)
      case Success(synced) => Follows(s, synced)
      case Failure(reason) => reason != WriteFailed(EncoderRefused)
  {
  }

  lemma AtStays(s: System, q: System, pc: Pc)
    requires Follows(s, q) && !pc.Settling?
    ensures Follows(s, At(q, pc))
  {
  }

  lemma RotationSyncStays(s: System, outcome: Outcome)
    requires s.writer.pc.RotationSync?
    ensures Follows(s, SyncingRotation(s, outcome))
  {
  }

  lemma WriteStays(s: System, count: nat)
    requires s.writer.pc.Writing? && s.store != [] && s.writer.pc.written + count <= |s.writer.pc.bytes|
    ensures Follows(s, WritingSome(s, count))
  {
    hide Extended;
  }

  lemma WriteFailsStays(s: System, error: int, landed: nat)
    requires s.writer.pc.Writing? && s.store != [] && s.writer.pc.written + landed <= |s.writer.pc.bytes|
    ensures Follows(s, WriteFailing(s, error, landed))
  {
    hide Extended;
  }

  lemma SettleStays(s: System, syncDue: bool)
    requires s.writer.pc.Settling?
    ensures Follows(s, Settlement(s, syncDue))
  {
  }

  lemma CutStays(s: System, outcome: Outcome)
    requires s.writer.pc.Cutting? && s.store != [] && s.writer.pc.before <= |s.store[|s.store| - 1]|
    ensures Follows(s, CuttingBack(s, outcome))
  {
  }

  lemma PreparationStops(cfg: Config, s: System)
    requires s.writer.pc.Preparing?
    ensures var q := Preparation(cfg, s, s.writer.pc.record); q.shared == s.shared && q.trace == s.trace
  {
    hide HeaderBytes, RecordBytes, NextSegment, Accepts, Advance;
  }

  lemma PublishingStops(cfg: Config, s: System, outcome: Outcome)
    requires s.writer.pc.RotationPublish?
    ensures var q := PublishingRotation(cfg, s, outcome); q.shared.stopped == s.shared.stopped && q.trace == s.trace
  {
    hide HeaderBytes, Rotated;
  }

  /** No stop, and no record about to settle, blames the encoder. */
  predicate NeverRefused(s: System) {
    && (s.shared.stopped.Some? ==> s.shared.stopped.value.reason != WriteFailed(EncoderRefused))
    && (s.writer.pc.Settling? ==> s.writer.pc.failure != Some(WriteFailed(EncoderRefused)))
  }

  // ---------------------------------------------------------------- limits and refusals

  /** In every state: the size limit holds headers included, the backlog is within its own, marks never pass. */
  lemma LimitsHold(cfg: Config, states: seq<System>, events: seq<Event>, n: nat)
    requires Configured(cfg) && Run(cfg, states, events) && n <= |events|
    ensures var s := states[n];
            && TotalBytes(s.store) <= cfg.limits.maxBytes
            && HEADER_MIN_LEN * |s.store| <= cfg.limits.maxBytes
            && s.shared.backlogBytes == TotalCost(s.shared.backlog) <= cfg.limits.backlogBytes
            && Number(s.shared.synced) <= Number(s.shared.appended) <= |s.trace.sequenced|
            && |s.trace.reports| <= 1
  {
    hide Working, ValidTape, SequencedWell, TapeRecords, StoredTape;
    var s := states[n];
    RunKeeps(cfg, states, events, n);
    AppendedAreSequenced(cfg, s);
    StoppedFacts(cfg, s);
    if s.ledger.tape.Some? {
      SegmentsHaveHeaders(cfg.crc, s.store, s.ledger.tape.value, s.ledger.beyond);
    }
  }

  lemma {:induction false} ClosedHaveHeaders(crc: Checksum, h: SegmentHeader, closed: seq<seq<Record>>)
    requires SegmentStart(h, closed).Some?
    ensures TotalBytes(ClosedBytes(crc, h, closed)) >= HEADER_MIN_LEN * |closed|
  {
    hide HeaderBytes, RecordsBytes, NextSegment, AcceptsAll;
    if closed != [] {
      var n := |closed| - 1;
      ClosedHaveHeaders(crc, h, closed[..n]);
      var st := SegmentStart(h, closed[..n]).value;
      AcceptedFit(st, closed[n]);
      HeaderBytesLen(crc, st.header);
      assert ClosedBytes(crc, h, closed)[..n] == ClosedBytes(crc, h, closed[..n]);
    }
  }

  lemma SegmentsHaveHeaders(crc: Checksum, store: seq<seq<byte>>, t: Tape, beyond: Option<Record>)
    requires ValidTape(t) && StoredTape(crc, store, t, beyond)
    ensures TotalBytes(store) >= HEADER_MIN_LEN * |store|
  {
    hide HeaderBytes, RecordsBytes, SegmentStart, AcceptsAll, TapeEnd, Accepts, RecordBytes;
    ClosedHaveHeaders(crc, t.header, t.closed);
    AcceptedFit(TapeStart(t), t.open);
    HeaderBytesLen(crc, TapeStart(t).header);
  }

  lemma NeverRefusedStep(cfg: Config, s: System, e: Event)
    requires Configured(cfg) && Inv(cfg, s) && Enabled(cfg, s, e) && NeverRefused(s)
    ensures NeverRefused(Next(cfg, s, e))
  {
    hide Inv, Starting, Taking, Synced, SyncingRotation, Preparation, PublishingRotation, WritingSome, WriteFailing,
         Settlement, CuttingBack, Enqueue, Stop;
    StopStays(s, Stalled);
    match e {
      case Offer(elapsedNs, kind) => OfferStays(cfg, s, elapsedNs, kind);
      case Start(outcome) => StartStays(cfg, s, outcome);
      case Take(syncDue) => TakeStays(s, syncDue);
      case Sync(outcome) => SyncStays(s, outcome, Ready, FinalSync);
      case SyncAtEnd(outcome) => SyncStays(s, outcome, Exiting, Exiting);
      case SyncForRotation(outcome) => RotationSyncStays(s, outcome);
      case Prepare =>
        PreparationKeeps(cfg, s);
        PreparationStops(cfg, s);
      case Publish(outcome) =>
        PublishedKeeps(cfg, s, outcome);
        PublishingStops(cfg, s, outcome);
      case Write(count) => WriteStays(s, count);
      case WriteFails(error, landed) => WriteFailsStays(s, error, landed);
      case Settle(syncDue) => SettleStays(s, syncDue);
      case Cut(outcome) => CutStays(s, outcome);
      case _ =>
    }
  }

  /** The encoder accepts every record the recorder ever sequences, whatever rotation it meets. */
  lemma {:induction false} EncoderNeverRefuses(cfg: Config, states: seq<System>, events: seq<Event>, n: nat)
    requires Configured(cfg) && Run(cfg, states, events) && n <= |events|
    ensures states[n].shared.stopped.Some? ==> states[n].shared.stopped.value.reason != WriteFailed(EncoderRefused)
    ensures NeverRefused(states[n])
  {
    hide Inv, Next, Enabled;
    if n > 0 {
      EncoderNeverRefuses(cfg, states, events, n - 1);
      RunKeeps(cfg, states, events, n - 1);
      NeverRefusedStep(cfg, states[n - 1], events[n - 1]);
    }
  }

  // ---------------------------------------------------------------- a header the encoder refuses

  /** A header for segment 0 that does not start at sequence one records nothing, and says so when the writer exits. */
  lemma {:induction false} BadHeaderRecordsNothing(cfg: Config, states: seq<System>, events: seq<Event>, n: nat)
    requires cfg.header.segmentIndex == 0 && cfg.header.firstSequence != FIRST_SEQUENCE
    requires Run(cfg, states, events) && n <= |events|
    ensures states[n].store == [] && states[n].shared.appended.None?
    ensures states[n].writer.pc in {NotStarted, Exiting, Exited}
    ensures states[n].shared.writerDone ==> states[n].shared.stopped.Some?
    ensures states[n].writer.pc != NotStarted ==> states[n].shared.stopped.Some?
    ensures states[n].writer.pc.Exited? <==> states[n].shared.writerDone
  {
    hide RecordBytes, HeaderBytes, NextSegment, Accepts, Advance, Extended, Preparation;
    if n > 0 {
      BadHeaderRecordsNothing(cfg, states, events, n - 1);
      var s, e := states[n - 1], events[n - 1];
      assert states[n] == Next(cfg, s, e);
    }
  }
}
