/**
 The recorder's code. `Shared` is what the lock guards, and what producers and the close do under it; `Writer` is the
 writer thread. Each method is one lock-held region or one storage call, and is the step it is named for.
 */
module RecorderThread {
  import opened Wrappers
  import opened Bytes
  import opened Recording
  import opened RecordingLanguage
  import opened Recorder

  /** `bytes` in pieces of at most `MAX_PAYLOAD`, as output is offered. */
  function Chunks(bytes: seq<byte>): seq<seq<byte>> {
    if |bytes| == 0 then []
    else if |bytes| <= MAX_PAYLOAD then [bytes]
    else [bytes[..MAX_PAYLOAD]] + Chunks(bytes[MAX_PAYLOAD..])
  }

  /** Chunking loses nothing, and every chunk may be offered. */
  lemma {:induction false} ChunksAreOfferable(bytes: seq<byte>)
    ensures Concat(Chunks(bytes)) == bytes
    ensures forall i :: 0 <= i < |Chunks(bytes)| ==> Offerable(Output(Chunks(bytes)[i]))
    decreases |bytes|
  {
    hide Concat;
    ConcatNone();
    if |bytes| > MAX_PAYLOAD {
      ChunksAreOfferable(bytes[MAX_PAYLOAD..]);
      ConcatFront(Chunks(bytes));
    } else if bytes != [] {
      assert [bytes][1..] == [] && bytes + [] == bytes;
      ConcatFront([bytes]);
    }
  }

  /** One offer per chunk, all under one lock, each at the time the clock then shows. */
  function EnqueueChunks(limits: Limits, f: Front, times: seq<u64>, chunks: seq<seq<byte>>): Front
    requires |times| == |chunks|
    decreases |chunks|
  {
    if chunks == [] then f
    else EnqueueChunks(limits, Enqueue(limits, f, times[0], Output(chunks[0])), times[1..], chunks[1..])
  }

  class Shared {
    const limits: Limits
    var next: Option<Sequence>
    var backlog: seq<Record>
    var backlogBytes: nat
    var accepting: bool
    var appended: Option<Sequence>
    var synced: Option<Sequence>
    var segments: nat
    var stopped: Option<Stopped>
    var reportArmed: bool
    var writerDone: bool
    ghost var trace: Trace

    function View(): State
      reads this
    {
      State(next, backlog, backlogBytes, accepting, appended, synced, segments, stopped, reportArmed, writerDone)
    }

    ghost function Guarded(): Front
      reads this
    {
      Front(View(), trace)
    }

    constructor (limits: Limits, first: Sequence)
      ensures this.limits == limits
      ensures Guarded() == Front(State(Some(first), [], 0, true, None, None, 0, None, true, false), Trace([], 0, []))
    {
      this.limits := limits;
      next := Some(first);
      backlog, backlogBytes, accepting := [], 0, true;
      appended, synced, segments, stopped, reportArmed, writerDone := None, None, 0, None, true, false;
      trace := Trace([], 0, []);
    }

    method Stop(reason: StopReason)
      modifies this`stopped, this`backlog, this`backlogBytes, this`reportArmed, this`trace
      ensures Guarded() == Recorder.Stop(old(Guarded()), reason)
    {
      if stopped.None? {
        var declared := Stopped(appended, reason);
        stopped := Some(declared);
        backlog := [];
        backlogBytes := 0;
        if reportArmed {
          reportArmed := false;
          trace := trace.(reports := trace.reports + [declared]);
        }
      }
    }

    method Enqueue(elapsedNs: u64, kind: RecordKind)
      requires Offerable(kind)
      modifies this`next, this`stopped, this`backlog, this`backlogBytes, this`reportArmed, this`trace
      ensures Guarded() == Recorder.Enqueue(limits, old(Guarded()), elapsedNs, kind)
    {
      hide Recorder.Stop;
      trace := trace.(now := elapsedNs);
      if stopped.Some? || !accepting {
        return;
      }
      if next.None? {
        Stop(SizeLimit);
        return;
      }
      var record := Record(next.value, elapsedNs, kind);
      var cost := Cost(record);
      if backlogBytes + cost > limits.backlogBytes {
        Stop(BacklogFull);
        return;
      }
      next := NextSequence(record.sequence);
      backlog := backlog + [record];
      backlogBytes := backlogBytes + cost;
      trace := trace.(sequenced := trace.sequenced + [record]);
    }

    /** The clock is read for each chunk. */
    method Output(times: seq<u64>, bytes: seq<byte>)
      requires |times| == |Chunks(bytes)|
      modifies this`next, this`stopped, this`backlog, this`backlogBytes, this`reportArmed, this`trace
      ensures Guarded() == EnqueueChunks(limits, old(Guarded()), times, Chunks(bytes))
    {
      hide Recorder.Enqueue;
      var rest, clock := bytes, times;
      while rest != []
        invariant |clock| == |Chunks(rest)|
        invariant EnqueueChunks(limits, Guarded(), clock, Chunks(rest))
                  == EnqueueChunks(limits, old(Guarded()), times, Chunks(bytes))
        decreases |rest|
      {
        var n := if |rest| <= MAX_PAYLOAD then |rest| else MAX_PAYLOAD;
        assert rest[..|rest|] == rest && rest[|rest|..] == [];
        assert Chunks(rest) == [rest[..n]] + Chunks(rest[n..]);
        Enqueue(clock[0], RecordKind.Output(rest[..n]));
        rest, clock := rest[n..], clock[1..];
      }
    }

    method BeginClose()
      modifies this`accepting
      ensures Guarded() == old(Guarded()).(state := old(View()).(accepting := false))
    {
      accepting := false;
    }

    /** How `finish` returns once the writer is done or the wait timed out. */
    method EndClose() returns (lastRecorded: Option<Sequence>, lastSynced: Option<Sequence>, end: Option<Stopped>, count: nat)
      requires !accepting
      modifies this`stopped, this`backlog, this`backlogBytes, this`reportArmed, this`trace
      ensures Guarded() == if writerDone then old(Guarded()) else Recorder.Stop(old(Guarded()), Stalled)
      ensures lastRecorded == appended && lastSynced == synced && end == stopped && count == segments
      ensures !writerDone ==> end.Some?
    {
      if !writerDone {
        Stop(Stalled);
      }
      return appended, synced, stopped, segments;
    }

    /** A record off the front of the backlog. */
    method Pop() returns (record: Record)
      requires backlog != []
      modifies this`backlog, this`backlogBytes
      ensures record == old(backlog)[0]
      ensures Guarded() == old(Guarded()).(state := old(View()).(backlog := old(backlog)[1..],
                                                             backlogBytes := Monus(old(backlogBytes), Cost(record))))
    {
      record := backlog[0];
      backlog := backlog[1..];
      backlogBytes := if Cost(record) <= backlogBytes then backlogBytes - Cost(record) else 0;
    }
  }

  class Writer {
    const cfg: Config
    const shared: Shared
    var pc: Pc
    var encoder: SegmentEncoder
    var rotation: SegmentEncoder?
    var segmentLen: nat
    var totalLen: nat
    var lastAppended: Option<Sequence>
    var unsynced: bool
    var store: seq<seq<byte>>
    ghost var ledger: Ledger

    ghost function Own(): Recorder.Writer
      reads this, encoder
    {
      Recorder.Writer(pc, encoder.State(), segmentLen, totalLen, lastAppended, unsynced)
    }

    ghost function View(): System
      reads this, encoder, shared
    {
      System(shared.View(), Own(), store, shared.trace, ledger)
    }

    /** Between preparing a rotation and publishing it, the next segment's encoder is at hand. */
    ghost predicate Valid()
      reads this, encoder, rotation
    {
      pc.RotationSync? || pc.RotationPublish? ==>
        rotation != null && rotation != encoder && rotation.State() == pc.rotated
    }

    constructor (cfg: Config, shared: Shared)
      ensures Valid() && fresh(encoder) && this.cfg == cfg && this.shared == shared
      ensures shared.Guarded() == Front(Initial(cfg).shared, Initial(cfg).trace) ==> View() == Initial(cfg)
    {
      this.cfg := cfg;
      this.shared := shared;
      pc, rotation := NotStarted, null;
      segmentLen, totalLen, lastAppended, unsynced := 0, 0, None, false;
      store, ledger := [], Ledger(None, None, false);
      encoder := new SegmentEncoder.FromState(
        EncoderState(cfg.header, Some(cfg.header.firstSequence), None, cfg.header.geometry, 0));
    }

    /** Stop the recording and go on to `onward`. */
    method StopAndGo(reason: StopReason, onward: Pc)
      requires !onward.RotationSync? && !onward.RotationPublish?
      modifies this`pc, shared
      ensures Valid()
      ensures View() == At(Stopping(old(View()), reason), onward)
    {
      hide Recorder.Stop;
      shared.Stop(reason);
      pc := onward;
    }

    // ---------------------------------------------------------------- publishing

    method LandSegment(header: seq<byte>, ghost st: EncoderState)
      requires header == HeaderBytes(cfg.crc, st.header)
      modifies this`store, this`ledger
      ensures View() == Landed(cfg, old(View()), st)
    {
      hide HeaderBytes, Rotated;
      store := store + [header];
      ledger := ledger.(tape := Some(
        if ledger.tape.None? then Tape(st.header, [], []) else Rotated(ledger.tape.value)));
    }

    method PublishSegment(header: seq<byte>, index: u32, outcome: Outcome, ghost st: EncoderState) returns (ok: bool)
      requires header == HeaderBytes(cfg.crc, st.header) && index == st.header.segmentIndex
      modifies this`store, this`segmentLen, this`totalLen, this`ledger, shared`segments
      ensures (ok <==> outcome.Done?) && (ok <==> Publishing(cfg, old(View()), st, outcome).Success?)
      ensures View() == Left(Publishing(cfg, old(View()), st, outcome))
    {
      hide HeaderBytes, Landed;
      ok := outcome.Done?;
      if outcome.Done? || outcome.landed {
        LandSegment(header, st);
      }
      if ok {
        segmentLen := |header|;
        totalLen := totalLen + |header|;
        shared.segments := index + 1;
      }
    }

    method Start(outcome: Outcome)
      requires Valid() && pc.NotStarted?
      modifies this, shared
      ensures Valid() && (encoder == old(encoder) || fresh(encoder))
      ensures View() == Starting(cfg, old(View()), outcome)
    {
      hide HeaderBytes, Publishing, Stopping;
      var created := SegmentEncoder.New(cfg.header);
      if created.Failure? {
        StopAndGo(WriteFailed(BadHeader), Exiting);
        return;
      }
      var header := HeaderBytes(cfg.crc, cfg.header);
      if totalLen + |header| > cfg.limits.maxBytes {
        StopAndGo(SizeLimit, Exiting);
        return;
      }
      var ok := PublishSegment(header, cfg.header.segmentIndex, outcome, created.value.State());
      if ok {
        encoder := created.value;
        pc := Ready;
      } else {
        StopAndGo(WriteFailed(Storage(outcome.kind)), Exiting);
      }
    }

    // ---------------------------------------------------------------- between records

    /** The lock-held region of `next_record`. */
    method NextRecord(syncDue: bool)
      requires Valid() && pc.Ready?
      modifies this`pc, shared`backlog, shared`backlogBytes
      ensures Valid()
      ensures View() == Taking(old(View()), syncDue)
    {
      if shared.stopped.Some? {
        pc := FinalSync;
      } else if shared.backlog != [] {
        var record := shared.Pop();
        pc := Preparing(record);
      } else if !shared.accepting {
        pc := FinalSync;
      } else if unsynced && syncDue {
        pc := Syncing;
      }
    }

    /** Sync the open segment; `false` and nothing changed if storage refuses. */
    method SyncSegment(outcome: Outcome) returns (ok: bool)
      modifies this`unsynced, shared`synced
      ensures ok <==> SyncOutcome(old(View()), outcome).Success?
      ensures View() == if ok then SyncOutcome(old(View()), outcome).value else old(View())
      ensures !ok ==> outcome.Failed? && SyncOutcome(old(View()), outcome).error == WriteFailed(Storage(outcome.kind))
    {
      if !unsynced {
        return true;
      }
      if outcome.Failed? {
        return false;
      }
      unsynced := false;
      shared.synced := lastAppended;
      return true;
    }

    /** An idle or periodic sync, or the one before the thread ends: failure stops the recording. */
    method Sync(outcome: Outcome, onward: Pc, onStop: Pc)
      requires Valid() && onward in {Ready, Exiting} && onStop in {FinalSync, Exiting}
      modifies this, shared
      ensures Valid() && encoder == old(encoder)
      ensures View() == Synced(old(View()), outcome, onward, onStop)
    {
      hide SyncOutcome, Stopping;
      var ok := SyncSegment(outcome);
      if ok {
        pc := onward;
      } else {
        StopAndGo(WriteFailed(Storage(outcome.kind)), onStop);
      }
    }

    // ---------------------------------------------------------------- one record

    /** Encode the record taken, preparing a rotation first if the segment is full. */
    method PrepareRecord()
      requires Valid() && pc.Preparing?
      modifies this, encoder
      ensures Valid() && encoder == old(encoder) && (rotation == old(rotation) || fresh(rotation))
      ensures View() == Preparation(cfg, old(View()), old(pc).record)
    {
      hide HeaderBytes, RecordBytes, NextSegment, Refusal, Advance;
      var record := pc.record;
      if segmentLen >= cfg.limits.segmentBytes {
        var rotated := encoder.Rotate();
        if rotated.Success? {
          var next := rotated.value;
          ghost var started := next.State();
          var encoded := next.Encode(cfg.crc, record);
          if encoded.Failure? {
            pc := Settling(record, segmentLen, false, Some(WriteFailed(EncoderRefused)));
            return;
          }
          AdvanceKeepsHeader(started, record);
          var header := HeaderBytes(cfg.crc, next.header);
          if totalLen + (|header| + |encoded.value|) > cfg.limits.maxBytes {
            pc := Settling(record, segmentLen, false, Some(SizeLimit));
          } else {
            rotation := next;
            pc := RotationSync(record, encoded.value, next.State());
          }
          return;
        }
      }
      var encoded := encoder.Encode(cfg.crc, record);
      if encoded.Failure? {
        pc := Settling(record, segmentLen, false, Some(WriteFailed(EncoderRefused)));
      } else if totalLen + |encoded.value| > cfg.limits.maxBytes {
        pc := Settling(record, segmentLen, false, Some(SizeLimit));
      } else {
        ledger := ledger.(beyond := Some(record));
        pc := Writing(record, encoded.value, 0);
      }
    }

    /** A rotation closes the old segment with a sync. */
    method SyncBeforeRotation(outcome: Outcome)
      requires Valid() && pc.RotationSync?
      modifies this, shared
      ensures Valid() && encoder == old(encoder)
      ensures View() == SyncingRotation(old(View()), outcome)
    {
      hide SyncOutcome;
      var record, bytes, rotated := pc.record, pc.bytes, pc.rotated;
      var ok := SyncSegment(outcome);
      pc := if ok then RotationPublish(record, bytes, rotated)
            else Settling(record, segmentLen, false, Some(WriteFailed(Storage(outcome.kind))));
    }

    method PublishRotation(outcome: Outcome)
      requires Valid() && pc.RotationPublish?
      modifies this, shared
      ensures Valid() && (encoder == old(encoder) || encoder == old(rotation))
      ensures View() == PublishingRotation(cfg, old(View()), outcome)
    {
      hide HeaderBytes, Publishing;
      var record, bytes := pc.record, pc.bytes;
      var before := segmentLen;
      var header := HeaderBytes(cfg.crc, rotation.header);
      if totalLen + |header| > cfg.limits.maxBytes {
        pc := Settling(record, before, false, Some(SizeLimit));
        return;
      }
      var ok := PublishSegment(header, rotation.header.segmentIndex, outcome, rotation.State());
      if ok {
        encoder := rotation;
        ledger := ledger.(beyond := Some(record));
        pc := Writing(record, bytes, 0);
      } else {
        pc := Settling(record, before, false, Some(WriteFailed(Storage(outcome.kind))));
      }
    }

    method Extend(bytes: seq<byte>)
      requires store != []
      modifies this`store
      ensures store == Extended(old(store), bytes)
    {
      var last := |store| - 1;
      store := store[last := store[last] + bytes];
    }

    /** One `write` of the append's loop took `count` bytes. */
    method WriteSome(count: nat)
      requires Valid() && pc.Writing? && store != [] && 1 <= count <= |pc.bytes| - pc.written
      modifies this
      ensures Valid() && encoder == old(encoder)
      ensures View() == WritingSome(old(View()), count)
    {
      hide Extended;
      var record, bytes, written := pc.record, pc.bytes, pc.written + count;
      Extend(bytes[pc.written..written]);
      if written < |bytes| {
        pc := Writing(record, bytes, written);
      } else {
        pc := Settling(record, segmentLen, true, None);
        segmentLen := segmentLen + |bytes|;
        totalLen := totalLen + |bytes|;
        unsynced := true;
      }
    }

    method FailWrite(error: int, landed: nat)
      requires Valid() && pc.Writing? && store != [] && landed <= |pc.bytes| - pc.written
      modifies this
      ensures Valid() && encoder == old(encoder)
      ensures View() == WriteFailing(old(View()), error, landed)
    {
      hide Extended;
      Extend(pc.bytes[pc.written..pc.written + landed]);
      pc := Settling(pc.record, segmentLen, true, Some(WriteFailed(Storage(error))));
    }

    /** The record is appended: the marks move up to it. */
    method Accept(record: Record, onward: Pc)
      requires onward in {Ready, Syncing}
      modifies this, shared`appended
      ensures encoder == old(encoder) && pc == onward && lastAppended == shared.appended == Some(record.sequence)
      ensures segmentLen == old(segmentLen) && totalLen == old(totalLen) && unsynced == old(unsynced) && store == old(store)
      ensures ledger.beyond.None? && ledger.cutFailed == old(ledger).cutFailed
      ensures ledger.tape == if old(ledger).tape.None? then None
                             else Some(old(ledger).tape.value.(open := old(ledger).tape.value.open + [record]))
    {
      shared.appended := Some(record.sequence);
      lastAppended := Some(record.sequence);
      ledger := Ledger(if ledger.tape.None? then None
                       else Some(ledger.tape.value.(open := ledger.tape.value.open + [record])),
                       None, ledger.cutFailed);
      pc := onward;
    }

    /** The lock-held region after an append: a stop that came first puts the append beyond the boundary. */
    method SettleAppend(syncDue: bool)
      requires Valid() && pc.Settling?
      modifies this, shared
      ensures Valid() && encoder == old(encoder)
      ensures View() == Settlement(old(View()), syncDue)
    {
      hide Stopping;
      var settled := pc;
      var leave := if settled.attempted then Cutting(settled.before) else FinalSync;
      if shared.stopped.Some? {
        pc := leave;
      } else if settled.failure.Some? {
        StopAndGo(settled.failure.value, leave);
      } else {
        Accept(settled.record, if syncDue then Syncing else Ready);
      }
    }

    /** Remove whatever the append left beyond the boundary. */
    method CutBack(outcome: Outcome)
      requires Valid() && pc.Cutting? && store != [] && pc.before <= |store[|store| - 1]|
      modifies this
      ensures Valid() && encoder == old(encoder)
      ensures View() == CuttingBack(old(View()), outcome)
    {
      var before := pc.before;
      var last := |store| - 1;
      pc := FinalSync;
      if outcome.Failed? && !outcome.landed {
        ledger := ledger.(cutFailed := true);
      } else {
        store := store[last := store[last][..before]];
        ledger := ledger.(beyond := None);
        if outcome.Done? {
          var removed := if before <= segmentLen then segmentLen - before else 0;
          totalLen := if removed <= totalLen then totalLen - removed else 0;
          segmentLen := before;
        }
      }
    }

    method Finish()
      requires Valid() && pc.Exiting?
      modifies shared`writerDone, this`pc
      ensures Valid()
      ensures View() == Next(cfg, old(View()), Exit)
    {
      shared.writerDone := true;
      pc := Exited;
    }
  }

  lemma AdvanceKeepsHeader(st: EncoderState, r: Record)
    ensures Advance(st, r).header == st.header
  {
  }
}
