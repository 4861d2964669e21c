/**
 The exact PTY recorder as a state machine: producers, the writer thread, stops and the close, each
 lock-held region and each storage call one atomic step, every storage call free to fail.
 */
module Recorder {
  import opened Wrappers
  import opened Bytes
  import opened Recording
  import opened RecordingLanguage

  datatype Limits = Limits(segmentBytes: u64, maxBytes: u64, backlogBytes: u64)

  datatype FailureCause = Storage(kind: int) | EncoderRefused | BadHeader

  datatype StopReason = SizeLimit | WriteFailed(cause: FailureCause) | BacklogFull | Stalled

  datatype Stopped = Stopped(lastRecorded: Option<Sequence>, reason: StopReason)

  datatype Config = Config(crc: Checksum, header: SegmentHeader, limits: Limits)

  // ---------------------------------------------------------------- the state under the lock

  datatype State = State(
    next: Option<Sequence>,
    backlog: seq<Record>,
    backlogBytes: nat,
    accepting: bool,
    appended: Option<Sequence>,
    synced: Option<Sequence>,
    segments: nat,
    stopped: Option<Stopped>,
    reportArmed: bool,
    writerDone: bool)

  const RESIZE_COST := 16

  function Cost(r: Record): nat {
    if r.kind.Resize? then RESIZE_COST else |r.kind.bytes|
  }

  /** What producers and stops have done so far; no step reads it. */
  datatype Trace = Trace(sequenced: seq<Record>, now: u64, reports: seq<Stopped>)

  /** What the lock guards, and what was done under it. */
  datatype Front = Front(state: State, trace: Trace)

  /** The first stop wins: it drops what is queued and is reported, once. */
  function Stop(f: Front, reason: StopReason): Front {
    if f.state.stopped.Some? then f
    else
      var stopped := Stopped(f.state.appended, reason);
      Front(f.state.(stopped := Some(stopped), backlog := [], backlogBytes := 0, reportArmed := false),
            if f.state.reportArmed then f.trace.(reports := f.trace.reports + [stopped]) else f.trace)
  }

  /** Sequence `kind` and queue it, or stop if the sequence space or the backlog has no room for it. */
  function Enqueue(limits: Limits, f: Front, elapsedNs: u64, kind: RecordKind): Front {
    var heard := f.(trace := f.trace.(now := elapsedNs));
    if f.state.stopped.Some? || !f.state.accepting then
      heard
    else if f.state.next.None? then
      Stop(heard, SizeLimit)
    else
      var r := Record(f.state.next.value, elapsedNs, kind);
      if f.state.backlogBytes + Cost(r) > limits.backlogBytes then Stop(heard, BacklogFull)
      else Queue(heard, r)
  }

  function Queue(f: Front, r: Record): Front {
    Front(f.state.(next := NextSequence(r.sequence),
                   backlog := f.state.backlog + [r],
                   backlogBytes := f.state.backlogBytes + Cost(r)),
          f.trace.(sequenced := f.trace.sequenced + [r]))
  }

  // ---------------------------------------------------------------- the writer

  /** Where the writer thread stands between two atomic steps. */
  datatype Pc =
    | NotStarted
    | Ready
    | Syncing
    | Preparing(record: Record)
    | RotationSync(record: Record, bytes: seq<byte>, rotated: EncoderState)
    | RotationPublish(record: Record, bytes: seq<byte>, rotated: EncoderState)
    | Writing(record: Record, bytes: seq<byte>, written: nat)
    | Settling(record: Record, before: nat, attempted: bool, failure: Option<StopReason>)
    | Cutting(before: nat)
    | FinalSync
    | Exiting
    | Exited

  datatype Writer = Writer(
    pc: Pc,
    encoder: EncoderState,
    segmentLen: nat,
    totalLen: nat,
    lastAppended: Option<Sequence>,
    unsynced: bool)

  /**
   * What the store should hold, which no step reads either: the encoder calls whose records were accepted as
   * appended, the record whose bytes may lie beyond them, and whether cutting that record off failed.
   */
  datatype Ledger = Ledger(tape: Option<Tape>, beyond: Option<Record>, cutFailed: bool)

  datatype System = System(shared: State, writer: Writer, store: seq<seq<byte>>, trace: Trace, ledger: Ledger)

  /** How a storage call ended. A publication can fail after its segment has landed, and a cut after it has cut. */
  datatype Outcome = Done | Failed(kind: int, landed: bool)

  datatype Event =
    | Offer(elapsedNs: u64, kind: RecordKind)
    | Close
    | CloseTimeout
    | Start(outcome: Outcome)
    | Take(syncDue: bool)
    | Sync(outcome: Outcome)
    | Prepare
    | SyncForRotation(outcome: Outcome)
    | Publish(outcome: Outcome)
    | Write(count: nat)
    | WriteFails(error: int, landed: nat)
    | Settle(syncDue: bool)
    | Cut(outcome: Outcome)
    | SyncAtEnd(outcome: Outcome)
    | Exit

  /** What producers may offer: output within the payload bounds, and applied sizes. */
  predicate Offerable(kind: RecordKind) {
    !kind.Input? && PayloadFits(kind)
  }

  function Initial(cfg: Config): System {
    System(
      State(Some(cfg.header.firstSequence), [], 0, true, None, None, 0, None, true, false),
      Writer(NotStarted, EncoderState(cfg.header, Some(cfg.header.firstSequence), None, cfg.header.geometry, 0), 0, 0, None, false),
      [],
      Trace([], 0, []),
      Ledger(None, None, false))
  }

  predicate Enabled(cfg: Config, s: System, e: Event) {
    match e
    case Offer(elapsedNs, kind) => elapsedNs >= s.trace.now && Offerable(kind)
    case Close => true
    case CloseTimeout => !s.shared.accepting
    case Start(_) => s.writer.pc.NotStarted?
    case Take(_) => s.writer.pc.Ready?
    case Sync(_) => s.writer.pc.Syncing?
    case Prepare => s.writer.pc.Preparing?
    case SyncForRotation(_) => s.writer.pc.RotationSync?
    case Publish(_) => s.writer.pc.RotationPublish?
    case Write(count) =>
      s.writer.pc.Writing? && s.store != [] && 1 <= count <= |s.writer.pc.bytes| - s.writer.pc.written
    case WriteFails(_, landed) =>
      s.writer.pc.Writing? && s.store != [] && landed <= |s.writer.pc.bytes| - s.writer.pc.written
    case Settle(_) => s.writer.pc.Settling?
    case Cut(_) => s.writer.pc.Cutting? && s.store != [] && s.writer.pc.before <= |s.store[|s.store| - 1]|
    case SyncAtEnd(_) => s.writer.pc.FinalSync?
    case Exit => s.writer.pc.Exiting?
  }

  // ---------------------------------------------------------------- steps

  function FrontOf(s: System): Front {
    Front(s.shared, s.trace)
  }

  function WithFront(s: System, f: Front): System {
    s.(shared := f.state, trace := f.trace)
  }

  function Stopping(s: System, reason: StopReason): System {
    WithFront(s, Stop(FrontOf(s), reason))
  }

  function At(s: System, pc: Pc): System {
    s.(writer := s.writer.(pc := pc))
  }

  function CheckSize(cfg: Config, w: Writer, adding: nat): bool {
    w.totalLen + adding <= cfg.limits.maxBytes
  }

  /** A header landed in the store as the next segment. */
  function Landed(cfg: Config, s: System, encoder: EncoderState): System {
    var tape := if s.ledger.tape.None? then Tape(encoder.header, [], []) else Rotated(s.ledger.tape.value);
    s.(store := s.store + [HeaderBytes(cfg.crc, encoder.header)], ledger := s.ledger.(tape := Some(tape)))
  }

  /** A segment published, or its publication failed: with or without leaving the segment behind. */
  function Publishing(cfg: Config, s: System, encoder: EncoderState, outcome: Outcome): Result<System, System> {
    var len := |HeaderBytes(cfg.crc, encoder.header)|;
    if outcome.Done? then
      Success(Landed(cfg, s, encoder).(writer := s.writer.(segmentLen := len, totalLen := s.writer.totalLen + len),
                                       shared := s.shared.(segments := encoder.header.segmentIndex + 1)))
    else
      Failure(if outcome.landed then Landed(cfg, s, encoder) else s)
  }

  function Left(r: Result<System, System>): System {
    match r
    case Success(published) => published
    case Failure(left) => left
  }

  function Starting(cfg: Config, s: System, outcome: Outcome): System {
    var encoder := NewEncoder(cfg.header);
    if encoder.Failure? then
      At(Stopping(s, WriteFailed(BadHeader)), Exiting)
    else if !CheckSize(cfg, s.writer, |HeaderBytes(cfg.crc, cfg.header)|) then
      At(Stopping(s, SizeLimit), Exiting)
    else
      match Publishing(cfg, s, encoder.value, outcome)
      case Success(published) => At(published.(writer := published.writer.(encoder := encoder.value)), Ready)
      case Failure(left) => At(Stopping(left, WriteFailed(Storage(outcome.kind))), Exiting)
  }

  /** The lock-held region of waiting for a record. */
  function Taking(s: System, syncDue: bool): System {
    if s.shared.stopped.Some? then
      At(s, FinalSync)
    else if s.shared.backlog != [] then
      var r := s.shared.backlog[0];
      At(s.(shared := s.shared.(backlog := s.shared.backlog[1..],
                                backlogBytes := Monus(s.shared.backlogBytes, Cost(r)))),
         Preparing(r))
    else if !s.shared.accepting then
      At(s, FinalSync)
    else if s.writer.unsynced && syncDue then
      At(s, Syncing)
    else
      s
  }

  function Monus(a: nat, b: nat): nat {
    if b <= a then a - b else 0
  }

  /** Sync the open segment if anything is unsynced; on failure the reason to stop for. */
  function SyncOutcome(s: System, outcome: Outcome): Result<System, StopReason> {
    if !s.writer.unsynced then
      Success(s)
    else if outcome.Failed? then
      Failure(WriteFailed(Storage(outcome.kind)))
    else
      Success(s.(writer := s.writer.(unsynced := false), shared := s.shared.(synced := s.writer.lastAppended)))
  }

  /** A sync outside a rotation: its failure stops the recording. */
  function Synced(s: System, outcome: Outcome, onward: Pc, stopped: Pc): System {
    match SyncOutcome(s, outcome)
    case Success(synced) => At(synced, onward)
    case Failure(reason) => At(Stopping(s, reason), stopped)
  }

  /** The sync that closes a full segment: its failure is settled like a failed append. */
  function SyncingRotation(s: System, outcome: Outcome): System
    requires s.writer.pc.RotationSync?
  {
    var pc := s.writer.pc;
    match SyncOutcome(s, outcome)
    case Success(synced) => At(synced, RotationPublish(pc.record, pc.bytes, pc.rotated))
    case Failure(reason) => At(s, Settling(pc.record, s.writer.segmentLen, false, Some(reason)))
  }

  function Preparation(cfg: Config, s: System, r: Record): System {
    var refused := Settling(r, s.writer.segmentLen, false, Some(WriteFailed(EncoderRefused)));
    var tooLarge := Settling(r, s.writer.segmentLen, false, Some(SizeLimit));
    var next := NextSegment(s.writer.encoder);
    if s.writer.segmentLen >= cfg.limits.segmentBytes && next.Success? then
      if !Accepts(next.value, r) then
        At(s, refused)
      else
        var bytes := RecordBytes(cfg.crc, r);
        if !CheckSize(cfg, s.writer, |HeaderBytes(cfg.crc, next.value.header)| + |bytes|) then At(s, tooLarge)
        else At(s, RotationSync(r, bytes, Advance(next.value, r)))
    else if !Accepts(s.writer.encoder, r) then
      At(s, refused)
    else
      var bytes := RecordBytes(cfg.crc, r);
      var encoded := s.(writer := s.writer.(encoder := Advance(s.writer.encoder, r)));
      if !CheckSize(cfg, s.writer, |bytes|) then At(encoded, tooLarge)
      else At(encoded.(ledger := s.ledger.(beyond := Some(r))), Writing(r, bytes, 0))
  }

  function PublishingRotation(cfg: Config, s: System, outcome: Outcome): System
    requires s.writer.pc.RotationPublish?
  {
    var pc := s.writer.pc;
    if !CheckSize(cfg, s.writer, |HeaderBytes(cfg.crc, pc.rotated.header)|) then
      At(s, Settling(pc.record, s.writer.segmentLen, false, Some(SizeLimit)))
    else
      match Publishing(cfg, s, pc.rotated, outcome)
      case Success(published) =>
        At(published.(writer := published.writer.(encoder := pc.rotated),
                      ledger := published.ledger.(beyond := Some(pc.record))),
           Writing(pc.record, pc.bytes, 0))
      case Failure(left) =>
        At(left, Settling(pc.record, s.writer.segmentLen, false, Some(WriteFailed(Storage(outcome.kind)))))
  }

  /** Bytes appended to the open segment. */
  function Extended(store: seq<seq<byte>>, bytes: seq<byte>): seq<seq<byte>>
    requires store != []
  {
    store[|store| - 1 := store[|store| - 1] + bytes]
  }

  function WritingSome(s: System, count: nat): System
    requires s.writer.pc.Writing? && s.store != [] && s.writer.pc.written + count <= |s.writer.pc.bytes|
  {
    var pc := s.writer.pc;
    var written := pc.written + count;
    var grown := s.(store := Extended(s.store, pc.bytes[pc.written..written]));
    if written < |pc.bytes| then
      At(grown, pc.(written := written))
    else
      At(grown.(writer := s.writer.(segmentLen := s.writer.segmentLen + |pc.bytes|,
                                    totalLen := s.writer.totalLen + |pc.bytes|,
                                    unsynced := true)),
         Settling(pc.record, s.writer.segmentLen, true, None))
  }

  function WriteFailing(s: System, error: int, landed: nat): System
    requires s.writer.pc.Writing? && s.store != [] && s.writer.pc.written + landed <= |s.writer.pc.bytes|
  {
    var pc := s.writer.pc;
    At(s.(store := Extended(s.store, pc.bytes[pc.written..pc.written + landed])),
       Settling(pc.record, s.writer.segmentLen, true, Some(WriteFailed(Storage(error)))))
  }

  /** After an attempted append, under the lock: beyond a stop, failed, or appended. */
  function Settlement(s: System, syncDue: bool): System
    requires s.writer.pc.Settling?
  {
    var pc := s.writer.pc;
    var leave := if pc.attempted then Cutting(pc.before) else FinalSync;
    if s.shared.stopped.Some? then
      At(s, leave)
    else if pc.failure.Some? then
      At(Stopping(s, pc.failure.value), leave)
    else
      At(s.(shared := s.shared.(appended := Some(pc.record.sequence)),
            writer := s.writer.(lastAppended := Some(pc.record.sequence)),
            ledger := s.ledger.(
              beyond := None,
              tape := if s.ledger.tape.None? then None
                      else Some(s.ledger.tape.value.(open := s.ledger.tape.value.open + [pc.record])))),
         if syncDue then Syncing else Ready)
  }

  function CuttingBack(s: System, outcome: Outcome): System
    requires s.writer.pc.Cutting? && s.store != [] && s.writer.pc.before <= |s.store[|s.store| - 1]|
  {
    var before := s.writer.pc.before;
    var last := |s.store| - 1;
    var cut := s.(store := s.store[last := s.store[last][..before]], ledger := s.ledger.(beyond := None));
    if outcome.Done? then
      At(cut.(writer := s.writer.(totalLen := Monus(s.writer.totalLen, Monus(s.writer.segmentLen, before)),
                                  segmentLen := before)), FinalSync)
    else if outcome.landed then
      At(cut, FinalSync)
    else
      At(s.(ledger := s.ledger.(cutFailed := true)), FinalSync)
  }

  function Next(cfg: Config, s: System, e: Event): System
    requires Enabled(cfg, s, e)
  {
    match e
    case Offer(elapsedNs, kind) => WithFront(s, Enqueue(cfg.limits, FrontOf(s), elapsedNs, kind))
    case Close => s.(shared := s.shared.(accepting := false))
    case CloseTimeout => if s.shared.writerDone then s else Stopping(s, Stalled)
    case Start(outcome) => Starting(cfg, s, outcome)
    case Take(syncDue) => Taking(s, syncDue)
    case Sync(outcome) => Synced(s, outcome, Ready, FinalSync)
    case Prepare => Preparation(cfg, s, s.writer.pc.record)
    case SyncForRotation(outcome) => SyncingRotation(s, outcome)
    case Publish(outcome) => PublishingRotation(cfg, s, outcome)
    case Write(count) => WritingSome(s, count)
    case WriteFails(error, landed) => WriteFailing(s, error, landed)
    case Settle(syncDue) => Settlement(s, syncDue)
    case Cut(outcome) => CuttingBack(s, outcome)
    case SyncAtEnd(outcome) => Synced(s, outcome, Exiting, Exiting)
    case Exit => At(s.(shared := s.shared.(writerDone := true)), Exited)
  }

  /** Every run: any producers, any storage behaviour, in any interleaving. */
  predicate Run(cfg: Config, states: seq<System>, events: seq<Event>) {
    && |states| == |events| + 1
    && states[0] == Initial(cfg)
    && forall i :: 0 <= i < |events| ==> Enabled(cfg, states[i], events[i]) && states[i + 1] == Next(cfg, states[i], events[i])
  }
}
