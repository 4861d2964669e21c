/** The recorder's writer is never stuck, and once the recording is closed or stopped it exits. */
module RecorderProgress {
  import opened Wrappers
  import opened Bytes
  import opened Recording
  import opened SegmentLanguage
  import opened RecordingLanguage
  import opened Recorder
  import opened RecorderInvariant

  // ---------------------------------------------------------------- never stuck

  predicate ByWriter(e: Event) {
    !e.Offer? && !e.Close? && !e.CloseTimeout?
  }

  /** The event is one of the writer's position alone: a write of any part of what is left, any call ending any way. */
  predicate InPlace(pc: Pc, e: Event) {
    match e
    case Start(_) => pc.NotStarted?
    case Take(_) => pc.Ready?
    case Sync(_) => pc.Syncing?
    case Prepare => pc.Preparing?
    case SyncForRotation(_) => pc.RotationSync?
    case Publish(_) => pc.RotationPublish?
    case Write(count) => pc.Writing? && 1 <= count <= |pc.bytes| - pc.written
    case WriteFails(_, landed) => pc.Writing? && landed <= |pc.bytes| - pc.written
    case Settle(_) => pc.Settling?
    case Cut(_) => pc.Cutting?
    case SyncAtEnd(_) => pc.FinalSync?
    case Exit => pc.Exiting?
    case _ => false
  }

  /**
   In every reachable state the writer's position alone decides what it may do next, whatever the storage answers,
   and before it has exited there is something.
   */
  lemma WriterNeverStuck(cfg: Config, states: seq<System>, events: seq<Event>, n: nat)
    requires Configured(cfg) && Run(cfg, states, events) && n <= |events|
    ensures forall e: Event | ByWriter(e) :: Enabled(cfg, states[n], e) <==> InPlace(states[n].writer.pc, e)
    ensures (exists e: Event :: ByWriter(e) && Enabled(cfg, states[n], e)) <==> !states[n].writer.pc.Exited?
  {
    hide Inv;
    RunKeeps(cfg, states, events, n);
    var s := states[n];
    StoreIsThere(cfg, s);
    if !s.writer.pc.Exited? {
      var e := SomeEvent(s.writer.pc);
      assert ByWriter(e) && Enabled(cfg, s, e);
    }
  }

  lemma StoreIsThere(cfg: Config, s: System)
    requires Inv(cfg, s)
    ensures s.writer.pc.Writing? ==> s.store != [] && s.writer.pc.written < |s.writer.pc.bytes|
    ensures s.writer.pc.Cutting? ==> s.store != [] && s.writer.pc.before <= |s.store[|s.store| - 1]|
  {
    hide ValidTape, OpenBytes, TapeEnd, ClosedBytes, RecordBytes, Accepts, SequencedWell, Appended, InOrder, Marks, Accounting;
    if s.writer.pc.Cutting? {
      CutStored(cfg, s);
    }
  }

  function SomeEvent(pc: Pc): (e: Event)
    ensures ByWriter(e)
    ensures !pc.Exited? && (pc.Writing? ==> pc.written < |pc.bytes|) ==> InPlace(pc, e)
  {
    match pc
    case NotStarted => Start(Done)
    case Ready => Take(false)
    case Syncing => Sync(Done)
    case Preparing(_) => Prepare
    case RotationSync(_, _, _) => SyncForRotation(Done)
    case RotationPublish(_, _, _) => Publish(Done)
    case Writing(_, _, _) => Write(1)
    case Settling(_, _, _, _) => Settle(false)
    case Cutting(_) => Cut(Done)
    case FinalSync => SyncAtEnd(Done)
    case Exiting => Exit
    case Exited => Exit
  }

  // ---------------------------------------------------------------- the way out

  /** At most so many steps from taking a queued record to looking for the next. */
  function Work(r: Record): nat {
    RecordLen(r) + 7
  }

  function QueuedWork(rs: seq<Record>): nat {
    if rs == [] then 0 else Work(rs[0]) + QueuedWork(rs[1..])
  }

  function PcWork(pc: Pc): nat {
    match pc
    case NotStarted => 4
    case Ready => 3
    case Syncing => 4
    case Preparing(r) => RecordLen(r) + 9
    case RotationSync(_, bytes, _) => |bytes| + 8
    case RotationPublish(_, bytes, _) => |bytes| + 7
    case Writing(_, bytes, written) => 6 + Monus(|bytes|, written)
    case Settling(_, _, _, _) => 5
    case Cutting(_) => 3
    case FinalSync => 2
    case Exiting => 1
    case Exited => 0
  }

  /** The steps the writer may still take once it is to leave. */
  function StepsLeft(s: System): nat {
    PcWork(s.writer.pc) + QueuedWork(s.shared.backlog)
  }

  /** The recording was closed or has stopped. */
  predicate Ending(s: System) {
    !s.shared.accepting || s.shared.stopped.Some?
  }

  lemma StopNoLonger(s: System, reason: StopReason)
    ensures var q := Stopping(s, reason);
      && q.writer == s.writer && Ending(q) && QueuedWork(q.shared.backlog) <= QueuedWork(s.shared.backlog)
  {
  }

  lemma PreparationShorter(cfg: Config, s: System, r: Record)
    requires s.writer.pc == Preparing(r)
    ensures var q := Preparation(cfg, s, r);
      PcWork(q.writer.pc) < PcWork(s.writer.pc) && q.shared == s.shared
  {
    hide RecordBytes, HeaderBytes, NextSegment, Advance, RecordLen;
    if PayloadFits(r.kind) {
      RecordBytesLen(cfg.crc, r);
    }
  }

  lemma WriterShorter(cfg: Config, s: System, e: Event)
    requires Enabled(cfg, s, e) && ByWriter(e) && Ending(s)
    ensures StepsLeft(Next(cfg, s, e)) < StepsLeft(s) && Ending(Next(cfg, s, e))
  {
    hide RecordBytes, HeaderBytes, NextSegment, Accepts, Advance, Extended, RecordLen, Preparation, Starting, PublishingRotation,
         Settlement, Synced, SyncingRotation, Taking, CuttingBack;
    match e {
      case Start(outcome) => StartShorter(cfg, s, outcome);
      case Prepare => PreparationShorter(cfg, s, s.writer.pc.record);
      case Publish(outcome) => PublishShorter(cfg, s, outcome);
      case Settle(syncDue) => SettleShorter(s, syncDue);
      case Sync(outcome) => SyncShorter(s, outcome, Ready, FinalSync);
      case SyncAtEnd(outcome) => SyncShorter(s, outcome, Exiting, Exiting);
      case SyncForRotation(outcome) => RotationSyncShorter(s, outcome);
      case Take(syncDue) => TakeShorter(s, syncDue);
      case Cut(outcome) => CutShorter(s, outcome);
      case _ =>
    }
  }

  lemma SettleShorter(s: System, syncDue: bool)
    requires s.writer.pc.Settling? && Ending(s)
    ensures var q := Settlement(s, syncDue); StepsLeft(q) < StepsLeft(s) && Ending(q)
  {
    hide Stopping, QueuedWork;
    if s.writer.pc.failure.Some? {
      StopNoLonger(s, s.writer.pc.failure.value);
    }
  }

  lemma SyncShorter(s: System, outcome: Outcome, onward: Pc, stopped: Pc)
    requires Ending(s) && PcWork(onward) < PcWork(s.writer.pc) && PcWork(stopped) < PcWork(s.writer.pc)
    ensures var q := Synced(s, outcome, onward, stopped); StepsLeft(q) < StepsLeft(s) && Ending(q)
  {
    hide PcWork, Stopping, QueuedWork;
    if outcome.Failed? {
      StopNoLonger(s, WriteFailed(Storage(outcome.kind)));
    }
  }

  lemma RotationSyncShorter(s: System, outcome: Outcome)
    requires s.writer.pc.RotationSync? && Ending(s)
    ensures var q := SyncingRotation(s, outcome); StepsLeft(q) < StepsLeft(s) && Ending(q)
  {
  }

  lemma TakeShorter(s: System, syncDue: bool)
    requires s.writer.pc.Ready? && Ending(s)
    ensures var q := Taking(s, syncDue); StepsLeft(q) < StepsLeft(s) && Ending(q)
  {
    hide RecordLen, Cost;
  }

  lemma CutShorter(s: System, outcome: Outcome)
    requires s.writer.pc.Cutting? && s.store != [] && s.writer.pc.before <= |s.store[|s.store| - 1]| && Ending(s)
    ensures var q := CuttingBack(s, outcome); StepsLeft(q) < StepsLeft(s) && Ending(q)
  {
  }

  lemma StartShorter(cfg: Config, s: System, outcome: Outcome)
    requires s.writer.pc.NotStarted? && Ending(s)
    ensures var q := Starting(cfg, s, outcome); StepsLeft(q) < StepsLeft(s) && Ending(q)
  {
    hide HeaderBytes, Rotated, NewEncoder, Stopping, QueuedWork;
    var header := NewEncoder(cfg.header);
    StopNoLonger(s, WriteFailed(BadHeader));
    StopNoLonger(s, SizeLimit);
    if header.Success? && outcome.Failed? {
      StopNoLonger(Left(Publishing(cfg, s, header.value, outcome)), WriteFailed(Storage(outcome.kind)));
    }
  }

  lemma PublishShorter(cfg: Config, s: System, outcome: Outcome)
    requires s.writer.pc.RotationPublish? && Ending(s)
    ensures var q := PublishingRotation(cfg, s, outcome); StepsLeft(q) < StepsLeft(s) && Ending(q)
  {
    hide HeaderBytes, Rotated;
  }

  lemma OthersNoLonger(cfg: Config, s: System, e: Event)
    requires Enabled(cfg, s, e) && !ByWriter(e) && Ending(s)
    ensures StepsLeft(Next(cfg, s, e)) <= StepsLeft(s) && Ending(Next(cfg, s, e))
  {
    hide RecordBytes, HeaderBytes, Cost, RecordLen;
  }

  /** How many of a run's events from `i` up to `j` are the writer's. */
  function WriterSteps(events: seq<Event>, i: nat, j: nat): nat
    requires i <= j <= |events|
    decreases j - i
  {
    if i == j then 0 else WriterSteps(events, i, j - 1) + if ByWriter(events[j - 1]) then 1 else 0
  }

  /** Whatever else happens, each of the writer's steps brings it nearer its exit. */
  lemma {:induction false} EndingGoesOn(cfg: Config, states: seq<System>, events: seq<Event>, i: nat, j: nat)
    requires Run(cfg, states, events) && i <= j <= |events| && Ending(states[i])
    ensures Ending(states[j]) && WriterSteps(events, i, j) + StepsLeft(states[j]) <= StepsLeft(states[i])
    decreases j - i
  {
    hide Enabled, Next, Ending, StepsLeft, Initial;
    if i < j {
      EndingGoesOn(cfg, states, events, i, j - 1);
      if ByWriter(events[j - 1]) {
        WriterShorter(cfg, states[j - 1], events[j - 1]);
      } else {
        OthersNoLonger(cfg, states[j - 1], events[j - 1]);
      }
    }
  }

  // ---------------------------------------------------------------- how far the way out is

  const STEPS_PER_BYTE := 37
  const LONGEST := BODY_MAX_LEN + PREFIX_LEN + CRC_LEN + 9

  lemma WorkBounded(r: Record)
    requires Offerable(r.kind)
    ensures Work(r) <= STEPS_PER_BYTE * Cost(r) && RecordLen(r) + 9 <= LONGEST
  {
    BodyLengths(r);
  }

  lemma {:induction false} QueuedWorkBounded(rs: seq<Record>)
    requires forall i :: 0 <= i < |rs| ==> Offerable(rs[i].kind)
    ensures QueuedWork(rs) <= STEPS_PER_BYTE * TotalCost(rs)
  {
    hide Work, Cost;
    if rs != [] {
      WorkBounded(rs[0]);
      QueuedWorkBounded(rs[1..]);
    }
  }

  lemma StepsBounded(cfg: Config, s: System)
    requires Inv(cfg, s)
    ensures StepsLeft(s) <= LONGEST + STEPS_PER_BYTE * cfg.limits.backlogBytes
  {
    hide ValidTape, Stored, Marks, Appended, RecordLen, AtPc, QueuedWork, TotalCost, Offerable, SequencedWell, InOrder;
    KnownOfferable(Appended(s.ledger), s);
    QueuedWorkBounded(s.shared.backlog);
    if InFlight(s.writer.pc) != [] {
      WorkBounded(InFlight(s.writer.pc)[0]);
    }
    BytesInFlight(cfg, s);
  }

  lemma {:induction false} KnownOfferable(a: seq<Record>, s: System)
    requires SequencedWell(s.shared.next, s.trace.sequenced, s.trace.now)
    requires InOrder(a, s.writer.pc, s.shared, s.trace.sequenced, s.ledger.beyond)
    ensures forall i :: 0 <= i < |s.shared.backlog| ==> Offerable(s.shared.backlog[i].kind)
    ensures forall i :: 0 <= i < |InFlight(s.writer.pc)| ==> Offerable(InFlight(s.writer.pc)[i].kind)
  {
    hide Numbered, TimeOrdered, Offerable, InFlight;
    var (fly, b) := (InFlight(s.writer.pc), s.shared.backlog);
    var known := a + fly + b;
    assert forall i :: 0 <= i < |known| ==> known[i] == s.trace.sequenced[i];
    assert forall i :: 0 <= i < |b| ==> b[i] == known[|a + fly| + i];
    assert forall i :: 0 <= i < |fly| ==> fly[i] == known[|a| + i];
  }

  lemma BytesInFlight(cfg: Config, s: System)
    requires Inv(cfg, s)
    ensures match s.writer.pc
      case RotationSync(r, bytes, _) => |bytes| == RecordLen(r)
      case RotationPublish(r, bytes, _) => |bytes| == RecordLen(r)
      case Writing(r, bytes, written) => |bytes| == RecordLen(r)
      case _ => true
  {
    hide ValidTape, Stored, Marks, Appended, RecordLen, RecordBytes, OpenBytes, TapeEnd, InOrder, SequencedWell, Accounting;
    if InFlight(s.writer.pc) != [] && PayloadFits(InFlight(s.writer.pc)[0].kind) {
      RecordBytesLen(cfg.crc, InFlight(s.writer.pc)[0]);
    }
  }

  /**
   Over every run: from the moment the recording is closed or stops, the writer takes at most a number of steps that
   the configuration fixes, whatever the storage answers and whatever is offered meanwhile; and until it has exited
   it can take one.
   */
  lemma WriterExits(cfg: Config, states: seq<System>, events: seq<Event>, i: nat, j: nat)
    requires Configured(cfg) && Run(cfg, states, events) && i <= j <= |events| && Ending(states[i])
    ensures WriterSteps(events, i, j) <= LONGEST + STEPS_PER_BYTE * cfg.limits.backlogBytes
    ensures states[j].writer.pc.Exited? || exists e: Event :: ByWriter(e) && Enabled(cfg, states[j], e)
  {
    hide Inv, Enabled, StepsLeft, Ending, Next, Initial;
    EndingGoesOn(cfg, states, events, i, j);
    RunKeeps(cfg, states, events, i);
    StepsBounded(cfg, states[i]);
    WriterNeverStuck(cfg, states, events, j);
  }
}
