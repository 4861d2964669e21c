/**
 The PTY input authority of a run: senders queue controls and inputs, one writer serves them. Each lock-held
 region, each control and each write attempt is one step; senders act between any two.
 */
module PtyInput {
  import opened Wrappers
  import opened Bytes
  import opened PtyControl
  import R = Recording

  const CONTROL_CAPACITY := 16
  const INPUT_CAPACITY := 32

  datatype Trigger = Attach | ByTakeover

  datatype Control =
    | ClaimFor(holder: HolderId, kind: ControllerKind)
    | TakeoverFor(holder: HolderId)
    | Resize(key: HandleKey, size: R.Geometry)
    | Disconnect(handle: ControllerHandle)

  /** `after` counts the requests queued before an end marker; nothing reads it. */
  datatype Item = Write(request: PendingInput) | End(handle: ControllerHandle, after: nat)

  datatype Effect =
    | HumanControl(trigger: Trigger)
    | HumanReleased
    | Retire(holder: HolderId, kind: ControllerKind, epoch: u64)
    | InputRevoked(kind: ControllerKind, accepted: nat, total: nat)
    | Resized(size: R.Geometry)

  /** Bytes one write step put on the PTY. */
  datatype Chunk = Chunk(key: HandleKey, id: RequestId, data: seq<byte>)

  /** Everything the writer has let out: PTY bytes, answers, effects. */
  datatype Out = Out(
    pty: seq<Chunk>, served: seq<PendingInput>, dropped: seq<PendingInput>, ended: seq<Item>,
    granted: seq<ControllerHandle>, effects: seq<Effect>)

  datatype Loop = Loop(
    arbiter: Arbiter, inputs: seq<Item>, current: Option<PendingInput>, end: Option<Item>, out: Out)

  // ---------------------------------------------------------------- controls

  function WithEffect(out: Out, e: Effect): Out {
    out.(effects := out.effects + [e])
  }

  function ServeClaim(l: Loop, holder: HolderId, kind: ControllerKind): Loop {
    var (arbiter, r) := Claim(l.arbiter, holder, kind);
    if r.Failure? then l
    else
      var out := l.out.(granted := l.out.granted + [r.value]);
      l.(arbiter := arbiter, out := if kind.Human? then WithEffect(out, HumanControl(Attach)) else out)
  }

  function ServeTakeover(l: Loop, holder: HolderId): Loop {
    var (arbiter, r) := TakeOver(l.arbiter, holder);
    if r.Failure? then l
    else
      var out := WithEffect(l.out.(granted := l.out.granted + [r.value.handle]), HumanControl(ByTakeover));
      l.(arbiter := arbiter,
         out := match r.value.retired
                case None => out
                case Some((who, kind)) => WithEffect(out, Retire(who, kind, r.value.handle.key.epoch)))
  }

  function ServeResize(l: Loop, key: HandleKey, size: R.Geometry): Loop {
    if Authorizes(l.arbiter, key) then l.(out := WithEffect(l.out, Resized(size))) else l
  }

  /** A holder's input ends: control is released if it still has it. */
  function ReleaseBy(l: Loop, handle: ControllerHandle): Loop {
    if !Authorizes(l.arbiter, handle.key) then l
    else
      l.(arbiter := Release(l.arbiter, handle.key),
         out := if handle.kind.Human? then WithEffect(l.out, HumanReleased) else l.out)
  }

  // ---------------------------------------------------------------- disconnects

  function HolderOf(item: Item): HolderId {
    match item
    case Write(request) => request.key.holder
    case End(handle, _) => handle.key.holder
  }

  function Theirs(items: seq<Item>, holder: HolderId): seq<Item> {
    if items == [] then []
    else
      var last := items[|items| - 1];
      Theirs(items[..|items| - 1], holder) + if HolderOf(last) == holder then [last] else []
  }

  function Others(items: seq<Item>, holder: HolderId): seq<Item> {
    if items == [] then []
    else
      var last := items[|items| - 1];
      Others(items[..|items| - 1], holder) + if HolderOf(last) == holder then [] else [last]
  }

  /** What finishing cancelled items did so far, with the sums reported for them. */
  datatype Cancelling = Cancelling(out: Out, accepted: nat, total: nat)

  function CancelOne(a: Arbiter, c: Cancelling, item: Item, answer: SinkAnswer): Cancelling
    requires item.Write? ==> item.request.accepted <= |item.request.bytes|
  {
    match item
    case End(_, _) => c.(out := c.out.(ended := c.out.ended + [item]))
    case Write(request) =>
      var step := StepWrite(a, request, answer);
      var out := Wrote(c.out, request, step.written);
      match step.request.outcome
      case None => c.(out := out.(dropped := out.dropped + [step.request]))
      case Some(outcome) =>
        var served := out.(served := out.served + [step.request]);
        if outcome.Incomplete? then
          Cancelling(served, c.accepted + outcome.accepted, c.total + outcome.total)
        else c.(out := served)
  }

  function Wrote(out: Out, p: PendingInput, written: seq<byte>): Out {
    if written == [] then out else out.(pty := out.pty + [Chunk(p.key, p.id, written)])
  }

  predicate Unfinished(p: PendingInput) {
    p.Valid() && p.outcome.None?
  }

  predicate Sound(items: seq<Item>) {
    forall i :: 0 <= i < |items| ==> items[i].Write? ==> Unfinished(items[i].request)
  }

  function CancelAll(a: Arbiter, out: Out, items: seq<Item>, answers: seq<SinkAnswer>): Cancelling
    requires Sound(items) && |items| <= |answers|
  {
    if items == [] then Cancelling(out, 0, 0)
    else
      var n := |items| - 1;
      CancelOne(a, CancelAll(a, out, items[..n], answers), items[n], answers[n])
  }

  /** All a holder still has: queued, then the staged end marker, then the request being written. */
  function Everything(l: Loop, holder: HolderId): seq<Item> {
    Theirs(l.inputs, holder)
    + (if l.end.Some? && HolderOf(l.end.value) == holder then [l.end.value] else [])
    + (if l.current.Some? && l.current.value.key.holder == holder then [Write(l.current.value)] else [])
  }

  predicate LoopSound(l: Loop) {
    && Sound(l.inputs)
    && (l.current.Some? ==> Unfinished(l.current.value))
    && (l.end.Some? ==> l.end.value.End?)
    && (l.current.Some? ==> l.end.None?)
  }

  /** The loop without anything of a holder. */
  function Without(l: Loop, holder: HolderId): Loop {
    l.(inputs := Others(l.inputs, holder),
       end := if l.end.Some? && HolderOf(l.end.value) == holder then None else l.end,
       current := if l.current.Some? && l.current.value.key.holder == holder then None else l.current)
  }

  lemma {:induction false} TheirsSound(items: seq<Item>, holder: HolderId)
    requires Sound(items)
    ensures Sound(Theirs(items, holder)) && Sound(Others(items, holder))
    ensures |Theirs(items, holder)| + |Others(items, holder)| == |items|
  {
    if items != [] {
      TheirsSound(items[..|items| - 1], holder);
    }
  }

  lemma EverythingSound(l: Loop, holder: HolderId)
    requires LoopSound(l)
    ensures Sound(Everything(l, holder)) && |Everything(l, holder)| <= |l.inputs| + 1
  {
    TheirsSound(l.inputs, holder);
  }

  function ServeDisconnect(l: Loop, handle: ControllerHandle, answers: seq<SinkAnswer>): Loop
    requires LoopSound(l) && |l.inputs| < |answers|
  {
    var holder := handle.key.holder;
    var released := ReleaseBy(l, handle);
    EverythingSound(l, holder);
    var c := CancelAll(released.arbiter, released.out, Everything(l, holder), answers);
    Without(released, holder).(
      out := if c.total > 0 then WithEffect(c.out, InputRevoked(handle.kind, c.accepted, c.total)) else c.out)
  }

  function Serve(l: Loop, control: Control, answers: seq<SinkAnswer>): Loop
    requires LoopSound(l) && |l.inputs| < |answers|
  {
    match control
    case ClaimFor(holder, kind) => ServeClaim(l, holder, kind)
    case TakeoverFor(holder) => ServeTakeover(l, holder)
    case Resize(key, size) => ServeResize(l, key, size)
    case Disconnect(handle) => ServeDisconnect(l, handle, answers)
  }

  // ---------------------------------------------------------------- inputs

  /** The next input is staged only when none is being written. */
  function Stage(l: Loop): Loop
    requires l.end.None?
  {
    if l.current.Some? || l.inputs == [] then l
    else
      match l.inputs[0]
      case Write(request) => l.(inputs := l.inputs[1..], current := Some(request))
      case End(_, _) => l.(inputs := l.inputs[1..], end := Some(l.inputs[0]))
  }

  /** After the controls: a staged end marker is served, otherwise one write is attempted. */
  function Proceed(l: Loop, answer: SinkAnswer): Loop
    requires LoopSound(l)
  {
    match l.end
    case Some(end) =>
      var released := ReleaseBy(l, end.handle);
      released.(end := None, out := released.out.(ended := released.out.ended + [end]))
    case None =>
      match l.current
      case None => l
      case Some(request) => Attempted(l, StepWrite(l.arbiter, request, answer))
  }

  function Attempted(l: Loop, step: WriteStep): Loop
    requires l.current.Some?
  {
    var out := Wrote(l.out, l.current.value, step.written);
    match step.request.outcome
    case None => l.(current := Some(step.request), out := out)
    case Some(outcome) =>
      var served := out.(served := out.served + [step.request]);
      l.(current := None,
         out := if outcome.Incomplete? && outcome.reason.NotAuthorized?
                then WithEffect(served, InputRevoked(step.request.kind, outcome.accepted, outcome.total))
                else served)
  }

  // ---------------------------------------------------------------- the whole system

  datatype System = System(
    loop: Loop, controls: seq<Control>, batch: seq<Control>, serving: bool, submitted: seq<PendingInput>)

  datatype Event =
    | PushControl(control: Control)
    | PushWrite(id: RequestId, handle: ControllerHandle, bytes: seq<byte>)
    | PushEnd(handle: ControllerHandle)
    | Drain
    | ServeNext(answers: seq<SinkAnswer>)
    | ProceedWith(answer: SinkAnswer)

  function Start(run: RunId): System {
    System(Loop(NewArbiter(run), [], None, None, Out([], [], [], [], [], [])), [], [], false, [])
  }

  predicate FreshRequest(submitted: seq<PendingInput>, id: RequestId) {
    forall i :: 0 <= i < |submitted| ==> submitted[i].id != id
  }

  /** Senders have only the handles they were granted, and each request its own id. */
  predicate Enabled(s: System, e: Event) {
    match e
    case PushControl(control) =>
      && |s.controls| < CONTROL_CAPACITY
      && (control.Disconnect? ==> control.handle in s.loop.out.granted)
    case PushWrite(id, handle, bytes) =>
      && |s.loop.inputs| < INPUT_CAPACITY
      && bytes != [] && handle in s.loop.out.granted && FreshRequest(s.submitted, id)
    case PushEnd(handle) => |s.loop.inputs| < INPUT_CAPACITY && handle in s.loop.out.granted
    case Drain => !s.serving && (s.controls != [] || s.loop.inputs != [] || s.loop.current.Some?)
    case ServeNext(answers) => s.serving && s.batch != [] && |s.loop.inputs| < |answers|
    case ProceedWith(_) => s.serving && s.batch == []
  }

  predicate SystemSound(s: System) {
    LoopSound(s.loop) && (s.loop.end.Some? ==> s.serving)
  }

  function Next(s: System, e: Event): System
    requires SystemSound(s) && Enabled(s, e)
  {
    match e
    case PushControl(control) => s.(controls := s.controls + [control])
    case PushWrite(id, handle, bytes) =>
      var request := NewInput(id, handle, bytes).value;
      s.(loop := s.loop.(inputs := s.loop.inputs + [Write(request)]), submitted := s.submitted + [request])
    case PushEnd(handle) =>
      s.(loop := s.loop.(inputs := s.loop.inputs + [End(handle, |s.submitted|)]))
    case Drain => s.(loop := Stage(s.loop), controls := [], batch := s.controls, serving := true)
    case ServeNext(answers) => s.(loop := Serve(s.loop, s.batch[0], answers), batch := s.batch[1..])
    case ProceedWith(answer) => s.(loop := Proceed(s.loop, answer), serving := false)
  }

  lemma ServeSound(l: Loop, control: Control, answers: seq<SinkAnswer>)
    requires LoopSound(l) && |l.inputs| < |answers|
    ensures LoopSound(Serve(l, control, answers))
  {
    hide Others, CancelAll, Everything;
    if control.Disconnect? {
      TheirsSound(l.inputs, control.handle.key.holder);
    }
  }

  lemma ProceedSound(l: Loop, answer: SinkAnswer)
    requires LoopSound(l)
    ensures LoopSound(Proceed(l, answer)) && Proceed(l, answer).end.None?
  {
    hide StepWrite;
    if l.end.None? && l.current.Some? {
      StepWriteEffect(l.arbiter, l.current.value, answer);
    }
  }

  lemma NextSound(s: System, e: Event)
    requires SystemSound(s) && Enabled(s, e)
    ensures SystemSound(Next(s, e))
  {
    hide Serve, Proceed;
    match e
    case ServeNext(answers) =>
      ServeSound(s.loop, s.batch[0], answers);
      EndStays(s.loop, s.batch[0], answers);
    case ProceedWith(answer) => ProceedSound(s.loop, answer);
    case _ =>
  }

  lemma EndStays(l: Loop, control: Control, answers: seq<SinkAnswer>)
    requires LoopSound(l) && |l.inputs| < |answers|
    ensures Serve(l, control, answers).end in {None, l.end}
  {
    hide Others, CancelAll, Everything;
  }

  /** Where a run of events leads, if each was possible in turn. */
  function After(run: RunId, events: seq<Event>): (s: Option<System>)
    ensures s.Some? ==> SystemSound(s.value)
  {
    if events == [] then Some(Start(run))
    else
      var n := |events| - 1;
      var before := After(run, events[..n]);
      if before.None? || !Enabled(before.value, events[n]) then None
      else
        NextSound(before.value, events[n]);
        Some(Next(before.value, events[n]))
  }
}
