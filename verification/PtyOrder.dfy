/** The order in which input reaches the PTY, over every run of senders, takeovers and disconnects. */
module PtyOrder {
  import opened Wrappers
  import opened Bytes
  import R = Recording
  import opened PtyControl
  import opened PtyInput
  import opened PtyDisconnect

  // ---------------------------------------------------------------- who holds what

  predicate Granted(out: Out, p: PendingInput) {
    ControllerHandle(p.key, p.kind) in out.granted
  }

  predicate GrantedItem(out: Out, item: Item) {
    match item
    case Write(request) => Granted(out, request)
    case End(handle, _) => handle in out.granted
  }

  /** The grants so far are one for each epoch, the latest the owner's if the PTY is owned. */
  predicate GrantsByEpoch(l: Loop) {
    && |l.out.granted| == l.arbiter.state.epoch
    && (forall i :: 0 <= i < |l.out.granted| ==>
          l.out.granted[i].key.run == l.arbiter.run && l.out.granted[i].key.epoch == i + 1)
    && (l.arbiter.state.Owned? ==>
          && l.out.granted != []
          && l.out.granted[|l.out.granted| - 1]
             == ControllerHandle(HandleKey(l.arbiter.run, l.arbiter.state.epoch, l.arbiter.state.holder), l.arbiter.state.kind))
  }

  predicate AllGranted(l: Loop) {
    && (forall i :: 0 <= i < |l.inputs| ==> GrantedItem(l.out, l.inputs[i]))
    && (l.current.Some? ==> Granted(l.out, l.current.value))
    && (l.end.Some? ==> GrantedItem(l.out, l.end.value))
  }

  predicate ControlsGranted(out: Out, controls: seq<Control>) {
    forall i :: 0 <= i < |controls| ==> controls[i].Disconnect? ==> controls[i].handle in out.granted
  }

  predicate RequestsGranted(out: Out, requests: seq<PendingInput>) {
    forall i :: 0 <= i < |requests| ==> Granted(out, requests[i])
  }

  predicate PtyByEpoch(pty: seq<Chunk>) {
    forall i, j :: 0 <= i < j < |pty| ==> pty[i].key.epoch <= pty[j].key.epoch
  }

  predicate PtyWithin(l: Loop) {
    && PtyByEpoch(l.out.pty)
    && forall i :: 0 <= i < |l.out.pty| ==> l.out.pty[i].key.epoch <= l.arbiter.state.epoch
  }

  // ---------------------------------------------------------------- what a step does to the answers

  /** `out` after a step that wrote only with the control of `a`. */
  predicate WroteUnder(a: Arbiter, before: Out, after: Out) {
    && before.pty <= after.pty && before.granted == after.granted && before.served <= after.served
    && forall i :: |before.pty| <= i < |after.pty| ==> Authorizes(a, after.pty[i].key)
  }

  lemma {:induction false} CancelOneWrites(a: Arbiter, c: Cancelling, item: Item, answer: SinkAnswer)
    requires item.Write? ==> item.request.Valid()
    ensures WroteUnder(a, c.out, CancelOne(a, c, item, answer).out)
  {
    hide StepWrite, WhyStale;
    if item.Write? {
      StepWriteEffect(a, item.request, answer);
    }
  }

  lemma {:induction false} CancelAllWrites(a: Arbiter, out: Out, items: seq<Item>, answers: seq<SinkAnswer>)
    requires Sound(items) && |items| <= |answers|
    ensures WroteUnder(a, out, CancelAll(a, out, items, answers).out)
  {
    hide CancelOne, WhyStale;
    if items != [] {
      var n := |items| - 1;
      CancelAllWrites(a, out, items[..n], answers);
      CancelOneWrites(a, CancelAll(a, out, items[..n], answers), items[n], answers[n]);
    }
  }

  lemma {:induction false} AttemptWrites(l: Loop, answer: SinkAnswer)
    requires LoopSound(l) && l.current.Some?
    ensures WroteUnder(l.arbiter, l.out, Attempted(l, StepWrite(l.arbiter, l.current.value, answer)).out)
  {
    hide StepWrite, WhyStale;
    StepWriteEffect(l.arbiter, l.current.value, answer);
  }

  lemma {:induction false} WithinStill(l: Loop, after: Loop)
    requires PtyWithin(l) && WroteUnder(after.arbiter, l.out, after.out)
    requires l.arbiter.state.epoch <= after.arbiter.state.epoch
    ensures PtyWithin(after)
  {
  }

  // ---------------------------------------------------------------- grants and epochs are kept

  predicate Kept(l: Loop) {
    GrantsByEpoch(l) && PtyWithin(l)
  }

  lemma {:induction false} ReleaseKeeps(l: Loop, handle: ControllerHandle)
    requires Kept(l)
    ensures Kept(ReleaseBy(l, handle))
    ensures ReleaseBy(l, handle).arbiter == Release(l.arbiter, handle.key)
    ensures ReleaseBy(l, handle).arbiter.state.epoch == l.arbiter.state.epoch
  {
  }

  lemma {:induction false} ClaimKeeps(l: Loop, holder: HolderId, kind: ControllerKind)
    requires Kept(l)
    ensures Kept(ServeClaim(l, holder, kind)) && l.out.granted <= ServeClaim(l, holder, kind).out.granted
  {
  }

  lemma {:induction false} TakeoverKeeps(l: Loop, holder: HolderId)
    requires Kept(l)
    ensures Kept(ServeTakeover(l, holder)) && l.out.granted <= ServeTakeover(l, holder).out.granted
  {
  }

  lemma {:induction false} DisconnectKeeps(l: Loop, handle: ControllerHandle, answers: seq<SinkAnswer>)
    requires Kept(l) && LoopSound(l) && |l.inputs| < |answers|
    ensures Kept(ServeDisconnect(l, handle, answers)) && l.out.granted == ServeDisconnect(l, handle, answers).out.granted
  {
    hide CancelAll, Everything, Others, GrantsByEpoch, PtyWithin, Release, WhyStale;
    var released := ReleaseBy(l, handle);
    ReleaseKeeps(l, handle);
    EverythingSound(l, handle.key.holder);
    CancelAllWrites(released.arbiter, released.out, Everything(l, handle.key.holder), answers);
    var after := ServeDisconnect(l, handle, answers);
    WithinStill(released, after);
    GrantsStill(released, after);
  }

  lemma {:induction false} GrantsStill(l: Loop, after: Loop)
    requires GrantsByEpoch(l) && l.out.granted == after.out.granted && l.arbiter == after.arbiter
    ensures GrantsByEpoch(after)
  {
  }

  lemma {:induction false} ProceedKeeps(l: Loop, answer: SinkAnswer)
    requires Kept(l) && LoopSound(l)
    ensures Kept(Proceed(l, answer)) && l.out.granted == Proceed(l, answer).out.granted
  {
    hide StepWrite, Attempted, ReleaseBy, GrantsByEpoch, PtyWithin;
    match l.end
    case Some(end) =>
      ReleaseKeeps(l, end.handle);
      var after := Proceed(l, answer);
      assert ReleaseBy(l, end.handle).out.granted == l.out.granted by { ReleaseGrants(l, end.handle); }
      GrantsStill(ReleaseBy(l, end.handle), after);
      WithinStill(ReleaseBy(l, end.handle), after);
    case None =>
      if l.current.Some? {
        AttemptWrites(l, answer);
        var after := Attempted(l, StepWrite(l.arbiter, l.current.value, answer));
        AttemptArbiter(l, answer);
        WithinStill(l, after);
        GrantsStill(l, after);
      }
  }

  lemma ReleaseGrants(l: Loop, handle: ControllerHandle)
    ensures ReleaseBy(l, handle).out.granted == l.out.granted && ReleaseBy(l, handle).out.pty == l.out.pty
    ensures ReleaseBy(l, handle).out.served == l.out.served
  {
  }

  lemma AttemptArbiter(l: Loop, answer: SinkAnswer)
    requires LoopSound(l) && l.current.Some?
    ensures Attempted(l, StepWrite(l.arbiter, l.current.value, answer)).arbiter == l.arbiter
  {
    hide StepWrite;
  }

  lemma {:induction false} ServeKeeps(l: Loop, control: Control, answers: seq<SinkAnswer>)
    requires Kept(l) && LoopSound(l) && |l.inputs| < |answers|
    ensures Kept(Serve(l, control, answers)) && l.out.granted <= Serve(l, control, answers).out.granted
  {
    hide Kept, ServeClaim, ServeTakeover, ServeDisconnect;
    match control
    case ClaimFor(holder, kind) => ClaimKeeps(l, holder, kind);
    case TakeoverFor(holder) => TakeoverKeeps(l, holder);
    case Resize(key, size) => ResizeKeeps(l, key, size);
    case Disconnect(handle) => DisconnectKeeps(l, handle, answers);
  }

  lemma {:induction false} ResizeKeeps(l: Loop, key: HandleKey, size: R.Geometry)
    requires Kept(l)
    ensures Kept(ServeResize(l, key, size)) && l.out.granted == ServeResize(l, key, size).out.granted
  {
  }

  lemma {:induction false} NextKeeps(s: System, e: Event)
    requires SystemSound(s) && Enabled(s, e) && Kept(s.loop)
    ensures Kept(Next(s, e).loop) && s.loop.out.granted <= Next(s, e).loop.out.granted
  {
    hide Serve, Proceed, LoopSound;
    match e
    case ServeNext(answers) => ServeKeeps(s.loop, s.batch[0], answers);
    case ProceedWith(answer) => ProceedKeeps(s.loop, answer);
    case _ =>
  }

  lemma {:induction false} RunKeeps(run: RunId, events: seq<Event>)
    requires After(run, events).Some?
    ensures Kept(After(run, events).value.loop)
  {
    hide Kept, Next, Enabled;
    if events == [] {
      StartKept(run);
    } else {
      var n := |events| - 1;
      RunKeeps(run, events[..n]);
      NextKeeps(After(run, events[..n]).value, events[n]);
    }
  }

  lemma StartKept(run: RunId)
    ensures Kept(Start(run).loop)
  {
  }

  /** The epochs of the bytes reaching the PTY never decrease, whatever senders, takeovers and disconnects do. */
  lemma EpochsNeverFall(run: RunId, events: seq<Event>)
    requires After(run, events).Some?
    ensures PtyByEpoch(After(run, events).value.loop.out.pty)
  {
    hide After, PtyByEpoch;
    RunKeeps(run, events);
  }

  // ---------------------------------------------------------------- silent for good

  /** The PTY after a step that wrote only under the control of `a`. */
  predicate GrewUnder(a: Arbiter, before: seq<Chunk>, after: seq<Chunk>) {
    before <= after && forall i :: |before| <= i < |after| ==> Authorizes(a, after[i].key)
  }

  /** Out of control, and by an epoch already reached. */
  predicate Over(a: Arbiter, k: HandleKey) {
    k.epoch <= a.state.epoch && !Authorizes(a, k)
  }

  lemma {:induction false} ServeOver(l: Loop, control: Control, answers: seq<SinkAnswer>, k: HandleKey)
    requires LoopSound(l) && |l.inputs| < |answers| && Over(l.arbiter, k)
    ensures var t := Serve(l, control, answers);
      Over(t.arbiter, k) && GrewUnder(t.arbiter, l.out.pty, t.out.pty)
  {
    hide CancelAll, Everything, Others;
    match control
    case Disconnect(handle) =>
      var released := ReleaseBy(l, handle);
      EverythingSound(l, handle.key.holder);
      CancelAllWrites(released.arbiter, released.out, Everything(l, handle.key.holder), answers);
    case _ =>
  }

  lemma {:induction false} ProceedOver(l: Loop, answer: SinkAnswer, k: HandleKey)
    requires LoopSound(l) && Over(l.arbiter, k)
    ensures var t := Proceed(l, answer);
      Over(t.arbiter, k) && GrewUnder(t.arbiter, l.out.pty, t.out.pty)
  {
    hide StepWrite, Attempted;
    if l.end.None? && l.current.Some? {
      AttemptWrites(l, answer);
      AttemptArbiter(l, answer);
    }
  }

  lemma {:induction false} NextOver(s: System, e: Event, k: HandleKey)
    requires SystemSound(s) && Enabled(s, e) && Over(s.loop.arbiter, k)
    ensures var t := Next(s, e).loop;
      Over(t.arbiter, k) && GrewUnder(t.arbiter, s.loop.out.pty, t.out.pty)
  {
    hide Serve, Proceed, LoopSound, Over;
    match e
    case ServeNext(answers) => ServeOver(s.loop, s.batch[0], answers, k);
    case ProceedWith(answer) => ProceedOver(s.loop, answer, k);
    case _ =>
  }

  /**
   Once a handle is superseded, released or disconnected, no later step of any run puts a byte of it on the PTY,
   whatever it had queued or still queues.
   */
  lemma {:induction false} SilentForGood(run: RunId, events: seq<Event>, more: seq<Event>, k: HandleKey)
    requires After(run, events).Some? && After(run, events + more).Some?
    requires Over(After(run, events).value.loop.arbiter, k)
    ensures var (s, t) := (After(run, events).value.loop, After(run, events + more).value.loop);
      && Over(t.arbiter, k) && s.out.pty <= t.out.pty
      && forall i :: |s.out.pty| <= i < |t.out.pty| ==> t.out.pty[i].key != k
    decreases |more|
  {
    hide Next, Enabled;
    if more == [] {
      assert events + more == events;
    } else {
      var n := |more| - 1;
      assert (events + more)[..|events + more| - 1] == events + more[..n];
      SilentForGood(run, events, more[..n], k);
      NextOver(After(run, events + more[..n]).value, more[n], k);
    }
  }
}
