/** What each handle gets onto the PTY is a prefix of what it submitted, as long as the PTY itself does not fail. */
module PtyPrefix {
  import opened Wrappers
  import opened Bytes
  import opened PtyControl
  import opened PtyInput
  import opened PtyDisconnect
  import opened PtyOrder

  /** The bytes a handle got onto the PTY. */
  function Sent(k: HandleKey, pty: seq<Chunk>): seq<byte> {
    if pty == [] then []
    else
      var last := pty[|pty| - 1];
      Sent(k, pty[..|pty| - 1]) + if last.key == k then last.data else []
  }

  /** The bytes a handle submitted. */
  function Asked(k: HandleKey, requests: seq<PendingInput>): seq<byte> {
    if requests == [] then []
    else
      var last := requests[|requests| - 1];
      Asked(k, requests[..|requests| - 1]) + if last.key == k then last.bytes else []
  }

  function InQueue(k: HandleKey, items: seq<Item>): seq<byte> {
    if items == [] then []
    else
      var last := items[|items| - 1];
      InQueue(k, items[..|items| - 1]) + if last.Write? && last.request.key == k then last.request.bytes else []
  }

  function Rest(k: HandleKey, current: Option<PendingInput>): seq<byte>
    requires current.Some? ==> current.value.Valid()
  {
    if current.Some? && current.value.key == k then current.value.bytes[current.value.accepted..] else []
  }

  /** No request of the handle was stopped by the PTY failing. */
  predicate NoFailure(k: HandleKey, served: seq<PendingInput>) {
    forall i :: 0 <= i < |served| ==> served[i].key == k ==> !PtyFailed(served[i])
  }

  /** Each holder was granted control at most once, as holder identities are handed out. */
  predicate DistinctHolders(granted: seq<ControllerHandle>) {
    forall i, j :: 0 <= i < j < |granted| ==> granted[i].key.holder != granted[j].key.holder
  }

  /** A handle in control has everything on the PTY or on the way there, in order; any handle has a prefix there. */
  predicate Orderly(k: HandleKey, l: Loop, submitted: seq<PendingInput>)
    requires l.current.Some? ==> l.current.value.Valid()
  {
    NoFailure(k, l.out.served) ==>
      && Sent(k, l.out.pty) <= Asked(k, submitted)
      && (Authorizes(l.arbiter, k) ==>
            Sent(k, l.out.pty) + Rest(k, l.current) + InQueue(k, l.inputs) == Asked(k, submitted))
  }

  /** Queued requests have written nothing yet. */
  predicate Untouched(items: seq<Item>) {
    forall i :: 0 <= i < |items| ==> items[i].Write? ==> items[i].request.accepted == 0
  }

  // ---------------------------------------------------------------- everything queued was granted

  lemma {:induction false} GrantedStill(out: Out, after: Out, items: seq<Item>, controls: seq<Control>, requests: seq<PendingInput>)
    requires out.granted <= after.granted
    ensures (forall i :: 0 <= i < |items| ==> GrantedItem(out, items[i])) ==> forall i :: 0 <= i < |items| ==> GrantedItem(after, items[i])
    ensures ControlsGranted(out, controls) ==> ControlsGranted(after, controls)
    ensures RequestsGranted(out, requests) ==> RequestsGranted(after, requests)
  {
    assert forall h :: h in out.granted ==> h in after.granted;
  }

  lemma {:induction false} OthersAmong(items: seq<Item>, holder: HolderId, i: nat)
    requires i < |Others(items, holder)|
    ensures Others(items, holder)[i] in items
  {
    if items != [] && i < |Others(items[..|items| - 1], holder)| {
      OthersAmong(items[..|items| - 1], holder, i);
      assert items == items[..|items| - 1] + [items[|items| - 1]];
    }
  }

  /** Every item of the loop after a control was there before. */
  lemma {:induction false} ServedAmong(l: Loop, control: Control, answers: seq<SinkAnswer>)
    requires LoopSound(l) && |l.inputs| < |answers|
    ensures var after := Serve(l, control, answers);
      && (forall i :: 0 <= i < |after.inputs| ==> after.inputs[i] in l.inputs)
      && after.current in {None, l.current} && after.end in {None, l.end}
  {
    hide Others, CancelAll, Everything, StepWrite;
    if control.Disconnect? {
      var holder := control.handle.key.holder;
      forall i | 0 <= i < |Others(l.inputs, holder)| ensures Others(l.inputs, holder)[i] in l.inputs {
        OthersAmong(l.inputs, holder, i);
      }
    }
  }

  predicate Queued(s: System) {
    && AllGranted(s.loop) && Untouched(s.loop.inputs)
    && ControlsGranted(s.loop.out, s.controls) && ControlsGranted(s.loop.out, s.batch)
    && RequestsGranted(s.loop.out, s.submitted)
  }

  lemma {:induction false} AmongStill(l: Loop, after: Loop)
    requires AllGranted(l) && Untouched(l.inputs) && l.out.granted <= after.out.granted
    requires forall i :: 0 <= i < |after.inputs| ==> after.inputs[i] in l.inputs
    requires after.current in {None, l.current} && after.end in {None, l.end}
    ensures AllGranted(after) && Untouched(after.inputs)
  {
    assert forall h :: h in l.out.granted ==> h in after.out.granted;
    forall i | 0 <= i < |after.inputs|
      ensures GrantedItem(after.out, after.inputs[i]) && (after.inputs[i].Write? ==> after.inputs[i].request.accepted == 0)
    {
      assert after.inputs[i] in l.inputs;
      var j :| 0 <= j < |l.inputs| && l.inputs[j] == after.inputs[i];
      assert GrantedItem(l.out, l.inputs[j]);
    }
  }

  lemma {:induction false} ServeQueued(s: System, answers: seq<SinkAnswer>)
    requires SystemSound(s) && Enabled(s, ServeNext(answers)) && Kept(s.loop) && Queued(s)
    ensures Queued(Next(s, ServeNext(answers)))
  {
    hide Serve, LoopSound, Kept, AllGranted, Untouched;
    var t := Next(s, ServeNext(answers));
    NextKeeps(s, ServeNext(answers));
    ServedAmong(s.loop, s.batch[0], answers);
    AmongStill(s.loop, t.loop);
    GrantedStill(s.loop.out, t.loop.out, [], s.controls, s.submitted);
    GrantedStill(s.loop.out, t.loop.out, [], s.batch, s.submitted);
  }

  lemma {:induction false} ProceedQueued(s: System, answer: SinkAnswer)
    requires SystemSound(s) && Enabled(s, ProceedWith(answer)) && Kept(s.loop) && Queued(s)
    ensures Queued(Next(s, ProceedWith(answer)))
  {
    hide StepWrite, WhyStale;
    var t := Next(s, ProceedWith(answer));
    NextKeeps(s, ProceedWith(answer));
    ProceedSame(s.loop, answer);
    GrantedStill(s.loop.out, t.loop.out, [], s.controls, s.submitted);
    GrantedStill(s.loop.out, t.loop.out, [], s.batch, s.submitted);
    GrantedStill(s.loop.out, t.loop.out, s.loop.inputs, [], []);
  }

  lemma {:induction false} ProceedSame(l: Loop, answer: SinkAnswer)
    requires LoopSound(l)
    ensures var after := Proceed(l, answer);
      && after.inputs == l.inputs && after.out.granted == l.out.granted && after.end.None?
      && (after.current.Some? ==> l.current.Some? && after.current.value.key == l.current.value.key
                                  && after.current.value.kind == l.current.value.kind)
  {
    hide StepWrite;
    if l.end.None? && l.current.Some? {
      StepWriteEffect(l.arbiter, l.current.value, answer);
    }
  }

  lemma {:induction false} NextQueued(s: System, e: Event)
    requires SystemSound(s) && Enabled(s, e) && Kept(s.loop) && Queued(s)
    ensures Queued(Next(s, e))
  {
    hide Serve, Proceed, Kept, LoopSound;
    match e
    case ServeNext(answers) => ServeQueued(s, answers);
    case ProceedWith(answer) => ProceedQueued(s, answer);
    case _ =>
  }

  lemma {:induction false} RunQueued(run: RunId, events: seq<Event>)
    requires After(run, events).Some?
    ensures Queued(After(run, events).value)
  {
    hide Kept, Next, Enabled, Queued;
    if events == [] {
      StartQueued(run);
    } else {
      var n := |events| - 1;
      RunQueued(run, events[..n]);
      RunKeeps(run, events[..n]);
      NextQueued(After(run, events[..n]).value, events[n]);
    }
  }

  lemma StartQueued(run: RunId)
    ensures Queued(Start(run))
  {
  }

  // ---------------------------------------------------------------- sequences by handle

  lemma {:induction false} QueueSplit(k: HandleKey, a: seq<Item>, b: seq<Item>)
    ensures InQueue(k, a + b) == InQueue(k, a) + InQueue(k, b)
  {
    if b == [] {
      assert a + b == a;
    } else {
      var n := |b| - 1;
      assert (a + b)[..|a + b| - 1] == a + b[..n];
      QueueSplit(k, a, b[..n]);
    }
  }

  lemma {:induction false} QueueFront(k: HandleKey, items: seq<Item>)
    requires items != []
    ensures InQueue(k, items)
            == (if items[0].Write? && items[0].request.key == k then items[0].request.bytes else []) + InQueue(k, items[1..])
  {
    QueueSplit(k, [items[0]], items[1..]);
    assert [items[0]] + items[1..] == items;
    assert [items[0]][..0] == [];
    assert InQueue(k, [items[0]][..0]) == [];
  }

  lemma {:induction false} QueueOthers(k: HandleKey, items: seq<Item>, holder: HolderId)
    requires k.holder != holder
    ensures InQueue(k, Others(items, holder)) == InQueue(k, items)
  {
    if items != [] {
      var n := |items| - 1;
      QueueOthers(k, items[..n], holder);
      QueueSplit(k, Others(items[..n], holder), [items[n]]);
      assert [items[n]][..0] == [];
      if HolderOf(items[n]) == holder {
        assert Others(items, holder) == Others(items[..n], holder);
      }
    }
  }

  /** A handle not granted yet has nothing anywhere. */
  lemma {:induction false} NothingAsked(k: HandleKey, out: Out, requests: seq<PendingInput>)
    requires RequestsGranted(out, requests) && forall kind :: ControllerHandle(k, kind) !in out.granted
    ensures Asked(k, requests) == []
  {
    if requests != [] {
      NothingAsked(k, out, requests[..|requests| - 1]);
      assert Granted(out, requests[|requests| - 1]);
    }
  }

  lemma {:induction false} NothingQueued(k: HandleKey, out: Out, items: seq<Item>)
    requires (forall i :: 0 <= i < |items| ==> GrantedItem(out, items[i])) && forall kind :: ControllerHandle(k, kind) !in out.granted
    ensures InQueue(k, items) == []
  {
    if items != [] {
      NothingQueued(k, out, items[..|items| - 1]);
      assert GrantedItem(out, items[|items| - 1]);
    }
  }

  lemma {:induction false} NotYetGranted(l: Loop, k: HandleKey, kind: ControllerKind)
    requires GrantsByEpoch(l) && k.epoch > l.arbiter.state.epoch
    ensures ControllerHandle(k, kind) !in l.out.granted
  {
  }

  // ---------------------------------------------------------------- order is kept

  /** Ownership changes that write nothing. */
  lemma {:induction false} OwnershipOrderly(k: HandleKey, l: Loop, after: Loop, submitted: seq<PendingInput>)
    requires LoopSound(l) && GrantsByEpoch(l) && AllGranted(l) && RequestsGranted(l.out, submitted)
    requires after.inputs == l.inputs && after.current == l.current
    requires after.out.pty == l.out.pty && after.out.served == l.out.served
    requires !Authorizes(l.arbiter, k) && Authorizes(after.arbiter, k) ==> k.epoch > l.arbiter.state.epoch
    requires Orderly(k, l, submitted)
    ensures Orderly(k, after, submitted)
  {
    hide WhyStale, GrantsByEpoch;
    if !Authorizes(l.arbiter, k) && Authorizes(after.arbiter, k) {
      assert forall kind :: ControllerHandle(k, kind) !in l.out.granted by {
        forall kind ensures ControllerHandle(k, kind) !in l.out.granted {
          NotYetGranted(l, k, kind);
        }
      }
      NothingAsked(k, l.out, submitted);
      NothingQueued(k, l.out, l.inputs);
      assert l.current.Some? ==> Granted(l.out, l.current.value);
    }
  }

  lemma {:induction false} StageOrderly(k: HandleKey, l: Loop, submitted: seq<PendingInput>)
    requires LoopSound(l) && l.end.None? && Untouched(l.inputs) && Orderly(k, l, submitted)
    ensures Orderly(k, Stage(l), submitted)
  {
    hide WhyStale, NoFailure, Sent, Asked, InQueue;
    if l.current.None? && l.inputs != [] {
      QueueFront(k, l.inputs);
      var sent := Sent(k, l.out.pty);
      assert l.inputs[0].Write? ==> l.inputs[0].request.bytes[0..] == l.inputs[0].request.bytes;
      assert sent + [] == sent;
      assert sent + Rest(k, Stage(l).current) + InQueue(k, l.inputs[1..])
             == sent + (Rest(k, Stage(l).current) + InQueue(k, l.inputs[1..]));
    }
  }

  lemma {:induction false} PushOrderly(k: HandleKey, l: Loop, submitted: seq<PendingInput>, p: PendingInput)
    requires LoopSound(l) && Orderly(k, l, submitted)
    ensures Orderly(k, l.(inputs := l.inputs + [Write(p)]), submitted + [p])
  {
    hide WhyStale, NoFailure, Sent, Asked, InQueue, Rest;
    var more := if p.key == k then p.bytes else [];
    PushedMore(k, l.inputs, submitted, p);
    AppendBoth(Sent(k, l.out.pty), Rest(k, l.current), InQueue(k, l.inputs), Asked(k, submitted), more);
  }

  lemma {:induction false} PushedMore(k: HandleKey, items: seq<Item>, submitted: seq<PendingInput>, p: PendingInput)
    ensures var more := if p.key == k then p.bytes else [];
      && InQueue(k, items + [Write(p)]) == InQueue(k, items) + more
      && Asked(k, submitted + [p]) == Asked(k, submitted) + more
  {
    assert (items + [Write(p)])[..|items|] == items;
    assert (submitted + [p])[..|submitted|] == submitted;
  }

  lemma AppendBoth(sent: seq<byte>, rest: seq<byte>, queue: seq<byte>, asked: seq<byte>, more: seq<byte>)
    ensures sent <= asked ==> sent <= asked + more
    ensures sent + rest + queue == asked ==> sent + rest + (queue + more) == asked + more
  {
    assert sent + rest + (queue + more) == (sent + rest + queue) + more;
  }

  lemma {:induction false} PushEndOrderly(k: HandleKey, l: Loop, submitted: seq<PendingInput>, end: Item)
    requires end.End? && (l.current.Some? ==> l.current.value.Valid()) && Orderly(k, l, submitted)
    ensures Orderly(k, l.(inputs := l.inputs + [end]), submitted)
  {
    QueueSplit(k, l.inputs, [end]);
    assert [end][..0] == [];
  }

  /** One write attempt moves bytes of the request being written, and no others. */
  lemma {:induction false} AttemptOrderly(k: HandleKey, l: Loop, submitted: seq<PendingInput>, answer: SinkAnswer)
    requires LoopSound(l) && l.current.Some? && Orderly(k, l, submitted)
    ensures var after := Attempted(l, StepWrite(l.arbiter, l.current.value, answer));
      (after.current.Some? ==> after.current.value.Valid()) && Orderly(k, after, submitted)
  {
    hide StepWrite, WhyStale, NoFailure, InQueue, Asked, Sent, Wrote, PtyFailed;
    var p := l.current.value;
    var step := StepWrite(l.arbiter, p, answer);
    StepWriteEffect(l.arbiter, p, answer);
    var after := Attempted(l, step);
    var q := step.request;
    WroteOnly(l.out, p, step.written);
    if NoFailure(k, after.out.served) {
      ServedMore(k, l, after, q);
      SentMore(k, l.out, p, step.written);
      var sent := Sent(k, l.out.pty);
      assert sent + [] == sent;
      if p.key == k {
        MovedOn(sent, p.bytes, p.accepted, q.accepted, InQueue(k, l.inputs));
        assert q.outcome.Some? && Authorizes(l.arbiter, k) ==> q.accepted == |p.bytes|;
      }
    }
  }

  lemma WroteOnly(out: Out, p: PendingInput, written: seq<byte>)
    ensures Wrote(out, p, written).served == out.served
  {
  }

  /** Bytes `from..to` of a request move from where they wait to the PTY. */
  lemma MovedOn(sent: seq<byte>, bytes: seq<byte>, from: nat, to: nat, queue: seq<byte>)
    requires from <= to <= |bytes|
    ensures bytes[..from] + bytes[from..to] == bytes[..to]
    ensures forall w {:trigger sent + w} :: bytes[..from] + w == bytes[..to] ==> w == bytes[from..to]
    ensures sent + bytes[from..] + queue == (sent + bytes[from..to]) + bytes[to..] + queue
    ensures sent + bytes[from..to] <= sent + bytes[from..] + queue
    ensures bytes[|bytes|..] == []
  {
    assert bytes[from..] == bytes[from..to] + bytes[to..];
    forall w | bytes[..from] + w == bytes[..to] ensures w == bytes[from..to] {
      assert (bytes[..from] + w)[from..] == w && bytes[..to][from..] == bytes[from..to];
    }
  }

  lemma {:induction false} ServedMore(k: HandleKey, l: Loop, after: Loop, q: PendingInput)
    requires after.out.served == l.out.served || after.out.served == l.out.served + [q]
    requires NoFailure(k, after.out.served)
    ensures NoFailure(k, l.out.served)
    ensures after.out.served == l.out.served + [q] && q.key == k ==> !PtyFailed(q)
  {
    assert forall i :: 0 <= i < |l.out.served| ==> l.out.served[i] == after.out.served[i];
    assert after.out.served == l.out.served + [q] ==> after.out.served[|l.out.served|] == q;
  }

  lemma {:induction false} SentMore(k: HandleKey, out: Out, p: PendingInput, written: seq<byte>)
    ensures Sent(k, Wrote(out, p, written).pty) == Sent(k, out.pty) + if p.key == k then written else []
  {
    var chunk := Chunk(p.key, p.id, written);
    assert (out.pty + [chunk])[..|out.pty|] == out.pty;
    assert Sent(k, out.pty) + [] == Sent(k, out.pty);
  }

  /** With each holder granted once, a disconnecting holder does not own the PTY once its handle is released. */
  lemma {:induction false} ReleasedForGood(l: Loop, handle: ControllerHandle)
    requires GrantsByEpoch(l) && DistinctHolders(l.out.granted) && handle in l.out.granted
    ensures !OwnedBy(Release(l.arbiter, handle.key), handle.key.holder)
  {
    var i :| 0 <= i < |l.out.granted| && l.out.granted[i] == handle;
    if l.arbiter.state.Owned? && i < |l.out.granted| - 1 {
      assert l.out.granted[i].key.holder != l.out.granted[|l.out.granted| - 1].key.holder;
    }
  }

  lemma {:induction false} DisconnectOrderly(k: HandleKey, l: Loop, submitted: seq<PendingInput>, handle: ControllerHandle, answers: seq<SinkAnswer>)
    requires LoopSound(l) && |l.inputs| < |answers| && GrantsByEpoch(l)
    requires DistinctHolders(l.out.granted) && handle in l.out.granted
    requires Orderly(k, l, submitted)
    ensures var after := ServeDisconnect(l, handle, answers);
      (after.current.Some? ==> after.current.value.Valid()) && Orderly(k, after, submitted)
  {
    hide Others, Theirs, StoppedAll, Ends, Requests, SumAccepted, SumTotal, Everything, Sent, Asked, InQueue, ServeDisconnect;
    ReleasedForGood(l, handle);
    DisconnectExact(l, handle, answers);
    var after := ServeDisconnect(l, handle, answers);
    if NoFailure(k, after.out.served) {
      forall i | 0 <= i < |l.out.served| && l.out.served[i].key == k ensures !PtyFailed(l.out.served[i]) {
        assert after.out.served[i] == l.out.served[i];
      }
      if Authorizes(after.arbiter, k) {
        assert k.holder != handle.key.holder;
        QueueOthers(k, l.inputs, handle.key.holder);
      }
    }
  }

  lemma {:induction false} ServeOrderly(k: HandleKey, l: Loop, submitted: seq<PendingInput>, control: Control, answers: seq<SinkAnswer>)
    requires LoopSound(l) && |l.inputs| < |answers| && GrantsByEpoch(l) && AllGranted(l) && RequestsGranted(l.out, submitted)
    requires DistinctHolders(l.out.granted) && (control.Disconnect? ==> control.handle in l.out.granted)
    requires Orderly(k, l, submitted)
    ensures var after := Serve(l, control, answers);
      (after.current.Some? ==> after.current.value.Valid()) && Orderly(k, after, submitted)
  {
    hide Orderly, GrantsByEpoch, AllGranted, ServeDisconnect, RequestsGranted, DistinctHolders;
    match control
    case ClaimFor(holder, kind) => OwnershipOrderly(k, l, ServeClaim(l, holder, kind), submitted);
    case TakeoverFor(holder) => OwnershipOrderly(k, l, ServeTakeover(l, holder), submitted);
    case Resize(key, size) => OwnershipOrderly(k, l, ServeResize(l, key, size), submitted);
    case Disconnect(handle) => DisconnectOrderly(k, l, submitted, handle, answers);
  }

  lemma {:induction false} ProceedOrderly(k: HandleKey, l: Loop, submitted: seq<PendingInput>, answer: SinkAnswer)
    requires LoopSound(l) && GrantsByEpoch(l) && AllGranted(l) && RequestsGranted(l.out, submitted)
    requires Orderly(k, l, submitted)
    ensures var after := Proceed(l, answer);
      (after.current.Some? ==> after.current.value.Valid()) && Orderly(k, after, submitted)
  {
    hide Orderly, GrantsByEpoch, AllGranted, RequestsGranted, StepWrite, Attempted;
    if l.end.Some? {
      OwnershipOrderly(k, l, Proceed(l, answer), submitted);
    } else if l.current.Some? {
      AttemptOrderly(k, l, submitted, answer);
    }
  }

  predicate OrderlyNow(k: HandleKey, s: System)
    requires SystemSound(s)
  {
    DistinctHolders(s.loop.out.granted) ==> Orderly(k, s.loop, s.submitted)
  }

  lemma {:induction false} NextOrderly(k: HandleKey, s: System, e: Event)
    requires SystemSound(s) && Enabled(s, e) && SystemSound(Next(s, e)) && Kept(s.loop) && Queued(s) && OrderlyNow(k, s)
    ensures OrderlyNow(k, Next(s, e))
  {
    hide Orderly, Serve, Proceed, GrantsByEpoch, PtyWithin, AllGranted, RequestsGranted, Stage, Untouched;
    NextKeeps(s, e);
    var t := Next(s, e);
    if DistinctHolders(t.loop.out.granted) {
      assert DistinctHolders(s.loop.out.granted);
      match e
      case PushControl(_) =>
      case PushWrite(id, handle, bytes) => PushOrderly(k, s.loop, s.submitted, NewInput(id, handle, bytes).value);
      case PushEnd(handle) => PushEndOrderly(k, s.loop, s.submitted, End(handle, |s.submitted|));
      case Drain => StageOrderly(k, s.loop, s.submitted);
      case ServeNext(answers) => ServeOrderly(k, s.loop, s.submitted, s.batch[0], answers);
      case ProceedWith(answer) => ProceedOrderly(k, s.loop, s.submitted, answer);
    }
  }

  lemma {:induction false} RunOrderly(k: HandleKey, run: RunId, events: seq<Event>)
    requires After(run, events).Some?
    ensures OrderlyNow(k, After(run, events).value)
  {
    hide Kept, Next, Enabled, Queued, OrderlyNow;
    if events == [] {
      StartOrderly(k, run);
    } else {
      var n := |events| - 1;
      RunOrderly(k, run, events[..n]);
      RunKeeps(run, events[..n]);
      RunQueued(run, events[..n]);
      NextOrderly(k, After(run, events[..n]).value, events[n]);
    }
  }

  lemma StartOrderly(k: HandleKey, run: RunId)
    ensures OrderlyNow(k, Start(run))
  {
  }

  /**
   Over every run in which each holder is granted control once: as long as the PTY fails none of its requests,
   what a handle got onto the PTY is a prefix of what it submitted, in order; and while it has control, nothing
   of what it submitted is missing from the PTY, the request being written and the queue.
   */
  lemma EachHandleInOrder(k: HandleKey, run: RunId, events: seq<Event>)
    requires After(run, events).Some?
    requires DistinctHolders(After(run, events).value.loop.out.granted)
    requires NoFailure(k, After(run, events).value.loop.out.served)
    ensures var s := After(run, events).value;
      && Sent(k, s.loop.out.pty) <= Asked(k, s.submitted)
      && (Authorizes(s.loop.arbiter, k) ==>
            Sent(k, s.loop.out.pty) + Rest(k, s.loop.current) + InQueue(k, s.loop.inputs) == Asked(k, s.submitted))
  {
    hide After, DistinctHolders, NoFailure;
    RunOrderly(k, run, events);
  }
}
