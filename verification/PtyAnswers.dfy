/** What senders and observers are told: the counts of every outcome, and who holds control. */
module PtyAnswers {
  import opened Wrappers
  import opened Bytes
  import opened PtyControl
  import opened PtyInput
  import opened PtyDisconnect
  import opened PtyOrder
  import opened PtyPrefix
  import opened PtyAccounts

  /** The bytes a request got onto the PTY. */
  function SentFor(id: RequestId, pty: seq<Chunk>): seq<byte> {
    if pty == [] then []
    else
      var last := pty[|pty| - 1];
      SentFor(id, pty[..|pty| - 1]) + if last.id == id then last.data else []
  }

  /** The request counts exactly what it got onto the PTY. */
  predicate CountsRight(pty: seq<Chunk>, p: PendingInput) {
    p.accepted <= |p.bytes| && SentFor(p.id, pty) == p.bytes[..p.accepted]
  }

  predicate AllCountRight(pty: seq<Chunk>, ps: seq<PendingInput>) {
    forall i :: 0 <= i < |ps| ==> CountsRight(pty, ps[i])
  }

  predicate ItemsCountRight(pty: seq<Chunk>, items: seq<Item>) {
    forall i :: 0 <= i < |items| ==> items[i].Write? ==> CountsRight(pty, items[i].request)
  }

  predicate AllFinished(ps: seq<PendingInput>) {
    forall i :: 0 <= i < |ps| ==> ps[i].Valid() && ps[i].outcome.Some?
  }

  predicate PtyKnown(pty: seq<Chunk>, submitted: seq<PendingInput>) {
    forall i :: 0 <= i < |pty| ==> pty[i].id in Ids(submitted)
  }

  ghost predicate IdsDistinct(submitted: seq<PendingInput>) {
    forall id :: Ids(submitted)[id] <= 1
  }

  predicate Told(l: Loop) {
    && AllCountRight(l.out.pty, l.out.served) && AllFinished(l.out.served)
    && ItemsCountRight(l.out.pty, l.inputs)
    && (l.current.Some? ==> CountsRight(l.out.pty, l.current.value))
    && l.out.dropped == []
  }

  ghost predicate Answers(s: System) {
    && IdsDistinct(s.submitted) && PtyKnown(s.loop.out.pty, s.submitted)
    && (DistinctHolders(s.loop.out.granted) ==> Told(s.loop))
  }

  // ---------------------------------------------------------------- bytes by request

  lemma {:induction false} SentForMore(id: RequestId, out: Out, p: PendingInput, written: seq<byte>)
    ensures SentFor(id, Wrote(out, p, written).pty) == SentFor(id, out.pty) + if p.id == id then written else []
  {
    var chunk := Chunk(p.key, p.id, written);
    assert (out.pty + [chunk])[..|out.pty|] == out.pty;
    assert SentFor(id, out.pty) + [] == SentFor(id, out.pty);
  }

  lemma {:induction false} NothingSentFor(id: RequestId, pty: seq<Chunk>)
    requires forall i :: 0 <= i < |pty| ==> pty[i].id != id
    ensures SentFor(id, pty) == []
  {
    if pty != [] {
      NothingSentFor(id, pty[..|pty| - 1]);
    }
  }

  lemma {:induction false} ItemCounted(items: seq<Item>, i: nat)
    requires i < |items| && items[i].Write?
    ensures items[i].request.id in ItemIds(items)
  {
    if i < |items| - 1 {
      ItemCounted(items[..|items| - 1], i);
    }
  }

  lemma {:induction false} NotCounted(submitted: seq<PendingInput>, id: RequestId)
    requires FreshRequest(submitted, id)
    ensures id !in Ids(submitted)
  {
    if submitted != [] {
      NotCounted(submitted[..|submitted| - 1], id);
    }
  }

  // ---------------------------------------------------------------- a write attempt

  lemma {:induction false} OtherCounts(out: Out, p: PendingInput, written: seq<byte>, other: PendingInput)
    requires CountsRight(out.pty, other) && other.id != p.id
    ensures CountsRight(Wrote(out, p, written).pty, other)
  {
    SentForMore(other.id, out, p, written);
  }

  /** The request being written is nowhere else. */
  lemma {:induction false} CurrentApart(l: Loop, submitted: seq<PendingInput>)
    requires l.current.Some? && Accounted(l, submitted) && IdsDistinct(submitted)
    ensures l.current.value.id !in Ids(l.out.served) && l.current.value.id !in ItemIds(l.inputs)
    ensures l.current.value.id in Ids(submitted)
  {
    hide Ids, ItemIds;
    var id := l.current.value.id;
    assert Ids(submitted)[id] == Ids(l.out.served)[id] + Ids(l.out.dropped)[id] + 1 + ItemIds(l.inputs)[id];
  }

  lemma {:induction false} OthersCount(l: Loop, submitted: seq<PendingInput>, written: seq<byte>)
    requires l.current.Some? && Accounted(l, submitted) && IdsDistinct(submitted) && Told(l)
    ensures var pty := Wrote(l.out, l.current.value, written).pty;
      AllCountRight(pty, l.out.served) && ItemsCountRight(pty, l.inputs)
  {
    hide Ids, ItemIds, CountsRight, Accounted, IdsDistinct;
    var p := l.current.value;
    CurrentApart(l, submitted);
    forall i | 0 <= i < |l.out.served| ensures CountsRight(Wrote(l.out, p, written).pty, l.out.served[i]) {
      SubmittedCounted(l.out.served, i);
      OtherCounts(l.out, p, written, l.out.served[i]);
    }
    forall i | 0 <= i < |l.inputs| && l.inputs[i].Write?
      ensures CountsRight(Wrote(l.out, p, written).pty, l.inputs[i].request)
    {
      ItemCounted(l.inputs, i);
      OtherCounts(l.out, p, written, l.inputs[i].request);
    }
  }

  lemma {:induction false} AttemptTold(l: Loop, submitted: seq<PendingInput>, answer: SinkAnswer)
    requires LoopSound(l) && l.current.Some? && Accounted(l, submitted) && IdsDistinct(submitted) && Told(l)
    ensures Told(Attempted(l, StepWrite(l.arbiter, l.current.value, answer)))
  {
    hide StepWrite, Ids, ItemIds, SentFor, Accounted, IdsDistinct;
    var p := l.current.value;
    var step := StepWrite(l.arbiter, p, answer);
    StepWriteEffect(l.arbiter, p, answer);
    OthersCount(l, submitted, step.written);
    SentForMore(p.id, l.out, p, step.written);
    var q := step.request;
    assert CountsRight(Wrote(l.out, p, step.written).pty, q);
    assert Wrote(l.out, p, step.written).served == l.out.served;
  }

  lemma {:induction false} AttemptKnown(l: Loop, submitted: seq<PendingInput>, answer: SinkAnswer)
    requires LoopSound(l) && l.current.Some? && Accounted(l, submitted) && IdsDistinct(submitted)
    requires PtyKnown(l.out.pty, submitted)
    ensures PtyKnown(Attempted(l, StepWrite(l.arbiter, l.current.value, answer)).out.pty, submitted)
  {
    hide StepWrite, Ids, ItemIds, Accounted, IdsDistinct;
    CurrentApart(l, submitted);
  }

  // ---------------------------------------------------------------- a disconnect

  lemma {:induction false} TheirsCount(pty: seq<Chunk>, items: seq<Item>, holder: HolderId)
    requires ItemsCountRight(pty, items)
    ensures ItemsCountRight(pty, Theirs(items, holder)) && ItemsCountRight(pty, Others(items, holder))
  {
    hide CountsRight;
    if items != [] {
      TheirsCount(pty, items[..|items| - 1], holder);
    }
  }

  lemma {:induction false} StoppedCount(a: Arbiter, pty: seq<Chunk>, items: seq<Item>, holder: HolderId)
    requires Sound(items) && AllOf(items, holder) && !OwnedBy(a, holder) && ItemsCountRight(pty, items)
    ensures AllCountRight(pty, StoppedAll(a, items)) && AllFinished(StoppedAll(a, items))
  {
    hide SentFor;
    if items != [] {
      StoppedCount(a, pty, items[..|items| - 1], holder);
    }
  }

  lemma {:induction false} DisconnectTold(l: Loop, handle: ControllerHandle, answers: seq<SinkAnswer>)
    requires LoopSound(l) && |l.inputs| < |answers| && GrantsByEpoch(l)
    requires DistinctHolders(l.out.granted) && handle in l.out.granted && Told(l)
    ensures Told(ServeDisconnect(l, handle, answers))
    ensures ServeDisconnect(l, handle, answers).out.pty == l.out.pty
  {
    hide Others, Theirs, StoppedAll, Ends, Requests, SumAccepted, SumTotal, ServeDisconnect, CountsRight,
         GrantsByEpoch, DistinctHolders;
    var holder := handle.key.holder;
    ReleasedForGood(l, handle);
    DisconnectExact(l, handle, answers);
    ReleaseDrops(l, handle);
    TheirsCount(l.out.pty, l.inputs, holder);
    EverythingSound(l, holder);
    EverythingIsTheirs(l, holder);
    StoppedCount(Release(l.arbiter, handle.key), l.out.pty, Everything(l, holder), holder);
    assert ReleaseBy(l, handle).arbiter == Release(l.arbiter, handle.key);
    ReleaseGrants(l, handle);
  }

  lemma {:induction false} CancelKnown(a: Arbiter, out: Out, items: seq<Item>, answers: seq<SinkAnswer>, submitted: seq<PendingInput>)
    requires Sound(items) && |items| <= |answers| && PtyKnown(out.pty, submitted) && ItemIds(items) <= Ids(submitted)
    ensures PtyKnown(CancelAll(a, out, items, answers).out.pty, submitted)
  {
    hide Ids, ItemIds, CancelOne, PtyKnown;
    if items != [] {
      var n := |items| - 1;
      LastItemId(items);
      CancelKnown(a, out, items[..n], answers, submitted);
      CancelOneKnown(a, CancelAll(a, out, items[..n], answers), items[n], answers[n], submitted);
    }
  }

  lemma LastItemId(items: seq<Item>)
    requires items != []
    ensures var n := |items| - 1;
      ItemIds(items[..n]) <= ItemIds(items) && (items[n].Write? ==> items[n].request.id in ItemIds(items))
  {
  }

  lemma CancelOneKnown(a: Arbiter, c: Cancelling, item: Item, answer: SinkAnswer, submitted: seq<PendingInput>)
    requires PtyKnown(c.out.pty, submitted) && (item.Write? ==> Unfinished(item.request) && item.request.id in Ids(submitted))
    ensures PtyKnown(CancelOne(a, c, item, answer).out.pty, submitted)
  {
    hide Ids, StepWrite;
  }

  lemma Within(part: multiset<RequestId>, writing: multiset<RequestId>, writing': multiset<RequestId>,
               theirs: multiset<RequestId>, others: multiset<RequestId>)
    requires writing + theirs == writing' + part
    ensures part <= writing + (theirs + others)
  {
    forall id ensures part[id] <= (writing + (theirs + others))[id] {
      assert (writing + theirs)[id] == writing'[id] + part[id];
    }
  }

  lemma {:induction false} DisconnectKnown(l: Loop, handle: ControllerHandle, answers: seq<SinkAnswer>, submitted: seq<PendingInput>)
    requires LoopSound(l) && |l.inputs| < |answers| && Accounted(l, submitted) && PtyKnown(l.out.pty, submitted)
    ensures PtyKnown(ServeDisconnect(l, handle, answers).out.pty, submitted)
  {
    hide Ids, ItemIds, CancelAll, Everything, Theirs, Others;
    var holder := handle.key.holder;
    EverythingIds(l, holder);
    EverythingSound(l, holder);
    PartitionIds(l.inputs, holder);
    ReleaseGrants(l, handle);
    Within(ItemIds(Everything(l, holder)), CurrentId(l.current), CurrentId(Without(l, holder).current),
           ItemIds(Theirs(l.inputs, holder)), ItemIds(Others(l.inputs, holder)));
    CancelKnown(ReleaseBy(l, handle).arbiter, ReleaseBy(l, handle).out, Everything(l, holder), answers, submitted);
  }

  // ---------------------------------------------------------------- kept over runs

  lemma {:induction false} PushAnswers(s: System, id: RequestId, handle: ControllerHandle, bytes: seq<byte>)
    requires SystemSound(s) && Enabled(s, PushWrite(id, handle, bytes)) && Answers(s)
    ensures Answers(Next(s, PushWrite(id, handle, bytes)))
  {
    hide Ids, SentFor, DistinctHolders, LoopSound;
    var p := NewInput(id, handle, bytes).value;
    NotCounted(s.submitted, id);
    IdsMore(s.submitted, p);
    assert forall i :: 0 <= i < |s.loop.out.pty| ==> s.loop.out.pty[i].id in Ids(s.submitted);
    NothingSentFor(id, s.loop.out.pty);
    assert p.bytes[..0] == [];
  }

  lemma {:induction false} SameTold(l: Loop, t: Loop)
    requires Told(l) && t.out.pty == l.out.pty && t.out.served == l.out.served && t.out.dropped == l.out.dropped
    requires forall i :: 0 <= i < |t.inputs| ==> t.inputs[i].Write? ==> t.inputs[i] in l.inputs
    requires t.current.Some? ==> t.current == l.current || Write(t.current.value) in l.inputs
    ensures Told(t)
  {
    hide CountsRight;
    forall i | 0 <= i < |t.inputs| && t.inputs[i].Write? ensures CountsRight(l.out.pty, t.inputs[i].request) {
      var j :| 0 <= j < |l.inputs| && l.inputs[j] == t.inputs[i];
      assert l.inputs[j].Write?;
    }
    if t.current.Some? && t.current != l.current {
      var j :| 0 <= j < |l.inputs| && l.inputs[j] == Write(t.current.value);
      assert l.inputs[j].Write?;
    }
  }

  lemma {:induction false} ServeAnswers(s: System, answers: seq<SinkAnswer>)
    requires SystemSound(s) && Enabled(s, ServeNext(answers)) && Answers(s) && Kept(s.loop) && Queued(s) && Accounts(s)
    ensures Answers(Next(s, ServeNext(answers)))
  {
    hide Ids, SentFor, DistinctHolders, ServeDisconnect, GrantsByEpoch, PtyWithin, AllGranted, Untouched, RequestsGranted,
         Told, Marked, ItemIds, IdsDistinct, LoopSound;
    NextKeeps(s, ServeNext(answers));
    GrantedBefore(s.loop, Serve(s.loop, s.batch[0], answers));
    match s.batch[0]
    case Disconnect(handle) =>
      DisconnectKnown(s.loop, handle, answers, s.submitted);
      if DistinctHolders(s.loop.out.granted) {
        if Told(s.loop) {
          DisconnectTold(s.loop, handle, answers);
        }
      }
    case _ =>
      var t := Serve(s.loop, s.batch[0], answers);
      if Told(s.loop) {
        SameTold(s.loop, t);
      }
  }

  lemma {:induction false} GrantedBefore(l: Loop, t: Loop)
    requires l.out.granted <= t.out.granted
    ensures DistinctHolders(t.out.granted) ==> DistinctHolders(l.out.granted)
  {
  }

  lemma {:induction false} ProceedAnswers(s: System, answer: SinkAnswer)
    requires SystemSound(s) && Enabled(s, ProceedWith(answer)) && Answers(s) && Accounts(s)
    ensures Answers(Next(s, ProceedWith(answer)))
  {
    hide Ids, SentFor, DistinctHolders, Told, Marked, ItemIds, IdsDistinct, StepWrite, Attempted;
    var l := s.loop;
    ProceedSame(l, answer);
    if l.end.Some? {
      ReleaseGrants(l, l.end.value.handle);
      ReleaseDrops(l, l.end.value.handle);
      if Told(l) {
        SameTold(l, Proceed(l, answer));
      }
    } else if l.current.Some? {
      AttemptKnown(l, s.submitted, answer);
      if Told(l) {
        AttemptTold(l, s.submitted, answer);
      }
    }
  }

  lemma {:induction false} NextAnswers(s: System, e: Event)
    requires SystemSound(s) && Enabled(s, e) && Answers(s) && Kept(s.loop) && Queued(s) && Accounts(s)
    ensures Answers(Next(s, e))
  {
    hide Ids, SentFor, DistinctHolders, Told, IdsDistinct, Serve, Proceed, Kept, Queued, Accounts;
    match e
    case PushWrite(id, handle, bytes) => PushAnswers(s, id, handle, bytes);
    case ServeNext(answers) => ServeAnswers(s, answers);
    case ProceedWith(answer) => ProceedAnswers(s, answer);
    case _ =>
      if Told(s.loop) {
        SameTold(s.loop, Next(s, e).loop);
      }
  }

  lemma {:induction false} RunAnswers(run: RunId, events: seq<Event>)
    requires After(run, events).Some?
    ensures Answers(After(run, events).value)
  {
    hide Answers, Next, Enabled, Kept, Queued, Accounts;
    if events == [] {
      StartAnswers(run);
    } else {
      var n := |events| - 1;
      RunAnswers(run, events[..n]);
      RunKeeps(run, events[..n]);
      RunQueued(run, events[..n]);
      RunAccounts(run, events[..n]);
      NextAnswers(After(run, events[..n]).value, events[n]);
    }
  }

  lemma StartAnswers(run: RunId)
    ensures Answers(Start(run))
  {
  }

  /**
   Over every run in which each holder is granted control once, no request is dropped without an outcome, and
   each outcome counts exactly the bytes its request got onto the PTY: all of them, or the first `accepted`.
   */
  lemma OutcomesAreExact(run: RunId, events: seq<Event>, i: nat)
    requires After(run, events).Some? && DistinctHolders(After(run, events).value.loop.out.granted)
    requires i < |After(run, events).value.loop.out.served|
    ensures var out := After(run, events).value.loop.out;
      && out.dropped == []
      && match out.served[i].outcome
         case Some(Accepted(id, _, n)) => SentFor(id, out.pty) == out.served[i].bytes && n == |out.served[i].bytes|
         case Some(Incomplete(id, _, n, total, _)) =>
           n < total == |out.served[i].bytes| && SentFor(id, out.pty) == out.served[i].bytes[..n]
         case None => false
  {
    hide After, DistinctHolders, SentFor;
    RunAnswers(run, events);
    var out := After(run, events).value.loop.out;
    var p := out.served[i];
    assert p.Valid() && p.outcome.Some? && CountsRight(out.pty, p);
    assert p.accepted == |p.bytes| ==> p.bytes[..p.accepted] == p.bytes;
  }

  // ---------------------------------------------------------------- who holds control

  /** What the effects say of a human holding control. */
  function HumanSaid(effects: seq<Effect>): bool {
    if effects == [] then false
    else
      match effects[|effects| - 1]
      case HumanControl(_) => true
      case HumanReleased => false
      case _ => HumanSaid(effects[..|effects| - 1])
  }

  predicate HumanHolds(a: Arbiter) {
    a.state.Owned? && a.state.kind.Human?
  }

  predicate SaidRight(l: Loop) {
    HumanSaid(l.out.effects) == HumanHolds(l.arbiter)
  }

  lemma {:induction false} SaidMore(effects: seq<Effect>, e: Effect)
    ensures HumanSaid(effects + [e]) == if e.HumanControl? then true else if e.HumanReleased? then false else HumanSaid(effects)
  {
    assert (effects + [e])[..|effects|] == effects;
  }

  lemma {:induction false} ClaimSaid(l: Loop, holder: HolderId, kind: ControllerKind)
    requires SaidRight(l)
    ensures SaidRight(ServeClaim(l, holder, kind))
  {
    hide HumanSaid;
    SaidMore(l.out.effects, HumanControl(Attach));
  }

  lemma {:induction false} TakeoverSaid(l: Loop, holder: HolderId)
    requires SaidRight(l)
    ensures SaidRight(ServeTakeover(l, holder))
  {
    hide HumanSaid;
    var (_, r) := TakeOver(l.arbiter, holder);
    if r.Success? {
      var effects := l.out.effects + [HumanControl(ByTakeover)];
      SaidMore(l.out.effects, HumanControl(ByTakeover));
      if r.value.retired.Some? {
        SaidMore(effects, Retire(r.value.retired.value.0, r.value.retired.value.1, r.value.handle.key.epoch));
      }
    }
  }

  lemma {:induction false} ReleaseSaid(l: Loop, handle: ControllerHandle)
    requires SaidRight(l) && GrantsByEpoch(l) && handle in l.out.granted
    ensures SaidRight(ReleaseBy(l, handle))
  {
    hide HumanSaid;
    SaidMore(l.out.effects, HumanReleased);
    var i :| 0 <= i < |l.out.granted| && l.out.granted[i] == handle;
  }

  lemma {:induction false} CancelSaysNothing(a: Arbiter, out: Out, items: seq<Item>, answers: seq<SinkAnswer>)
    requires Sound(items) && |items| <= |answers|
    ensures CancelAll(a, out, items, answers).out.effects == out.effects
  {
    hide StepWrite;
    if items != [] {
      CancelSaysNothing(a, out, items[..|items| - 1], answers);
    }
  }

  lemma {:induction false} DisconnectSaid(l: Loop, handle: ControllerHandle, answers: seq<SinkAnswer>)
    requires SaidRight(l) && GrantsByEpoch(l) && handle in l.out.granted && LoopSound(l) && |l.inputs| < |answers|
    ensures SaidRight(ServeDisconnect(l, handle, answers))
  {
    hide HumanSaid, GrantsByEpoch, CancelAll, Everything, Others;
    ReleaseSaid(l, handle);
    var released := ReleaseBy(l, handle);
    EverythingSound(l, handle.key.holder);
    var c := CancelAll(released.arbiter, released.out, Everything(l, handle.key.holder), answers);
    CancelSaysNothing(released.arbiter, released.out, Everything(l, handle.key.holder), answers);
    SaidMore(released.out.effects, InputRevoked(handle.kind, c.accepted, c.total));
  }

  lemma {:induction false} AttemptSaid(l: Loop, answer: SinkAnswer)
    requires SaidRight(l) && LoopSound(l) && l.current.Some?
    ensures SaidRight(Attempted(l, StepWrite(l.arbiter, l.current.value, answer)))
  {
    hide HumanSaid, StepWrite;
    var q := StepWrite(l.arbiter, l.current.value, answer).request;
    if q.outcome.Some? && q.outcome.value.Incomplete? {
      SaidMore(l.out.effects, InputRevoked(q.kind, q.outcome.value.accepted, q.outcome.value.total));
    }
  }

  lemma {:induction false} NextSaid(s: System, e: Event)
    requires SystemSound(s) && Enabled(s, e) && Kept(s.loop) && Queued(s) && SaidRight(s.loop)
    ensures SaidRight(Next(s, e).loop)
  {
    hide HumanSaid, GrantsByEpoch, ServeClaim, ServeTakeover, ServeDisconnect, ReleaseBy, Attempted, StepWrite, HumanHolds,
         PtyWithin, Untouched, RequestsGranted;
    match e
    case ServeNext(answers) =>
      match s.batch[0] {
        case ClaimFor(holder, kind) => ClaimSaid(s.loop, holder, kind);
        case TakeoverFor(holder) => TakeoverSaid(s.loop, holder);
        case Resize(key, size) => SaidMore(s.loop.out.effects, Resized(size));
        case Disconnect(handle) => DisconnectSaid(s.loop, handle, answers);
      }
    case ProceedWith(answer) =>
      if s.loop.end.Some? {
        ReleaseSaid(s.loop, s.loop.end.value.handle);
      } else if s.loop.current.Some? {
        AttemptSaid(s.loop, answer);
      }
    case _ =>
  }

  lemma {:induction false} RunSaid(run: RunId, events: seq<Event>)
    requires After(run, events).Some?
    ensures SaidRight(After(run, events).value.loop)
  {
    hide SaidRight, Next, Enabled, Kept, Queued;
    if events == [] {
      StartSaid(run);
    } else {
      var n := |events| - 1;
      RunSaid(run, events[..n]);
      RunKeeps(run, events[..n]);
      RunQueued(run, events[..n]);
      NextSaid(After(run, events[..n]).value, events[n]);
    }
  }

  lemma StartSaid(run: RunId)
    ensures SaidRight(Start(run).loop)
  {
  }

  /** Over every run, the hooks called so far say a human holds control exactly when one does. */
  lemma HooksTellWhoHolds(run: RunId, events: seq<Event>)
    requires After(run, events).Some?
    ensures var l := After(run, events).value.loop;
      HumanSaid(l.out.effects) <==> l.arbiter.state.Owned? && l.arbiter.state.kind.Human?
  {
    hide After, HumanSaid;
    RunSaid(run, events);
  }
}
