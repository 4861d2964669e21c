/** Every request is in one place and ends once; what it is told is what reached the PTY. */
module PtyAccounts {
  import opened Wrappers
  import opened Bytes
  import opened PtyControl
  import opened PtyInput
  import opened PtyDisconnect
  import opened PtyOrder
  import opened PtyPrefix

  function Ids(ps: seq<PendingInput>): multiset<RequestId> {
    if ps == [] then multiset{} else Ids(ps[..|ps| - 1]) + multiset{ps[|ps| - 1].id}
  }

  function ItemIds(items: seq<Item>): multiset<RequestId> {
    if items == [] then multiset{}
    else
      var last := items[|items| - 1];
      ItemIds(items[..|items| - 1]) + if last.Write? then multiset{last.request.id} else multiset{}
  }

  function CurrentId(current: Option<PendingInput>): multiset<RequestId> {
    if current.Some? then multiset{current.value.id} else multiset{}
  }

  /** The requests done with or being written. */
  function Begun(l: Loop): multiset<RequestId> {
    Ids(l.out.served) + Ids(l.out.dropped) + CurrentId(l.current)
  }

  /** Where each request is. */
  predicate Accounted(l: Loop, submitted: seq<PendingInput>) {
    Ids(submitted) == Begun(l) + ItemIds(l.inputs)
  }

  /** An end marker comes after the requests queued before it. */
  predicate MarkersAfter(begun: multiset<RequestId>, items: seq<Item>, submitted: seq<PendingInput>) {
    items == [] ||
    var n := |items| - 1;
    && (items[n].End? ==> BegunBefore(begun + ItemIds(items[..n]), items[n].after, submitted))
    && MarkersAfter(begun, items[..n], submitted)
  }

  predicate BegunBefore(begun: multiset<RequestId>, after: nat, submitted: seq<PendingInput>) {
    after <= |submitted| && forall i :: 0 <= i < after ==> submitted[i].id in begun
  }

  predicate Marked(l: Loop, submitted: seq<PendingInput>) {
    && MarkersAfter(Begun(l), l.inputs, submitted)
    && (l.end.Some? ==> l.end.value.End? && BegunBefore(Begun(l), l.end.value.after, submitted))
  }

  // ---------------------------------------------------------------- ids of sequences

  lemma {:induction false} IdsMore(ps: seq<PendingInput>, p: PendingInput)
    ensures Ids(ps + [p]) == Ids(ps) + multiset{p.id}
  {
    assert (ps + [p])[..|ps|] == ps;
  }

  lemma {:induction false} ItemIdsSplit(a: seq<Item>, b: seq<Item>)
    ensures ItemIds(a + b) == ItemIds(a) + ItemIds(b)
  {
    if b == [] {
      assert a + b == a;
    } else {
      var n := |b| - 1;
      assert (a + b)[..|a + b| - 1] == a + b[..n];
      ItemIdsSplit(a, b[..n]);
    }
  }

  lemma {:induction false} ItemIdsOne(item: Item)
    ensures ItemIds([item]) == if item.Write? then multiset{item.request.id} else multiset{}
  {
    assert [item][..0] == [];
    assert ItemIds([item][..0]) == multiset{};
  }

  lemma {:induction false} PartitionIds(items: seq<Item>, holder: HolderId)
    ensures ItemIds(items) == ItemIds(Theirs(items, holder)) + ItemIds(Others(items, holder))
  {
    hide ItemIds;
    NoItemIds();
    if items != [] {
      var n := |items| - 1;
      var theirs, others := Theirs(items[..n], holder), Others(items[..n], holder);
      PartitionIds(items[..n], holder);
      ItemIdsSplit(items[..n], [items[n]]);
      assert items[..n] + [items[n]] == items;
      if HolderOf(items[n]) == holder {
        ItemIdsSplit(theirs, [items[n]]);
        assert others + [] == others;
      } else {
        ItemIdsSplit(others, [items[n]]);
        assert theirs + [] == theirs;
      }
    }
  }

  lemma {:induction false} EverythingIds(l: Loop, holder: HolderId)
    requires LoopSound(l)
    ensures CurrentId(l.current) + ItemIds(Theirs(l.inputs, holder))
            == CurrentId(Without(l, holder).current) + ItemIds(Everything(l, holder))
  {
    hide Theirs, Others, ItemIds;
    var theirs := Theirs(l.inputs, holder);
    var end := if l.end.Some? && HolderOf(l.end.value) == holder then [l.end.value] else [];
    var writing := if l.current.Some? && l.current.value.key.holder == holder then [Write(l.current.value)] else [];
    ItemIdsSplit(theirs + end, writing);
    ItemIdsSplit(theirs, end);
    NoItemIds();
    if end != [] {
      ItemIdsOne(end[0]);
    }
    if writing != [] {
      ItemIdsOne(writing[0]);
    }
  }

  lemma NoItemIds()
    ensures ItemIds([]) == multiset{}
  {
  }

  // ---------------------------------------------------------------- each step moves requests, losing none

  lemma {:induction false} CancelAllIds(a: Arbiter, out: Out, items: seq<Item>, answers: seq<SinkAnswer>)
    requires Sound(items) && |items| <= |answers|
    ensures var after := CancelAll(a, out, items, answers).out;
      Ids(after.served) + Ids(after.dropped) == Ids(out.served) + Ids(out.dropped) + ItemIds(items)
  {
    hide CancelOne;
    if items != [] {
      var n := |items| - 1;
      CancelAllIds(a, out, items[..n], answers);
      CancelOneIds(a, CancelAll(a, out, items[..n], answers), items[n], answers[n]);
    }
  }

  lemma {:induction false} CancelOneIds(a: Arbiter, c: Cancelling, item: Item, answer: SinkAnswer)
    requires item.Write? ==> item.request.Valid()
    ensures var after := CancelOne(a, c, item, answer).out;
      Ids(after.served) + Ids(after.dropped)
      == Ids(c.out.served) + Ids(c.out.dropped) + if item.Write? then multiset{item.request.id} else multiset{}
  {
    hide StepWrite, Ids;
    if item.Write? {
      StepWriteEffect(a, item.request, answer);
      var q := StepWrite(a, item.request, answer).request;
      IdsMore(c.out.served, q);
      IdsMore(c.out.dropped, q);
    }
  }

  /** A disconnect only moves its holder's requests to where finished ones are. */
  lemma {:induction false} DisconnectMoves(l: Loop, handle: ControllerHandle, answers: seq<SinkAnswer>)
    requires LoopSound(l) && |l.inputs| < |answers|
    ensures var after := ServeDisconnect(l, handle, answers);
      && Begun(after) + ItemIds(after.inputs) == Begun(l) + ItemIds(l.inputs)
      && Begun(after) == Begun(l) + ItemIds(Theirs(l.inputs, handle.key.holder))
  {
    hide CancelAll, Everything, Theirs, Others, Ids, ItemIds;
    var holder := handle.key.holder;
    var released := ReleaseBy(l, handle);
    ReleaseGrants(l, handle);
    ReleaseDrops(l, handle);
    EverythingSound(l, holder);
    var c := CancelAll(released.arbiter, released.out, Everything(l, holder), answers).out;
    CancelAllIds(released.arbiter, released.out, Everything(l, holder), answers);
    var after := ServeDisconnect(l, handle, answers);
    assert after.out.served == c.served && after.out.dropped == c.dropped;
    assert after.current == Without(l, holder).current && after.inputs == Others(l.inputs, holder);
    assert Ids(c.served) + Ids(c.dropped) == Ids(l.out.served) + Ids(l.out.dropped) + ItemIds(Everything(l, holder));
    EverythingIds(l, holder);
    PartitionIds(l.inputs, holder);
    Moved(Ids(l.out.served) + Ids(l.out.dropped), Ids(c.served) + Ids(c.dropped), ItemIds(Everything(l, holder)),
          CurrentId(l.current), CurrentId(after.current), ItemIds(Theirs(l.inputs, holder)));
    assert Begun(after) + ItemIds(after.inputs) == Begun(l) + (ItemIds(Theirs(l.inputs, holder)) + ItemIds(after.inputs));
  }

  lemma Moved(done: multiset<RequestId>, done': multiset<RequestId>, all: multiset<RequestId>,
              writing: multiset<RequestId>, writing': multiset<RequestId>, theirs: multiset<RequestId>)
    requires done' == done + all && writing + theirs == writing' + all
    ensures done' + writing' == done + writing + theirs
  {
    assert done' + writing' == done + (writing' + all);
    assert done + writing + theirs == done + (writing + theirs);
  }

  lemma {:induction false} AttemptMoves(l: Loop, answer: SinkAnswer)
    requires LoopSound(l) && l.current.Some?
    ensures var after := Attempted(l, StepWrite(l.arbiter, l.current.value, answer));
      Begun(after) == Begun(l) && after.inputs == l.inputs && after.end == l.end
  {
    hide StepWrite, Ids;
    StepWriteEffect(l.arbiter, l.current.value, answer);
    IdsMore(l.out.served, StepWrite(l.arbiter, l.current.value, answer).request);
  }

  lemma {:induction false} StageMoves(l: Loop)
    requires l.end.None?
    ensures var t := Stage(l);
      && Begun(t) + ItemIds(t.inputs) == Begun(l) + ItemIds(l.inputs)
      && (t != l ==> l.inputs != [] && t.inputs == l.inputs[1..] && Begun(t) == Begun(l) + ItemIds([l.inputs[0]]))
  {
    hide Ids, ItemIds;
    if l.inputs != [] {
      ItemIdsOne(l.inputs[0]);
      ItemIdsSplit([l.inputs[0]], l.inputs[1..]);
      assert [l.inputs[0]] + l.inputs[1..] == l.inputs;
    }
  }

  // ---------------------------------------------------------------- markers

  lemma {:induction false} MarkersStill(begun: multiset<RequestId>, begun': multiset<RequestId>, items: seq<Item>,
                                        submitted: seq<PendingInput>, submitted': seq<PendingInput>)
    requires MarkersAfter(begun, items, submitted) && begun <= begun' && submitted <= submitted'
    ensures MarkersAfter(begun', items, submitted')
  {
    if items != [] {
      MarkersStill(begun, begun', items[..|items| - 1], submitted, submitted');
    }
  }

  /** Taking the front item over. */
  lemma {:induction false} MarkersFront(begun: multiset<RequestId>, items: seq<Item>, submitted: seq<PendingInput>)
    requires items != [] && MarkersAfter(begun, items, submitted)
    ensures MarkersAfter(begun + ItemIds([items[0]]), items[1..], submitted)
    ensures items[0].End? ==> BegunBefore(begun, items[0].after, submitted)
  {
    var n := |items| - 1;
    if n > 0 {
      MarkersFront(begun, items[..n], submitted);
      assert items[..n][1..] == items[1..][..n - 1];
      ItemIdsSplit([items[0]], items[1..n]);
      assert [items[0]] + items[1..n] == items[..n];
      assert items[1..n] == items[1..][..n - 1];
    } else {
      NoItemIds();
      assert items[..0] == [];
    }
  }

  /** One more item that is not the holder's. */
  lemma {:induction false} MarkersKept(begun: multiset<RequestId>, before: seq<Item>, taken: multiset<RequestId>,
                                       others: seq<Item>, last: Item, submitted: seq<PendingInput>)
    requires ItemIds(before) == taken + ItemIds(others)
    requires MarkersAfter(begun, before + [last], submitted) && MarkersAfter(begun + taken, others, submitted)
    ensures MarkersAfter(begun + taken, others + [last], submitted)
  {
    hide ItemIds, BegunBefore;
    assert (before + [last])[..|before|] == before && (others + [last])[..|others|] == others;
    assert begun + taken + ItemIds(others) == begun + ItemIds(before);
  }

  lemma NoMarkers(begun: multiset<RequestId>, submitted: seq<PendingInput>)
    ensures MarkersAfter(begun, [], submitted)
  {
  }

  lemma {:induction false} MarkersBefore(begun: multiset<RequestId>, items: seq<Item>, submitted: seq<PendingInput>)
    requires items != [] && MarkersAfter(begun, items, submitted)
    ensures MarkersAfter(begun, items[..|items| - 1], submitted)
  {
  }

  /** Taking a holder's items over. */
  lemma {:induction false} MarkersOthers(begun: multiset<RequestId>, items: seq<Item>, holder: HolderId, submitted: seq<PendingInput>)
    requires MarkersAfter(begun, items, submitted)
    ensures MarkersAfter(begun + ItemIds(Theirs(items, holder)), Others(items, holder), submitted)
  {
    hide BegunBefore, ItemIds, MarkersAfter;
    NoItemIds();
    if items == [] {
      NoMarkers(begun + ItemIds([]), submitted);
    } else {
      var n := |items| - 1;
      var last := items[n];
      MarkersBefore(begun, items, submitted);
      var theirs, others := Theirs(items[..n], holder), Others(items[..n], holder);
      MarkersOthers(begun, items[..n], holder, submitted);
      if HolderOf(last) == holder {
        ItemIdsSplit(theirs, [last]);
        assert Others(items, holder) == others && Theirs(items, holder) == theirs + [last];
        MarkersStill(begun + ItemIds(theirs), begun + ItemIds(Theirs(items, holder)), others, submitted, submitted);
      } else {
        PartitionIds(items[..n], holder);
        assert Theirs(items, holder) == theirs && Others(items, holder) == others + [last];
        assert items[..n] + [last] == items;
        MarkersKept(begun, items[..n], ItemIds(theirs), others, last, submitted);
      }
    }
  }

  lemma {:induction false} BegunStill(begun: multiset<RequestId>, begun': multiset<RequestId>, after: nat,
                                      submitted: seq<PendingInput>, submitted': seq<PendingInput>)
    requires BegunBefore(begun, after, submitted) && begun <= begun' && submitted <= submitted'
    ensures BegunBefore(begun', after, submitted')
  {
  }

  lemma {:induction false} SubmittedCounted(submitted: seq<PendingInput>, i: nat)
    requires i < |submitted|
    ensures submitted[i].id in Ids(submitted)
  {
    if i < |submitted| - 1 {
      SubmittedCounted(submitted[..|submitted| - 1], i);
    }
  }

  // ---------------------------------------------------------------- kept over runs

  predicate Accounts(s: System) {
    Accounted(s.loop, s.submitted) && Marked(s.loop, s.submitted)
  }

  lemma {:induction false} PushWriteAccounts(l: Loop, submitted: seq<PendingInput>, p: PendingInput)
    requires Accounted(l, submitted) && Marked(l, submitted)
    ensures var t := l.(inputs := l.inputs + [Write(p)]); Accounted(t, submitted + [p]) && Marked(t, submitted + [p])
  {
    hide Ids, ItemIds, BegunBefore;
    IdsMore(submitted, p);
    ItemIdsSplit(l.inputs, [Write(p)]);
    ItemIdsOne(Write(p));
    MarkersStill(Begun(l), Begun(l), l.inputs, submitted, submitted + [p]);
    assert (l.inputs + [Write(p)])[..|l.inputs|] == l.inputs;
    if l.end.Some? {
      BegunStill(Begun(l), Begun(l), l.end.value.after, submitted, submitted + [p]);
    }
  }

  lemma {:induction false} PushEndAccounts(l: Loop, submitted: seq<PendingInput>, handle: ControllerHandle)
    requires Accounted(l, submitted) && Marked(l, submitted)
    ensures var t := l.(inputs := l.inputs + [End(handle, |submitted|)]); Accounted(t, submitted) && Marked(t, submitted)
  {
    hide Ids, ItemIds;
    var end := End(handle, |submitted|);
    ItemIdsSplit(l.inputs, [end]);
    ItemIdsOne(end);
    assert (l.inputs + [end])[..|l.inputs|] == l.inputs;
    forall i | 0 <= i < |submitted| ensures submitted[i].id in Begun(l) + ItemIds(l.inputs) {
      SubmittedCounted(submitted, i);
    }
  }

  lemma {:induction false} StageAccounts(l: Loop, submitted: seq<PendingInput>)
    requires l.end.None? && Accounted(l, submitted) && Marked(l, submitted)
    ensures Accounted(Stage(l), submitted) && Marked(Stage(l), submitted)
  {
    hide Ids, ItemIds, BegunBefore, MarkersAfter;
    StageMoves(l);
    var t := Stage(l);
    if t != l {
      MarkersFront(Begun(l), l.inputs, submitted);
      if l.inputs[0].End? {
        BegunStill(Begun(l), Begun(t), l.inputs[0].after, submitted, submitted);
      }
    }
  }

  lemma {:induction false} DisconnectAccounts(l: Loop, submitted: seq<PendingInput>, handle: ControllerHandle, answers: seq<SinkAnswer>)
    requires LoopSound(l) && |l.inputs| < |answers| && Accounted(l, submitted) && Marked(l, submitted)
    ensures var t := ServeDisconnect(l, handle, answers); Accounted(t, submitted) && Marked(t, submitted)
  {
    hide Begun, ItemIds, BegunBefore, MarkersAfter, CancelAll, Theirs, Others, Everything;
    DisconnectMoves(l, handle, answers);
    var t := ServeDisconnect(l, handle, answers);
    MarkersOthers(Begun(l), l.inputs, handle.key.holder, submitted);
    if t.end.Some? {
      BegunStill(Begun(l), Begun(t), l.end.value.after, submitted, submitted);
    }
  }

  lemma {:induction false} SameAccounts(l: Loop, t: Loop, submitted: seq<PendingInput>)
    requires Accounted(l, submitted) && Marked(l, submitted)
    requires Begun(t) == Begun(l) && t.inputs == l.inputs && t.end in {None, l.end}
    ensures Accounted(t, submitted) && Marked(t, submitted)
  {
    hide Begun, ItemIds, BegunBefore, MarkersAfter;
  }

  lemma {:induction false} ServeAccounts(l: Loop, submitted: seq<PendingInput>, control: Control, answers: seq<SinkAnswer>)
    requires LoopSound(l) && |l.inputs| < |answers| && Accounted(l, submitted) && Marked(l, submitted)
    ensures var t := Serve(l, control, answers); Accounted(t, submitted) && Marked(t, submitted)
  {
    hide Accounted, Marked, ServeDisconnect, ItemIds, Ids, LoopSound, ServeClaim, ServeTakeover, ServeResize;
    match control {
      case Disconnect(handle) => DisconnectAccounts(l, submitted, handle, answers);
      case ClaimFor(holder, kind) =>
        GrantsBeginNothing(l, holder, kind);
        SameAccounts(l, ServeClaim(l, holder, kind), submitted);
      case TakeoverFor(holder) =>
        GrantsBeginNothing(l, holder, Human);
        SameAccounts(l, ServeTakeover(l, holder), submitted);
      case Resize(key, size) =>
        ResizesBeginNothing(l, key, size);
        SameAccounts(l, ServeResize(l, key, size), submitted);
    }
  }

  lemma GrantsBeginNothing(l: Loop, holder: HolderId, kind: ControllerKind)
    ensures var t := ServeClaim(l, holder, kind); Begun(t) == Begun(l) && t.inputs == l.inputs && t.end == l.end
    ensures var t := ServeTakeover(l, holder); Begun(t) == Begun(l) && t.inputs == l.inputs && t.end == l.end
  {
    hide Ids, Claim, TakeOver;
  }

  lemma ResizesBeginNothing(l: Loop, key: HandleKey, size: R.Geometry)
    ensures var t := ServeResize(l, key, size); Begun(t) == Begun(l) && t.inputs == l.inputs && t.end == l.end
  {
    hide Ids;
  }

  lemma {:induction false} ProceedAccounts(l: Loop, submitted: seq<PendingInput>, answer: SinkAnswer)
    requires LoopSound(l) && Accounted(l, submitted) && Marked(l, submitted)
    ensures var t := Proceed(l, answer); Accounted(t, submitted) && Marked(t, submitted)
  {
    hide Accounted, Marked, StepWrite, Attempted, ItemIds, Ids;
    if l.end.None? && l.current.Some? {
      AttemptMoves(l, answer);
    }
    SameAccounts(l, Proceed(l, answer), submitted);
  }

  lemma {:induction false} NextAccounts(s: System, e: Event)
    requires SystemSound(s) && Enabled(s, e) && Accounts(s)
    ensures Accounts(Next(s, e))
  {
    hide Accounted, Marked, Serve, Proceed, Stage;
    match e
    case PushControl(_) => SameAccounts(s.loop, s.loop, s.submitted);
    case PushWrite(id, handle, bytes) => PushWriteAccounts(s.loop, s.submitted, NewInput(id, handle, bytes).value);
    case PushEnd(handle) => PushEndAccounts(s.loop, s.submitted, handle);
    case Drain => StageAccounts(s.loop, s.submitted);
    case ServeNext(answers) => ServeAccounts(s.loop, s.submitted, s.batch[0], answers);
    case ProceedWith(answer) => ProceedAccounts(s.loop, s.submitted, answer);
  }

  lemma {:induction false} RunAccounts(run: RunId, events: seq<Event>)
    requires After(run, events).Some?
    ensures Accounts(After(run, events).value)
  {
    hide Accounts, Next, Enabled;
    if events == [] {
      StartAccounts(run);
    } else {
      var n := |events| - 1;
      RunAccounts(run, events[..n]);
      NextAccounts(After(run, events[..n]).value, events[n]);
    }
  }

  lemma StartAccounts(run: RunId)
    ensures Accounts(Start(run))
  {
  }

  /** Over every run, each request is exactly once in the queue, being written, finished, or dropped. */
  lemma EachRequestInOnePlace(run: RunId, events: seq<Event>)
    requires After(run, events).Some?
    ensures var s := After(run, events).value;
      Ids(s.submitted) == Ids(s.loop.out.served) + Ids(s.loop.out.dropped) + CurrentId(s.loop.current) + ItemIds(s.loop.inputs)
  {
    hide After, Ids, ItemIds, Marked;
    RunAccounts(run, events);
  }

  /** When an end marker is served, every request queued before it is done with. */
  lemma EndWaitsForItsInput(run: RunId, events: seq<Event>, answer: SinkAnswer)
    requires After(run, events + [ProceedWith(answer)]).Some?
    requires After(run, events).Some? && After(run, events).value.loop.end.Some?
    ensures var (s, t) := (After(run, events).value, After(run, events + [ProceedWith(answer)]).value);
      && s.loop.end.value.End?
      && t.loop.out.ended == s.loop.out.ended + [s.loop.end.value]
      && !Authorizes(t.loop.arbiter, s.loop.end.value.handle.key)
      && BegunBefore(Ids(t.loop.out.served) + Ids(t.loop.out.dropped), s.loop.end.value.after, t.submitted)
  {
    hide Ids, ItemIds, MarkersAfter, BegunBefore;
    assert (events + [ProceedWith(answer)])[..|events|] == events;
    RunAccounts(run, events);
    var s := After(run, events).value;
    assert Begun(s.loop) == Ids(s.loop.out.served) + Ids(s.loop.out.dropped);
    ReleaseGrants(s.loop, s.loop.end.value.handle);
    ReleaseDrops(s.loop, s.loop.end.value.handle);
  }

  lemma ReleaseDrops(l: Loop, handle: ControllerHandle)
    ensures ReleaseBy(l, handle).out.dropped == l.out.dropped && ReleaseBy(l, handle).out.ended == l.out.ended
    ensures !Authorizes(ReleaseBy(l, handle).arbiter, handle.key)
  {
  }
}
