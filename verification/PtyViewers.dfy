/** The input writer's grants and releases as the viewers' machine sees them: every run of the one drives a run of the other. */
module PtyViewers {
  import opened Wrappers
  import opened PtyControl
  import opened PtyInput
  import opened PtyPrefix
  import Recording
  import V = Viewers

  function OwnerOf(a: Arbiter): Option<HolderId> {
    if a.state.Owned? then Some(a.state.holder) else None
  }

  function Holders(granted: seq<ControllerHandle>): seq<HolderId> {
    if granted == [] then [] else Holders(granted[..|granted| - 1]) + [granted[|granted| - 1].key.holder]
  }

  /** The holders the retirement hook was called for. */
  function RetiredIn(effects: seq<Effect>): set<HolderId> {
    if effects == [] then {}
    else
      var last := effects[|effects| - 1];
      RetiredIn(effects[..|effects| - 1]) + if last.Retire? then {last.holder} else {}
  }

  /** What a change of the arbiter means to the viewers: a connection registered and granted control, or one gone. */
  function Moves(a: Arbiter, b: Arbiter): seq<V.Event> {
    if b.state.epoch != a.state.epoch && b.state.Owned? then
      [V.Register(b.state.holder), V.Grant(b.state.holder, a.state.Owned?)]
    else if a.state.Owned? && b.state.Unowned? then [V.Disconnect(a.state.holder), V.Release(a.state.holder)]
    else []
  }

  function Driven(run: RunId, events: seq<Event>): seq<V.Event>
    requires After(run, events).Some?
  {
    if events == [] then []
    else
      var n := |events| - 1;
      Driven(run, events[..n]) + Moves(After(run, events[..n]).value.loop.arbiter, After(run, events).value.loop.arbiter)
  }

  // ---------------------------------------------------------------- one step of the input writer

  /** A step grants one holder control, retiring the owner it supersedes; or takes it from the owner; or neither. */
  ghost predicate Stepped(l: Loop, t: Loop) {
    if t.arbiter.state.epoch != l.arbiter.state.epoch then
      && t.arbiter.state.Owned?
      && (exists h :: t.out.granted == l.out.granted + [h] && h.key.holder == t.arbiter.state.holder)
      && RetiredIn(t.out.effects)
         == RetiredIn(l.out.effects) + if l.arbiter.state.Owned? then {l.arbiter.state.holder} else {}
    else
      && t.out.granted == l.out.granted && RetiredIn(t.out.effects) == RetiredIn(l.out.effects)
      && (t.arbiter == l.arbiter || (l.arbiter.state.Owned? && t.arbiter.state.Unowned?))
  }

  lemma {:induction false} OneMoreEffect(out: Out, e: Effect)
    ensures RetiredIn(WithEffect(out, e).effects) == RetiredIn(out.effects) + if e.Retire? then {e.holder} else {}
  {
    assert (out.effects + [e])[..|out.effects|] == out.effects;
  }

  lemma {:induction false} ClaimSteps(l: Loop, holder: HolderId, kind: ControllerKind)
    ensures Stepped(l, ServeClaim(l, holder, kind))
  {
    hide RetiredIn;
    var (arbiter, r) := Claim(l.arbiter, holder, kind);
    if r.Success? {
      var out := l.out.(granted := l.out.granted + [r.value]);
      OneMoreEffect(out, HumanControl(Attach));
      assert ServeClaim(l, holder, kind).out.granted == l.out.granted + [r.value];
    }
  }

  lemma {:induction false} TakeoverSteps(l: Loop, holder: HolderId)
    ensures Stepped(l, ServeTakeover(l, holder))
  {
    hide RetiredIn;
    var (arbiter, r) := TakeOver(l.arbiter, holder);
    if r.Success? {
      var granted := l.out.(granted := l.out.granted + [r.value.handle]);
      OneMoreEffect(granted, HumanControl(ByTakeover));
      var out := WithEffect(granted, HumanControl(ByTakeover));
      if r.value.retired.Some? {
        var (who, kind) := r.value.retired.value;
        OneMoreEffect(out, Retire(who, kind, r.value.handle.key.epoch));
      }
      assert ServeTakeover(l, holder).out.granted == l.out.granted + [r.value.handle];
    }
  }

  lemma {:induction false} ReleaseSteps(l: Loop, handle: ControllerHandle)
    ensures Stepped(l, ReleaseBy(l, handle))
  {
    hide RetiredIn;
    OneMoreEffect(l.out, HumanReleased);
  }

  /** Cancelling requests grants and retires nobody. */
  lemma {:induction false} CancelKeeps(a: Arbiter, out: Out, items: seq<Item>, answers: seq<SinkAnswer>)
    requires Sound(items) && |items| <= |answers|
    ensures var after := CancelAll(a, out, items, answers).out; after.granted == out.granted && after.effects == out.effects
  {
    hide CancelOne;
    if items != [] {
      var n := |items| - 1;
      CancelKeeps(a, out, items[..n], answers);
      CancelOneKeeps(a, CancelAll(a, out, items[..n], answers), items[n], answers[n]);
    }
  }

  lemma CancelOneKeeps(a: Arbiter, c: Cancelling, item: Item, answer: SinkAnswer)
    requires item.Write? ==> item.request.accepted <= |item.request.bytes|
    ensures var after := CancelOne(a, c, item, answer).out; after.granted == c.out.granted && after.effects == c.out.effects
  {
    hide StepWrite;
  }

  lemma {:induction false} DisconnectSteps(l: Loop, handle: ControllerHandle, answers: seq<SinkAnswer>)
    requires LoopSound(l) && |l.inputs| < |answers|
    ensures Stepped(l, ServeDisconnect(l, handle, answers))
  {
    hide RetiredIn, CancelAll, Everything, Others, Theirs;
    var released := ReleaseBy(l, handle);
    ReleaseSteps(l, handle);
    EverythingSound(l, handle.key.holder);
    CancelKeeps(released.arbiter, released.out, Everything(l, handle.key.holder), answers);
    var c := CancelAll(released.arbiter, released.out, Everything(l, handle.key.holder), answers);
    OneMoreEffect(c.out, InputRevoked(handle.kind, c.accepted, c.total));
  }

  lemma {:induction false} ServeSteps(l: Loop, control: Control, answers: seq<SinkAnswer>)
    requires LoopSound(l) && |l.inputs| < |answers|
    ensures Stepped(l, Serve(l, control, answers))
  {
    hide Stepped, ServeClaim, ServeTakeover, ServeDisconnect;
    match control
    case ClaimFor(holder, kind) => ClaimSteps(l, holder, kind);
    case TakeoverFor(holder) => TakeoverSteps(l, holder);
    case Resize(key, size) => ResizeSteps(l, key, size);
    case Disconnect(handle) => DisconnectSteps(l, handle, answers);
  }

  lemma {:induction false} ResizeSteps(l: Loop, key: HandleKey, size: Recording.Geometry)
    ensures Stepped(l, ServeResize(l, key, size))
  {
    hide RetiredIn;
    OneMoreEffect(l.out, Resized(size));
  }

  lemma {:induction false} ProceedSteps(l: Loop, answer: SinkAnswer)
    requires LoopSound(l)
    ensures Stepped(l, Proceed(l, answer))
  {
    hide RetiredIn, StepWrite;
    if l.end.Some? {
      ReleaseSteps(l, l.end.value.handle);
    } else if l.current.Some? {
      AttemptKeeps(l, StepWrite(l.arbiter, l.current.value, answer));
    }
  }

  lemma {:induction false} AttemptKeeps(l: Loop, step: WriteStep)
    requires l.current.Some?
    ensures Stepped(l, Attempted(l, step))
  {
    hide RetiredIn;
    if step.request.outcome.Some? && step.request.outcome.value.Incomplete? {
      var outcome := step.request.outcome.value;
      var out := Wrote(l.out, l.current.value, step.written);
      OneMoreEffect(out.(served := out.served + [step.request]), InputRevoked(step.request.kind, outcome.accepted, outcome.total));
    }
  }

  lemma {:induction false} NextSteps(s: System, e: Event)
    requires SystemSound(s) && Enabled(s, e)
    ensures Stepped(s.loop, Next(s, e).loop)
  {
    hide RetiredIn, Serve, Proceed;
    match e
    case ServeNext(answers) => ServeSteps(s.loop, s.batch[0], answers);
    case ProceedWith(answer) => ProceedSteps(s.loop, answer);
    case _ =>
  }

  // ---------------------------------------------------------------- one step of the viewers

  /** The viewers' machine knows the owner, the grants and the retired as the input writer does. */
  predicate Follows(v: V.Side, l: Loop) {
    && v.owner == OwnerOf(l.arbiter) && v.granted == Holders(l.out.granted) && v.retired == RetiredIn(l.out.effects)
    && !v.ended
    && (forall h :: h in v.phases ==> h in v.granted)
    && (v.owner.Some? ==> V.InPhase(v, v.owner.value, V.Granted))
  }

  lemma {:induction false} TwoMore(before: seq<V.Event>, v: V.Side, e: V.Event, f: V.Event)
    requires V.After(before) == Some(v) && V.Enabled(v, e) && V.Enabled(V.Next(v, e), f)
    ensures V.After(before + [e, f]) == Some(V.Next(V.Next(v, e), f))
  {
    hide V.Next, V.Enabled;
    assert (before + [e])[..|before|] == before;
    assert (before + [e, f])[..|before| + 1] == before + [e];
  }

  lemma {:induction false} HoldersMore(granted: seq<ControllerHandle>, h: ControllerHandle)
    ensures Holders(granted + [h]) == Holders(granted) + [h.key.holder]
  {
    assert (granted + [h])[..|granted|] == granted;
  }

  lemma {:induction false} NotAHolder(granted: seq<ControllerHandle>, h: ControllerHandle)
    requires DistinctHolders(granted + [h])
    ensures h.key.holder !in Holders(granted)
  {
    if granted != [] {
      var n := |granted| - 1;
      assert (granted + [h])[n] == granted[n] && (granted + [h])[n + 1] == h;
      forall i, j | 0 <= i < j < |granted[..n] + [h]| ensures (granted[..n] + [h])[i].key.holder != (granted[..n] + [h])[j].key.holder {
        assert (granted + [h])[i] == (granted[..n] + [h])[i];
        assert (granted + [h])[if j < n then j else n + 1] == (granted[..n] + [h])[j];
      }
      NotAHolder(granted[..n], h);
    }
  }

  /** A grant, seen by the viewers. */
  lemma {:induction false} GrantFollows(before: seq<V.Event>, v: V.Side, l: Loop, t: Loop)
    requires V.After(before) == Some(v) && Follows(v, l) && Stepped(l, t) && DistinctHolders(t.out.granted)
    requires t.arbiter.state.epoch != l.arbiter.state.epoch
    ensures var after := V.After(before + Moves(l.arbiter, t.arbiter)); after.Some? && Follows(after.value, t)
  {
    hide RetiredIn, Holders, DistinctHolders;
    var h :| t.out.granted == l.out.granted + [h] && h.key.holder == t.arbiter.state.holder;
    HoldersMore(l.out.granted, h);
    NotAHolder(l.out.granted, h);
    TwoMore(before, v, V.Register(h.key.holder), V.Grant(h.key.holder, l.arbiter.state.Owned?));
  }

  /** A release, seen by the viewers. */
  lemma {:induction false} ReleaseFollows(before: seq<V.Event>, v: V.Side, l: Loop, t: Loop)
    requires V.After(before) == Some(v) && Follows(v, l) && Stepped(l, t)
    requires t.arbiter.state.epoch == l.arbiter.state.epoch && l.arbiter.state.Owned? && t.arbiter.state.Unowned?
    ensures var after := V.After(before + Moves(l.arbiter, t.arbiter)); after.Some? && Follows(after.value, t)
  {
    hide RetiredIn, Holders;
    var h := l.arbiter.state.holder;
    TwoMore(before, v, V.Disconnect(h), V.Release(h));
  }

  /**
   Over every run of the input writer in which each holder is granted control once, its grants, releases and
   retirements drive a run of the viewers' machine, which then has the same owner, the same grants in order and has
   retired just the holders the hook was called for.
   */
  lemma {:induction false} InputDrivesViewers(run: RunId, events: seq<Event>)
    requires After(run, events).Some? && DistinctHolders(After(run, events).value.loop.out.granted)
    ensures var (l, v) := (After(run, events).value.loop, V.After(Driven(run, events)));
      && v.Some? && v.value.owner == OwnerOf(l.arbiter) && v.value.granted == Holders(l.out.granted)
      && v.value.retired == RetiredIn(l.out.effects)
    ensures Follows(V.After(Driven(run, events)).value, After(run, events).value.loop)
  {
    hide Next, Enabled, V.After, Stepped, Moves, DistinctHolders, Holders, RetiredIn;
    if events == [] {
      NothingDriven(run);
    } else {
      var n := |events| - 1;
      var s, t := After(run, events[..n]).value, After(run, events).value;
      NextSteps(s, events[n]);
      EarlierDistinct(s.loop, t.loop);
      InputDrivesViewers(run, events[..n]);
      StepFollows(Driven(run, events[..n]), V.After(Driven(run, events[..n])).value, s.loop, t.loop);
    }
  }

  lemma EarlierDistinct(l: Loop, t: Loop)
    requires Stepped(l, t) && DistinctHolders(t.out.granted)
    ensures DistinctHolders(l.out.granted)
  {
    hide RetiredIn;
    assert l.out.granted <= t.out.granted;
    assert forall i :: 0 <= i < |l.out.granted| ==> l.out.granted[i] == t.out.granted[i];
  }

  lemma NothingDriven(run: RunId)
    ensures V.After([]) == Some(V.START) && Follows(V.START, Start(run).loop)
  {
  }

  lemma {:induction false} StepFollows(before: seq<V.Event>, v: V.Side, l: Loop, t: Loop)
    requires V.After(before) == Some(v) && Follows(v, l) && Stepped(l, t) && DistinctHolders(t.out.granted)
    ensures var after := V.After(before + Moves(l.arbiter, t.arbiter)); after.Some? && Follows(after.value, t)
  {
    hide RetiredIn, Holders, V.After, DistinctHolders;
    if t.arbiter.state.epoch != l.arbiter.state.epoch {
      GrantFollows(before, v, l, t);
    } else if t.arbiter != l.arbiter {
      ReleaseFollows(before, v, l, t);
    } else {
      assert before + [] == before;
    }
  }
}
