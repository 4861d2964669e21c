/** Runs of the input writer that show which hypotheses its promises need, beside what every run promises without them. */
module PtyRuns {
  import opened Wrappers
  import opened Bytes
  import opened PtyControl
  import opened PtyInput
  import opened PtyDisconnect
  import opened PtyOrder
  import opened PtyPrefix

  /** A run and where it led, to be continued one event at a time. */
  lemma Onward(run: RunId, events: seq<Event>, s: System, e: Event) returns (longer: seq<Event>)
    requires After(run, events) == Some(s) && Enabled(s, e)
    ensures longer == events + [e] && SystemSound(s) && After(run, longer) == Some(Next(s, e))
  {
    hide Next, Enabled;
    longer := events + [e];
    assert longer[..|events|] == events;
  }

  // ---------------------------------------------------------------- disconnects

  function HandleOf(run: RunId, epoch: u64, holder: HolderId): ControllerHandle {
    ControllerHandle(HandleKey(run, epoch, holder), Human)
  }

  /** A holder claims. */
  lemma {:induction false} GrantedOnce(run: RunId, holder: HolderId) returns (events: seq<Event>, l: Loop)
    ensures After(run, events) == Some(System(l, [], [], false, []))
    ensures l.arbiter == Arbiter(run, Owned(1, holder, Human)) && l.inputs == [] && l.current.None? && l.end.None?
    ensures l.out.granted == [HandleOf(run, 1, holder)] && l.out.pty == [] && l.out.served == [] && l.out.dropped == []
  {
    hide After, ServeDisconnect, Proceed;
    StartedFrom(run);
    var claim, answers := ClaimFor(holder, Human), [TryAgain];
    var s0 := Start(run);
    events := Onward(run, [], s0, PushControl(claim));
    var s1 := Next(s0, PushControl(claim));
    assert s1.controls == [claim];
    events := Onward(run, events, s1, Drain);
    var s2 := Next(s1, Drain);
    events := Onward(run, events, s2, ServeNext(answers));
    var s3 := Next(s2, ServeNext(answers));
    events := Onward(run, events, s3, ProceedWith(TryAgain));
    l := s3.loop;
    IdleProceeds(l);
  }

  /** A holder claims, and takes over from itself before it asks for anything else. */
  lemma {:induction false} GrantedTwice(run: RunId, holder: HolderId) returns (events: seq<Event>, l: Loop)
    ensures After(run, events) == Some(System(l, [], [], false, []))
    ensures l.arbiter == Arbiter(run, Owned(2, holder, Human)) && l.inputs == [] && l.current.None? && l.end.None?
    ensures l.out.granted == [HandleOf(run, 1, holder), HandleOf(run, 2, holder)]
    ensures l.out.pty == [] && l.out.served == [] && l.out.dropped == []
  {
    hide After, ServeDisconnect, Proceed;
    var takeover, answers := TakeoverFor(holder), [TryAgain];
    var once;
    events, once := GrantedOnce(run, holder);
    var s0 := System(once, [], [], false, []);
    events := Onward(run, events, s0, PushControl(takeover));
    var s1 := Next(s0, PushControl(takeover));
    assert s1.controls == [takeover];
    events := Onward(run, events, s1, Drain);
    var s2 := Next(s1, Drain);
    events := Onward(run, events, s2, ServeNext(answers));
    var s3 := Next(s2, ServeNext(answers));
    events := Onward(run, events, s3, ProceedWith(TryAgain));
    l := s3.loop;
    IdleProceeds(l);
  }

  lemma StartedFrom(run: RunId)
    ensures After(run, []) == Some(Start(run))
  {
  }

  lemma IdleProceeds(l: Loop)
    requires LoopSound(l) && l.end.None? && l.current.None?
    ensures Proceed(l, TryAgain) == l
  {
  }

  /** It then writes under its second grant, and the disconnect of the first is drained. */
  lemma {:induction false} SecondWriteStaged(run: RunId, holder: HolderId) returns (events: seq<Event>, s: System)
    ensures After(run, events) == Some(s) && s.serving && s.batch == [Disconnect(HandleOf(run, 1, holder))]
    ensures s.loop.arbiter == Arbiter(run, Owned(2, holder, Human)) && s.loop.inputs == [] && s.loop.end.None?
    ensures s.loop.current == Some(PendingInput(0, HandleOf(run, 2, holder).key, Human, [0x61, 0x62], 0, None))
    ensures s.loop.out.pty == [] && s.loop.out.served == [] && s.loop.out.dropped == [] && |s.submitted| == 1
  {
    hide Serve, Proceed;
    var l;
    events, l := GrantedTwice(run, holder);
    var s0 := System(l, [], [], false, []);
    var first, second := HandleOf(run, 1, holder), HandleOf(run, 2, holder);
    assert l.out.granted[0] == first && l.out.granted[1] == second;
    var write := PushWrite(0, second, [0x61, 0x62]);
    events := Onward(run, events, s0, write);
    var s1 := Next(s0, write);
    events := Onward(run, events, s1, PushControl(Disconnect(first)));
    var s2 := Next(s1, PushControl(Disconnect(first)));
    assert s2.controls == [Disconnect(first)];
    events := Onward(run, events, s2, Drain);
    s := Next(s2, Drain);
    assert s1.loop.inputs[1..] == [];
  }

  /**
   For every holder a run in which it is granted control twice and its first handle's disconnect writes a byte of
   a request under the second and drops the request, which never gets an outcome.
   */
  lemma {:induction false} ReusedHolderRun(run: RunId, holder: HolderId) returns (events: seq<Event>, answers: seq<SinkAnswer>)
    ensures After(run, events).Some? && After(run, events + [ServeNext(answers)]).Some?
    ensures var (s, t) := (After(run, events).value, After(run, events + [ServeNext(answers)]).value);
      && s.batch == [Disconnect(HandleOf(run, 1, holder))] && !Authorizes(s.loop.arbiter, HandleOf(run, 1, holder).key)
      && s.loop.out.pty == [] && |s.submitted| == 1
      && t.loop.out.pty == [Chunk(HandleOf(run, 2, holder).key, 0, [0x61])]
      && |t.loop.out.dropped| == 1 && t.loop.out.served == [] && t.loop.current.None? && t.loop.inputs == []
  {
    var s;
    events, s := SecondWriteStaged(run, holder);
    answers := [Took(1)];
    var more := Onward(run, events, s, ServeNext(answers));
    WritesOnDisconnect(s.loop, HandleOf(run, 1, holder), s.loop.current.value);
  }

  /** A disconnect that finds nothing queued and one request being written, whose key is in control. */
  lemma {:induction false} WritesOnDisconnect(l: Loop, handle: ControllerHandle, p: PendingInput)
    requires LoopSound(l) && l.inputs == [] && l.end.None? && l.current == Some(p) && p.key.holder == handle.key.holder
    requires Authorizes(l.arbiter, p.key) && !Authorizes(l.arbiter, handle.key) && |p.bytes| == p.accepted + 2
    ensures var after := ServeDisconnect(l, handle, [Took(1)]);
      && after.out.pty == l.out.pty + [Chunk(p.key, p.id, [p.bytes[p.accepted]])]
      && after.out.dropped == l.out.dropped + [p.(accepted := p.accepted + 1)] && after.out.served == l.out.served
      && after.current.None? && after.inputs == []
  {
    hide Theirs, Others, Everything, CancelAll, StepWrite;
    var holder := handle.key.holder;
    OnlyCurrent(l, holder);
    EverythingSound(l, holder);
    OneCancelled(l.arbiter, l.out, Write(p), Took(1));
    TookOne(l.arbiter, p);
  }

  lemma OnlyCurrent(l: Loop, holder: HolderId)
    requires l.inputs == [] && l.end.None? && l.current.Some? && l.current.value.key.holder == holder
    ensures Everything(l, holder) == [Write(l.current.value)] && Others(l.inputs, holder) == []
  {
  }

  lemma OneCancelled(a: Arbiter, out: Out, item: Item, answer: SinkAnswer)
    requires Sound([item])
    ensures CancelAll(a, out, [item], [answer]) == CancelOne(a, Cancelling(out, 0, 0), item, answer)
  {
    hide CancelOne;
    assert [item][..0] == [];
    assert CancelAll(a, out, [item][..0], [answer]) == Cancelling(out, 0, 0);
  }

  lemma TookOne(a: Arbiter, p: PendingInput)
    requires Unfinished(p) && Authorizes(a, p.key) && |p.bytes| == p.accepted + 2
    ensures StepWrite(a, p, Took(1)) == WriteStep(p.(accepted := p.accepted + 1), [p.bytes[p.accepted]])
  {
  }

  /**
   Where each holder is granted control once, as the sidecar does, no disconnect of any run writes a byte or drops
   a request.
   */
  lemma {:induction false} FreshHoldersLeaveQuietly(run: RunId, events: seq<Event>, answers: seq<SinkAnswer>)
    requires After(run, events + [ServeNext(answers)]).Some?
    requires After(run, events).Some? && After(run, events).value.batch != [] && After(run, events).value.batch[0].Disconnect?
    requires DistinctHolders(After(run, events).value.loop.out.granted)
    ensures var (s, t) := (After(run, events).value, After(run, events + [ServeNext(answers)]).value);
      t.loop.out.pty == s.loop.out.pty && t.loop.out.dropped == s.loop.out.dropped
  {
    hide ServeDisconnect, DistinctHolders, StoppedAll, Ends, Requests, Everything, Kept;
    var s := After(run, events).value;
    assert (events + [ServeNext(answers)])[..|events|] == events;
    RunKeeps(run, events);
    RunQueued(run, events);
    var handle := s.batch[0].handle;
    assert Kept(s.loop) ==> GrantsByEpoch(s.loop) by { hide *; KeptGrants(s.loop); }
    assert handle in s.loop.out.granted;
    ReleasedForGood(s.loop, handle);
    DisconnectExact(s.loop, handle, answers);
  }

  lemma KeptGrants(l: Loop)
    ensures Kept(l) ==> GrantsByEpoch(l)
  {
  }

  // ---------------------------------------------------------------- failed writes

  /** An answer that ends a request of one byte without writing it. */
  predicate Fails(answer: SinkAnswer) {
    answer.Broken? || (answer.Took? && answer.n != 1)
  }

  /** A holder claims and submits two requests of one byte each. */
  lemma {:induction false} TwoSubmitted(run: RunId, holder: HolderId) returns (events: seq<Event>, s: System)
    ensures After(run, events) == Some(s) && !s.serving && s.controls == [] && s.batch == []
    ensures s.loop.arbiter == Arbiter(run, Owned(1, holder, Human)) && s.loop.current.None? && s.loop.end.None?
    ensures var key := HandleOf(run, 1, holder).key;
      && s.submitted == [PendingInput(0, key, Human, [0x61], 0, None), PendingInput(1, key, Human, [0x62], 0, None)]
      && s.loop.inputs == [Write(s.submitted[0]), Write(s.submitted[1])]
    ensures s.loop.out.pty == [] && s.loop.out.served == [] && s.loop.out.granted == [HandleOf(run, 1, holder)]
  {
    hide After, Serve, Proceed;
    var handle := HandleOf(run, 1, holder);
    var loop;
    events, loop := GrantedOnce(run, holder);
    var s0 := System(loop, [], [], false, []);
    assert loop.out.granted[0] == handle;
    events := Onward(run, events, s0, PushWrite(0, handle, [0x61]));
    var s1 := Next(s0, PushWrite(0, handle, [0x61]));
    events := Onward(run, events, s1, PushWrite(1, handle, [0x62]));
    s := Next(s1, PushWrite(1, handle, [0x62]));
  }

  /** The first of them staged and attempted. */
  lemma {:induction false} AttemptNext(run: RunId, events: seq<Event>, s: System, answer: SinkAnswer)
    returns (longer: seq<Event>, t: System)
    requires After(run, events) == Some(s) && SystemSound(s) && !s.serving && s.controls == []
    requires s.loop.inputs != [] && s.loop.inputs[0].Write? && s.loop.current.None? && s.loop.end.None?
    ensures After(run, longer) == Some(t) && SystemSound(t) && !t.serving && t.controls == [] && t.submitted == s.submitted
    ensures var staged := s.loop.(inputs := s.loop.inputs[1..], current := Some(s.loop.inputs[0].request));
      t.loop == Attempted(staged, StepWrite(s.loop.arbiter, s.loop.inputs[0].request, answer))
  {
    hide StepWrite, Attempted, After;
    longer := Onward(run, events, s, Drain);
    var drained := Next(s, Drain);
    longer := Onward(run, longer, drained, ProceedWith(answer));
    t := Next(drained, ProceedWith(answer));
    NextSound(drained, ProceedWith(answer));
  }

  /**
   For every holder and every failing answer a run, each holder granted control once, in which the holder's first
   request fails and its second is written: what it got onto the PTY is no prefix of what it submitted.
   */
  lemma {:induction false} FailureBreaksThePrefix(run: RunId, holder: HolderId, failing: SinkAnswer) returns (events: seq<Event>)
    requires Fails(failing)
    ensures After(run, events).Some?
    ensures var (s, k) := (After(run, events).value, HandleOf(run, 1, holder).key);
      && DistinctHolders(s.loop.out.granted) && !NoFailure(k, s.loop.out.served)
      && Sent(k, s.loop.out.pty) == [0x62] && PtyPrefix.Asked(k, s.submitted) == [0x61, 0x62]
  {
    hide StepWrite, After;
    var k := HandleOf(run, 1, holder).key;
    var s, t, u;
    events, s := TwoSubmitted(run, holder);
    var (first, second) := (s.submitted[0], s.submitted[1]);
    events, t := AttemptNext(run, events, s, failing);
    OneFails(s.loop.arbiter, first, failing);
    assert s.loop.inputs[1..] == [Write(second)];
    events, u := AttemptNext(run, events, t, Took(1));
    OneByte(s.loop.arbiter, second);
    assert u.loop.out.pty == [Chunk(k, 1, [0x62])];
    assert PtyFailed(u.loop.out.served[0]);
    OneSent(k, u.loop.out.pty);
    TwoAsked(k, first, second);
  }

  lemma OneFails(a: Arbiter, p: PendingInput, failing: SinkAnswer)
    requires Unfinished(p) && |p.bytes| == 1 && Authorizes(a, p.key) && Fails(failing)
    ensures var step := StepWrite(a, p, failing);
      && step.written == [] && PtyFailed(step.request) && step.request.key == p.key && !step.request.outcome.None?
      && !step.request.outcome.value.reason.NotAuthorized?
  {
  }

  lemma OneByte(a: Arbiter, p: PendingInput)
    requires Unfinished(p) && |p.bytes| == 1 && Authorizes(a, p.key)
    ensures var step := StepWrite(a, p, Took(1));
      && step.written == p.bytes && step.request.outcome.Some? && step.request.outcome.value.Accepted?
  {
  }

  lemma OneSent(k: HandleKey, pty: seq<Chunk>)
    requires |pty| == 1 && pty[0].key == k
    ensures Sent(k, pty) == pty[0].data
  {
    assert pty[..0] == [];
    assert Sent(k, pty[..0]) == [];
  }

  lemma TwoAsked(k: HandleKey, first: PendingInput, second: PendingInput)
    requires first.key == k && second.key == k
    ensures PtyPrefix.Asked(k, [first, second]) == first.bytes + second.bytes
  {
    assert [first, second][..1] == [first] && [first][..0] == [];
    assert PtyPrefix.Asked(k, [first][..0]) == [];
    assert PtyPrefix.Asked(k, [first]) == first.bytes;
  }
}
