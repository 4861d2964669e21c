/** Whose bytes are on the PTY: each chunk there is of a request its handle submitted. */
module PtyNames {
  import opened Wrappers
  import opened Bytes
  import opened PtyControl
  import opened PtyInput
  import opened PtyDisconnect
  import opened PtyPrefix
  import opened PtyAccounts
  import opened PtyAnswers

  predicate Named(submitted: seq<PendingInput>, id: RequestId, key: HandleKey) {
    exists i :: 0 <= i < |submitted| && submitted[i].id == id && submitted[i].key == key
  }

  predicate ItemsNamed(submitted: seq<PendingInput>, items: seq<Item>) {
    forall i :: 0 <= i < |items| ==> items[i].Write? ==> Named(submitted, items[i].request.id, items[i].request.key)
  }

  predicate OutNamed(submitted: seq<PendingInput>, out: Out) {
    && (forall i :: 0 <= i < |out.pty| ==> Named(submitted, out.pty[i].id, out.pty[i].key))
    && (forall i :: 0 <= i < |out.served| ==> Named(submitted, out.served[i].id, out.served[i].key))
  }

  predicate AllNamed(submitted: seq<PendingInput>, l: Loop) {
    && ItemsNamed(submitted, l.inputs) && OutNamed(submitted, l.out)
    && (l.current.Some? ==> Named(submitted, l.current.value.id, l.current.value.key))
  }

  lemma {:induction false} NamedMore(submitted: seq<PendingInput>, p: PendingInput, l: Loop)
    requires AllNamed(submitted, l)
    ensures AllNamed(submitted + [p], l) && Named(submitted + [p], p.id, p.key)
  {
    forall id, key | Named(submitted, id, key) ensures Named(submitted + [p], id, key) {
      var i :| 0 <= i < |submitted| && submitted[i].id == id && submitted[i].key == key;
      assert (submitted + [p])[i] == submitted[i];
    }
    assert (submitted + [p])[|submitted|] == p;
  }

  lemma {:induction false} PartsNamed(submitted: seq<PendingInput>, items: seq<Item>, holder: HolderId)
    requires ItemsNamed(submitted, items)
    ensures ItemsNamed(submitted, Theirs(items, holder)) && ItemsNamed(submitted, Others(items, holder))
  {
    hide Named;
    if items != [] {
      PartsNamed(submitted, items[..|items| - 1], holder);
    }
  }

  lemma EverythingNamed(submitted: seq<PendingInput>, l: Loop, holder: HolderId)
    requires LoopSound(l) && AllNamed(submitted, l)
    ensures ItemsNamed(submitted, Everything(l, holder)) && ItemsNamed(submitted, Others(l.inputs, holder))
  {
    hide Named, Theirs, Others;
    PartsNamed(submitted, l.inputs, holder);
  }

  lemma {:induction false} WroteNamed(submitted: seq<PendingInput>, a: Arbiter, out: Out, p: PendingInput, answer: SinkAnswer)
    requires Unfinished(p) && OutNamed(submitted, out) && Named(submitted, p.id, p.key)
    ensures var step := StepWrite(a, p, answer);
      && OutNamed(submitted, Wrote(out, p, step.written))
      && step.request.id == p.id && step.request.key == p.key
  {
    hide Named, StepWrite;
    StepWriteEffect(a, p, answer);
  }

  lemma {:induction false} CancelOneNamed(submitted: seq<PendingInput>, a: Arbiter, c: Cancelling, item: Item, answer: SinkAnswer)
    requires item.Write? ==> Unfinished(item.request) && Named(submitted, item.request.id, item.request.key)
    requires OutNamed(submitted, c.out)
    ensures OutNamed(submitted, CancelOne(a, c, item, answer).out)
  {
    hide Named, StepWrite, Wrote;
    if item.Write? {
      WroteNamed(submitted, a, c.out, item.request, answer);
    }
  }

  lemma {:induction false} CancelNamed(submitted: seq<PendingInput>, a: Arbiter, out: Out, items: seq<Item>, answers: seq<SinkAnswer>)
    requires Sound(items) && |items| <= |answers| && ItemsNamed(submitted, items) && OutNamed(submitted, out)
    ensures OutNamed(submitted, CancelAll(a, out, items, answers).out)
  {
    hide Named, CancelOne, OutNamed;
    if items != [] {
      var n := |items| - 1;
      CancelNamed(submitted, a, out, items[..n], answers);
      CancelOneNamed(submitted, a, CancelAll(a, out, items[..n], answers), items[n], answers[n]);
    }
  }

  lemma {:induction false} DisconnectNamed(submitted: seq<PendingInput>, l: Loop, handle: ControllerHandle, answers: seq<SinkAnswer>)
    requires LoopSound(l) && |l.inputs| < |answers| && AllNamed(submitted, l)
    ensures AllNamed(submitted, ServeDisconnect(l, handle, answers))
  {
    hide Named, Theirs, Others, Everything, CancelAll, ItemsNamed;
    var holder := handle.key.holder;
    EverythingSound(l, holder);
    EverythingNamed(submitted, l, holder);
    CancelNamed(submitted, ReleaseBy(l, handle).arbiter, ReleaseBy(l, handle).out, Everything(l, holder), answers);
  }

  lemma {:induction false} ServeNamed(submitted: seq<PendingInput>, l: Loop, control: Control, answers: seq<SinkAnswer>)
    requires LoopSound(l) && |l.inputs| < |answers| && AllNamed(submitted, l)
    ensures AllNamed(submitted, Serve(l, control, answers))
  {
    hide Named, ServeDisconnect, LoopSound;
    if control.Disconnect? {
      DisconnectNamed(submitted, l, control.handle, answers);
    }
  }

  lemma {:induction false} ProceedNamed(submitted: seq<PendingInput>, l: Loop, answer: SinkAnswer)
    requires LoopSound(l) && AllNamed(submitted, l)
    ensures AllNamed(submitted, Proceed(l, answer))
  {
    hide Named, StepWrite, Wrote;
    if l.end.None? && l.current.Some? {
      WroteNamed(submitted, l.arbiter, l.out, l.current.value, answer);
      WroteOnly(l.out, l.current.value, StepWrite(l.arbiter, l.current.value, answer).written);
    }
  }

  lemma {:induction false} NextNamed(s: System, e: Event)
    requires SystemSound(s) && Enabled(s, e) && AllNamed(s.submitted, s.loop)
    ensures AllNamed(Next(s, e).submitted, Next(s, e).loop)
  {
    hide Named, Serve, Proceed;
    match e
    case PushWrite(id, handle, bytes) => NamedMore(s.submitted, NewInput(id, handle, bytes).value, s.loop);
    case ServeNext(answers) => ServeNamed(s.submitted, s.loop, s.batch[0], answers);
    case ProceedWith(answer) => ProceedNamed(s.submitted, s.loop, answer);
    case _ =>
  }

  /** Over every run, what is queued, being written, finished and on the PTY is of requests submitted with its key. */
  lemma {:induction false} RunNamed(run: RunId, events: seq<Event>)
    requires After(run, events).Some?
    ensures AllNamed(After(run, events).value.submitted, After(run, events).value.loop)
  {
    hide Next, Enabled, AllNamed;
    if events == [] {
      StartNamed(run);
    } else {
      var n := |events| - 1;
      RunNamed(run, events[..n]);
      NextNamed(After(run, events[..n]).value, events[n]);
    }
  }

  lemma StartNamed(run: RunId)
    ensures AllNamed(Start(run).submitted, Start(run).loop)
  {
  }

  /** Each identity is one request's, so it has one key. */
  lemma {:induction false} OneName(submitted: seq<PendingInput>, id: RequestId, key: HandleKey, key': HandleKey)
    requires IdsDistinct(submitted) && Named(submitted, id, key) && Named(submitted, id, key')
    ensures key == key'
  {
    var i :| 0 <= i < |submitted| && submitted[i].id == id && submitted[i].key == key;
    var j :| 0 <= j < |submitted| && submitted[j].id == id && submitted[j].key == key';
    if i < j {
      CountedTwice(submitted, i, j);
    } else if j < i {
      CountedTwice(submitted, j, i);
    }
  }

  lemma {:induction false} CountedTwice(submitted: seq<PendingInput>, i: nat, j: nat)
    requires i < j < |submitted| && submitted[i].id == submitted[j].id
    ensures Ids(submitted)[submitted[i].id] >= 2
  {
    var n := |submitted| - 1;
    if j < n {
      CountedTwice(submitted[..n], i, j);
    } else {
      SubmittedCounted(submitted[..n], i);
    }
  }
}
