/** The queues senders share with the writer, and the writer loop that drains and serves them in place. */
module PtyInputThread {
  import opened Wrappers
  import opened Bytes
  import R = Recording
  import opened PtyControl
  import opened PtyInput

  /** What the lock guards. */
  class Queues {
    var controls: seq<Control>
    var inputs: seq<Item>
    /** How many requests were ever queued. */
    var submitted: nat

    constructor ()
      ensures controls == [] && inputs == [] && submitted == 0
    {
      controls, inputs, submitted := [], [], 0;
    }

    /** A sender that finds the queue full waits and tries again. */
    method PushControl(control: Control) returns (pushed: bool)
      modifies this`controls
      ensures pushed == (|old(controls)| < CONTROL_CAPACITY)
      ensures controls == if pushed then old(controls) + [control] else old(controls)
    {
      pushed := |controls| < CONTROL_CAPACITY;
      if pushed {
        controls := controls + [control];
      }
    }

    method PushInput(item: Item) returns (pushed: bool)
      modifies this`inputs, this`submitted
      ensures pushed == (|old(inputs)| < INPUT_CAPACITY)
      ensures inputs == if pushed then old(inputs) + [item] else old(inputs)
      ensures submitted == old(submitted) + if pushed && item.Write? then 1 else 0
    {
      pushed := |inputs| < INPUT_CAPACITY;
      if pushed {
        inputs := inputs + [item];
        submitted := if item.Write? then submitted + 1 else submitted;
      }
    }

    /** Every control, and the next input if none is being written. */
    method TakeWork(idle: bool) returns (batch: seq<Control>, next: Option<Item>)
      modifies this`controls, this`inputs
      ensures batch == old(controls) && controls == []
      ensures next == if idle && old(inputs) != [] then Some(old(inputs)[0]) else None
      ensures inputs == if next.Some? then old(inputs)[1..] else old(inputs)
    {
      batch := controls;
      controls := [];
      next := None;
      if idle && inputs != [] {
        next := Some(inputs[0]);
        inputs := inputs[1..];
      }
    }

    /** Splits the inputs between a holder and everyone else, who keep their places. */
    method TakeTheirs(holder: HolderId) returns (theirs: seq<Item>)
      modifies this`inputs
      ensures theirs == Theirs(old(inputs), holder) && inputs == Others(old(inputs), holder)
    {
      theirs := [];
      var others: seq<Item> := [];
      var i := 0;
      while i < |inputs|
        invariant i <= |inputs| && inputs == old(inputs)
        invariant theirs == Theirs(inputs[..i], holder) && others == Others(inputs[..i], holder)
      {
        assert inputs[..i + 1][..i] == inputs[..i];
        if HolderOf(inputs[i]) == holder {
          theirs := theirs + [inputs[i]];
        } else {
          others := others + [inputs[i]];
        }
        i := i + 1;
      }
      assert inputs[..i] == inputs;
      inputs := others;
    }
  }

  // ---------------------------------------------------------------- runs from a state

  /** Where events lead from a state, if each is possible in turn. */
  function From(s: System, events: seq<Event>): (t: Option<System>)
    requires SystemSound(s)
    ensures t.Some? ==> SystemSound(t.value)
    decreases |events|
  {
    if events == [] then Some(s)
    else if !Enabled(s, events[0]) then None
    else
      NextSound(s, events[0]);
      From(Next(s, events[0]), events[1..])
  }

  lemma {:induction false} FromFirst(s: System, e: Event, rest: seq<Event>)
    requires SystemSound(s)
    ensures Enabled(s, e) ==> SystemSound(Next(s, e))
    ensures From(s, [e] + rest) == if Enabled(s, e) then From(Next(s, e), rest) else None
  {
    hide Next, Enabled, SystemSound;
    assert ([e] + rest)[1..] == rest;
    if Enabled(s, e) {
      NextSound(s, e);
    }
  }

  lemma {:induction false} FromMore(s: System, a: seq<Event>, b: seq<Event>)
    requires SystemSound(s)
    ensures From(s, a + b) == if From(s, a).None? then None else From(From(s, a).value, b)
    decreases |a|
  {
    hide Next, Enabled, SystemSound;
    if a == [] {
      assert a + b == b;
    } else if Enabled(s, a[0]) {
      NextSound(s, a[0]);
      assert (a + b)[1..] == a[1..] + b;
      FromMore(Next(s, a[0]), a[1..], b);
    }
  }

  /** A run continues from where it led. */
  lemma {:induction false} AfterFrom(run: RunId, a: seq<Event>, b: seq<Event>)
    requires After(run, a).Some?
    ensures After(run, a + b) == From(After(run, a).value, b)
    decreases |b|
  {
    hide Next, Enabled, SystemSound;
    if b == [] {
      assert a + b == a;
    } else {
      assert (a + [b[0]])[..|a|] == a;
      assert a + b == (a + [b[0]]) + b[1..];
      if After(run, a + [b[0]]).Some? {
        AfterFrom(run, a + [b[0]], b[1..]);
      } else {
        NeverAgain(run, a + [b[0]], b[1..]);
      }
    }
  }

  lemma {:induction false} NeverAgain(run: RunId, a: seq<Event>, b: seq<Event>)
    requires After(run, a).None?
    ensures After(run, a + b).None?
    decreases |b|
  {
    hide Next, Enabled, SystemSound;
    if b == [] {
      assert a + b == a;
    } else {
      var n := |b| - 1;
      assert (a + b)[..|a + b| - 1] == a + b[..n];
      NeverAgain(run, a, b[..n]);
    }
  }

  predicate Sends(e: Event) {
    e.PushControl? || e.PushWrite? || e.PushEnd?
  }

  predicate AllSend(sends: seq<Event>) {
    forall i :: 0 <= i < |sends| ==> Sends(sends[i])
  }

  /** A turn from its `i`-th control on: each control served, then the staged input, the senders pushing before each. */
  function FromControl(pushes: seq<seq<Event>>, answers: seq<seq<SinkAnswer>>, answer: SinkAnswer, i: nat): seq<Event>
    requires i <= |answers| && |pushes| == |answers| + 1
    decreases |answers| - i
  {
    if i == |answers| then pushes[i] + ([ProceedWith(answer)] + [])
    else pushes[i] + ([ServeNext(answers[i])] + FromControl(pushes, answers, answer, i + 1))
  }

  /** A whole turn. */
  function TurnEvents(pushes: seq<seq<Event>>, answers: seq<seq<SinkAnswer>>, answer: SinkAnswer): seq<Event>
    requires |pushes| == |answers| + 1
  {
    [Drain] + FromControl(pushes, answers, answer, 0)
  }

  /** The writer thread: it alone has the arbiter and the PTY. */
  class InputWriterLoop {
    const queues: Queues
    const arbiter: InputArbiter
    var current: Option<PendingInput>
    var end: Option<Item>
    var out: Out

    function View(): Loop
      reads this, queues, arbiter
    {
      Loop(arbiter.View(), queues.inputs, current, end, out)
    }

    constructor (queues: Queues, run: RunId)
      requires queues.controls == [] && queues.inputs == [] && queues.submitted == 0
      ensures this.queues == queues && fresh(arbiter)
      ensures In(Start(run))
    {
      this.queues := queues;
      arbiter := new InputArbiter(run);
      current, end, out := None, None, Out([], [], [], [], [], []);
    }

    method ReleaseHandle(handle: ControllerHandle)
      modifies arbiter, this`out
      ensures View() == ReleaseBy(old(View()), handle)
    {
      var released := arbiter.GiveUp(handle.key);
      if released && handle.kind.Human? {
        out := WithEffect(out, HumanReleased);
      }
    }

    method ApplyClaim(holder: HolderId, kind: ControllerKind)
      modifies arbiter, this`out
      ensures View() == ServeClaim(old(View()), holder, kind)
    {
      var r := arbiter.ClaimControl(holder, kind);
      if r.Success? {
        out := out.(granted := out.granted + [r.value]);
        if kind.Human? {
          out := WithEffect(out, HumanControl(Attach));
        }
      }
    }

    method ApplyTakeover(holder: HolderId)
      modifies arbiter, this`out
      ensures View() == ServeTakeover(old(View()), holder)
    {
      var r := arbiter.TakeControl(holder);
      if r.Success? {
        var takeover := r.value;
        out := WithEffect(out.(granted := out.granted + [takeover.handle]), HumanControl(ByTakeover));
        if takeover.retired.Some? {
          var (who, kind) := takeover.retired.value;
          out := WithEffect(out, Retire(who, kind, takeover.handle.key.epoch));
        }
      }
    }

    method ApplyResize(key: HandleKey, size: R.Geometry)
      modifies this`out
      ensures View() == ServeResize(old(View()), key, size)
    {
      if Authorizes(arbiter.View(), key) {
        out := WithEffect(out, Resized(size));
      }
    }

    /** Releases, takes all the holder still has, and finishes each write where it is. */
    method DisconnectHolder(handle: ControllerHandle, answers: seq<SinkAnswer>)
      requires LoopSound(View()) && |queues.inputs| < |answers|
      modifies this, arbiter, queues`inputs
      ensures View() == ServeDisconnect(old(View()), handle, answers)
    {
      hide Theirs, Others, StepWrite, CancelOne;
      var holder := handle.key.holder;
      ghost var before := View();
      EverythingSound(before, holder);
      ReleaseHandle(handle);
      ghost var released := View();
      var cancelled := queues.TakeTheirs(holder);
      if end.Some? && HolderOf(end.value) == holder {
        cancelled := cancelled + [end.value];
        end := None;
      }
      if current.Some? && current.value.key.holder == holder {
        cancelled := cancelled + [Write(current.value)];
        current := None;
      }
      assert cancelled == Everything(before, holder);
      assert View() == Without(released, holder);
      var accepted, total := CancelEach(cancelled, answers);
      if total > 0 {
        out := WithEffect(out, InputRevoked(handle.kind, accepted, total));
      }
    }

    method CancelEach(cancelled: seq<Item>, answers: seq<SinkAnswer>) returns (accepted: nat, total: nat)
      requires Sound(cancelled) && |cancelled| <= |answers|
      modifies this`out
      ensures Cancelling(out, accepted, total) == CancelAll(arbiter.View(), old(out), cancelled, answers)
    {
      hide StepWrite;
      accepted, total := 0, 0;
      var i := 0;
      while i < |cancelled|
        invariant i <= |cancelled|
        invariant Cancelling(out, accepted, total) == CancelAll(arbiter.View(), old(out), cancelled[..i], answers)
      {
        assert cancelled[..i + 1][..i] == cancelled[..i];
        match cancelled[i] {
          case End(_, _) => out := out.(ended := out.ended + [cancelled[i]]);
          case Write(request) =>
            var p, written := arbiter.Attempt(request, answers[i]);
            out := Wrote(out, request, written);
            if p.outcome.None? {
              out := out.(dropped := out.dropped + [p]);
            } else {
              out := out.(served := out.served + [p]);
              if p.outcome.value.Incomplete? {
                accepted, total := accepted + p.outcome.value.accepted, total + p.outcome.value.total;
              }
            }
        }
        i := i + 1;
      }
      assert cancelled[..i] == cancelled;
    }

    method ServeControl(control: Control, answers: seq<SinkAnswer>)
      requires LoopSound(View()) && |queues.inputs| < |answers|
      modifies this, arbiter, queues`inputs
      ensures View() == Serve(old(View()), control, answers)
    {
      hide ServeDisconnect;
      match control
      case ClaimFor(holder, kind) => ApplyClaim(holder, kind);
      case TakeoverFor(holder) => ApplyTakeover(holder);
      case Resize(key, size) => ApplyResize(key, size);
      case Disconnect(handle) => DisconnectHolder(handle, answers);
    }

    /** Takes the queued controls, and stages the next input before any of them is served. */
    method StageNext() returns (batch: seq<Control>)
      requires end.None?
      modifies this, queues`controls, queues`inputs
      ensures batch == old(queues.controls) && queues.controls == []
      ensures View() == Stage(old(View()))
    {
      var next;
      batch, next := queues.TakeWork(current.None?);
      match next
      case Some(Write(request)) => current := Some(request);
      case Some(End(_, _)) => end := next;
      case None =>
    }

    /** One write attempt for the request being written. */
    method AttemptCurrent(answer: SinkAnswer)
      requires current.Some? && LoopSound(View())
      modifies this`current, this`out
      ensures View() == Attempted(old(View()), StepWrite(old(View().arbiter), old(current).value, answer))
    {
      hide StepWrite;
      var p, written := arbiter.Attempt(current.value, answer);
      out := Wrote(out, current.value, written);
      if p.outcome.None? {
        current := Some(p);
        return;
      }
      current := None;
      out := out.(served := out.served + [p]);
      if p.outcome.value.Incomplete? && p.outcome.value.reason.NotAuthorized? {
        out := WithEffect(out, InputRevoked(p.kind, p.outcome.value.accepted, p.outcome.value.total));
      }
    }

    method ProceedWithInput(answer: SinkAnswer)
      requires LoopSound(View())
      modifies this, arbiter
      ensures View() == Proceed(old(View()), answer)
    {
      hide StepWrite, Attempted, ReleaseBy;
      if end.Some? {
        var marker := end.value;
        ReleaseHandle(marker.handle);
        end := None;
        out := out.(ended := out.ended + [marker]);
      } else if current.Some? {
        AttemptCurrent(answer);
      }
    }

    /** The loop and the queues are in a state of the machine. */
    ghost predicate In(s: System)
      reads this, queues, arbiter
    {
      SystemSound(s) && View() == s.loop && queues.controls == s.controls && queues.submitted == |s.submitted|
    }

    /** A sender acts while the loop is between two of its steps. */
    method Meanwhile(e: Event, ghost s: System)
      requires In(s) && Sends(e) && Enabled(s, e)
      modifies queues
      ensures In(Next(s, e)) && end == old(end) && current == old(current)
    {
      NextSound(s, e);
      var pushed;
      match e {
        case PushControl(control) => pushed := queues.PushControl(control);
        case PushWrite(id, handle, bytes) => pushed := queues.PushInput(Write(NewInput(id, handle, bytes).value));
        case PushEnd(handle) => pushed := queues.PushInput(End(handle, queues.submitted));
      }
    }

    method AllMeanwhile(sends: seq<Event>, ghost s: System) returns (ghost t: System)
      requires In(s) && AllSend(sends) && From(s, sends).Some?
      modifies queues
      ensures From(s, sends) == Some(t) && In(t) && t.batch == s.batch && t.serving == s.serving
    {
      hide Enabled, SystemSound, Stage, Serve, Proceed;
      t := s;
      var i := 0;
      while i < |sends|
        invariant i <= |sends| && In(t) && From(s, sends) == From(t, sends[i..])
        invariant t.batch == s.batch && t.serving == s.serving
      {
        Meanwhile(sends[i], t);
        assert sends[i..][1..] == sends[i + 1..];
        t := Next(t, sends[i]);
        i := i + 1;
      }
    }

    /**
     One turn of the loop, the senders pushing before, between and after the controls it serves: a run of the
     machine with just these events in this order.
     */
    method Turn(pushes: seq<seq<Event>>, answers: seq<seq<SinkAnswer>>, answer: SinkAnswer, ghost s: System)
      returns (ghost t: System)
      requires In(s) && !s.serving && |answers| == |queues.controls| && |pushes| == |answers| + 1
      requires forall i :: 0 <= i < |pushes| ==> AllSend(pushes[i])
      requires From(s, TurnEvents(pushes, answers, answer)).Some?
      modifies this, arbiter, queues
      ensures From(s, TurnEvents(pushes, answers, answer)) == Some(t)
      ensures In(t) && !t.serving
    {
      hide From, AllSend, Stage, Serve, Proceed;
      FromFirst(s, Drain, FromControl(pushes, answers, answer, 0));
      var batch := StageNext();
      t := Next(s, Drain);
      var i := 0;
      while i < |batch|
        invariant i <= |batch| == |answers|
        invariant In(t) && t.serving && t.batch == batch[i..]
        invariant From(t, FromControl(pushes, answers, answer, i)) == From(s, TurnEvents(pushes, answers, answer))
      {
        ghost var rest := FromControl(pushes, answers, answer, i + 1);
        FromMore(t, pushes[i], [ServeNext(answers[i])] + rest);
        t := AllMeanwhile(pushes[i], t);
        FromFirst(t, ServeNext(answers[i]), rest);
        ServeControl(batch[i], answers[i]);
        t := Next(t, ServeNext(answers[i]));
        i := i + 1;
      }
      FromMore(t, pushes[i], [ProceedWith(answer)] + []);
      t := AllMeanwhile(pushes[i], t);
      FromFirst(t, ProceedWith(answer), []);
      ProceedWithInput(answer);
      t := Next(t, ProceedWith(answer));
      FromNone(t);
    }
  }

  lemma FromNone(s: System)
    requires SystemSound(s)
    ensures From(s, []) == Some(s)
  {
  }
}
