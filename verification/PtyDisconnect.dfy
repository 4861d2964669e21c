/** Serving a disconnect: exact when the holder no longer owns the PTY, and only then. */
module PtyDisconnect {
  import opened Wrappers
  import opened Bytes
  import opened PtyControl
  import opened PtyInput

  predicate OwnedBy(a: Arbiter, holder: HolderId) {
    a.state.Owned? && a.state.holder == holder
  }

  /** Each request stopped where it was. */
  function Stopped(a: Arbiter, p: PendingInput): PendingInput {
    match WhyStale(a, p.key)
    case None => p
    case Some(why) => FinishIncomplete(p, NotAuthorized(why))
  }

  function StoppedAll(a: Arbiter, items: seq<Item>): seq<PendingInput> {
    if items == [] then []
    else
      var last := items[|items| - 1];
      StoppedAll(a, items[..|items| - 1]) + if last.Write? then [Stopped(a, last.request)] else []
  }

  function Ends(items: seq<Item>): seq<Item> {
    if items == [] then []
    else
      var last := items[|items| - 1];
      Ends(items[..|items| - 1]) + if last.End? then [last] else []
  }

  function Requests(items: seq<Item>): seq<PendingInput> {
    if items == [] then []
    else
      var last := items[|items| - 1];
      Requests(items[..|items| - 1]) + if last.Write? then [last.request] else []
  }

  function SumAccepted(ps: seq<PendingInput>): nat {
    if ps == [] then 0 else SumAccepted(ps[..|ps| - 1]) + ps[|ps| - 1].accepted
  }

  function SumTotal(ps: seq<PendingInput>): nat {
    if ps == [] then 0 else SumTotal(ps[..|ps| - 1]) + |ps[|ps| - 1].bytes|
  }

  predicate AllOf(items: seq<Item>, holder: HolderId) {
    forall i :: 0 <= i < |items| ==> HolderOf(items[i]) == holder
  }

  // ---------------------------------------------------------------- partitioning

  lemma {:induction false} TheirsAreTheirs(items: seq<Item>, holder: HolderId)
    ensures AllOf(Theirs(items, holder), holder)
    ensures forall i :: 0 <= i < |Others(items, holder)| ==> HolderOf(Others(items, holder)[i]) != holder
    ensures multiset(items) == multiset(Theirs(items, holder)) + multiset(Others(items, holder))
  {
    hide Theirs, Others, HolderOf;
    if items == [] {
      NoTheirs(holder);
    } else {
      var n := |items| - 1;
      TheirsAreTheirs(items[..n], holder);
      LastTheirs(items, holder);
      assert items == items[..n] + [items[n]];
    }
  }

  lemma NoTheirs(holder: HolderId)
    ensures Theirs([], holder) == [] && Others([], holder) == []
  {
  }

  lemma LastTheirs(items: seq<Item>, holder: HolderId)
    requires items != []
    ensures var (front, last) := (items[..|items| - 1], items[|items| - 1]);
      && Theirs(items, holder) == Theirs(front, holder) + (if HolderOf(last) == holder then [last] else [])
      && Others(items, holder) == Others(front, holder) + (if HolderOf(last) == holder then [] else [last])
  {
  }

  lemma EverythingIsTheirs(l: Loop, holder: HolderId)
    ensures AllOf(Everything(l, holder), holder)
  {
    hide Theirs, AllOf, Everything;
    TheirsAreTheirs(l.inputs, holder);
    AllTheirs(l, holder);
  }

  lemma AllTheirs(l: Loop, holder: HolderId)
    requires AllOf(Theirs(l.inputs, holder), holder)
    ensures AllOf(Everything(l, holder), holder)
  {
    hide Theirs;
    var theirs := Theirs(l.inputs, holder);
    var ends := if l.end.Some? && HolderOf(l.end.value) == holder then [l.end.value] else [];
    var writing := if l.current.Some? && l.current.value.key.holder == holder then [Write(l.current.value)] else [];
    assert AllOf(theirs + ends, holder);
    assert Everything(l, holder) == (theirs + ends) + writing;
  }

  // ---------------------------------------------------------------- cancelling

  lemma {:induction false} NothingWritten(a: Arbiter, out: Out, items: seq<Item>, answers: seq<SinkAnswer>, holder: HolderId)
    requires Sound(items) && |items| <= |answers| && AllOf(items, holder) && !OwnedBy(a, holder)
    ensures CancelAll(a, out, items, answers)
            == Cancelling(out.(served := out.served + StoppedAll(a, items), ended := out.ended + Ends(items)),
                          SumAccepted(Requests(items)), SumTotal(Requests(items)))
  {
    if items == [] {
      assert out.served + [] == out.served && out.ended + [] == out.ended;
    } else {
      var n := |items| - 1;
      var last := items[n];
      NothingWritten(a, out, items[..n], answers, holder);
      OneStopped(a, CancelAll(a, out, items[..n], answers), last, answers[n], holder);
      Assoc(out.served, StoppedAll(a, items[..n]), if last.Write? then [Stopped(a, last.request)] else []);
      Assoc(out.ended, Ends(items[..n]), if last.End? then [last] else []);
      SumsOfLast(items);
    }
  }

  lemma {:induction false} SumsOfLast(items: seq<Item>)
    requires items != []
    ensures var n := |items| - 1;
      var (before, last) := (Requests(items[..n]), items[n]);
      && SumAccepted(Requests(items)) == SumAccepted(before) + (if last.Write? then last.request.accepted else 0)
      && SumTotal(Requests(items)) == SumTotal(before) + (if last.Write? then |last.request.bytes| else 0)
  {
    var n := |items| - 1;
    if items[n].Write? {
      assert Requests(items)[..|Requests(items)| - 1] == Requests(items[..n]);
    } else {
      assert Requests(items) == Requests(items[..n]);
    }
  }

  lemma Assoc<T>(a: seq<T>, b: seq<T>, c: seq<T>)
    ensures (a + b) + c == a + (b + c)
    ensures a + [] == a
  {
  }

  lemma OneStopped(a: Arbiter, c: Cancelling, item: Item, answer: SinkAnswer, holder: HolderId)
    requires item.Write? ==> Unfinished(item.request)
    requires HolderOf(item) == holder && !OwnedBy(a, holder)
    ensures CancelOne(a, c, item, answer) == match item
      case End(_, _) => c.(out := c.out.(ended := c.out.ended + [item]))
      case Write(p) => Cancelling(c.out.(served := c.out.served + [Stopped(a, p)]), c.accepted + p.accepted, c.total + |p.bytes|)
  {
  }

  /**
   A disconnect of a holder that does not own the PTY (again): everything it had is cancelled with its exact
   count and reported once in sum, nothing reaches the PTY, and everyone else's input stays in order.
   */
  lemma {:induction false} DisconnectExact(l: Loop, handle: ControllerHandle, answers: seq<SinkAnswer>)
    requires LoopSound(l) && |l.inputs| < |answers|
    requires !OwnedBy(Release(l.arbiter, handle.key), handle.key.holder)
    ensures var holder := handle.key.holder;
      var released := ReleaseBy(l, handle);
      var items := Everything(l, holder);
      var accepted, total := SumAccepted(Requests(items)), SumTotal(Requests(items));
      var out := released.out.(served := l.out.served + StoppedAll(released.arbiter, items),
                               ended := l.out.ended + Ends(items));
      ServeDisconnect(l, handle, answers)
      == Without(released, holder).(
           out := if Requests(items) != [] then WithEffect(out, InputRevoked(handle.kind, accepted, total)) else out)
  {
    hide Theirs, Others, Everything;
    var holder := handle.key.holder;
    var released := ReleaseBy(l, handle);
    var items := Everything(l, holder);
    EverythingSound(l, holder);
    EverythingIsTheirs(l, holder);
    NothingWritten(released.arbiter, released.out, items, answers, holder);
    SomethingToReport(items);
  }

  lemma {:induction false} SomethingToReport(items: seq<Item>)
    requires Sound(items)
    ensures SumTotal(Requests(items)) > 0 <==> Requests(items) != []
  {
    if items != [] {
      SomethingToReport(items[..|items| - 1]);
      SumsOfLast(items);
    }
  }

  /** Every cancelled request ends unauthorized, counting what it had written before. */
  lemma {:induction false} StoppedMeans(a: Arbiter, items: seq<Item>, holder: HolderId)
    requires Sound(items) && AllOf(items, holder) && !OwnedBy(a, holder)
    ensures var stopped, requests := StoppedAll(a, items), Requests(items);
      && |stopped| == |requests|
      && forall i :: 0 <= i < |stopped| ==>
           && stopped[i].outcome.Some? && stopped[i].outcome.value.Incomplete?
           && stopped[i].outcome.value.reason.NotAuthorized?
           && stopped[i].outcome.value.accepted == requests[i].accepted
           && stopped[i].outcome.value.total == |requests[i].bytes|
           && stopped[i].(outcome := None) == requests[i]
  {
    if items != [] {
      StoppedMeans(a, items[..|items| - 1], holder);
    }
  }

  // ---------------------------------------------------------------- a holder that owns the PTY again

  /** What a disconnect of `handle` does to a loop where all that is queued is one request with the current key. */
  lemma {:induction false} ReusedHolderWrites(a: Arbiter, handle: ControllerHandle) returns (l: Loop, answers: seq<SinkAnswer>)
    requires OwnedBy(Release(a, handle.key), handle.key.holder)
    ensures LoopSound(l) && l.arbiter == a && |l.inputs| < |answers|
    ensures var after := ServeDisconnect(l, handle, answers);
      && after.out.pty != l.out.pty
      && after.out.dropped != l.out.dropped && after.inputs == [] && after.current.None? && after.out.served == l.out.served
  {
    var key := HandleKey(a.run, a.state.epoch, a.state.holder);
    var request := PendingInput(0, key, a.state.kind, [0x61, 0x62], 0, None);
    l := Loop(a, [Write(request)], None, None, Out([], [], [], [], [], []));
    answers := [Took(1), TryAgain];
    var items := Everything(l, handle.key.holder);
    assert l.inputs[..0] == [];
    assert HolderOf(l.inputs[0]) == handle.key.holder;
    assert Theirs(l.inputs, handle.key.holder) == Theirs([], handle.key.holder) + [Write(request)];
    assert Others(l.inputs, handle.key.holder) == Others([], handle.key.holder) + [];
    assert items[..0] == [];
    assert CancelAll(a, l.out, items[..0], answers) == Cancelling(l.out, 0, 0);
    assert StepWrite(a, request, Took(1)).written == [0x61];
  }

  ghost predicate Quiet(a: Arbiter, handle: ControllerHandle, l: Loop, answers: seq<SinkAnswer>)
    requires LoopSound(l) && |l.inputs| < |answers|
  {
    var after := ServeDisconnect(l, handle, answers);
    after.out.pty == l.out.pty && after.out.dropped == l.out.dropped
  }

  /** Nothing is written or lost by a disconnect, whatever is queued, exactly if its holder does not own the PTY by then. */
  lemma {:induction false} DisconnectIsQuiet(a: Arbiter, handle: ControllerHandle)
    ensures (forall l, answers | LoopSound(l) && |l.inputs| < |answers| && l.arbiter == a :: Quiet(a, handle, l, answers))
            <==> !OwnedBy(Release(a, handle.key), handle.key.holder)
  {
    hide ServeDisconnect;
    if OwnedBy(Release(a, handle.key), handle.key.holder) {
      var l, answers := ReusedHolderWrites(a, handle);
      assert !Quiet(a, handle, l, answers);
    } else {
      forall l: Loop, answers: seq<SinkAnswer> | LoopSound(l) && |l.inputs| < |answers| && l.arbiter == a
        ensures Quiet(a, handle, l, answers)
      {
        DisconnectExact(l, handle, answers);
      }
    }
  }
}
