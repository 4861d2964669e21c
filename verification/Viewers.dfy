/**
 A PTY session's viewers: attach connections are granted control, install their viewer, are retired by takeovers
 and clean up after themselves, while output is offered to whichever viewer is installed. Each lock-held region
 is one step; the steps of different threads mix freely.
 */
module Viewers {
  import opened Wrappers
  import opened Bytes
  import PtyControl

  type HolderId = PtyControl.HolderId

  const VIEWER_QUEUE_BYTES := 8_388_608

  // ---------------------------------------------------------------- one viewer's queue

  datatype Queue = Queue(chunks: seq<seq<byte>>, bytes: nat, closed: bool)

  const EMPTY_QUEUE := Queue([], 0, false)

  /** The queue after an offer, and whether it took the chunk; one that overflows is closed and emptied. */
  function Offer(q: Queue, chunk: seq<byte>): (Queue, bool) {
    if q.closed then (q, false)
    else if q.bytes + |chunk| > VIEWER_QUEUE_BYTES then (Queue([], 0, true), false)
    else (Queue(q.chunks + [chunk], q.bytes + |chunk|, false), true)
  }

  /** The oldest chunk, if the queue is open and has one. */
  function TakeNext(q: Queue): (Queue, Option<seq<byte>>) {
    if q.closed || q.chunks == [] then (q, None)
    else (Queue(q.chunks[1..], if q.bytes >= |q.chunks[0]| then q.bytes - |q.chunks[0]| else 0, false), Some(q.chunks[0]))
  }

  function Close(q: Queue): Queue {
    q.(closed := true)
  }

  predicate Counted(q: Queue) {
    q.bytes == |Concat(q.chunks)| <= VIEWER_QUEUE_BYTES
  }

  /** The queue as the tee and the sender thread share it. */
  class ViewerQueue {
    var chunks: seq<seq<byte>>
    var bytes: nat
    var closed: bool

    function View(): Queue
      reads this
    {
      Queue(chunks, bytes, closed)
    }

    constructor ()
      ensures View() == EMPTY_QUEUE && Counted(View())
    {
      chunks, bytes, closed := [], 0, false;
    }

    method OfferChunk(chunk: seq<byte>) returns (taken: bool)
      requires Counted(View())
      modifies this
      ensures (View(), taken) == Offer(old(View()), chunk)
      ensures Counted(View())
    {
      if closed {
        return false;
      }
      OfferCounted(View(), chunk);
      if bytes + |chunk| > VIEWER_QUEUE_BYTES {
        closed, chunks, bytes := true, [], 0;
        return false;
      }
      bytes, chunks := bytes + |chunk|, chunks + [chunk];
      return true;
    }

    /** Never takes more than the queue says it holds. */
    method Next() returns (chunk: Option<seq<byte>>)
      requires Counted(View())
      modifies this
      ensures (View(), chunk) == TakeNext(old(View()))
      ensures Counted(View())
      ensures chunk.Some? ==> bytes + |chunk.value| == old(bytes)
    {
      if closed || chunks == [] {
        return None;
      }
      TakeCounted(View());
      var first := chunks[0];
      chunks, bytes := chunks[1..], bytes - |first|;
      return Some(first);
    }

    method CloseQueue()
      modifies this`closed
      ensures View() == Close(old(View()))
    {
      closed := true;
    }
  }

  lemma {:induction false} OfferCounted(q: Queue, chunk: seq<byte>)
    requires Counted(q)
    ensures Counted(Offer(q, chunk).0)
  {
    ConcatMore(q.chunks, chunk);
  }

  lemma {:induction false} TakeCounted(q: Queue)
    requires Counted(q)
    ensures Counted(TakeNext(q).0)
    ensures q.chunks != [] ==> |q.chunks[0]| <= q.bytes
  {
    if q.chunks != [] {
      ConcatFront(q.chunks);
    }
  }

  // ---------------------------------------------------------------- the attach side

  datatype Phase = Registered | Granted | Attached | Leaving

  /** One installed viewer's history: where the output stood at its install, what its sender took, how far it was offered. */
  datatype Viewing = Viewing(since: nat, sent: seq<byte>, offeredTo: nat)

  datatype Side = Side(
    live: set<HolderId>,
    ended: bool,
    sink: Option<HolderId>,
    queues: map<HolderId, Queue>,
    phases: map<HolderId, Phase>,
    owner: Option<HolderId>,
    granted: seq<HolderId>,
    retired: set<HolderId>,
    viewings: map<HolderId, Viewing>,
    output: seq<byte>)

  datatype Event =
    | Register(holder: HolderId)
    | Refuse(holder: HolderId)
    | Grant(holder: HolderId, takeover: bool)
    | Install(holder: HolderId)
    | Disconnect(holder: HolderId)
    | Release(holder: HolderId)
    | Forget(holder: HolderId)
    | ClearSink(holder: HolderId)
    | CloseOwn(holder: HolderId)
    | FinishRetiring(holder: HolderId)
    | Tee(chunk: seq<byte>)
    | Send(holder: HolderId)
    | SendFails(holder: HolderId)
    | EndRun

  const START := Side({}, false, None, map[], map[], None, [], {}, map[], [])

  predicate InPhase(s: Side, h: HolderId, p: Phase) {
    h in s.phases && s.phases[h] == p
  }

  /**
   A connection registers under a fresh identity, asks for control once, tries one install, then leaves. Leaving
   only queues its release; the writer serves it at any later time, before or after the connection's own cleanup.
   */
  predicate Enabled(s: Side, e: Event) {
    match e
    case Register(h) => h !in s.phases && !s.ended
    case Refuse(h) => InPhase(s, h, Registered)
    case Grant(h, takeover) => InPhase(s, h, Registered) && (takeover || s.owner.None?)
    case Install(h) => InPhase(s, h, Granted)
    case Disconnect(h) => InPhase(s, h, Granted) || InPhase(s, h, Attached)
    case Release(h) => InPhase(s, h, Leaving)
    case Forget(h) => InPhase(s, h, Leaving)
    case ClearSink(h) => InPhase(s, h, Leaving)
    case CloseOwn(h) => InPhase(s, h, Leaving) && h in s.queues
    case FinishRetiring(h) => h in s.retired
    case Tee(_) => true
    case Send(h) => h in s.viewings && h in s.queues
    case SendFails(h) => h in s.queues
    case EndRun => true
  }

  /** A takeover forgets the superseded connection before its successor is granted control. */
  function Granting(s: Side, h: HolderId): Side {
    var gone := if s.owner.Some? then {s.owner.value} else {};
    s.(owner := Some(h), granted := s.granted + [h], phases := s.phases[h := Granted],
       live := s.live - gone, retired := s.retired + gone)
  }

  /** The registry check and the install are one step under the sink's lock. */
  function Installing(s: Side, h: HolderId): Side {
    var t := s.(phases := s.phases[h := Attached], queues := s.queues[h := EMPTY_QUEUE]);
    if h in s.live then
      t.(sink := Some(h), viewings := s.viewings[h := Viewing(|s.output|, [], |s.output|)])
    else t
  }

  function Closing(s: Side, h: HolderId): Side {
    if h in s.queues then s.(queues := s.queues[h := Close(s.queues[h])]) else s
  }

  function Retiring(s: Side, h: HolderId): Side {
    if s.sink == Some(h) then Closing(s, h).(sink := None) else s
  }

  function Teeing(s: Side, chunk: seq<byte>): Side {
    var t := s.(output := s.output + chunk);
    if s.sink.None? || s.sink.value !in s.queues then t
    else
      var h := s.sink.value;
      var (q, taken) := Offer(s.queues[h], chunk);
      if !taken then t.(queues := s.queues[h := q], sink := None)
      else if h in s.viewings then
        t.(queues := s.queues[h := q], viewings := s.viewings[h := s.viewings[h].(offeredTo := |t.output|)])
      else t.(queues := s.queues[h := q])
  }

  function Sending(s: Side, h: HolderId): Side
    requires h in s.queues && h in s.viewings
  {
    var (q, chunk) := TakeNext(s.queues[h]);
    if chunk.None? then s
    else
      s.(queues := s.queues[h := q],
         viewings := s.viewings[h := s.viewings[h].(sent := s.viewings[h].sent + chunk.value)])
  }

  function Next(s: Side, e: Event): Side
    requires Enabled(s, e)
  {
    match e
    case Register(h) => s.(phases := s.phases[h := Registered], live := s.live + {h})
    case Refuse(h) => s.(phases := s.phases[h := Leaving], live := s.live - {h})
    case Grant(h, _) => Granting(s, h)
    case Install(h) => Installing(s, h)
    case Disconnect(h) => s.(phases := s.phases[h := Leaving])
    case Release(h) => if s.owner == Some(h) then s.(owner := None) else s
    case Forget(h) => s.(live := s.live - {h})
    case ClearSink(h) => if s.sink == Some(h) then s.(sink := None) else s
    case CloseOwn(h) => Closing(s, h)
    case FinishRetiring(h) => Retiring(s, h)
    case Tee(chunk) => Teeing(s, chunk)
    case Send(h) => Sending(s, h)
    case SendFails(h) => Closing(s, h)
    case EndRun => s.(ended := true, live := {})
  }

  function After(events: seq<Event>): Option<Side> {
    if events == [] then Some(START)
    else
      var before := After(events[..|events| - 1]);
      if before.None? || !Enabled(before.value, events[|events| - 1]) then None
      else Some(Next(before.value, events[|events| - 1]))
  }

  // ---------------------------------------------------------------- who may install

  predicate Ownership(s: Side) {
    && s.retired !! s.live
    && (forall h :: h in s.live ==> h in s.phases)
    && (forall h :: h in s.granted ==> h in s.phases && s.phases[h] != Registered)
    && (forall h :: h in s.phases && s.phases[h] in {Granted, Attached} ==> h in s.granted)
    && (forall h :: h in s.granted ==> s.owner == Some(h) || h in s.retired || s.phases[h] == Leaving)
    && (forall h :: h in s.retired ==> h in s.granted)
    && (s.owner.Some? ==> s.granted != [] && s.granted[|s.granted| - 1] == s.owner.value)
    && (s.sink.Some? ==> s.sink.value in s.granted)
  }

  lemma {:induction false} GrantOwned(s: Side, h: HolderId)
    requires Ownership(s) && InPhase(s, h, Registered)
    ensures Ownership(Granting(s, h))
  {
  }

  lemma {:induction false} InstallOwned(s: Side, h: HolderId)
    requires Ownership(s) && InPhase(s, h, Granted)
    ensures Ownership(Installing(s, h))
  {
  }

  /** Steps that leave who holds and held control as it was, and at most clear the sink. */
  lemma {:induction false} SameOwned(s: Side, t: Side)
    requires Ownership(s) && t.sink in {None, s.sink} && t.live <= s.live
    requires t.phases == s.phases && t.owner == s.owner && t.granted == s.granted && t.retired == s.retired
    ensures Ownership(t)
  {
  }

  lemma {:induction false} RegisterOwned(s: Side, h: HolderId)
    requires Ownership(s) && h !in s.phases
    ensures Ownership(s.(phases := s.phases[h := Registered], live := s.live + {h}))
  {
  }

  lemma {:induction false} LeaveOwned(s: Side, h: HolderId)
    requires Ownership(s) && h in s.phases
    ensures s.phases[h] == Registered ==> Ownership(s.(phases := s.phases[h := Leaving], live := s.live - {h}))
    ensures s.phases[h] != Registered ==> Ownership(s.(phases := s.phases[h := Leaving]))
    ensures s.phases[h] == Leaving && s.owner == Some(h) ==> Ownership(s.(owner := None))
  {
  }

  lemma {:induction false} OwnershipKept(s: Side, e: Event)
    requires Enabled(s, e) && Ownership(s)
    ensures Ownership(Next(s, e))
  {
    hide Offer, TakeNext, Ownership;
    match e
    case Register(h) => RegisterOwned(s, h);
    case Refuse(h) => LeaveOwned(s, h);
    case Disconnect(h) => LeaveOwned(s, h);
    case Release(h) => LeaveOwned(s, h);
    case Grant(h, _) => GrantOwned(s, h);
    case Install(h) => InstallOwned(s, h);
    case _ => SameOwned(s, Next(s, e));
  }

  lemma {:induction false} RunOwnership(events: seq<Event>)
    requires After(events).Some?
    ensures Ownership(After(events).value)
  {
    hide Ownership, Next, Enabled;
    if events == [] {
      StartOwned();
    } else {
      var n := |events| - 1;
      RunOwnership(events[..n]);
      OwnershipKept(After(events[..n]).value, events[n]);
    }
  }

  lemma StartOwned()
    ensures Ownership(START)
  {
  }

  /**
   Over every run, a connection that installs its viewer has control at that moment, by the latest grant of all:
   a connection a takeover has removed never installs, and no install puts a viewer over its successor's.
   */
  lemma {:induction false} OnlyTheOwnerInstalls(events: seq<Event>, h: HolderId)
    requires After(events).Some? && After(events + [Install(h)]).Some?
    ensures var (s, t) := (After(events).value, After(events + [Install(h)]).value);
      && (h in s.live ==> t.sink == Some(h) && s.owner == Some(h) && s.granted != [] && s.granted[|s.granted| - 1] == h)
      && (h !in s.live ==> t.sink == s.sink)
      && (h in s.retired ==> h !in s.live)
  {
    hide Ownership;
    assert (events + [Install(h)])[..|events|] == events;
    RunOwnership(events);
    InstallerOwns(After(events).value, h);
  }

  lemma {:induction false} InstallerOwns(s: Side, h: HolderId)
    requires Ownership(s) && InPhase(s, h, Granted)
    ensures h in s.live ==> s.owner == Some(h) && s.granted != [] && s.granted[|s.granted| - 1] == h
    ensures h in s.retired ==> h !in s.live
  {
  }

  lemma {:induction false} RetiredStays(s: Side, e: Event, h: HolderId)
    requires Enabled(s, e) && Ownership(s) && h in s.retired
    ensures h in Next(s, e).retired && h !in Next(s, e).live
  {
    hide Offer, TakeNext;
  }

  /** A connection the takeover hook removed stays out of the registry for the rest of every run. */
  lemma {:induction false} RetiredForGood(events: seq<Event>, more: seq<Event>, h: HolderId)
    requires After(events).Some? && After(events + more).Some? && h in After(events).value.retired
    ensures h in After(events + more).value.retired && h !in After(events + more).value.live
    decreases |more|
  {
    hide Next, Enabled, Ownership;
    if more == [] {
      assert events + more == events;
      RunOwnership(events);
      RetiredIsGone(After(events).value, h);
    } else {
      var n := |more| - 1;
      assert (events + more)[..|events + more| - 1] == events + more[..n];
      RetiredForGood(events, more[..n], h);
      RunOwnership(events + more[..n]);
      RetiredStays(After(events + more[..n]).value, more[n], h);
    }
  }

  lemma RetiredIsGone(s: Side, h: HolderId)
    requires Ownership(s) && h in s.retired
    ensures h !in s.live
  {
  }

  /** So no later install of it changes the sink, nor does any step put its viewer there again. */
  lemma {:induction false} RetiredNeverInstalls(events: seq<Event>, more: seq<Event>, e: Event, h: HolderId)
    requires After(events).Some? && After(events + more).Some? && h in After(events).value.retired
    requires Enabled(After(events + more).value, e)
    ensures var (s, t) := (After(events + more).value, Next(After(events + more).value, e));
      && (e == Install(h) ==> t.sink == s.sink)
      && (t.sink == Some(h) ==> s.sink == Some(h))
  {
    hide After, Offer, TakeNext;
    RetiredForGood(events, more, h);
  }

  /** What can take an installed viewer away: its own end, its own queue, or the install of the current owner. */
  lemma {:induction false} OnlyItsOwn(s: Side, e: Event, g: HolderId)
    requires Enabled(s, e) && Ownership(s) && s.sink == Some(g) && Next(s, e).sink != Some(g)
    ensures match e
      case ClearSink(h) => h == g && Next(s, e).sink.None?
      case FinishRetiring(h) => h == g && Next(s, e).sink.None?
      case Tee(chunk) => g in s.queues && !Offer(s.queues[g], chunk).1 && Next(s, e).sink.None?
      case Install(h) => s.owner == Some(h) && Next(s, e).sink == Some(h)
      case _ => false
  {
    hide Offer, TakeNext, Ownership;
    if e.Install? {
      InstallerOwns(s, e.holder);
    }
  }

  // ---------------------------------------------------------------- gap-free output

  /** Sent and queued together are the output since the install up to the last offer; all of it while installed. */
  predicate GapFree(s: Side, h: HolderId) {
    h in s.viewings ==>
      var v := s.viewings[h];
      && v.since <= v.offeredTo <= |s.output|
      && v.sent <= s.output[v.since..v.offeredTo]
      && (InPhase(s, h, Attached) || InPhase(s, h, Leaving))
      && h in s.queues && Counted(s.queues[h])
      && (!s.queues[h].closed ==> v.sent + Concat(s.queues[h].chunks) == s.output[v.since..v.offeredTo])
      && (!s.queues[h].closed && s.sink == Some(h) ==> v.offeredTo == |s.output|)
  }

  predicate SinkViews(s: Side) {
    s.sink.Some? ==> s.sink.value in s.viewings
  }

  lemma {:induction false} LongerOutput(s: Side, h: HolderId, chunk: seq<byte>)
    requires GapFree(s, h)
    ensures h in s.viewings ==>
      var v := s.viewings[h];
      && (s.output + chunk)[v.since..v.offeredTo] == s.output[v.since..v.offeredTo]
      && (v.offeredTo == |s.output| ==> (s.output + chunk)[v.since..] == s.output[v.since..v.offeredTo] + chunk)
  {
  }

  /** An offer is taken whole, or leaves the queue closed. */
  lemma {:induction false} OfferMeans(q: Queue, chunk: seq<byte>)
    requires Counted(q)
    ensures var (after, taken) := Offer(q, chunk);
      && Counted(after) && taken == !after.closed
      && (taken ==> !q.closed && Concat(after.chunks) == Concat(q.chunks) + chunk)
  {
    hide Concat;
    OfferCounted(q, chunk);
    ConcatMore(q.chunks, chunk);
  }

  lemma {:induction false} TeeGapFree(s: Side, chunk: seq<byte>, h: HolderId)
    requires GapFree(s, h) && SinkViews(s)
    ensures GapFree(Teeing(s, chunk), h)
  {
    hide Concat, Offer, Counted;
    LongerOutput(s, h, chunk);
    if h in s.viewings && s.sink == Some(h) {
      OfferMeans(s.queues[h], chunk);
      OfferedMore(s.output, chunk, s.viewings[h], Concat(s.queues[h].chunks));
    }
  }

  /** Sent and queued bytes stay a match for the output when both grow by a chunk. */
  lemma OfferedMore(output: seq<byte>, chunk: seq<byte>, v: Viewing, queued: seq<byte>)
    requires v.since <= v.offeredTo <= |output| && v.sent <= output[v.since..v.offeredTo]
    ensures v.offeredTo == |output| ==> v.sent <= (output + chunk)[v.since..|output + chunk|]
    ensures v.offeredTo == |output| && v.sent + queued == output[v.since..v.offeredTo] ==>
      v.sent + (queued + chunk) == (output + chunk)[v.since..|output + chunk|]
  {
    var whole := output + chunk;
    assert v.offeredTo == |output| ==> whole[v.since..|whole|] == output[v.since..v.offeredTo] + chunk;
    assert v.sent + (queued + chunk) == (v.sent + queued) + chunk;
  }

  lemma {:induction false} SendGapFree(s: Side, who: HolderId, h: HolderId)
    requires GapFree(s, h) && who in s.queues && who in s.viewings
    ensures GapFree(Sending(s, who), h)
  {
    hide Concat;
    if who == h {
      var q, v := s.queues[h], s.viewings[h];
      TakeCounted(q);
      if !q.closed && q.chunks != [] {
        ConcatFront(q.chunks);
        assert v.sent + (q.chunks[0] + Concat(q.chunks[1..])) == (v.sent + q.chunks[0]) + Concat(q.chunks[1..]);
      }
    }
  }

  lemma {:induction false} InstallGapFree(s: Side, who: HolderId, h: HolderId)
    requires GapFree(s, h) && InPhase(s, who, Granted)
    ensures GapFree(Installing(s, who), h)
  {
    var t := Installing(s, who);
    if h == who && h in t.viewings {
      assert s.output[|s.output|..|s.output|] == [];
      assert Concat([]) == [];
    }
  }

  lemma {:induction false} CloseGapFree(s: Side, who: HolderId, h: HolderId)
    requires GapFree(s, h)
    ensures GapFree(Closing(s, who), h) && GapFree(Closing(s, who).(sink := None), h) && GapFree(s.(sink := None), h)
  {
    hide Concat;
  }

  lemma {:induction false} GapFreeKept(s: Side, e: Event, h: HolderId)
    requires Enabled(s, e) && GapFree(s, h) && SinkViews(s)
    ensures GapFree(Next(s, e), h)
  {
    hide Concat, Offer, TakeNext, Counted;
    match e
    case Tee(chunk) => TeeGapFree(s, chunk, h);
    case Send(who) => SendGapFree(s, who, h);
    case Install(who) => InstallGapFree(s, who, h);
    case CloseOwn(who) => CloseGapFree(s, who, h);
    case SendFails(who) => CloseGapFree(s, who, h);
    case FinishRetiring(who) => CloseGapFree(s, who, h);
    case ClearSink(who) => CloseGapFree(s, who, h);
    case _ =>
  }

  lemma {:induction false} SinkViewsKept(s: Side, e: Event)
    requires Enabled(s, e) && SinkViews(s)
    ensures SinkViews(Next(s, e))
  {
    hide Offer, TakeNext;
  }

  lemma {:induction false} RunGapFree(events: seq<Event>, h: HolderId)
    requires After(events).Some?
    ensures GapFree(After(events).value, h) && SinkViews(After(events).value)
  {
    hide GapFree, SinkViews, Next, Enabled;
    if events == [] {
      StartGapFree(h);
    } else {
      var n := |events| - 1;
      RunGapFree(events[..n], h);
      GapFreeKept(After(events[..n]).value, events[n], h);
      SinkViewsKept(After(events[..n]).value, events[n]);
    }
  }

  lemma StartGapFree(h: HolderId)
    ensures GapFree(START, h) && SinkViews(START)
  {
  }

  /**
   Over every run: what a viewer was sent is gap-free output from its install on; until it closes, sent and
   queued are all the output it was offered, and everything since its install while it is installed.
   */
  lemma {:induction false} ViewersMissNothing(events: seq<Event>, h: HolderId)
    requires After(events).Some? && h in After(events).value.viewings
    ensures var s := After(events).value;
      var v := s.viewings[h];
      && v.since <= v.offeredTo <= |s.output|
      && v.sent <= s.output[v.since..]
      && h in s.queues && s.queues[h].bytes == |Concat(s.queues[h].chunks)| <= VIEWER_QUEUE_BYTES
      && (!s.queues[h].closed ==> v.sent + Concat(s.queues[h].chunks) == s.output[v.since..v.offeredTo])
      && (!s.queues[h].closed && s.sink == Some(h) ==> v.sent + Concat(s.queues[h].chunks) == s.output[v.since..])
  {
    hide After, Concat;
    RunGapFree(events, h);
    var s := After(events).value;
    var v := s.viewings[h];
    assert v.sent <= s.output[v.since..v.offeredTo];
    assert s.output[v.since..v.offeredTo] <= s.output[v.since..];
  }
}
