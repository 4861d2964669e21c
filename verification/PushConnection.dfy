/** One acknowledged push: each frame written before the next is read, and an exact report of what was written. */
module PushConnection {
  import opened Wrappers
  import opened Bytes
  import opened PtyControl
  import opened PtyInput
  import opened PtyOrder
  import opened PtyPrefix
  import opened PtyAnswers
  import opened PtyNames
  import A = AttachProto

  /** How waiting for one frame's write ended. A writer that is gone may have written `lost` bytes of it unsaid. */
  datatype PushWrite = Done(outcome: InputOutcome) | WriterGone(lost: nat) | ClientGone

  /** What a push connection reads, and what becomes of the write a data frame asks for. */
  datatype Incoming =
    | DataFrame(payload: seq<byte>, write: PushWrite)
    | DetachFrame
    | IgnoredFrame
    | ReadFailed(revoked: bool)

  datatype Report = Written(bytes: nat) | Revoked(accepted: nat, unwritten: nat) | ClosedEarly(accepted: nat, unwritten: nat)

  /** A vanished client gets no report. */
  datatype PushEnd = Reported(report: Report) | Vanished | StillOpen

  function AcceptedIn(r: Report): nat {
    match r
    case Written(n) => n
    case Revoked(n, _) => n
    case ClosedEarly(n, _) => n
  }

  function UnwrittenIn(r: Report): nat {
    match r
    case Written(_) => 0
    case Revoked(_, n) => n
    case ClosedEarly(_, n) => n
  }

  function AcceptedBy(o: InputOutcome): nat {
    match o
    case Accepted(_, _, bytes) => bytes
    case Incomplete(_, _, accepted, _, _) => accepted
  }

  /** Bytes of one frame that reached the PTY. */
  function OnPtyOf(i: Incoming): nat {
    match i
    case DataFrame(payload, write) =>
      if payload == [] then 0
      else
        (match write
         case Done(outcome) => AcceptedBy(outcome)
         case WriterGone(lost) => lost
         case ClientGone => 0)
    case _ => 0
  }

  /** Bytes of a push that reached the PTY. */
  function OnPty(feed: seq<Incoming>): nat {
    if feed == [] then 0 else OnPty(feed[..|feed| - 1]) + OnPtyOf(feed[|feed| - 1])
  }

  function PayloadRead(feed: seq<Incoming>): nat {
    if feed == [] then 0
    else PayloadRead(feed[..|feed| - 1]) + if feed[|feed| - 1].DataFrame? then |feed[|feed| - 1].payload| else 0
  }

  /** The outcome a writer gives a frame counts that frame. */
  predicate Counts(i: Incoming) {
    i.DataFrame? && i.payload != [] && i.write.Done? ==>
      match i.write.outcome
      case Accepted(_, _, bytes) => bytes == |i.payload|
      case Incomplete(_, _, accepted, total, _) => accepted < total == |i.payload|
  }

  /** What stops a push, if this does, with `written` bytes written before it. */
  function EndOf(i: Incoming, written: nat): PushEnd {
    match i
    case IgnoredFrame => StillOpen
    case DetachFrame => Reported(Written(written))
    case ReadFailed(revoked) => if revoked then Reported(Revoked(written, 0)) else Vanished
    case DataFrame(payload, write) =>
      if payload == [] then StillOpen
      else
        match write
        case Done(Accepted(_, _, _)) => StillOpen
        case Done(Incomplete(_, _, accepted, total, reason)) =>
          var unwritten := if accepted <= |payload| then |payload| - accepted else 0;
          if reason.NotAuthorized? then Reported(Revoked(written + accepted, unwritten))
          else Reported(ClosedEarly(written + accepted, unwritten))
        case WriterGone(_) => Reported(ClosedEarly(written, |payload|))
        case ClientGone => Vanished
  }

  /** The loop of the handler; it stops reading at the first thing that ends the push. */
  method HandlePush(feed: seq<Incoming>) returns (end: PushEnd, read: nat)
    requires forall k :: 0 <= k < |feed| ==> Counts(feed[k])
    ensures read <= |feed| && (end.StillOpen? ==> read == |feed|)
    ensures end.Reported? ==> read > 0
    ensures end.Reported? ==> AcceptedIn(end.report) + UnwrittenIn(end.report) == PayloadRead(feed[..read])
    ensures end.Reported? ==>
      var last := feed[read - 1];
      var lost := if last.DataFrame? && last.payload != [] && last.write.WriterGone? then last.write.lost else 0;
      AcceptedIn(end.report) + lost == OnPty(feed[..read])
    ensures end.Reported? && end.report.Written? ==> UnwrittenIn(end.report) == 0 && feed[read - 1].DetachFrame?
    ensures end.Vanished? ==>
      read > 0 && var last := feed[read - 1]; last.ReadFailed? || (last.DataFrame? && last.write.ClientGone?)
  {
    var written: nat := 0;
    read := 0;
    end := StillOpen;
    while read < |feed|
      invariant read <= |feed| && end == StillOpen
      invariant written == PayloadRead(feed[..read]) == OnPty(feed[..read])
    {
      var i := feed[read];
      assert feed[..read + 1][..read] == feed[..read];
      assert Counts(i);
      end := EndOf(i, written);
      read := read + 1;
      if !end.StillOpen? {
        return;
      }
      if i.DataFrame? && i.payload != [] {
        written := written + |i.payload|;
      }
    }
    assert feed[..|feed|] == feed;
  }

  // ---------------------------------------------------------------- the report and the wire

  /** The report as it is sent, if its counts fit 64 bits. */
  function OnTheWire(r: Report): Option<A.PushOutcome> {
    if AcceptedIn(r) + UnwrittenIn(r) > U64_MAX then None
    else
      match r
      case Written(n) => Some(A.Written(n))
      case Revoked(n, m) => Some(A.Revoked(A.Progress(n, m)))
      case ClosedEarly(n, m) => Some(A.ClosedEarly(A.Progress(n, m)))
  }

  /** A report whose counts fit arrives as it was made. */
  lemma {:induction false} ReportArrives(r: Report)
    requires AcceptedIn(r) + UnwrittenIn(r) <= U64_MAX
    ensures OnTheWire(r).Some?
    ensures A.DecodeOutcome(A.EncodeOutcome(OnTheWire(r).value)) == Success(OnTheWire(r).value)
  {
    A.OutcomeRoundTrip(OnTheWire(r).value);
  }

  // ---------------------------------------------------------------- the report and the PTY

  predicate FinishedFrame(i: Incoming, p: PendingInput, served: seq<PendingInput>)
    requires i.DataFrame?
  {
    p in served && p.bytes == i.payload && i.write.Done? && p.outcome == Some(i.write.outcome)
  }

  /** The frames of a push as the requests the writer finished them as, in order. */
  predicate FinishedAs(feed: seq<Incoming>, requests: seq<PendingInput>, served: seq<PendingInput>) {
    if feed == [] then requests == []
    else
      var n := |feed| - 1;
      if feed[n].DataFrame? && feed[n].payload != [] then
        && requests != [] && FinishedFrame(feed[n], requests[|requests| - 1], served)
        && FinishedAs(feed[..n], requests[..|requests| - 1], served)
      else FinishedAs(feed[..n], requests, served)
  }

  function Ids(requests: seq<PendingInput>): set<RequestId> {
    if requests == [] then {} else Ids(requests[..|requests| - 1]) + {requests[|requests| - 1].id}
  }

  /** Each frame was its own request. */
  predicate DistinctIds(requests: seq<PendingInput>) {
    forall i, j :: 0 <= i < j < |requests| ==> requests[i].id != requests[j].id
  }

  /** How many bytes on the PTY are of the requests with these identities. */
  function BytesOf(ids: set<RequestId>, pty: seq<Chunk>): nat {
    if pty == [] then 0
    else
      var last := pty[|pty| - 1];
      BytesOf(ids, pty[..|pty| - 1]) + if last.id in ids then |last.data| else 0
  }

  lemma {:induction false} BytesOfOneMore(ids: set<RequestId>, id: RequestId, pty: seq<Chunk>)
    requires id !in ids
    ensures BytesOf(ids + {id}, pty) == BytesOf(ids, pty) + |SentFor(id, pty)|
  {
    if pty != [] {
      BytesOfOneMore(ids, id, pty[..|pty| - 1]);
    }
  }

  lemma {:induction false} BytesOfNone(pty: seq<Chunk>)
    ensures BytesOf({}, pty) == 0
  {
    if pty != [] {
      BytesOfNone(pty[..|pty| - 1]);
    }
  }

  lemma {:induction false} NotAmong(requests: seq<PendingInput>, id: RequestId)
    requires forall i :: 0 <= i < |requests| ==> requests[i].id != id
    ensures id !in Ids(requests)
  {
    if requests != [] {
      NotAmong(requests[..|requests| - 1], id);
    }
  }

  lemma {:induction false} FinishedCounts(feed: seq<Incoming>, requests: seq<PendingInput>, out: Out)
    requires FinishedAs(feed, requests, out.served) && DistinctIds(requests)
    requires AllCountRight(out.pty, out.served) && AllFinished(out.served)
    ensures OnPty(feed) == BytesOf(Ids(requests), out.pty)
    ensures forall k :: 0 <= k < |feed| ==> Counts(feed[k])
  {
    hide SentFor, BytesOf;
    BytesOfNone(out.pty);
    if feed != [] {
      var n := |feed| - 1;
      if feed[n].DataFrame? && feed[n].payload != [] {
        var p, before := requests[|requests| - 1], requests[..|requests| - 1];
        FinishedCounts(feed[..n], before, out);
        var i :| 0 <= i < |out.served| && out.served[i] == p;
        assert CountsRight(out.pty, p) && p.Valid() && p.outcome.Some?;
        NotAmong(before, p.id);
        BytesOfOneMore(Ids(before), p.id, out.pty);
      } else {
        FinishedCounts(feed[..n], requests, out);
      }
    }
  }

  /** The requests are those of one handle: each with its key, and none it submitted missing. */
  ghost predicate AllOfHandle(k: HandleKey, requests: seq<PendingInput>, submitted: seq<PendingInput>) {
    && (forall i :: 0 <= i < |requests| ==> requests[i].key == k)
    && (forall i :: 0 <= i < |submitted| ==> submitted[i].key == k ==> submitted[i].id in Ids(requests))
  }

  lemma {:induction false} InIds(requests: seq<PendingInput>, id: RequestId) returns (i: nat)
    requires id in Ids(requests)
    ensures i < |requests| && requests[i].id == id
  {
    var n := |requests| - 1;
    if requests[n].id == id {
      i := n;
    } else {
      i := InIds(requests[..n], id);
    }
  }

  /** A chunk is of one of the handle's requests exactly if it is under the handle. */
  lemma {:induction false} ChunkOfHandle(k: HandleKey, requests: seq<PendingInput>, s: System, chunk: Chunk)
    requires AllNamed(s.submitted, s.loop) && IdsDistinct(s.submitted) && AllOfHandle(k, requests, s.submitted)
    requires forall i :: 0 <= i < |requests| ==> requests[i] in s.loop.out.served
    requires chunk in s.loop.out.pty
    ensures chunk.id in Ids(requests) <==> chunk.key == k
  {
    hide Ids, IdsDistinct;
    assert Named(s.submitted, chunk.id, chunk.key);
    if chunk.id in Ids(requests) {
      var i := InIds(requests, chunk.id);
      assert requests[i] in s.loop.out.served;
      assert Named(s.submitted, requests[i].id, requests[i].key);
      OneName(s.submitted, chunk.id, chunk.key, k);
    }
  }

  lemma {:induction false} BytesAreSent(k: HandleKey, ids: set<RequestId>, pty: seq<Chunk>)
    requires forall chunk :: chunk in pty ==> (chunk.id in ids <==> chunk.key == k)
    ensures BytesOf(ids, pty) == |Sent(k, pty)|
  {
    if pty != [] {
      var n := |pty| - 1;
      assert pty[n] in pty;
      BytesAreSent(k, ids, pty[..n]);
    }
  }

  lemma {:induction false} FinishedServed(feed: seq<Incoming>, requests: seq<PendingInput>, served: seq<PendingInput>)
    requires FinishedAs(feed, requests, served)
    ensures forall i :: 0 <= i < |requests| ==> requests[i] in served
  {
    if feed != [] {
      var n := |feed| - 1;
      if feed[n].DataFrame? && feed[n].payload != [] {
        FinishedServed(feed[..n], requests[..|requests| - 1], served);
      } else {
        FinishedServed(feed[..n], requests, served);
      }
    }
  }

  lemma {:induction false} SentIsCounted(k: HandleKey, feed: seq<Incoming>, requests: seq<PendingInput>, s: System)
    requires AllNamed(s.submitted, s.loop) && IdsDistinct(s.submitted) && AllOfHandle(k, requests, s.submitted)
    requires FinishedAs(feed, requests, s.loop.out.served)
    ensures BytesOf(Ids(requests), s.loop.out.pty) == |Sent(k, s.loop.out.pty)|
  {
    hide AllNamed, IdsDistinct, AllOfHandle, Ids, BytesOf, Sent;
    FinishedServed(feed, requests, s.loop.out.served);
    forall chunk | chunk in s.loop.out.pty ensures chunk.id in Ids(requests) <==> chunk.key == k {
      ChunkOfHandle(k, requests, s, chunk);
    }
    BytesAreSent(k, Ids(requests), s.loop.out.pty);
  }

  /**
   Over every run of the input writer in which each holder is granted control once: a push whose frames the
   writer finished, and are all its handle submitted, reports exactly how many bytes its handle got onto the PTY,
   and accounts for every byte it read.
   */
  method ReportedPush(run: RunId, ghost events: seq<Event>, ghost k: HandleKey, feed: seq<Incoming>, ghost requests: seq<PendingInput>)
    returns (end: PushEnd, read: nat)
    requires After(run, events).Some? && DistinctHolders(After(run, events).value.loop.out.granted)
    requires FinishedAs(feed, requests, After(run, events).value.loop.out.served) && DistinctIds(requests)
    requires AllOfHandle(k, requests, After(run, events).value.submitted)
    ensures end.Reported? && read == |feed| ==>
      && AcceptedIn(end.report) == |Sent(k, After(run, events).value.loop.out.pty)|
      && AcceptedIn(end.report) + UnwrittenIn(end.report) == PayloadRead(feed)
  {
    hide After, DistinctHolders, PayloadRead, OnPty, BytesOf, Ids, DistinctIds, AllNamed, IdsDistinct, AllOfHandle, Sent;
    RunAnswers(run, events);
    RunNamed(run, events);
    SentIsCounted(k, feed, requests, After(run, events).value);
    ghost var out := After(run, events).value.loop.out;
    FinishedCounts(feed, requests, out);
    end, read := HandlePush(feed);
    if end.Reported? && read == |feed| {
      assert feed[..read] == feed;
      NotLost(feed, requests, out.served);
    }
  }

  lemma {:induction false} NotLost(feed: seq<Incoming>, requests: seq<PendingInput>, served: seq<PendingInput>)
    requires feed != [] && FinishedAs(feed, requests, served)
    ensures var last := feed[|feed| - 1]; !(last.DataFrame? && last.payload != [] && last.write.WriterGone?)
  {
  }
}
