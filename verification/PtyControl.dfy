/** The arbiter of a PTY's input: its owner, the keys it hands out, and the effect of one write attempt. */
module PtyControl {
  import opened Wrappers
  import opened Bytes
  import Recording

  type HolderId = nat
  type RunId = Recording.RunId
  type RequestId = nat

  datatype ControllerKind = Human | Agent

  datatype HandleKey = HandleKey(run: RunId, epoch: u64, holder: HolderId)

  datatype ControllerHandle = ControllerHandle(key: HandleKey, kind: ControllerKind)

  datatype ControllerState = Unowned(epoch: u64) | Owned(epoch: u64, holder: HolderId, kind: ControllerKind)

  datatype StaleReason = RunMismatch | NobodyOwns | EpochMismatch | HolderMismatch

  datatype ControlError =
    | Busy(holder: HolderId, kind: ControllerKind, epoch: u64)
    | Stale(reason: StaleReason)
    | EpochExhausted

  datatype Takeover = Takeover(handle: ControllerHandle, retired: Option<(HolderId, ControllerKind)>)

  datatype Arbiter = Arbiter(run: RunId, state: ControllerState)

  function NewArbiter(run: RunId): Arbiter {
    Arbiter(run, Unowned(0))
  }

  // ---------------------------------------------------------------- ownership

  function Own(a: Arbiter, epoch: u64, holder: HolderId, kind: ControllerKind): (Arbiter, ControllerHandle) {
    (a.(state := Owned(epoch, holder, kind)), ControllerHandle(HandleKey(a.run, epoch, holder), kind))
  }

  function Claim(a: Arbiter, holder: HolderId, kind: ControllerKind): (Arbiter, Result<ControllerHandle, ControlError>) {
    if a.state.Owned? then (a, Failure(Busy(a.state.holder, a.state.kind, a.state.epoch)))
    else if a.state.epoch == U64_MAX then (a, Failure(EpochExhausted))
    else var (b, handle) := Own(a, a.state.epoch + 1, holder, kind); (b, Success(handle))
  }

  function TakeOver(a: Arbiter, holder: HolderId): (Arbiter, Result<Takeover, ControlError>) {
    if a.state.epoch == U64_MAX then (a, Failure(EpochExhausted))
    else
      var retired := if a.state.Owned? then Some((a.state.holder, a.state.kind)) else None;
      var (b, handle) := Own(a, a.state.epoch + 1, holder, Human);
      (b, Success(Takeover(handle, retired)))
  }

  function WhyStale(a: Arbiter, key: HandleKey): Option<StaleReason> {
    if key.run != a.run then Some(RunMismatch)
    else if a.state.Unowned? then Some(NobodyOwns)
    else if a.state.epoch != key.epoch then Some(EpochMismatch)
    else if a.state.holder != key.holder then Some(HolderMismatch)
    else None
  }

  predicate Authorizes(a: Arbiter, key: HandleKey) {
    WhyStale(a, key).None?
  }

  function Release(a: Arbiter, key: HandleKey): Arbiter {
    if Authorizes(a, key) then a.(state := Unowned(key.epoch)) else a
  }

  // ---------------------------------------------------------------- requests

  datatype IncompleteReason = NotAuthorized(why: StaleReason) | DeadlineExceeded | Closed | SinkFailed(kind: SinkError)

  /** A terminal error of the PTY; `InvalidData` is also what a count too large is taken for. */
  datatype SinkError = InvalidData | OtherError(code: nat)

  datatype InputOutcome =
    | Accepted(id: RequestId, epoch: u64, bytes: nat)
    | Incomplete(id: RequestId, epoch: u64, accepted: nat, total: nat, reason: IncompleteReason)

  datatype PendingInput = PendingInput(
    id: RequestId, key: HandleKey, kind: ControllerKind, bytes: seq<byte>, accepted: nat, outcome: Option<InputOutcome>)
  {
    predicate Valid() {
      && accepted <= |bytes|
      && match outcome
         case None => accepted < |bytes|
         case Some(Accepted(i, e, n)) => i == id && e == key.epoch && n == accepted == |bytes|
         case Some(Incomplete(i, e, n, total, _)) =>
           i == id && e == key.epoch && n == accepted && total == |bytes| && n < total
    }
  }

  function NewInput(id: RequestId, handle: ControllerHandle, bytes: seq<byte>): Option<PendingInput> {
    if bytes == [] then None else Some(PendingInput(id, handle.key, handle.kind, bytes, 0, None))
  }

  function FinishIncomplete(p: PendingInput, reason: IncompleteReason): PendingInput {
    if p.outcome.Some? then p
    else p.(outcome := Some(Incomplete(p.id, p.key.epoch, p.accepted, |p.bytes|, reason)))
  }

  function RecordWritten(p: PendingInput, n: nat): PendingInput {
    var q := p.(accepted := p.accepted + n);
    if q.accepted == |q.bytes| then q.(outcome := Some(Accepted(q.id, q.key.epoch, q.accepted))) else q
  }

  /** What the PTY answers to one nonblocking write; it may take any count, even one too large. */
  datatype SinkAnswer = Took(n: nat) | TryAgain | Broken(error: SinkError)

  /** The request after one step, and the bytes that step put on the PTY. Finished exactly if it has an outcome. */
  datatype WriteStep = WriteStep(request: PendingInput, written: seq<byte>)

  function StepWrite(a: Arbiter, p: PendingInput, answer: SinkAnswer): WriteStep
    requires p.accepted <= |p.bytes|
  {
    var why := WhyStale(a, p.key);
    if p.outcome.Some? then WriteStep(p, [])
    else if why.Some? then WriteStep(FinishIncomplete(p, NotAuthorized(why.value)), [])
    else
      match answer
      case Took(n) =>
        if n == 0 then WriteStep(FinishIncomplete(p, Closed), [])
        else if n > |p.bytes| - p.accepted then WriteStep(FinishIncomplete(p, SinkFailed(InvalidData)), [])
        else WriteStep(RecordWritten(p, n), p.bytes[p.accepted..p.accepted + n])
      case TryAgain => WriteStep(p, [])
      case Broken(error) => WriteStep(FinishIncomplete(p, SinkFailed(error)), [])
  }

  /** Failing of the PTY itself, as opposed to losing control. */
  predicate PtyFailed(p: PendingInput) {
    p.outcome.Some? && p.outcome.value.Incomplete? && !p.outcome.value.reason.NotAuthorized?
  }

  // ---------------------------------------------------------------- the arbiter

  class InputArbiter {
    const run: RunId
    var state: ControllerState

    function View(): Arbiter
      reads this
    {
      Arbiter(run, state)
    }

    constructor (run: RunId)
      ensures View() == NewArbiter(run)
    {
      this.run := run;
      state := Unowned(0);
    }

    method ClaimControl(holder: HolderId, kind: ControllerKind) returns (r: Result<ControllerHandle, ControlError>)
      modifies this
      ensures (View(), r) == Claim(old(View()), holder, kind)
    {
      match state
      case Owned(epoch, owner, ownerKind) => r := Failure(Busy(owner, ownerKind, epoch));
      case Unowned(epoch) =>
        if epoch == U64_MAX {
          r := Failure(EpochExhausted);
        } else {
          var handle := Take(epoch + 1, holder, kind);
          r := Success(handle);
        }
    }

    method TakeControl(holder: HolderId) returns (r: Result<Takeover, ControlError>)
      modifies this
      ensures (View(), r) == TakeOver(old(View()), holder)
    {
      if state.epoch == U64_MAX {
        return Failure(EpochExhausted);
      }
      var retired: Option<(HolderId, ControllerKind)> := None;
      if state.Owned? {
        retired := Some((state.holder, state.kind));
      }
      var handle := Take(state.epoch + 1, holder, Human);
      r := Success(Takeover(handle, retired));
    }

    method Take(epoch: u64, holder: HolderId, kind: ControllerKind) returns (handle: ControllerHandle)
      modifies this
      ensures (View(), handle) == Own(old(View()), epoch, holder, kind)
    {
      state := Owned(epoch, holder, kind);
      handle := ControllerHandle(HandleKey(run, epoch, holder), kind);
    }

    /** Gives up ownership; only the current handle does. */
    method GiveUp(key: HandleKey) returns (released: bool)
      modifies this
      ensures released == Authorizes(old(View()), key)
      ensures View() == Release(old(View()), key)
    {
      released := Authorizes(View(), key);
      if released {
        state := Unowned(key.epoch);
      }
    }

    /** Authorizes and makes one write attempt; the answer is the PTY's if it is asked. */
    method Attempt(p: PendingInput, answer: SinkAnswer) returns (q: PendingInput, written: seq<byte>)
      requires p.accepted <= |p.bytes|
      ensures WriteStep(q, written) == StepWrite(View(), p, answer)
    {
      if p.outcome.Some? {
        return p, [];
      }
      var why := WhyStale(View(), p.key);
      if why.Some? {
        return FinishIncomplete(p, NotAuthorized(why.value)), [];
      }
      var remaining := |p.bytes| - p.accepted;
      match answer
      case Took(n) =>
        if n == 0 {
          q, written := FinishIncomplete(p, Closed), [];
        } else if n > remaining {
          q, written := FinishIncomplete(p, SinkFailed(InvalidData)), [];
        } else {
          q, written := RecordWritten(p, n), p.bytes[p.accepted..p.accepted + n];
        }
      case TryAgain => q, written := p, [];
      case Broken(error) => q, written := FinishIncomplete(p, SinkFailed(error)), [];
    }
  }

  // ---------------------------------------------------------------- what the arbiter promises

  /** One step of ownership: any claim, takeover or release. */
  datatype Ask = AskClaim(holder: HolderId, kind: ControllerKind) | AskTakeover(holder: HolderId) | AskRelease(key: HandleKey)

  function Asked(a: Arbiter, ask: Ask): Arbiter {
    match ask
    case AskClaim(holder, kind) => Claim(a, holder, kind).0
    case AskTakeover(holder) => TakeOver(a, holder).0
    case AskRelease(key) => Release(a, key)
  }

  function AskedAll(a: Arbiter, asks: seq<Ask>): Arbiter {
    if asks == [] then a else Asked(AskedAll(a, asks[..|asks| - 1]), asks[|asks| - 1])
  }

  /** Ownership is gained only under the next epoch, and lost without changing it. */
  lemma EpochsAdvance(a: Arbiter, ask: Ask)
    ensures var b := Asked(a, ask);
      && b.run == a.run
      && a.state.epoch <= b.state.epoch <= a.state.epoch + 1
      && (b.state.epoch > a.state.epoch ==> b.state.Owned?)
      && (b.state.epoch == a.state.epoch && b != a ==> a.state.Owned? && b.state.Unowned?)
  {
  }

  /** A key of an epoch already reached that does not authorize now never will again. */
  lemma {:induction false} StaleForGood(a: Arbiter, key: HandleKey, asks: seq<Ask>)
    requires key.epoch <= a.state.epoch && !Authorizes(a, key)
    ensures key.epoch <= AskedAll(a, asks).state.epoch && !Authorizes(AskedAll(a, asks), key)
  {
    if asks != [] {
      StaleForGood(a, key, asks[..|asks| - 1]);
      EpochsAdvance(AskedAll(a, asks[..|asks| - 1]), asks[|asks| - 1]);
    }
  }

  /** At most one key authorizes. */
  lemma OneKeyAuthorizes(a: Arbiter, k: HandleKey, k': HandleKey)
    requires Authorizes(a, k) && Authorizes(a, k')
    ensures k == k'
  {
  }

  /** One attempt: what it wrote is the request's next bytes, only with control, and the outcome tells the count. */
  lemma StepWriteEffect(a: Arbiter, p: PendingInput, answer: SinkAnswer)
    requires p.Valid()
    ensures var s := StepWrite(a, p, answer);
      && s.request.Valid()
      && s.request.(accepted := p.accepted, outcome := p.outcome) == p
      && p.bytes[..p.accepted] + s.written == p.bytes[..s.request.accepted]
      && (s.written != [] ==> Authorizes(a, p.key) && p.outcome.None?)
      && (!Authorizes(a, p.key) ==> s.request.outcome.Some?)
      && (Authorizes(a, p.key) && p.outcome.None? && s.request.outcome.Some? ==>
            s.request.accepted == |p.bytes| || PtyFailed(s.request))
  {
  }
}
