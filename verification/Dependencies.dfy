/** Waiting for the sessions a run depends on, each bound to the run it was started against. */
module Dependencies {
  import opened Wrappers

  type SessionName = string
  type RunId = nat

  datatype Status = Running | ExitedOk | ExitedOther

  /** What a scan finds of a session: nothing, something unreadable, or the run now there and how it is doing. */
  datatype Found = Missing | CannotOpen(error: string) | CannotRead(error: string) | Meta(run: RunId, status: Status)

  datatype Binding = Binding(session: SessionName, run: RunId)

  datatype Slot = Pending(binding: Binding) | Latched

  datatype KillRequest = NoRequest | ForOther | ForThis(force: bool)

  /** What one scan sees: a kill request, whether the deadline has passed, and what its look at each slot's session finds. */
  datatype Moment = Moment(kill: KillRequest, expired: bool, found: nat -> Found)

  datatype FailReason = Failed | TimedOut | Killed | KilledForced

  datatype ScanStep = AllLatched | StillPending | Terminal(reason: FailReason)

  function IsTerminal(s: Status): bool {
    !s.Running?
  }

  /** What a look at one pending dependency says. */
  datatype Look = Satisfied | NotYet | Broken

  function LookAt(b: Binding, found: Found, anyExit: bool): Look {
    match found
    case Meta(run, status) =>
      if run != b.run then Broken
      else if !IsTerminal(status) then NotYet
      else if anyExit || status.ExitedOk? then Satisfied
      else Broken
    case _ => Broken
  }

  /** The slots after looking at the first `n`, up to the first broken one. */
  function Scanned(slots: seq<Slot>, n: nat, m: Moment, anyExit: bool): (r: (seq<Slot>, bool))
    requires n <= |slots|
    ensures |r.0| == |slots|
  {
    if n == 0 then (slots, true)
    else
      var (before, fine) := Scanned(slots, n - 1, m, anyExit);
      if !fine || before[n - 1].Latched? then (before, fine)
      else
        match LookAt(before[n - 1].binding, m.found(n - 1), anyExit)
        case Satisfied => (before[n - 1 := Latched], true)
        case NotYet => (before, true)
        case Broken => (before, false)
  }

  predicate AllAreLatched(slots: seq<Slot>) {
    forall i :: 0 <= i < |slots| ==> slots[i].Latched?
  }

  function ScanIteration(slots: seq<Slot>, m: Moment, anyExit: bool): (r: (seq<Slot>, ScanStep))
    ensures |r.0| == |slots|
  {
    if m.kill.ForThis? then (slots, Terminal(if m.kill.force then KilledForced else Killed))
    else if m.expired then (slots, Terminal(TimedOut))
    else
      var (after, fine) := Scanned(slots, |slots|, m, anyExit);
      (after, if !fine then Terminal(Failed) else if AllAreLatched(after) then AllLatched else StillPending)
  }

  function FirstSlots(after: seq<Binding>): (slots: seq<Slot>)
    ensures |slots| == |after|
  {
    seq(|after|, i requires 0 <= i < |after| => Pending(after[i]))
  }

  datatype WaitOutcome = DependenciesMet | WaitFailed(reason: FailReason) | StillWaiting

  /** The wait over the moments of its scans, the first of them before the run is announced. */
  function Waited(after: seq<Binding>, moments: seq<Moment>, anyExit: bool): (r: (seq<Slot>, WaitOutcome))
    ensures |r.0| == |after|
  {
    if moments == [] then (FirstSlots(after), StillWaiting)
    else
      var (slots, outcome) := Waited(after, moments[..|moments| - 1], anyExit);
      if !outcome.StillWaiting? then (slots, outcome)
      else
        var (next, step) := ScanIteration(slots, moments[|moments| - 1], anyExit);
        (next, match step
               case AllLatched => DependenciesMet
               case StillPending => StillWaiting
               case Terminal(reason) => WaitFailed(reason))
  }

  // ---------------------------------------------------------------- in place

  class DependencySet {
    const slots: array<Slot>

    constructor (after: seq<Binding>)
      ensures fresh(slots) && slots[..] == FirstSlots(after)
    {
      slots := new Slot[|after|](i requires 0 <= i < |after| => Pending(after[i]));
    }

    /** One scan: a kill request first, then the deadline, then every slot not yet latched. */
    method Scan(m: Moment, anyExit: bool) returns (step: ScanStep)
      modifies slots
      ensures (slots[..], step) == ScanIteration(old(slots[..]), m, anyExit)
    {
      hide LookAt, Scanned;
      if m.kill.ForThis? {
        return Terminal(if m.kill.force then KilledForced else Killed);
      }
      if m.expired {
        return Terminal(TimedOut);
      }
      var allLatched := true;
      var i := 0;
      NothingScanned(slots[..], m, anyExit);
      while i < slots.Length
        invariant i <= slots.Length
        invariant (slots[..], true) == Scanned(old(slots[..]), i, m, anyExit)
        invariant allLatched <==> AllAreLatched(slots[..i])
      {
        ghost var before := slots[..];
        ScannedStep(old(slots[..]), i, m, anyExit);
        if slots[i].Pending? {
          var binding := slots[i].binding;
          var look := LookAt(binding, m.found(i), anyExit);
          if look.Broken? {
            BrokenStays(old(slots[..]), i + 1, m, anyExit);
            return Terminal(Failed);
          }
          if look.Satisfied? {
            slots[i] := Latched;
            assert slots[..] == before[i := Latched];
          } else {
            allLatched := false;
          }
        }
        assert slots[..i] == before[..i] && slots[..i + 1] == slots[..i] + [slots[i]];
        i := i + 1;
      }
      assert slots[..i] == slots[..];
      step := if allLatched then AllLatched else StillPending;
    }
  }

  lemma NothingScanned(slots: seq<Slot>, m: Moment, anyExit: bool)
    ensures Scanned(slots, 0, m, anyExit) == (slots, true)
  {
  }

  /** The look at one more slot. */
  lemma ScannedStep(slots: seq<Slot>, i: nat, m: Moment, anyExit: bool)
    requires i < |slots| && Scanned(slots, i, m, anyExit).1
    ensures var before := Scanned(slots, i, m, anyExit).0;
      Scanned(slots, i + 1, m, anyExit) ==
        if before[i].Latched? then (before, true)
        else
          match LookAt(before[i].binding, m.found(i), anyExit)
          case Satisfied => (before[i := Latched], true)
          case NotYet => (before, true)
          case Broken => (before, false)
  {
    hide LookAt;
  }

  lemma {:induction false} BrokenStays(slots: seq<Slot>, n: nat, m: Moment, anyExit: bool)
    requires n <= |slots| && !Scanned(slots, n, m, anyExit).1
    ensures Scanned(slots, |slots|, m, anyExit) == Scanned(slots, n, m, anyExit)
    decreases |slots| - n
  {
    if n < |slots| {
      BrokenStays(slots, n + 1, m, anyExit);
    }
  }

  // ---------------------------------------------------------------- what each scan does to a slot

  /** The dependency was seen, at this scan, finished as asked under the run it is bound to. */
  predicate MetAt(b: Binding, i: nat, m: Moment, anyExit: bool) {
    LookAt(b, m.found(i), anyExit).Satisfied?
  }

  /** Slots are looked at one by one, each at most once, and only latching changes one. */
  lemma {:induction false} SlotAfter(slots: seq<Slot>, n: nat, m: Moment, anyExit: bool, i: nat)
    requires n <= |slots| && i < |slots|
    ensures var (after, fine) := Scanned(slots, n, m, anyExit);
      && (slots[i].Latched? ==> after[i] == Latched)
      && (after[i] != slots[i] ==> after[i].Latched? && i < n && slots[i].Pending?)
      && (after[i] != slots[i] ==> MetAt(slots[i].binding, i, m, anyExit))
      && (i >= n ==> after[i] == slots[i])
      && (fine && i < n && slots[i].Pending? ==>
            var look := LookAt(slots[i].binding, m.found(i), anyExit);
            !look.Broken? && (look.Satisfied? <==> after[i].Latched?))
    decreases n
  {
    hide LookAt;
    if n > 0 {
      SlotAfter(slots, n - 1, m, anyExit, i);
      SlotAfter(slots, n - 1, m, anyExit, n - 1);
    }
  }

  /** A scan fails over its slots exactly if a pending dependency is broken. */
  lemma {:induction false} FailsIfBroken(slots: seq<Slot>, n: nat, m: Moment, anyExit: bool)
    requires n <= |slots|
    ensures !Scanned(slots, n, m, anyExit).1 <==>
      exists i :: 0 <= i < n && slots[i].Pending? && LookAt(slots[i].binding, m.found(i), anyExit).Broken?
    decreases n
  {
    hide LookAt;
    if n > 0 {
      FailsIfBroken(slots, n - 1, m, anyExit);
      SlotAfter(slots, n - 1, m, anyExit, n - 1);
    }
  }

  // ---------------------------------------------------------------- over a whole wait

  predicate LooksAt(m: Moment) {
    !m.kill.ForThis? && !m.expired
  }

  /** Some scan saw the dependency met. */
  ghost predicate EverMet(b: Binding, i: nat, moments: seq<Moment>, anyExit: bool) {
    exists k :: 0 <= k < |moments| && LooksAt(moments[k]) && MetAt(b, i, moments[k], anyExit)
  }

  /** A slot is still the binding it began as, or was latched at a scan that saw the binding met. */
  ghost predicate Justified(b: Binding, i: nat, slot: Slot, moments: seq<Moment>, anyExit: bool) {
    slot == Pending(b)
    || (slot.Latched? && EverMet(b, i, moments, anyExit))
  }

  lemma {:induction false} SlotsJustified(after: seq<Binding>, moments: seq<Moment>, anyExit: bool, i: nat)
    requires i < |after|
    ensures Justified(after[i], i, Waited(after, moments, anyExit).0[i], moments, anyExit)
  {
    hide LookAt;
    if moments != [] {
      var n := |moments| - 1;
      SlotsJustified(after, moments[..n], anyExit, i);
      var (slots, outcome) := Waited(after, moments[..n], anyExit);
      var m := moments[n];
      if outcome.StillWaiting? && LooksAt(m) {
        SlotAfter(slots, |slots|, m, anyExit, i);
        Longer(after[i], i, slots[i], moments[..n], m, anyExit);
        assert moments == moments[..n] + [m];
        if Scanned(slots, |slots|, m, anyExit).0[i] != slots[i] {
          assert MetAt(after[i], i, moments[n], anyExit);
        }
      } else {
        Longer(after[i], i, slots[i], moments[..n], m, anyExit);
        assert moments == moments[..n] + [m];
      }
    }
  }

  lemma {:induction false} Longer(b: Binding, i: nat, slot: Slot, moments: seq<Moment>, m: Moment, anyExit: bool)
    requires Justified(b, i, slot, moments, anyExit)
    ensures Justified(b, i, slot, moments + [m], anyExit)
  {
    hide MetAt;
    if slot != Pending(b) {
      var k :| 0 <= k < |moments| && LooksAt(moments[k]) && MetAt(b, i, moments[k], anyExit);
      assert (moments + [m])[k] == moments[k];
    }
  }

  /**
   Over every history of the sessions: a wait is satisfied only if each dependency was, at some scan, finished
   under the run it is bound to, successfully unless any exit will do.
   */
  lemma {:induction false} SatisfiedMeansEachMet(after: seq<Binding>, moments: seq<Moment>, anyExit: bool)
    requires Waited(after, moments, anyExit).1.DependenciesMet?
    ensures forall i :: 0 <= i < |after| ==> EverMet(after[i], i, moments, anyExit)
  {
    hide EverMet;
    LatchedWhenMet(after, moments, anyExit);
    forall i | 0 <= i < |after| ensures EverMet(after[i], i, moments, anyExit) {
      SlotsJustified(after, moments, anyExit, i);
      assert Waited(after, moments, anyExit).0[i].Latched?;
    }
  }

  lemma {:induction false} LatchedWhenMet(after: seq<Binding>, moments: seq<Moment>, anyExit: bool)
    requires Waited(after, moments, anyExit).1.DependenciesMet?
    ensures AllAreLatched(Waited(after, moments, anyExit).0)
  {
    hide LookAt;
    if !Waited(after, moments[..|moments| - 1], anyExit).1.StillWaiting? {
      LatchedWhenMet(after, moments[..|moments| - 1], anyExit);
    }
  }

  /** A latched dependency is never looked at again: how its session looks later makes no difference. */
  lemma {:induction false} LatchedIsIgnored(slots: seq<Slot>, n: nat, m: Moment, m': Moment, anyExit: bool)
    requires n <= |slots| && m.kill == m'.kill && m.expired == m'.expired
    requires forall i :: 0 <= i < |slots| && slots[i].Pending? ==>
      m.found(i) == m'.found(i)
    ensures Scanned(slots, n, m, anyExit) == Scanned(slots, n, m', anyExit)
    decreases n
  {
    hide LookAt;
    if n > 0 {
      LatchedIsIgnored(slots, n - 1, m, m', anyExit);
      SlotAfter(slots, n - 1, m, anyExit, n - 1);
    }
  }

  /**
   Replacing a dependency that is still pending fails the wait at the scan that sees it, unless a kill request
   or the deadline ends that scan before it looks.
   */
  lemma {:induction false} ReplacedFailsTheWait(after: seq<Binding>, moments: seq<Moment>, anyExit: bool, i: nat, m: Moment)
    requires i < |after| && Waited(after, moments, anyExit).1.StillWaiting?
    requires Waited(after, moments, anyExit).0[i].Pending?
    requires m.found(i).Meta? && m.found(i).run != after[i].run
    ensures Waited(after, moments + [m], anyExit).1 ==
            WaitFailed(if m.kill.ForThis? then (if m.kill.force then KilledForced else Killed)
                       else if m.expired then TimedOut else Failed)
  {
    var slots := Waited(after, moments, anyExit).0;
    assert (moments + [m])[..|moments|] == moments;
    SlotsJustified(after, moments, anyExit, i);
    assert slots[i] == Pending(after[i]);
    FailsIfBroken(slots, |slots|, m, anyExit);
    assert LookAt(slots[i].binding, m.found(i), anyExit).Broken?;
  }

  /** A wait not killed, not timed out and seeing no dependency broken is satisfied once each was met at some scan. */
  lemma {:induction false} AllMetSatisfies(after: seq<Binding>, moments: seq<Moment>, anyExit: bool)
    requires moments != []
    requires forall k :: 0 <= k < |moments| ==> LooksAt(moments[k])
    requires forall k, i :: 0 <= k < |moments| && 0 <= i < |after| ==>
      !LookAt(after[i], moments[k].found(i), anyExit).Broken?
    ensures Waited(after, moments, anyExit).1.DependenciesMet? <==>
      forall i :: 0 <= i < |after| ==> EverMet(after[i], i, moments, anyExit)
  {
    hide LookAt;
    if Waited(after, moments, anyExit).1.DependenciesMet? {
      SatisfiedMeansEachMet(after, moments, anyExit);
    } else if forall i :: 0 <= i < |after| ==> EverMet(after[i], i, moments, anyExit) {
      forall i | 0 <= i < |after| ensures Waited(after, moments, anyExit).0[i].Latched? {
        var k :| 0 <= k < |moments| && LooksAt(moments[k]) && MetAt(after[i], i, moments[k], anyExit);
        LatchedOnceMet(after, moments, anyExit, i, k);
      }
      NeverFails(after, moments, anyExit);
    }
  }

  lemma {:induction false} LatchedOnceMet(after: seq<Binding>, moments: seq<Moment>, anyExit: bool, i: nat, k: nat)
    requires i < |after| && k < |moments| && MetAt(after[i], i, moments[k], anyExit)
    requires forall k :: 0 <= k < |moments| ==> LooksAt(moments[k])
    requires forall k, i :: 0 <= k < |moments| && 0 <= i < |after| ==>
      !LookAt(after[i], moments[k].found(i), anyExit).Broken?
    ensures Waited(after, moments, anyExit).0[i].Latched?
  {
    hide LookAt;
    var n := |moments| - 1;
    var (slots, outcome) := Waited(after, moments[..n], anyExit);
    NeverFails(after, moments[..n], anyExit);
    if outcome.DependenciesMet? {
      LatchedWhenMet(after, moments[..n], anyExit);
    } else {
      SlotAfter(slots, |slots|, moments[n], anyExit, i);
      SlotsJustified(after, moments[..n], anyExit, i);
      NoneBroken(after, moments, anyExit);
      if k < n {
        LatchedOnceMet(after, moments[..n], anyExit, i, k);
      }
    }
  }

  /** With nothing broken the last scan goes through all its slots. */
  lemma {:induction false} NoneBroken(after: seq<Binding>, moments: seq<Moment>, anyExit: bool)
    requires moments != []
    requires forall i :: 0 <= i < |after| ==>
      !LookAt(after[i], moments[|moments| - 1].found(i), anyExit).Broken?
    ensures var slots := Waited(after, moments[..|moments| - 1], anyExit).0;
      Scanned(slots, |slots|, moments[|moments| - 1], anyExit).1
  {
    hide LookAt;
    var n := |moments| - 1;
    var slots := Waited(after, moments[..n], anyExit).0;
    FailsIfBroken(slots, |slots|, moments[n], anyExit);
    forall i | 0 <= i < |slots| && slots[i].Pending?
      ensures !LookAt(slots[i].binding, moments[n].found(i), anyExit).Broken?
    {
      SlotsJustified(after, moments[..n], anyExit, i);
    }
  }

  lemma {:induction false} NeverFails(after: seq<Binding>, moments: seq<Moment>, anyExit: bool)
    requires forall k :: 0 <= k < |moments| ==> LooksAt(moments[k])
    requires forall k, i :: 0 <= k < |moments| && 0 <= i < |after| ==>
      !LookAt(after[i], moments[k].found(i), anyExit).Broken?
    ensures !Waited(after, moments, anyExit).1.WaitFailed?
    ensures moments != [] && Waited(after, moments, anyExit).1.StillWaiting? ==> !AllAreLatched(Waited(after, moments, anyExit).0)
  {
    hide LookAt;
    if moments != [] {
      NeverFails(after, moments[..|moments| - 1], anyExit);
      NoneBroken(after, moments, anyExit);
    }
  }
}
