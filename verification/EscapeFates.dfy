/**
 What becomes of every byte typed. The recognizer decides one event at a time; here the outcome is read off the
 whole list of events by looking ahead from each held prefix to the key that decides it.
 */
module EscapeFates {
  import opened Wrappers
  import opened Bytes
  import opened AttachEscape

  /** Something the recognizer decided on: a token, an unfinished sequence given up on, or one that expired. */
  datatype Event = Event(bytes: seq<byte>, key: Key)

  datatype Fate = Forwarded | Swallowed | Waiting | Discarded

  // ---------------------------------------------------------------- the events of a run

  /** What a run is made of: reads, and the times a held unfinished sequence expires. */
  datatype Action = Read(input: seq<byte>) | Expire

  /** The events `Scan` decides, up to and including a detach. */
  function Decisions(h: Held, bytes: seq<byte>): seq<Event>
    decreases |bytes|
  {
    if bytes == [] then []
    else
      match TokenAt(bytes)
      case Unfinished =>
        if h.prefix.Some? || CouldBecomePrefix(bytes) then [] else [Event(bytes, Other)]
      case Complete(len, key) =>
        var d := Decide(h, bytes[..len], key);
        [Event(bytes[..len], key)] + if d.escape.DetachNow? then [] else Decisions(d.held, bytes[len..])
  }

  /** One step of a run; nothing happens once detached. */
  function Step(f: Fed, action: Action): Fed {
    if f.escape.DetachNow? then f
    else
      match action
      case Read(input) => Preceded(f.forward, Feed(f.parser, input))
      case Expire => Preceded(f.forward, Expired(f.parser))
  }

  function StepEvents(f: Fed, action: Action): seq<Event> {
    if f.escape.DetachNow? then []
    else
      match action
      case Read(input) => Decisions(f.parser.held, f.parser.partial + input)
      case Expire => if f.parser.partial == [] then [] else [Event(f.parser.partial, Other)]
  }

  function After(actions: seq<Action>): Fed {
    if actions == [] then Fed(FRESH, [], Continue)
    else Step(After(actions[..|actions| - 1]), actions[|actions| - 1])
  }

  function Events(actions: seq<Action>): seq<Event> {
    if actions == [] then []
    else
      var before := actions[..|actions| - 1];
      Events(before) + StepEvents(After(before), actions[|actions| - 1])
  }

  function Input(actions: seq<Action>): seq<byte> {
    if actions == [] then []
    else Input(actions[..|actions| - 1])
         + match actions[|actions| - 1] case Read(input) => input case Expire => []
  }

  // ---------------------------------------------------------------- fates

  /** How many events from the start are neither keys nor decisions. */
  function Incidentals(es: seq<Event>): (n: nat)
    ensures n <= |es|
    ensures forall i :: 0 <= i < n ==> es[i].key.Incidental?
    ensures n < |es| ==> !es[n].key.Incidental?
  {
    if es == [] || !es[0].key.Incidental? then 0 else 1 + Incidentals(es[1..])
  }

  function All(n: nat, fate: Fate): (fates: seq<Fate>)
    ensures |fates| == n
  {
    seq(n, _ => fate)
  }

  /** With the prefix swallowed, the `\` key's repeats and releases go with it. */
  function WithSwallowed(group: seq<Event>): (fates: seq<Fate>)
    ensures |fates| == |group|
  {
    seq(|group|, i requires 0 <= i < |group| => if group[i].key == Incidental(true) then Swallowed else Forwarded)
  }

  /** The fate of each event, none held at the start. */
  function Fates(es: seq<Event>): (fates: seq<Fate>)
    ensures |fates| == |es|
  {
    if es == [] then []
    else if !es[0].key.Prefix? then [Forwarded] + Fates(es[1..])
    else
      var n := Incidentals(es[1..]);
      var group := es[1..n + 1];
      if n + 1 == |es| then All(|es|, Waiting)
      else if es[n + 1].key.Detach? then [Swallowed] + WithSwallowed(group) + All(|es| - n - 1, Discarded)
      else if es[n + 1].key.Prefix? then [Swallowed] + WithSwallowed(group) + ([Forwarded] + Fates(es[n + 2..]))
      else [Forwarded] + All(n, Forwarded) + ([Forwarded] + Fates(es[n + 2..]))
  }

  /** The bytes of the events with a fate, in the order typed. */
  function Of(fate: Fate, es: seq<Event>, fates: seq<Fate>): seq<byte>
    requires |es| == |fates|
  {
    if es == [] then [] else (if fates[0] == fate then es[0].bytes else []) + Of(fate, es[1..], fates[1..])
  }

  function AllBytes(es: seq<Event>): seq<byte> {
    if es == [] then [] else es[0].bytes + AllBytes(es[1..])
  }

  // ---------------------------------------------------------------- deciding event by event

  function DecideAll(h: Held, es: seq<Event>): Decision
    decreases |es|
  {
    if es == [] then Decision(h, [], Continue)
    else
      var d := Decide(h, es[0].bytes, es[0].key);
      if d.escape.DetachNow? then d
      else var rest := DecideAll(d.held, es[1..]); rest.(forward := d.forward + rest.forward)
  }

  lemma {:induction false} OfSplit(fate: Fate, es: seq<Event>, f: seq<Fate>, es': seq<Event>, f': seq<Fate>)
    requires |es| == |f| && |es'| == |f'|
    ensures Of(fate, es + es', f + f') == Of(fate, es, f) + Of(fate, es', f')
  {
    if es == [] {
      assert es + es' == es' && f + f' == f';
    } else {
      assert (es + es')[1..] == es[1..] + es' && (f + f')[1..] == f[1..] + f';
      OfSplit(fate, es[1..], f[1..], es', f');
    }
  }

  lemma {:induction false} OfAll(fate: Fate, es: seq<Event>, other: Fate)
    ensures Of(fate, es, All(|es|, other)) == if fate == other then AllBytes(es) else []
  {
    if es != [] {
      assert All(|es|, other)[1..] == All(|es| - 1, other);
      OfAll(fate, es[1..], other);
    }
  }

  /** The events held with a prefix, without those of the `\` key. */
  function KeptBytes(group: seq<Event>): seq<byte> {
    Of(Forwarded, group, WithSwallowed(group))
  }

  /** A run of incidental events is held, then decided with whatever follows. */
  lemma {:induction false} Gathered(h: Held, group: seq<Event>, rest: seq<Event>)
    requires h.prefix.Some? && forall i :: 0 <= i < |group| ==> group[i].key.Incidental?
    ensures DecideAll(h, group + rest)
            == DecideAll(Held(h.prefix, h.between + AllBytes(group), h.kept + KeptBytes(group)), rest)
    decreases |group|
  {
    hide KeptBytes, AllBytes, DecideAll;
    if group == [] {
      assert group + rest == rest;
      NothingGathered();
      assert h.between + [] == h.between && h.kept + [] == h.kept;
    } else {
      var one := if group[0].key.ofBackslash then [] else group[0].bytes;
      var h' := Held(h.prefix, h.between + group[0].bytes, h.kept + one);
      assert (group + rest)[1..] == group[1..] + rest;
      HeldOn(h, group + rest);
      Gathered(h', group[1..], rest);
      KeptOne(group);
      GatheredOne(h.between, group[0].bytes, AllBytes(group[1..]));
      GatheredOne(h.kept, one, KeptBytes(group[1..]));
    }
  }

  lemma NothingGathered()
    ensures AllBytes([]) == [] && KeptBytes([]) == []
  {
  }

  lemma {:induction false} HeldOn(h: Held, es: seq<Event>)
    requires h.prefix.Some? && es != [] && es[0].key.Incidental?
    ensures DecideAll(h, es)
            == DecideAll(Held(h.prefix, h.between + es[0].bytes,
                              h.kept + if es[0].key.ofBackslash then [] else es[0].bytes), es[1..])
  {
    assert h.kept + [] == h.kept;
    var r := DecideAll(Decide(h, es[0].bytes, es[0].key).held, es[1..]);
    assert [] + r.forward == r.forward;
  }

  lemma {:induction false} KeptOne(group: seq<Event>)
    requires group != [] && group[0].key.Incidental?
    ensures AllBytes(group) == group[0].bytes + AllBytes(group[1..])
    ensures KeptBytes(group) == (if group[0].key.ofBackslash then [] else group[0].bytes) + KeptBytes(group[1..])
  {
    assert WithSwallowed(group)[1..] == WithSwallowed(group[1..]);
  }

  lemma GatheredOne(a: seq<byte>, b: seq<byte>, c: seq<byte>)
    ensures (a + b) + c == a + (b + c)
  {
  }

  /** What the recognizer's answer must be for events of these fates. */
  ghost predicate Answers(d: Decision, es: seq<Event>, fates: seq<Fate>)
    requires |es| == |fates|
  {
    && d.forward == Of(Forwarded, es, fates)
    && (d.escape.DetachNow? <==> Discarded in fates)
    && (d.held.prefix.None? ==> d.held == NOTHING_HELD && Waiting !in fates)
    && (d.held.prefix.Some? ==> d.held.prefix.value + d.held.between == Of(Waiting, es, fates))
  }

  lemma NoEventsYet()
    ensures Answers(DecideAll(NOTHING_HELD, []), [], [])
  {
  }

  lemma PlainFirst(es: seq<Event>)
    requires es != [] && !es[0].key.Prefix?
    requires Answers(DecideAll(NOTHING_HELD, es[1..]), es[1..], Fates(es[1..]))
    ensures Answers(DecideAll(NOTHING_HELD, es), es, Fates(es))
  {
    hide Of;
    var f := Fates(es[1..]);
    assert Fates(es) == [Forwarded] + f;
    OfFirst(Forwarded, es, f);
    OfFirst(Waiting, es, f);
    assert [] + Of(Waiting, es[1..], f) == Of(Waiting, es[1..], f);
  }

  lemma StillWaiting(prefix: Event, group: seq<Event>)
    requires prefix.key.Prefix?
    ensures Answers(DecideAll(Held(Some(prefix.bytes), AllBytes(group), KeptBytes(group)), []),
                    [prefix] + group, All(|group| + 1, Waiting))
  {
    hide KeptBytes, Of;
    var es := [prefix] + group;
    OfAll(Forwarded, es, Waiting);
    OfAll(Waiting, es, Waiting);
    assert es[1..] == group;
    assert All(|group| + 1, Waiting)[0] == Waiting;
  }

  /** Deciding event by event gives each event the fate the whole list says. */
  lemma {:induction false} DecideAllGivesFates(es: seq<Event>)
    ensures Answers(DecideAll(NOTHING_HELD, es), es, Fates(es))
    decreases |es|
  {
    hide Fates, KeptBytes, AllBytes, DecideAll, Of, All, WithSwallowed, Answers, Incidentals;
    if es == [] {
      NoEventsYet();
      NoFates();
    } else if !es[0].key.Prefix? {
      DecideAllGivesFates(es[1..]);
      PlainFirst(es);
    } else {
      var n := Incidentals(es[1..]);
      var group, rest := es[1..n + 1], es[n + 1..];
      assert es[1..] == group + rest;
      Armed(es[0], group, rest);
      var h := Held(Some(es[0].bytes), AllBytes(group), KeptBytes(group));
      assert es == [es[0]] + (group + rest);
      if rest == [] {
        assert es == [es[0]] + group;
        WaitingFates(es);
        StillWaiting(es[0], group);
      } else {
        assert rest[1..] == es[n + 2..];
        assert es == [es[0]] + group + rest;
        ArmedFates(es);
        DecideFirst(h, rest);
        match rest[0].key
        case Detach => DetachFates(DecideAll(h, rest), es[0], group, rest);
        case Prefix =>
          DecideAllGivesFates(rest[1..]);
          DoubledFates(DecideAll(NOTHING_HELD, rest[1..]), es[0], group, rest, Fates(rest[1..]));
        case Other =>
          DecideAllGivesFates(rest[1..]);
          CancelledFates(DecideAll(NOTHING_HELD, rest[1..]), es[0], group, rest, Fates(rest[1..]));
      }
    }
  }

  /** A prefix with the incidental events after it is held as such. */
  lemma Armed(prefix: Event, group: seq<Event>, rest: seq<Event>)
    requires prefix.key.Prefix? && forall i :: 0 <= i < |group| ==> group[i].key.Incidental?
    ensures DecideAll(NOTHING_HELD, [prefix] + (group + rest))
            == DecideAll(Held(Some(prefix.bytes), AllBytes(group), KeptBytes(group)), rest)
  {
    hide KeptBytes;
    var es := [prefix] + (group + rest);
    assert es[1..] == group + rest;
    var h := Held(Some(prefix.bytes), [], []);
    Gathered(h, group, rest);
    assert [] + AllBytes(group) == AllBytes(group) && [] + KeptBytes(group) == KeptBytes(group);
    var r := DecideAll(h, group + rest);
    assert [] + r.forward == r.forward;
  }

  /** The fates of `[prefix] + group + rest`, group all incidental, split at the deciding event. */
  lemma GroupSplit(fate: Fate, prefix: Event, f0: Fate, group: seq<Event>, f: seq<Fate>, rest: seq<Event>, f': seq<Fate>)
    requires |group| == |f| && |rest| == |f'|
    ensures Of(fate, [prefix] + group + rest, [f0] + f + f')
            == (if f0 == fate then prefix.bytes else []) + Of(fate, group, f) + Of(fate, rest, f')
  {
    OfSplit(fate, [prefix] + group, [f0] + f, rest, f');
    OfSplit(fate, [prefix], [f0], group, f);
    assert Of(fate, [prefix], [f0]) == if f0 == fate then prefix.bytes else [];
  }

  lemma OfFirst(fate: Fate, es: seq<Event>, f: seq<Fate>)
    requires |es| == |f| + 1
    ensures Of(fate, es, [Forwarded] + f) == (if fate == Forwarded then es[0].bytes else []) + Of(fate, es[1..], f)
  {
    assert ([Forwarded] + f)[1..] == f;
  }

  lemma NoneWaiting(group: seq<Event>)
    ensures Waiting !in WithSwallowed(group) && Discarded !in WithSwallowed(group)
  {
  }

  lemma DiscardedFrom(f: seq<Fate>, n: nat)
    requires n > 0
    ensures Discarded in f + All(n, Discarded)
    ensures Waiting !in f ==> Waiting !in f + All(n, Discarded)
  {
    assert (f + All(n, Discarded))[|f|] == Discarded;
  }

  lemma DetachFates(d: Decision, prefix: Event, group: seq<Event>, rest: seq<Event>)
    requires d == Decision(NOTHING_HELD, KeptBytes(group), DetachNow) && rest != []
    ensures Answers(d, [prefix] + group + rest, [Swallowed] + WithSwallowed(group) + All(|rest|, Discarded))
  {
    hide Of, WithSwallowed, All;
    GroupSplit(Forwarded, prefix, Swallowed, group, WithSwallowed(group), rest, All(|rest|, Discarded));
    OfAll(Forwarded, rest, Discarded);
    DiscardedFrom([Swallowed] + WithSwallowed(group), |rest|);
    NoneWaiting(group);
    assert [] + KeptBytes(group) + [] == KeptBytes(group);
  }

  /** The event that decides a held prefix. */
  lemma DecideFirst(h: Held, rest: seq<Event>)
    requires h.prefix.Some? && rest != [] && !rest[0].key.Incidental?
    ensures rest[0].key.Detach? ==> DecideAll(h, rest) == Decision(NOTHING_HELD, h.kept, DetachNow)
    ensures !rest[0].key.Detach? ==>
      var d := DecideAll(NOTHING_HELD, rest[1..]);
      DecideAll(h, rest) == d.(forward := if rest[0].key.Prefix? then h.kept + (rest[0].bytes + d.forward)
                                          else (h.prefix.value + h.between) + (rest[0].bytes + d.forward))
  {
    var r := DecideAll(NOTHING_HELD, rest[1..]).forward;
    var b := rest[0].bytes;
    assert (h.kept + b) + r == h.kept + (b + r);
    assert ((h.prefix.value + h.between) + b) + r == (h.prefix.value + h.between) + (b + r);
  }

  /** Fates of events already decided, before a forwarded one and what follows it. */
  lemma AnswersAfter(d: Decision, head: seq<Event>, fh: seq<Fate>, rest: seq<Event>, f: seq<Fate>)
    requires |head| == |fh| && |rest| == |f| + 1 && Waiting !in fh && Discarded !in fh
    requires Answers(d, rest[1..], f)
    ensures Answers(d.(forward := Of(Forwarded, head, fh) + (rest[0].bytes + d.forward)),
                    head + rest, fh + ([Forwarded] + f))
  {
    hide Of;
    OfSplit(Forwarded, head, fh, rest, [Forwarded] + f);
    OfSplit(Waiting, head, fh, rest, [Forwarded] + f);
    OfNone(Waiting, head, fh);
    OfFirst(Forwarded, rest, f);
    OfFirst(Waiting, rest, f);
    var w := Of(Waiting, rest[1..], f);
    assert [] + ([] + w) == w;
  }

  lemma DoubledFates(d: Decision, prefix: Event, group: seq<Event>, rest: seq<Event>, f: seq<Fate>)
    requires |rest| == |f| + 1 && Answers(d, rest[1..], f)
    ensures Answers(d.(forward := KeptBytes(group) + (rest[0].bytes + d.forward)),
                    [prefix] + group + rest, [Swallowed] + WithSwallowed(group) + ([Forwarded] + f))
  {
    hide Of, WithSwallowed, Answers;
    HeadBytes(prefix, Swallowed, group, WithSwallowed(group));
    NoneWaiting(group);
    AnswersAfter(d, [prefix] + group, [Swallowed] + WithSwallowed(group), rest, f);
  }

  lemma CancelledFates(d: Decision, prefix: Event, group: seq<Event>, rest: seq<Event>, f: seq<Fate>)
    requires |rest| == |f| + 1 && Answers(d, rest[1..], f)
    ensures Answers(d.(forward := (prefix.bytes + AllBytes(group)) + (rest[0].bytes + d.forward)),
                    [prefix] + group + rest, [Forwarded] + All(|group|, Forwarded) + ([Forwarded] + f))
  {
    hide Of, AllBytes, Answers;
    var a := All(|group|, Forwarded);
    HeadBytes(prefix, Forwarded, group, a);
    OfAll(Forwarded, group, Forwarded);
    AnswersAfter(d, [prefix] + group, [Forwarded] + a, rest, f);
  }

  lemma HeadBytes(prefix: Event, f0: Fate, group: seq<Event>, f: seq<Fate>)
    requires |group| == |f|
    ensures Of(Forwarded, [prefix] + group, [f0] + f)
            == (if f0 == Forwarded then prefix.bytes else []) + Of(Forwarded, group, f)
    ensures f0 != Forwarded ==> Of(Forwarded, [prefix] + group, [f0] + f) == Of(Forwarded, group, f)
  {
    assert ([prefix] + group)[1..] == group && ([f0] + f)[1..] == f;
  }

  lemma {:induction false} OfNone(fate: Fate, es: seq<Event>, fates: seq<Fate>)
    requires |es| == |fates| && fate !in fates
    ensures Of(fate, es, fates) == []
  {
    if es != [] {
      OfNone(fate, es[1..], fates[1..]);
    }
  }

  // ---------------------------------------------------------------- runs

  lemma {:induction false} AllBytesSplit(a: seq<Event>, b: seq<Event>)
    ensures AllBytes(a + b) == AllBytes(a) + AllBytes(b)
  {
    if a == [] {
      assert a + b == b;
    } else {
      assert (a + b)[1..] == a[1..] + b;
      AllBytesSplit(a[1..], b);
    }
  }

  lemma {:induction false} DecideAllSplit(h: Held, a: seq<Event>, b: seq<Event>)
    ensures DecideAll(h, a + b)
            == var d := DecideAll(h, a);
               if d.escape.DetachNow? then d
               else var e := DecideAll(d.held, b); e.(forward := d.forward + e.forward)
    decreases |a|
  {
    hide Decide;
    if a == [] {
      assert a + b == b;
      assert [] + DecideAll(h, b).forward == DecideAll(h, b).forward;
    } else {
      assert (a + b)[1..] == a[1..] + b;
      var d := Decide(h, a[0].bytes, a[0].key);
      if d.escape.Continue? {
        DecideAllSplit(d.held, a[1..], b);
        var x := DecideAll(d.held, a[1..]);
        var y := DecideAll(x.held, b).forward;
        assert (d.forward + x.forward) + y == d.forward + (x.forward + y);
      }
    }
  }

  /** Whether `f` is what deciding `es` gives, with `bytes` gone into the events and the unfinished rest. */
  ghost predicate Decides(f: Fed, h: Held, es: seq<Event>, bytes: seq<byte>) {
    var d := DecideAll(h, es);
    && f.parser.held == d.held && f.forward == d.forward && f.escape == d.escape
    && (f.escape.Continue? ==> AllBytes(es) + f.parser.partial == bytes)
    && (f.escape.DetachNow? ==> AllBytes(es) <= bytes && f.parser.partial == [])
  }

  /** One read decides its tokens in turn, and keeps or gives up the unfinished end. */
  lemma {:induction false} ScanDecides(h: Held, bytes: seq<byte>)
    ensures Decides(Scan(h, bytes), h, Decisions(h, bytes), bytes)
    decreases |bytes|
  {
    hide TokenAt, CouldBecomePrefix;
    if bytes == [] {
    } else {
      match TokenAt(bytes)
      case Unfinished =>
        if h.prefix.None? && !CouldBecomePrefix(bytes) {
          assert bytes + [] == bytes;
          OneEvent(h, bytes);
        } else {
          assert [] + bytes == bytes;
        }
      case Complete(len, key) =>
        TokenDecides(h, bytes, len, key);
    }
  }

  lemma TokenDecides(h: Held, bytes: seq<byte>, len: nat, key: Key)
    requires bytes != [] && TokenAt(bytes) == Complete(len, key)
    ensures Decides(Scan(h, bytes), h, Decisions(h, bytes), bytes)
    decreases |bytes|, 0
  {
    hide TokenAt, CouldBecomePrefix, Decide, Decides, DecideAll, AllBytes;
    var first := Event(bytes[..len], key);
    var d := Decide(h, first.bytes, key);
    if d.escape.DetachNow? {
      DetachDecides(h, first, bytes);
      assert [first] + [] == [first];
    } else {
      var rest := bytes[len..];
      ScanDecides(d.held, rest);
      FirstDecides(h, first, Scan(d.held, rest), Decisions(d.held, rest), rest);
      assert first.bytes + rest == bytes;
    }
  }

  lemma DetachDecides(h: Held, first: Event, bytes: seq<byte>)
    requires first.bytes <= bytes && Decide(h, first.bytes, first.key).escape.DetachNow?
    ensures var d := Decide(h, first.bytes, first.key);
            Decides(Fed(Parser(d.held, []), d.forward, DetachNow), h, [first], bytes)
  {
    hide Decide;
    assert AllBytes([first]) == first.bytes + AllBytes([]);
    assert first.bytes + [] == first.bytes;
  }

  lemma FirstDecides(h: Held, first: Event, f: Fed, es: seq<Event>, bytes: seq<byte>)
    requires Decide(h, first.bytes, first.key).escape.Continue?
    requires Decides(f, Decide(h, first.bytes, first.key).held, es, bytes)
    ensures Decides(Preceded(Decide(h, first.bytes, first.key).forward, f), h, [first] + es, first.bytes + bytes)
  {
    hide Decide;
    assert ([first] + es)[1..] == es;
    assert (first.bytes + AllBytes(es)) + f.parser.partial == first.bytes + (AllBytes(es) + f.parser.partial);
  }

  lemma StepDecides(f: Fed, es: seq<Event>, bytes: seq<byte>, action: Action)
    requires Decides(f, NOTHING_HELD, es, bytes)
    ensures Decides(Step(f, action), NOTHING_HELD, es + StepEvents(f, action),
                    bytes + match action case Read(input) => input case Expire => [])
  {
    hide Decisions, Scan, DecideAll, AllBytes;
    var latest := StepEvents(f, action);
    DecideAllSplit(NOTHING_HELD, es, latest);
    AllBytesSplit(es, latest);
    if f.escape.DetachNow? {
      assert es + [] == es;
    } else {
      match action
      case Read(input) =>
        ScanDecides(f.parser.held, f.parser.partial + input);
        assert bytes + input == AllBytes(es) + (f.parser.partial + input);
        var g := Scan(f.parser.held, f.parser.partial + input);
        assert (AllBytes(es) + AllBytes(latest)) + g.parser.partial == AllBytes(es) + (AllBytes(latest) + g.parser.partial);
      case Expire =>
        assert bytes + [] == bytes;
        if f.parser.partial == [] {
          assert es + [] == es;
        } else {
          OneEvent(f.parser.held, f.parser.partial);
          assert (AllBytes(es) + f.parser.partial) + [] == AllBytes(es) + f.parser.partial;
        }
    }
  }

  lemma OneEvent(h: Held, bytes: seq<byte>)
    ensures DecideAll(h, [Event(bytes, Other)]) == Decide(h, bytes, Other)
    ensures Decide(h, bytes, Other).escape.Continue?
    ensures AllBytes([Event(bytes, Other)]) == bytes
  {
    var d := Decide(h, bytes, Other);
    assert d.forward + [] == d.forward && bytes + [] == bytes;
    assert [Event(bytes, Other)][1..] == [];
  }

  lemma {:induction false} RunDecides(actions: seq<Action>)
    ensures Decides(After(actions), NOTHING_HELD, Events(actions), Input(actions))
  {
    hide Step, StepEvents;
    if actions != [] {
      var n := |actions| - 1;
      RunDecides(actions[..n]);
      StepDecides(After(actions[..n]), Events(actions[..n]), Input(actions[..n]), actions[n]);
    }
  }

  /**
   Over any run of reads and expiries: every byte typed (up to a detach) belongs to one event or to the held
   unfinished sequence, and each event has exactly the fate the whole list of events gives it.
   */
  lemma EveryByteHasOneFate(actions: seq<Action>)
    ensures var f, es := After(actions), Events(actions);
      && f.forward == Of(Forwarded, es, Fates(es))
      && (f.escape.DetachNow? <==> Discarded in Fates(es))
      && (f.escape.Continue? ==> AllBytes(es) + f.parser.partial == Input(actions))
      && (f.escape.DetachNow? ==> AllBytes(es) <= Input(actions))
      && (f.parser.held.prefix.Some? ==> f.parser.held.prefix.value + f.parser.held.between == Of(Waiting, es, Fates(es)))
      && (f.parser.held.prefix.None? ==> Waiting !in Fates(es))
  {
    hide After, Events, Input, Fates, Of, DecideAll, AllBytes;
    RunDecides(actions);
    DecideAllGivesFates(Events(actions));
  }

  /** Only a `Ctrl-\` press is ever swallowed, and with it only repeats and releases of that key. */
  lemma {:induction false} OnlyPrefixesAreSwallowed(es: seq<Event>, i: nat)
    requires i < |es| && Fates(es)[i].Swallowed?
    ensures es[i].key.Prefix? || es[i].key == Incidental(true)
    decreases |es|
  {
    hide Fates, All, WithSwallowed, Incidentals;
    if !es[0].key.Prefix? {
      PlainFate(es);
      OnlyPrefixesAreSwallowed(es[1..], i - 1);
    } else if i > 0 {
      var n := Incidentals(es[1..]);
      var group := es[1..n + 1];
      if i < n + 1 {
        GroupFate(es, i);
        SwallowedInGroup(group, i - 1);
      } else {
        LaterFate(es, i);
        OnlyPrefixesAreSwallowed(es[n + 2..], i - n - 2);
      }
    }
  }

  lemma {:induction false} SwallowedInGroup(group: seq<Event>, i: nat)
    requires i < |group| && WithSwallowed(group)[i].Swallowed?
    ensures group[i].key == Incidental(true)
  {
  }

  lemma {:induction false} GroupFate(es: seq<Event>, i: nat)
    requires es != [] && es[0].key.Prefix? && 1 <= i <= Incidentals(es[1..]) && Fates(es)[i].Swallowed?
    ensures Fates(es)[i] == WithSwallowed(es[1..Incidentals(es[1..]) + 1])[i - 1]
  {
    hide WithSwallowed;
  }

  lemma NoFates()
    ensures Fates([]) == []
  {
  }

  lemma {:induction false} WaitingFates(es: seq<Event>)
    requires es != [] && es[0].key.Prefix? && Incidentals(es[1..]) + 1 == |es|
    ensures Fates(es) == All(|es|, Waiting)
  {
    hide All, Incidentals;
  }

  lemma {:induction false} PlainFate(es: seq<Event>)
    requires es != [] && !es[0].key.Prefix?
    ensures Fates(es) == [Forwarded] + Fates(es[1..])
  {
  }

  /** What becomes of a prefix and the events after it up to the one that decides. */
  lemma {:induction false} ArmedFates(es: seq<Event>)
    requires es != [] && es[0].key.Prefix? && Incidentals(es[1..]) + 1 < |es|
    ensures var n := Incidentals(es[1..]);
      var group := es[1..n + 1];
      Fates(es) ==
        if es[n + 1].key.Detach? then [Swallowed] + WithSwallowed(group) + All(|es| - n - 1, Discarded)
        else if es[n + 1].key.Prefix? then [Swallowed] + WithSwallowed(group) + ([Forwarded] + Fates(es[n + 2..]))
        else [Forwarded] + All(n, Forwarded) + ([Forwarded] + Fates(es[n + 2..]))
  {
    hide WithSwallowed, All, Incidentals;
  }

  lemma {:induction false} LaterFate(es: seq<Event>, i: nat)
    requires es != [] && es[0].key.Prefix? && Incidentals(es[1..]) < i < |es| && Fates(es)[i].Swallowed?
    ensures var n := Incidentals(es[1..]); i >= n + 2 && Fates(es[n + 2..])[i - n - 2].Swallowed?
  {
    hide Fates, WithSwallowed, All, Incidentals;
    var n := Incidentals(es[1..]);
    ArmedFates(es);
    if es[n + 1].key.Detach? {
      NotSwallowed([Swallowed] + WithSwallowed(es[1..n + 1]), |es| - n - 1, i);
    } else if es[n + 1].key.Prefix? {
      PastForwarded([Swallowed] + WithSwallowed(es[1..n + 1]), Fates(es[n + 2..]), i);
    } else {
      PastForwarded([Forwarded] + All(n, Forwarded), Fates(es[n + 2..]), i);
    }
  }

  lemma {:induction false} PastForwarded(head: seq<Fate>, tail: seq<Fate>, i: nat)
    requires |head| <= i < |head| + 1 + |tail| && (head + ([Forwarded] + tail))[i].Swallowed?
    ensures i > |head| && tail[i - |head| - 1].Swallowed?
  {
  }

  lemma {:induction false} NotSwallowed(head: seq<Fate>, n: nat, i: nat)
    requires |head| <= i < |head| + n
    ensures (head + All(n, Discarded))[i] == Discarded
  {
  }

  /** Without a prefix nothing typed is lost or reordered. */
  lemma NoPrefixNothingLost(actions: seq<Action>)
    requires forall e :: e in Events(actions) ==> !e.key.Prefix?
    ensures After(actions).escape == Continue
    ensures After(actions).forward + After(actions).parser.partial == Input(actions)
  {
    hide After, Events, Input;
    EveryByteHasOneFate(actions);
    AllForwarded(Events(actions));
  }

  lemma {:induction false} AllForwarded(es: seq<Event>)
    requires forall e :: e in es ==> !e.key.Prefix?
    ensures Of(Forwarded, es, Fates(es)) == AllBytes(es) && Discarded !in Fates(es)
  {
    if es != [] {
      assert Fates(es)[1..] == Fates(es[1..]);
      AllForwarded(es[1..]);
    }
  }
}
