/** How a keystroke stream is cut into reads does not matter, exactly for streams without padded presses. */
module EscapeChunks {
  import opened Wrappers
  import opened Bytes
  import opened AttachEscape
  import opened EscapeTokens

  /** One feed after another; nothing is read once detached. */
  function Then(f: Fed, input: seq<byte>): Fed {
    if f.escape.DetachNow? then f else Preceded(f.forward, Feed(f.parser, input))
  }

  /** A run over reads, the latest last. */
  function Run(p: Parser, pieces: seq<seq<byte>>): Fed {
    if pieces == [] then Fed(p, [], Continue)
    else Then(Run(p, pieces[..|pieces| - 1]), pieces[|pieces| - 1])
  }

  function Typed(pieces: seq<seq<byte>>): seq<byte> {
    if pieces == [] then [] else Typed(pieces[..|pieces| - 1]) + pieces[|pieces| - 1]
  }

  /** A control sequence whose key code is written with a leading zero. */
  predicate Padded(token: seq<byte>) {
    |token| >= 3 && LeadingZero(CodeField(token[2..|token| - 1], token[|token| - 1]))
  }

  /** No padded `Ctrl-\` press arms the escape. */
  predicate Unpadded(h: Held, s: seq<byte>)
    decreases |s|
  {
    s == [] ||
    match TokenAt(s)
    case Unfinished => true
    case Complete(len, key) =>
      var d := Decide(h, s[..len], key);
      && !(h.prefix.None? && key.Prefix? && Padded(s[..len]))
      && (d.escape.DetachNow? || Unpadded(d.held, s[len..]))
  }

  // ---------------------------------------------------------------- tokens of a longer input

  lemma {:induction false} CsiTokenMore(a: seq<byte>, b: seq<byte>, i: nat)
    requires 2 <= i <= MAX_SEQUENCE && i <= |a| && CsiToken(a, i).Complete?
    ensures CsiToken(a + b, i) == CsiToken(a, i)
    decreases |a| - i
  {
    hide CsiKey;
    if i < MAX_SEQUENCE {
      if IsInner(a[i]) {
        CsiTokenMore(a, b, i + 1);
      } else {
        assert (a + b)[2..i] == a[2..i];
      }
    }
  }

  /** A complete token stays what it is whatever follows. */
  lemma TokenMore(a: seq<byte>, b: seq<byte>)
    requires a != [] && TokenAt(a).Complete?
    ensures TokenAt(a + b) == TokenAt(a)
  {
    hide CsiKey, CsiToken;
    if a[0] == ESC && |a| >= 2 && a[1] == BRACKET {
      CsiTokenMore(a, b, 2);
    }
  }

  lemma {:induction false} CsiTokenCut(s: seq<byte>, n: nat, i: nat)
    requires 2 <= i <= MAX_SEQUENCE && i <= n <= |s| && CsiToken(s, i).Complete? && CsiToken(s, i).len < n
    ensures CsiToken(s[..n], i) == CsiToken(s, i)
    decreases |s| - i
  {
    hide CsiKey;
    if i < MAX_SEQUENCE {
      if IsInner(s[i]) {
        CsiTokenCut(s, n, i + 1);
      } else {
        assert s[..n][2..i] == s[2..i];
      }
    }
  }

  /** One byte past its end is all a token depends on. */
  lemma TokenCut(s: seq<byte>, n: nat)
    requires s != [] && n <= |s| && TokenAt(s).Complete? && TokenAt(s).len < n
    ensures TokenAt(s[..n]) == TokenAt(s)
  {
    hide CsiKey, CsiToken;
    if s[0] == ESC && |s| >= 2 && s[1] == BRACKET {
      assert CsiToken(s, 2).len >= 2;
      CsiTokenCut(s, n, 2);
    }
  }

  /** The shape of control sequences: inner bytes up to the end, or to a final byte that gives the key. */
  lemma {:induction false} CsiShape(s: seq<byte>, i: nat)
    requires 2 <= i <= MAX_SEQUENCE && i <= |s|
    ensures CsiToken(s, i).Unfinished? <==> |s| < MAX_SEQUENCE && forall k :: i <= k < |s| ==> IsInner(s[k])
    ensures var t := CsiToken(s, i); t.Complete? ==>
      && forall k :: i <= k < t.len ==> 0x20 <= s[k] <= 0x7E
    ensures var t := CsiToken(s, i); t.Complete? ==>
      && t.len <= MAX_SEQUENCE
      && (t.key != Other ==> t.len > i && (forall k :: i <= k < t.len - 1 ==> IsInner(s[k]))
                             && t.key == CsiKey(s[2..t.len - 1], s[t.len - 1]))
    decreases |s| - i
  {
    hide CsiKey;
    if i < MAX_SEQUENCE && i < |s| && IsInner(s[i]) {
      CsiShape(s, i + 1);
    }
  }

  lemma {:induction false} InnerSkipped(s: seq<byte>, i: nat, n: nat)
    requires 2 <= i <= n <= MAX_SEQUENCE && n <= |s| && forall k :: i <= k < n ==> IsInner(s[k])
    ensures CsiToken(s, i) == CsiToken(s, n)
    decreases n - i
  {
    hide CsiKey;
    if i < n {
      InnerSkipped(s, i + 1, n);
    }
  }

  /** A longer input completes an unfinished sequence no earlier than where it was unfinished. */
  lemma CompletesLater(a: seq<byte>, b: seq<byte>)
    requires |a| >= 2 && TokenAt(a).Unfinished? && TokenAt(a + b).Complete?
    ensures var t := TokenAt(a + b); t.len >= |a| && (t.key != Other ==> t.len > |a|)
  {
    hide CsiKey, CsiToken;
    CsiShape(a, 2);
    InnerSkipped(a + b, 2, |a|);
    CsiShape(a + b, |a|);
  }

  // ---------------------------------------------------------------- with no prefix held

  lemma PlainToken(s: seq<byte>)
    requires s != [] && 0x20 <= s[0] <= 0x7E
    ensures TokenAt(s).Complete? && TokenAt(s).len == 1 && !TokenAt(s).key.Prefix?
  {
    hide CsiToken;
  }

  lemma PrecededTwice(a: seq<byte>, b: seq<byte>, f: Fed)
    ensures Preceded(a, Preceded(b, f)) == Preceded(a + b, f)
  {
    assert a + (b + f.forward) == (a + b) + f.forward;
  }

  lemma PrecededApart(a: seq<byte>, f: Fed, g: Fed)
    requires f != g
    ensures Preceded(a, f) != Preceded(a, g)
  {
    assert (a + f.forward)[|a|..] == f.forward && (a + g.forward)[|a|..] == g.forward;
  }

  /** Bytes of a sequence given up on are forwarded one by one. */
  lemma {:induction false} PlainRun(h: Held, plain: seq<byte>, rest: seq<byte>)
    requires h.prefix.None? && forall k :: 0 <= k < |plain| ==> 0x20 <= plain[k] <= 0x7E
    ensures Scan(h, plain + rest) == Preceded(plain, Scan(h, rest))
  {
    hide TokenAt, CouldBecomePrefix;
    if plain == [] {
      assert plain + rest == rest;
    } else {
      var more := plain + rest;
      assert more[1..] == plain[1..] + rest && more[..1] == plain[..1];
      PlainToken(more);
      PlainRun(h, plain[1..], rest);
      PrecededTwice(plain[..1], plain[1..], Scan(h, rest));
    }
  }

  /** The sequence at the start of `s` is a `Ctrl-\` press written as a control sequence. */
  predicate IsPress(s: seq<byte>) {
    s != [] && TokenAt(s).Complete? && TokenAt(s).key.Prefix? && TokenAt(s).len >= 2
  }

  lemma PressShape(s: seq<byte>)
    requires IsPress(s)
    ensures var n := TokenAt(s).len - 1;
      && 2 <= n < MAX_SEQUENCE && s[0] == ESC && s[1] == BRACKET && TokenAt(s) == CsiToken(s, 2)
      && CsiKey(s[2..n], s[n]) == Prefix && 0x20 <= s[n] <= 0x7E
      && forall k :: 2 <= k < n ==> IsInner(s[k])
  {
    hide CsiToken, CsiKey;
    CsiShape(s, 2);
  }

  /** Up to its final byte a press could still become one exactly if it is not padded. */
  lemma PressHeld(s: seq<byte>)
    requires IsPress(s)
    ensures var n := TokenAt(s).len - 1; CouldBecomePrefix(s[..n]) <==> !Padded(s[..n + 1])
  {
    hide TokenAt, CsiToken, CsiKey, CodeField, ParamsCouldBecomePrefix, LeadingZero, IsInner;
    PressShape(s);
    var n := TokenAt(s).len - 1;
    assert s[..n][2..] == s[2..n] && s[..n + 1][2..n] == s[2..n];
    PressWasHeld(s[2..n], s[n]);
    BareBracket(s[..n]);
  }

  /** `ESC [` alone could become a press. */
  lemma BareBracket(s: seq<byte>)
    requires |s| >= 2 && s[0] == ESC && s[1] == BRACKET
    ensures CouldBecomePrefix(s) <==> ParamsCouldBecomePrefix(s[2..])
  {
    hide ParamsCouldBecomePrefix;
  }

  /** Cut before its final byte a press is unfinished; without what follows it is itself. */
  lemma PressParts(s: seq<byte>)
    requires IsPress(s)
    ensures var n := TokenAt(s).len - 1;
      n >= 2 && TokenAt(s[..n]).Unfinished? && TokenAt(s[..n + 1]) == Complete(n + 1, Prefix)
  {
    hide CsiToken, CsiKey;
    PressShape(s);
    var n := TokenAt(s).len - 1;
    CsiShape(s[..n], 2);
    PressToken(s, 2);
  }

  /** An unfinished sequence that cannot become a prefix does not complete to an unpadded press. */
  lemma NotAPress(a: seq<byte>, b: seq<byte>)
    requires a != [] && TokenAt(a).Unfinished? && !CouldBecomePrefix(a)
    requires TokenAt(a + b).Complete? && TokenAt(a + b).key.Prefix?
    ensures Padded((a + b)[..TokenAt(a + b).len])
  {
    hide TokenAt, CouldBecomePrefix, Padded;
    if |a| == 1 {
      LoneEscape(a);
    }
    CompletesLater(a, b);
    PressHeld(a + b);
    var n := TokenAt(a + b).len - 1;
    if CouldBecomePrefix((a + b)[..n]) {
      assert (a + b)[..n] == a + b[..n - |a|];
      CouldStill(a, b[..n - |a|]);
    }
  }

  /** With no prefix held, a given-up sequence that is still unfinished is forwarded either way. */
  lemma GivenUpUnfinished(h: Held, a: seq<byte>, b: seq<byte>)
    requires h.prefix.None? && |a| >= 2 && TokenAt(a).Unfinished? && !CouldBecomePrefix(a)
    requires TokenAt(a + b).Unfinished?
    ensures Scan(h, a + b) == Preceded(a, Scan(h, b))
  {
    hide CsiToken, CsiKey, CouldBecomePrefix;
    var s := a + b;
    CsiShape(s, 2);
    if CouldBecomePrefix(s) {
      CouldStill(a, b);
    }
    forall k | 0 <= k < |b| ensures 0x20 <= b[k] <= 0x7E {
      assert b[k] == s[|a| + k];
    }
    PlainRun(h, b, []);
    assert b + [] == b;
  }

  lemma GivenUpComplete(h: Held, a: seq<byte>, b: seq<byte>)
    requires h.prefix.None? && |a| >= 2 && TokenAt(a).Unfinished?
    requires TokenAt(a + b).Complete? && !TokenAt(a + b).key.Prefix?
    ensures Scan(h, a + b) == Preceded(a, Scan(h, b))
  {
    hide TokenAt, CouldBecomePrefix, Scan;
    var s := a + b;
    var len := TokenAt(s).len;
    CompletesLater(a, b);
    var n := len - |a|;
    PlainInside(a, s);
    forall k | 0 <= k < n ensures 0x20 <= b[..n][k] <= 0x7E {
      assert b[..n][k] == s[|a| + k];
    }
    PlainRun(h, b[..n], b[n..]);
    assert b[..n] + b[n..] == b;
    assert s[len..] == b[n..] && s[..len] == a + b[..n];
    FirstForwarded(h, s);
    PrecededTwice(a, b[..n], Scan(h, b[n..]));
  }

  /** With no prefix held, a complete token that is none is forwarded. */
  lemma FirstForwarded(h: Held, s: seq<byte>)
    requires h.prefix.None? && s != [] && TokenAt(s).Complete? && !TokenAt(s).key.Prefix?
    ensures Scan(h, s) == Preceded(s[..TokenAt(s).len], Scan(h, s[TokenAt(s).len..]))
  {
    hide TokenAt, CouldBecomePrefix;
  }

  /** Past `ESC [`, a token holds only printable bytes. */
  lemma PlainInside(a: seq<byte>, s: seq<byte>)
    requires |a| >= 2 && TokenAt(a).Unfinished? && a <= s && TokenAt(s).Complete?
    ensures forall k :: 2 <= k < TokenAt(s).len ==> 0x20 <= s[k] <= 0x7E
  {
    hide CsiToken;
    CsiShape(s, 2);
  }

  lemma GivenUp(h: Held, a: seq<byte>, b: seq<byte>)
    requires h.prefix.None? && a != [] && TokenAt(a).Unfinished? && !CouldBecomePrefix(a)
    requires Unpadded(h, a + b)
    ensures Scan(h, a + b) == Preceded(a, Scan(h, b))
  {
    hide TokenAt, CouldBecomePrefix, Scan, Padded;
    if |a| == 1 {
      LoneEscape(a);
    } else if TokenAt(a + b).Unfinished? {
      GivenUpUnfinished(h, a, b);
    } else {
      if TokenAt(a + b).key.Prefix? {
        NotAPress(a, b);
      }
      GivenUpComplete(h, a, b);
    }
  }

  lemma LoneEscape(a: seq<byte>)
    requires |a| == 1 && TokenAt(a).Unfinished?
    ensures CouldBecomePrefix(a)
  {
  }

  // ---------------------------------------------------------------- two reads are one

  lemma {:induction false} ScanSplit(h: Held, a: seq<byte>, b: seq<byte>)
    requires Unpadded(h, a + b)
    ensures Scan(h, a + b) == Then(Scan(h, a), b)
    decreases |a|
  {
    hide TokenAt, CouldBecomePrefix, Decide, Padded;
    if a == [] {
      assert a + b == b;
    } else {
      match TokenAt(a)
      case Complete(len, key) =>
        TokenMore(a, b);
        assert (a + b)[..len] == a[..len] && (a + b)[len..] == a[len..] + b;
        var d := Decide(h, a[..len], key);
        if d.escape.Continue? {
          ScanSplit(d.held, a[len..], b);
          PrecededThen(d.forward, Scan(d.held, a[len..]), b);
        }
      case Unfinished =>
        if h.prefix.None? && !CouldBecomePrefix(a) {
          GivenUp(h, a, b);
          assert [] + b == b;
        }
    }
  }

  lemma PrecededThen(forward: seq<byte>, f: Fed, input: seq<byte>)
    ensures Then(Preceded(forward, f), input) == Preceded(forward, Then(f, input))
  {
    hide Feed;
    var g := Feed(f.parser, input);
    assert (forward + f.forward) + g.forward == forward + (f.forward + g.forward);
  }

  lemma {:induction false} UnpaddedStart(h: Held, a: seq<byte>, b: seq<byte>)
    requires Unpadded(h, a + b)
    ensures Unpadded(h, a)
    decreases |a|
  {
    hide TokenAt, Decide, Padded;
    if a != [] && TokenAt(a).Complete? {
      var t := TokenAt(a);
      TokenMore(a, b);
      assert (a + b)[..t.len] == a[..t.len] && (a + b)[t.len..] == a[t.len..] + b;
      var d := Decide(h, a[..t.len], t.key);
      if d.escape.Continue? {
        UnpaddedStart(d.held, a[t.len..], b);
      }
    }
  }

  /** Any cutting into reads gives what one read of everything gives. */
  lemma {:induction false} RunIsFeed(p: Parser, pieces: seq<seq<byte>>)
    requires pieces != [] && Unpadded(p.held, p.partial + Typed(pieces))
    ensures Run(p, pieces) == Feed(p, Typed(pieces))
  {
    hide Scan, Unpadded;
    var n := |pieces| - 1;
    var last, before := pieces[n], Typed(pieces[..n]);
    if n == 0 {
      assert Run(p, pieces) == Preceded([], Feed(p, last));
      assert [] + last == last;
    } else {
      assert p.partial + Typed(pieces) == (p.partial + before) + last;
      UnpaddedStart(p.held, p.partial + before, last);
      RunIsFeed(p, pieces[..n]);
      ScanSplit(p.held, p.partial + before, last);
    }
  }

  // ---------------------------------------------------------------- a padded press depends on the cut

  lemma PressCut(h: Held, s: seq<byte>)
    requires h.prefix.None? && s != [] && TokenAt(s).Complete? && TokenAt(s).key.Prefix? && Padded(s[..TokenAt(s).len])
    ensures TokenAt(s).len >= 3
    ensures var n := TokenAt(s).len - 1; Scan(h, s[..n]) == Fed(Parser(h, []), s[..n], Continue)
    ensures var n := TokenAt(s).len - 1; Scan(h, [s[n]]) == Fed(Parser(h, []), [s[n]], Continue)
    ensures Scan(h, s[..TokenAt(s).len]).parser.held.prefix.Some?
  {
    hide TokenAt, CouldBecomePrefix, Padded, Scan, CsiKey, CsiToken;
    LongerThanTwo(s);
    PressShape(s);
    PressParts(s);
    PressHeld(s);
    var n := TokenAt(s).len - 1;
    CutShort(h, s[..n]);
    OnePlain(h, s[n]);
    assert s[..n + 1][..n + 1] == s[..n + 1];
    Armed(h, s[..n + 1]);
  }

  lemma LongerThanTwo(s: seq<byte>)
    requires s != [] && TokenAt(s).Complete? && Padded(s[..TokenAt(s).len])
    ensures TokenAt(s).len >= 3
  {
    hide TokenAt, LeadingZero;
  }

  /** An unfinished sequence that cannot become a press is let go. */
  lemma CutShort(h: Held, s: seq<byte>)
    requires h.prefix.None? && s != [] && TokenAt(s).Unfinished? && !CouldBecomePrefix(s)
    ensures Scan(h, s) == Fed(Parser(h, []), s, Continue)
  {
    hide TokenAt, CouldBecomePrefix;
  }

  lemma OnePlain(h: Held, b: byte)
    requires h.prefix.None? && 0x20 <= b <= 0x7E
    ensures Scan(h, [b]) == Fed(Parser(h, []), [b], Continue)
  {
    hide TokenAt, CouldBecomePrefix;
    PlainRun(h, [b], []);
    assert [b] + [] == [b];
  }

  lemma Armed(h: Held, token: seq<byte>)
    requires h.prefix.None? && token != [] && TokenAt(token) == Complete(|token|, Prefix)
    ensures Scan(h, token).parser.held.prefix.Some?
  {
    hide TokenAt, CouldBecomePrefix;
    assert token[..|token|] == token && token[|token|..] == [];
  }

  /** A complete key sequence needs no byte after it. */
  lemma {:induction false} PressToken(s: seq<byte>, i: nat)
    requires 2 <= i <= MAX_SEQUENCE && i <= |s| && CsiToken(s, i).Complete? && CsiToken(s, i).key != Other
    ensures CsiToken(s[..CsiToken(s, i).len], i) == CsiToken(s, i)
    decreases |s| - i
  {
    hide CsiKey;
    var token := s[..CsiToken(s, i).len];
    if IsInner(s[i]) {
      PressToken(s, i + 1);
      CsiShape(s, i + 1);
    } else {
      assert token[2..i] == s[2..i];
    }
  }

  lemma {:induction false} PaddedPressSplits(h: Held, s: seq<byte>) returns (a: seq<byte>, c: byte)
    requires !Unpadded(h, s)
    ensures a != [] && a + [c] <= s
    ensures Scan(h, a + [c]) != Then(Scan(h, a), [c])
    decreases |s|
  {
    hide TokenAt, CouldBecomePrefix, Decide, Padded;
    var t := TokenAt(s);
    if h.prefix.None? && t.key.Prefix? && Padded(s[..t.len]) {
      PressCut(h, s);
      a, c := s[..t.len - 1], s[t.len - 1];
      assert a + [c] == s[..t.len];
      assert [] + [c] == [c];
    } else {
      var d := Decide(h, s[..t.len], t.key);
      var a', c' := PaddedPressSplits(d.held, s[t.len..]);
      a, c := s[..t.len] + a', c';
      assert a + [c] == s[..t.len] + (a' + [c]);
      StepOver(h, s, a');
      StepOver(h, s, a' + [c]);
      PrecededThen(d.forward, Scan(d.held, a'), [c]);
      PrecededApart(d.forward, Scan(d.held, a' + [c]), Then(Scan(d.held, a'), [c]));
    }
  }

  /** Scanning past the first token of `s`, with the start `x` of what follows it. */
  lemma StepOver(h: Held, s: seq<byte>, x: seq<byte>)
    requires s != [] && TokenAt(s).Complete? && x != [] && x <= s[TokenAt(s).len..]
    requires Decide(h, s[..TokenAt(s).len], TokenAt(s).key).escape.Continue?
    ensures var t := TokenAt(s);
            var d := Decide(h, s[..t.len], t.key);
            Scan(h, s[..t.len] + x) == Preceded(d.forward, Scan(d.held, x))
  {
    hide TokenAt, CouldBecomePrefix, Decide;
    var t := TokenAt(s);
    var y := s[..t.len] + x;
    assert y == s[..|y|];
    TokenCut(s, |y|);
    assert y[..t.len] == s[..t.len] && y[t.len..] == x;
  }

  /**
   The recognizer is independent of how reads cut the stream, at every point of the stream, if and only if no
   press that arms it writes its key code with a leading zero.
   */
  lemma ReadsDoNotMatter(s: seq<byte>)
    ensures (forall pieces :: pieces != [] && Typed(pieces) <= s ==> Run(FRESH, pieces) == Feed(FRESH, Typed(pieces)))
            <==> Unpadded(NOTHING_HELD, s)
  {
    hide Run, Typed, Scan, Unpadded;
    if Unpadded(NOTHING_HELD, s) {
      forall pieces | pieces != [] && Typed(pieces) <= s ensures Run(FRESH, pieces) == Feed(FRESH, Typed(pieces)) {
        var q := Typed(pieces);
        assert q + s[|q|..] == s && [] + q == q;
        UnpaddedStart(NOTHING_HELD, q, s[|q|..]);
        RunIsFeed(FRESH, pieces);
      }
    } else {
      var a, c := PaddedPressSplits(NOTHING_HELD, s);
      TwoReads(FRESH, a, [c]);
      assert [] + a == a && [] + (a + [c]) == a + [c];
      assert Run(FRESH, [a, [c]]) != Feed(FRESH, Typed([a, [c]]));
    }
  }

  lemma TwoReads(p: Parser, a: seq<byte>, b: seq<byte>)
    ensures Run(p, [a, b]) == Then(Feed(p, a), b) && Typed([a, b]) == a + b
  {
    hide Feed;
    assert [a, b][..1] == [a] && [a][..0] == [];
    assert Run(p, [a]) == Then(Run(p, []), a);
    assert Preceded([], Feed(p, a)) == Feed(p, a);
    assert Typed([a]) == [] + a;
  }
}
