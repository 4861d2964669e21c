/** What the tokenizer promises: a sequence is held exactly while it could still become a prefix. */
module EscapeTokens {
  import opened Wrappers
  import opened Bytes
  import opened Decimals
  import opened AttachEscape

  // ---------------------------------------------------------------- numbers

  lemma {:induction false} DecimalSize(s: seq<byte>)
    requires s != [] && AllDigits(s) && s[0] != 0x30
    ensures Decimal(s) >= 1
    ensures |s| >= 2 ==> Decimal(s) >= 10
    ensures |s| >= 3 ==> Decimal(s) >= 100
  {
    if |s| > 1 {
      DecimalSize(s[..|s| - 1]);
    }
  }

  /** Leading zeros are the only way to write 92 other than as its two digits. */
  lemma NinetyTwo(s: seq<byte>)
    requires Number(s) == Some(KEY_BACKSLASH)
    ensures s == NINETY_TWO <==> s[0] != 0x30
    ensures s <= NINETY_TWO ==> s == NINETY_TWO
  {
    if s[0] != 0x30 {
      DecimalSize(s);
      if |s| == 2 {
        assert Decimal(s[..1]) == s[0] - 0x30;
      }
    }
  }

  lemma {:induction false} SplitCount(s: seq<byte>)
    ensures |Split(s, COLON)| == Colons(s) + 1
    ensures Colons(s) == 0 <==> COLON !in s
  {
    if s != [] {
      SplitCount(s[..|s| - 1]);
      assert s == s[..|s| - 1] + [s[|s| - 1]];
    }
  }

  /** The first field is the whole when there is no separator, and shorter when there is. */
  lemma {:induction false} FirstField(s: seq<byte>, sep: byte)
    ensures Split(s, sep)[0] <= s
    ensures |Split(s, sep)| == 1 <==> |Split(s, sep)[0]| == |s|
    ensures |Split(s, sep)| == 1 ==> Split(s, sep)[0] == s
    ensures sep !in Split(s, sep)[0]
  {
    if s != [] {
      FirstField(s[..|s| - 1], sep);
      assert s == s[..|s| - 1] + [s[|s| - 1]];
    }
  }

  // ---------------------------------------------------------------- never true again on extension

  /** One more byte ends the last field or extends it. */
  lemma SplitMore(s: seq<byte>, c: byte, sep: byte)
    ensures Split(s + [c], sep) ==
            var f := Split(s, sep);
            if c == sep then f + [[]] else f[..|f| - 1] + [f[|f| - 1] + [c]]
  {
    assert (s + [c])[..|s|] == s;
  }

  lemma ColonsMore(s: seq<byte>, c: byte)
    ensures Colons(s + [c]) >= Colons(s)
  {
    assert (s + [c])[..|s|] == s;
  }

  lemma SoleFieldStill(key: seq<byte>, c: byte)
    requires c != SEMICOLON && CouldBeKitty([key + [c]])
    ensures CouldBeKitty([key])
  {
    hide Split;
    SplitMore(key, c, COLON);
    FirstField(key, COLON);
    FirstField(key + [c], COLON);
  }

  lemma KittyStill(params: seq<byte>, c: byte)
    requires CouldBeKitty(Split(params + [c], SEMICOLON))
    ensures CouldBeKitty(Split(params, SEMICOLON))
  {
    hide Split;
    var f, g := Split(params, SEMICOLON), Split(params + [c], SEMICOLON);
    SplitMore(params, c, SEMICOLON);
    FirstField(f[0], COLON);
    if |f| == 1 {
      if c != SEMICOLON {
        SoleFieldStill(f[0], c);
        assert g == [f[0] + [c]] && f == [f[0]];
      }
    } else {
      assert g[0] == f[0];
      ColonsMore(f[1], c);
    }
  }

  lemma XtermStill(params: seq<byte>, c: byte)
    requires CouldBeXterm(Split(params + [c], SEMICOLON))
    ensures CouldBeXterm(Split(params, SEMICOLON))
  {
    hide Split;
    SplitMore(params, c, SEMICOLON);
  }

  lemma {:induction false} ParamsStill(params: seq<byte>, extra: seq<byte>)
    requires ParamsCouldBecomePrefix(params + extra)
    ensures ParamsCouldBecomePrefix(params)
    decreases |extra|
  {
    hide CouldBeKitty, CouldBeXterm;
    if extra == [] {
      assert params + extra == params;
    } else {
      var n := |extra| - 1;
      var less := params + extra[..n];
      assert params + extra == less + [extra[n]];
      if CouldBeKitty(Split(less + [extra[n]], SEMICOLON)) {
        KittyStill(less, extra[n]);
      } else {
        XtermStill(less, extra[n]);
      }
      assert forall i :: 0 <= i < |less| ==> less[i] == (params + extra)[i];
      ParamsStill(params, extra[..n]);
    }
  }

  /** Once a sequence cannot become a prefix, no more bytes make it one. */
  lemma CouldStill(s: seq<byte>, extra: seq<byte>)
    requires s != [] && CouldBecomePrefix(s + extra)
    ensures CouldBecomePrefix(s)
  {
    if |s| >= 2 {
      assert (s + extra)[2..] == s[2..] + extra;
      ParamsStill(s[2..], extra);
    }
  }

  // ---------------------------------------------------------------- complete prefixes

  /** The digits a complete sequence gives for its key. */
  function CodeField(params: seq<byte>, final: byte): seq<byte> {
    if IsXterm(params, final) then Split(params, SEMICOLON)[2]
    else Split(Split(params, SEMICOLON)[0], COLON)[0]
  }

  predicate LeadingZero(digits: seq<byte>) {
    digits != [] && digits[0] == 0x30
  }

  /** Up to its final byte, a `Ctrl-\` press was recognizable exactly if its key code had no leading zero. */
  lemma PressWasHeld(params: seq<byte>, final: byte)
    requires CsiKey(params, final) == Prefix
    ensures ParamsCouldBecomePrefix(params) <==> !LeadingZero(CodeField(params, final))
  {
    hide Split, Decimal;
    if IsXterm(params, final) {
      XtermPressWasHeld(Split(params, SEMICOLON));
    } else {
      KittyPressWasHeld(Split(params, SEMICOLON), final);
    }
  }

  lemma XtermPressWasHeld(fields: seq<seq<byte>>)
    requires |fields| == 3 && fields[0] == TWENTY_SEVEN && ClassifyXterm(fields) == Prefix
    ensures CouldBeKitty(fields) || CouldBeXterm(fields) <==> !LeadingZero(fields[2])
  {
    hide Split, Decimal;
    NinetyTwo(fields[2]);
    TwentySevenIsNot();
  }

  lemma KittyPressWasHeld(fields: seq<seq<byte>>, final: byte)
    requires 1 <= |fields| <= 3 && ClassifyKitty(fields, final) == Prefix
    ensures CouldBeKitty(fields) || CouldBeXterm(fields) <==> !LeadingZero(Split(fields[0], COLON)[0])
  {
    hide Split, Decimal;
    var code := Split(fields[0], COLON)[0];
    NinetyTwo(code);
    FirstField(fields[0], COLON);
    FirstField([], COLON);
    TwentySevenIsNot();
    SplitCount(Field(fields, 1));
  }

  lemma TwentySevenIsNot()
    ensures Split(TWENTY_SEVEN, COLON)[0] == TWENTY_SEVEN
    ensures Number(TWENTY_SEVEN) != Some(KEY_BACKSLASH)
  {
    assert Split(TWENTY_SEVEN, COLON)[0] == TWENTY_SEVEN by {
      hide Split, Decimal;
      FirstField(TWENTY_SEVEN, COLON);
      SplitCount(TWENTY_SEVEN);
      NoColons();
    }
    hide Split;
    assert TWENTY_SEVEN[..1] == [0x32];
    assert Decimal([0x32]) == 2;
  }

  lemma NoColons()
    ensures COLON !in TWENTY_SEVEN
  {
  }
}
