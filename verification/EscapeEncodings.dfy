/** The key encodings a terminal may send, and what the tokenizer makes of each. */
module EscapeEncodings {
  import opened Wrappers
  import opened Bytes
  import opened Decimals
  import opened AttachEscape
  import opened EscapeTokens
  import opened EscapeChunks

  /** `CSI code ; modifiers u`. */
  function Kitty(code: seq<byte>, modifiers: seq<byte>): seq<byte> {
    [ESC, BRACKET] + (code + [SEMICOLON] + modifiers) + [FINAL_U]
  }

  /** `CSI 27 ; modifiers ; code ~`. */
  function Xterm(code: seq<byte>, modifiers: seq<byte>): seq<byte> {
    [ESC, BRACKET] + (TWENTY_SEVEN + [SEMICOLON] + modifiers + [SEMICOLON] + code) + [FINAL_TILDE]
  }

  // ---------------------------------------------------------------- fields

  lemma {:induction false} OneField(s: seq<byte>, sep: byte)
    requires sep !in s
    ensures Split(s, sep) == [s]
  {
    if s != [] {
      OneField(s[..|s| - 1], sep);
      assert s[..|s| - 1] + [s[|s| - 1]] == s;
    }
  }

  /** A field without separators after a separator is the last field. */
  lemma {:induction false} LastField(before: seq<byte>, field: seq<byte>, sep: byte)
    requires sep !in field
    ensures Split(before + [sep] + field, sep) == Split(before, sep) + [field]
  {
    hide Split;
    if field == [] {
      assert before + [sep] + field == before + [sep];
      SplitMore(before, sep, sep);
    } else {
      var n := |field| - 1;
      LastField(before, field[..n], sep);
      assert before + [sep] + field == (before + [sep] + field[..n]) + [field[n]];
      SplitMore(before + [sep] + field[..n], field[n], sep);
      assert field[..n] + [field[n]] == field;
    }
  }

  lemma DigitsOnly(s: seq<byte>)
    requires AllDigits(s)
    ensures COLON !in s && SEMICOLON !in s && AllParams(s)
  {
  }

  // ---------------------------------------------------------------- keys

  /** A whole control sequence at the start of the input is one token, its key read from its parameters. */
  lemma CsiAt(params: seq<byte>, final: byte, rest: seq<byte>)
    requires AllParams(params) && IsFinal(final) && |params| + 3 <= MAX_SEQUENCE
    ensures TokenAt([ESC, BRACKET] + params + [final] + rest) == Complete(|params| + 3, CsiKey(params, final))
  {
    hide CsiKey, Split;
    var s := [ESC, BRACKET] + params + [final] + rest;
    var n := |params| + 2;
    assert s[n] == final && s[2..n] == params;
    assert forall k :: 2 <= k < n ==> s[k] == params[k - 2];
    InnerSkipped(s, 2, n);
  }

  /** A kitty press reads as its code and modifiers, whatever their digits. */
  lemma KittyKey(code: seq<byte>, modifiers: seq<byte>, rest: seq<byte>)
    requires Number(code).Some? && Number(modifiers).Some? && |code| + |modifiers| + 4 <= MAX_SEQUENCE
    ensures TokenAt(Kitty(code, modifiers) + rest) ==
            Complete(|Kitty(code, modifiers)|,
                     if IsModifierKey(Number(code).value) then Incidental(false)
                     else KeyEvent(Number(code).value, Number(modifiers).value, EVENT_PRESS))
  {
    hide TokenAt, Split, Decimal;
    var params := code + [SEMICOLON] + modifiers;
    DigitsOnly(code);
    DigitsOnly(modifiers);
    OneField(code, SEMICOLON);
    LastField(code, modifiers, SEMICOLON);
    OneField(code, COLON);
    OneField(modifiers, COLON);
    CsiAt(params, FINAL_U, rest);
    assert Split(params, SEMICOLON) == [code, modifiers];
  }

  /** So does a `modifyOtherKeys` press. */
  lemma XtermKey(code: seq<byte>, modifiers: seq<byte>, rest: seq<byte>)
    requires Number(code).Some? && Number(modifiers).Some? && |code| + |modifiers| + 7 <= MAX_SEQUENCE
    ensures TokenAt(Xterm(code, modifiers) + rest) ==
            Complete(|Xterm(code, modifiers)|, KeyEvent(Number(code).value, Number(modifiers).value, EVENT_PRESS))
  {
    hide TokenAt, Split, Decimal;
    var first := TWENTY_SEVEN + [SEMICOLON] + modifiers;
    var params := first + [SEMICOLON] + code;
    DigitsOnly(code);
    DigitsOnly(modifiers);
    DigitsOnly(TWENTY_SEVEN);
    OneField(TWENTY_SEVEN, SEMICOLON);
    LastField(TWENTY_SEVEN, modifiers, SEMICOLON);
    LastField(first, code, SEMICOLON);
    CsiAt(params, FINAL_TILDE, rest);
    assert Split(params, SEMICOLON) == [TWENTY_SEVEN, modifiers, code];
  }

  /** Control alone with key 92 arms; key 100 alone detaches; caps lock (64) and num lock (128) make no difference. */
  lemma KeysThatCount(code: u32, bits: nat, locks: nat)
    requires bits < 64 && locks in {0, 64, 128, 192}
    ensures KeyEvent(code, 1 + bits + locks, EVENT_PRESS).Prefix? <==> code == KEY_BACKSLASH && bits == MOD_CTRL
    ensures KeyEvent(code, 1 + bits + locks, EVENT_PRESS).Detach? <==> code == KEY_D && bits == 0
  {
    assert WithoutLocks(bits + locks) == bits;
  }

  // ---------------------------------------------------------------- a press that depends on the cut

  /** `092` and `5`. */
  const PADDED_CODE: seq<byte> := [0x30, 0x39, 0x32]
  const CTRL_ONLY: seq<byte> := [0x35]

  lemma SmallNumbers()
    ensures Number(PADDED_CODE) == Some(KEY_BACKSLASH) && Number(CTRL_ONLY) == Some(5)
  {
    assert PADDED_CODE[..2] == [0x30, 0x39] && [0x30, 0x39][..1] == [0x30];
    assert Decimal([0x30]) == 0;
    assert Decimal([0x30, 0x39]) == 9;
  }

  /** `ESC [092;5u` arms the escape read whole, and is forwarded when the read ends before its last byte. */
  lemma PaddedPressDiffers()
    ensures var s := Kitty(PADDED_CODE, CTRL_ONLY);
            && !Unpadded(NOTHING_HELD, s)
            && Feed(FRESH, s).forward == []
            && Run(FRESH, [s[..7], [s[7]]]).forward == s
  {
    hide TokenAt, Split, Decimal, CodeField, Scan, Run;
    var s := Kitty(PADDED_CODE, CTRL_ONLY);
    SmallNumbers();
    KeysThatCount(KEY_BACKSLASH, MOD_CTRL, 0);
    KittyKey(PADDED_CODE, CTRL_ONLY, []);
    assert s + [] == s && s[..8] == s;
    PaddedCode();
    PressCut(NOTHING_HELD, s);
    ArmedWhole(s);
    TwoReads(FRESH, s[..7], [s[7]]);
    assert [] + s[..7] == s[..7] && [] + [s[7]] == [s[7]] && s[..7] + [s[7]] == s && [] + s == s;
  }

  lemma PaddedCode()
    ensures Padded(Kitty(PADDED_CODE, CTRL_ONLY))
  {
    hide Split;
    var s := Kitty(PADDED_CODE, CTRL_ONLY);
    assert s[2..7] == PADDED_CODE + [SEMICOLON] + CTRL_ONLY;
    DigitsOnly(PADDED_CODE);
    DigitsOnly(CTRL_ONLY);
    OneField(PADDED_CODE, SEMICOLON);
    LastField(PADDED_CODE, CTRL_ONLY, SEMICOLON);
    OneField(PADDED_CODE, COLON);
  }

  lemma ArmedWhole(s: seq<byte>)
    requires s != [] && TokenAt(s) == Complete(|s|, Prefix)
    ensures Scan(NOTHING_HELD, s) == Fed(Parser(Held(Some(s), [], []), []), [], Continue)
  {
    hide TokenAt;
    assert s[..|s|] == s && s[|s|..] == [];
  }
}
