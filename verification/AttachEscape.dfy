/**
 The attach client's detach escape: `Ctrl-\` then `d` in the user's keystrokes, in every key encoding a
 terminal may use. A tokenizer over the bytes, and a parser that holds a prefix until the next key decides it.
 */
module AttachEscape {
  import opened Wrappers
  import opened Bytes
  import opened Decimals

  const PREFIX: byte := 0x1C
  const DETACH_KEY: byte := 0x64
  const ESC: byte := 0x1B
  const BRACKET: byte := 0x5B
  const COLON: byte := 0x3A
  const SEMICOLON: byte := 0x3B
  const MAX_SEQUENCE := 64
  const KEY_BACKSLASH := 92
  const KEY_D := 100
  const MOD_CTRL := 4
  const EVENT_PRESS := 1
  const EVENT_REPEAT := 2
  const EVENT_RELEASE := 3

  /** The digits of 92 and 27. */
  const NINETY_TWO: seq<byte> := [0x39, 0x32]
  const TWENTY_SEVEN: seq<byte> := [0x32, 0x37]

  datatype Key = Prefix | Detach | Incidental(ofBackslash: bool) | Other

  datatype Token = Complete(len: nat, key: Key) | Unfinished

  // ---------------------------------------------------------------- numbers and fields

  /** A 32-bit number in decimal, leading zeros allowed. */
  function Number(s: seq<byte>): Option<u32> {
    if s != [] && AllDigits(s) && Decimal(s) <= U32_MAX then Some(Decimal(s)) else None
  }

  function NumberOr(s: seq<byte>, default: u32): Option<u32> {
    if s == [] then Some(default) else Number(s)
  }

  /** The fields of `s` between separators; one empty field if `s` is empty. */
  function Split(s: seq<byte>, sep: byte): (fields: seq<seq<byte>>)
    ensures |fields| >= 1
  {
    if s == [] then [[]]
    else
      var f := Split(s[..|s| - 1], sep);
      var last := s[|s| - 1];
      if last == sep then f + [[]] else f[..|f| - 1] + [f[|f| - 1] + [last]]
  }

  function Field(fields: seq<seq<byte>>, i: nat): seq<byte> {
    if i < |fields| then fields[i] else []
  }

  predicate IsParam(b: byte) {
    IsDigit(b) || b == COLON || b == SEMICOLON
  }

  predicate AllParams(s: seq<byte>) {
    forall i :: 0 <= i < |s| ==> IsParam(s[i])
  }

  // ---------------------------------------------------------------- keys

  /** Modifier bits 6 and 7, the lock states, cleared. */
  function WithoutLocks(bits: nat): nat {
    bits - bits / 64 % 4 * 64
  }

  function KeyEvent(code: u32, modifiers: u32, event: u32): Key {
    if modifiers == 0 then Other
    else
      var held := WithoutLocks(modifiers - 1);
      if code == KEY_BACKSLASH && held == MOD_CTRL && event == EVENT_PRESS then Prefix
      else if code == KEY_D && held == 0 && event == EVENT_PRESS then Detach
      else Other
  }

  predicate IsModifierKey(code: u32) {
    57_358 <= code <= 57_360 || 57_441 <= code <= 57_454
  }

  /** Final bytes of the key encodings: `u`, `~`, `A`-`F`, `H`, `P`, `Q`, `S`. */
  predicate IsKeyFinal(b: byte) {
    b == 0x75 || b == 0x7E || 0x41 <= b <= 0x46 || b == 0x48 || b == 0x50 || b == 0x51 || b == 0x53
  }

  const FINAL_U: byte := 0x75
  const FINAL_TILDE: byte := 0x7E

  predicate IsXterm(params: seq<byte>, final: byte) {
    final == FINAL_TILDE && |Split(params, SEMICOLON)| == 3 && Split(params, SEMICOLON)[0] == TWENTY_SEVEN
  }

  function ClassifyXterm(fields: seq<seq<byte>>): Key
    requires |fields| == 3
  {
    var code, modifiers := Number(fields[2]), Number(fields[1]);
    if code.None? || modifiers.None? then Other else KeyEvent(code.value, modifiers.value, EVENT_PRESS)
  }

  function ClassifyKitty(fields: seq<seq<byte>>, final: byte): Key
    requires |fields| >= 1
  {
    var modifier := Split(Field(fields, 1), COLON);
    var modifiers := NumberOr(modifier[0], 1);
    var event := NumberOr(Field(modifier, 1), EVENT_PRESS);
    var code := Number(Split(fields[0], COLON)[0]);
    if modifiers.None? || event.None? || |modifier| > 2 then
      Other
    else if event.value == EVENT_RELEASE then
      Incidental(final == FINAL_U && code == Some(KEY_BACKSLASH))
    else if final != FINAL_U || (event.value != EVENT_PRESS && event.value != EVENT_REPEAT) || code.None? then
      Other
    else if event.value == EVENT_REPEAT && code.value == KEY_BACKSLASH then
      Incidental(true)
    else if IsModifierKey(code.value) then
      Incidental(false)
    else
      KeyEvent(code.value, modifiers.value, event.value)
  }

  /** A complete `ESC [` sequence, from its parameter bytes and final byte. */
  function CsiKey(params: seq<byte>, final: byte): Key {
    var fields := Split(params, SEMICOLON);
    if !AllParams(params) then Other
    else if IsXterm(params, final) then ClassifyXterm(fields)
    else if !IsKeyFinal(final) || |fields| > 3 then Other
    else ClassifyKitty(fields, final)
  }

  // ---------------------------------------------------------------- tokens

  /** Parameter and intermediate bytes of a control sequence. */
  predicate IsInner(b: byte) {
    0x20 <= b <= 0x3F
  }

  predicate IsFinal(b: byte) {
    0x40 <= b <= 0x7E
  }

  /** The token at the start of `ESC [ …`, its bytes up to `i` already known to be inner ones. */
  function CsiToken(input: seq<byte>, i: nat): (t: Token)
    requires 2 <= i <= MAX_SEQUENCE && i <= |input|
    ensures t.Complete? ==> i <= t.len <= |input|
    decreases |input| - i
  {
    if i == MAX_SEQUENCE then Complete(MAX_SEQUENCE, Other)
    else if i == |input| then Unfinished
    else if IsInner(input[i]) then CsiToken(input, i + 1)
    else if IsFinal(input[i]) then Complete(i + 1, CsiKey(input[2..i], input[i]))
    else Complete(i, Other)
  }

  function TokenAt(input: seq<byte>): (t: Token)
    requires input != []
    ensures t.Complete? ==> 1 <= t.len <= |input|
  {
    if input[0] == PREFIX then Complete(1, Prefix)
    else if input[0] == DETACH_KEY then Complete(1, Detach)
    else if input[0] != ESC then Complete(1, Other)
    else if |input| == 1 then Unfinished
    else if input[1] != BRACKET then Complete(1, Other)
    else CsiToken(input, 2)
  }

  function Colons(s: seq<byte>): nat {
    if s == [] then 0 else Colons(s[..|s| - 1]) + (if s[|s| - 1] == COLON then 1 else 0)
  }

  predicate CouldBeKitty(fields: seq<seq<byte>>)
    requires |fields| >= 1
  {
    var code := Split(fields[0], COLON)[0];
    if |fields| == 1 && |code| == |fields[0]| then
      code <= NINETY_TWO
    else
      code == NINETY_TWO && |fields| <= 3 && (|fields| >= 2 ==> Colons(fields[1]) <= 1)
  }

  predicate CouldBeXterm(fields: seq<seq<byte>>)
    requires |fields| >= 1
  {
    if |fields| == 1 then
      fields[0] <= TWENTY_SEVEN
    else
      fields[0] == TWENTY_SEVEN && |fields| <= 3 && COLON !in fields[1] && (|fields| >= 3 ==> fields[2] <= NINETY_TWO)
  }

  predicate ParamsCouldBecomePrefix(params: seq<byte>) {
    var fields := Split(params, SEMICOLON);
    AllParams(params) && (CouldBeKitty(fields) || CouldBeXterm(fields))
  }

  /** True of the starts of a `Ctrl-\` press in either encoding; other unfinished sequences are let go. */
  predicate CouldBecomePrefix(unfinished: seq<byte>) {
    && unfinished != [] && unfinished[0] == ESC
    && (|unfinished| == 1 || (unfinished[1] == BRACKET && ParamsCouldBecomePrefix(unfinished[2..])))
  }

  // ---------------------------------------------------------------- the parser

  datatype Escape = Continue | DetachNow

  /** A held prefix with the events since; `kept` is `between` without those of the `\` key. */
  datatype Held = Held(prefix: Option<seq<byte>>, between: seq<byte>, kept: seq<byte>)

  const NOTHING_HELD := Held(None, [], [])

  datatype Decision = Decision(held: Held, forward: seq<byte>, escape: Escape)

  function Decide(h: Held, bytes: seq<byte>, key: Key): Decision {
    if h.prefix.None? then
      if key.Prefix? then Decision(h.(prefix := Some(bytes)), [], Continue)
      else Decision(h, bytes, Continue)
    else
      match key
      case Incidental(ofBackslash) =>
        Decision(h.(between := h.between + bytes, kept := if ofBackslash then h.kept else h.kept + bytes), [], Continue)
      case Detach => Decision(NOTHING_HELD, h.kept, DetachNow)
      case Prefix => Decision(NOTHING_HELD, h.kept + bytes, Continue)
      case Other => Decision(NOTHING_HELD, h.prefix.value + h.between + bytes, Continue)
  }

  datatype Parser = Parser(held: Held, partial: seq<byte>)

  const FRESH := Parser(NOTHING_HELD, [])

  /** What feeding did: the parser after it, the bytes forwarded, and whether to detach. */
  datatype Fed = Fed(parser: Parser, forward: seq<byte>, escape: Escape)

  function Scan(h: Held, bytes: seq<byte>): Fed
    decreases |bytes|
  {
    if bytes == [] then
      Fed(Parser(h, []), [], Continue)
    else
      match TokenAt(bytes)
      case Unfinished =>
        if h.prefix.Some? || CouldBecomePrefix(bytes) then Fed(Parser(h, bytes), [], Continue)
        else Fed(Parser(h, []), bytes, Continue)
      case Complete(len, key) =>
        var d := Decide(h, bytes[..len], key);
        if d.escape.DetachNow? then Fed(Parser(d.held, []), d.forward, DetachNow)
        else Preceded(d.forward, Scan(d.held, bytes[len..]))
  }

  function Preceded(forward: seq<byte>, f: Fed): Fed {
    f.(forward := forward + f.forward)
  }

  /** A held unfinished sequence that has waited long enough counts as an ordinary key. */
  function Expired(p: Parser): Fed {
    if p.partial == [] then Fed(p, [], Continue)
    else
      var d := Decide(p.held, p.partial, Other);
      Fed(Parser(d.held, []), d.forward, d.escape)
  }

  function Feed(p: Parser, input: seq<byte>): Fed {
    Scan(p.held, p.partial + input)
  }

  datatype EscapeMode = CtrlBackslash | Disabled

  class EscapeParser {
    const mode: EscapeMode
    var prefix: Option<seq<byte>>
    var between: seq<byte>
    var betweenKept: seq<byte>
    var partial: seq<byte>

    function State(): Parser
      reads this
    {
      Parser(HeldNow(), partial)
    }

    function HeldNow(): Held
      reads this
    {
      Held(prefix, between, betweenKept)
    }

    constructor (mode: EscapeMode)
      ensures this.mode == mode && State() == FRESH
    {
      this.mode := mode;
      prefix, between, betweenKept, partial := None, [], [], [];
    }

    /** One read's worth of keystrokes. */
    method FeedInput(input: seq<byte>) returns (forward: seq<byte>, escape: Escape)
      modifies this
      ensures mode.CtrlBackslash? ==> Fed(State(), forward, escape) == Feed(old(State()), input)
      ensures mode.Disabled? ==> State() == old(State()) && forward == input && escape == Continue
    {
      hide TokenAt, CouldBecomePrefix, Decide;
      if mode.Disabled? {
        return input, Continue;
      }
      var bytes := partial + input;
      partial := [];
      forward := [];
      var at := 0;
      assert bytes[0..] == bytes;
      while at < |bytes|
        invariant at <= |bytes| && partial == []
        invariant Preceded(forward, Scan(HeldNow(), bytes[at..])) == Feed(old(State()), input)
      {
        var rest := bytes[at..];
        match TokenAt(rest) {
          case Complete(len, key) =>
            ghost var before := HeldNow();
            var out, decided := DecideToken(rest[..len], key);
            assert Scan(before, rest) == if decided.DetachNow? then Fed(State(), out, DetachNow)
                                         else Preceded(out, Scan(HeldNow(), rest[len..]));
            assert bytes[at + len..] == rest[len..];
            forward := forward + out;
            if decided.DetachNow? {
              return forward, DetachNow;
            }
            at := at + len;
          case Unfinished =>
            if prefix.Some? || CouldBecomePrefix(rest) {
              partial := rest;
              assert forward + [] == forward;
              return forward, Continue;
            }
            return forward + rest, Continue;
        }
      }
      assert forward + [] == forward;
      return forward, Continue;
    }

    /** With nothing held there is no deadline, and nothing is due. */
    method FlushExpired(due: bool) returns (forward: seq<byte>)
      modifies this
      ensures Fed(State(), forward, Continue) == if due then Expired(old(State())) else Fed(old(State()), [], Continue)
    {
      if partial == [] || !due {
        return [];
      }
      var bytes := partial;
      partial := [];
      var decided;
      forward, decided := DecideToken(bytes, Other);
    }

    method DecideToken(bytes: seq<byte>, key: Key) returns (forward: seq<byte>, escape: Escape)
      modifies this`prefix, this`between, this`betweenKept
      ensures Decision(HeldNow(), forward, escape) == Decide(old(HeldNow()), bytes, key)
    {
      if prefix.None? {
        if key.Prefix? {
          prefix := Some(bytes);
          return [], Continue;
        }
        return bytes, Continue;
      }
      var held := prefix.value;
      match key {
        case Incidental(ofBackslash) =>
          between := between + bytes;
          if !ofBackslash {
            betweenKept := betweenKept + bytes;
          }
          return [], Continue;
        case Detach =>
          forward, escape := betweenKept, DetachNow;
        case Prefix =>
          forward, escape := betweenKept + bytes, Continue;
        case Other =>
          forward, escape := held + between + bytes, Continue;
      }
      prefix, between, betweenKept := None, [], [];
    }
  }
}
