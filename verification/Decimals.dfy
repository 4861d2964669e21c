/** Decimal numbers as bytes. */
module Decimals {
  import opened Bytes

  predicate IsDigit(b: byte) {
    0x30 <= b <= 0x39
  }

  predicate AllDigits(s: seq<byte>) {
    forall i :: 0 <= i < |s| ==> IsDigit(s[i])
  }

  /** The number some digits write, leading zeros allowed. */
  function Decimal(s: seq<byte>): nat
    requires AllDigits(s)
  {
    if s == [] then 0 else 10 * Decimal(s[..|s| - 1]) + (s[|s| - 1] - 0x30)
  }

  function PowerOfTen(n: nat): (p: nat)
    ensures p >= 1
  {
    if n == 0 then 1 else 10 * PowerOfTen(n - 1)
  }

  /** The last `width` digits of a number. */
  function Fixed(width: nat, n: nat): (s: seq<byte>)
    ensures |s| == width && AllDigits(s)
  {
    if width == 0 then [] else Fixed(width - 1, n / 10) + [0x30 + n % 10]
  }

  /** The digits of a number, without leading zeros. */
  function Digits(n: nat): (s: seq<byte>)
    ensures s != [] && AllDigits(s)
  {
    if n < 10 then [0x30 + n] else Digits(n / 10) + [0x30 + n % 10]
  }

  /** A number with at least `width` digits, zeros in front. */
  function ZeroFilled(width: nat, n: nat): seq<byte> {
    var s := Digits(n);
    if |s| >= width then s else seq(width - |s|, _ => 0x30) + s
  }

  /** Byte order. */
  predicate BytesBefore(s: seq<byte>, t: seq<byte>) {
    t != [] && (s == [] || s[0] < t[0] || (s[0] == t[0] && BytesBefore(s[1..], t[1..])))
  }

  lemma {:induction false} FixedWrites(width: nat, n: nat)
    requires n < PowerOfTen(width)
    ensures Decimal(Fixed(width, n)) == n
  {
    if width > 0 {
      FixedWrites(width - 1, n / 10);
      var s := Fixed(width, n);
      assert s[..width - 1] == Fixed(width - 1, n / 10);
    }
  }

  lemma {:induction false} FixedReads(s: seq<byte>)
    requires AllDigits(s)
    ensures Decimal(s) < PowerOfTen(|s|) && Fixed(|s|, Decimal(s)) == s
  {
    if s != [] {
      var n := |s| - 1;
      FixedReads(s[..n]);
      assert Decimal(s) / 10 == Decimal(s[..n]) && Decimal(s) % 10 == s[n] - 0x30;
      assert s == s[..n] + [s[n]];
    }
  }

  lemma {:induction false} DigitsOf(width: nat, n: nat)
    requires width >= 1
    ensures n < PowerOfTen(width) <==> |Digits(n)| <= width
  {
    if width == 1 {
      assert PowerOfTen(1) == 10 * PowerOfTen(0);
    } else if n >= 10 {
      DigitsOf(width - 1, n / 10);
    } else {
      assert PowerOfTen(width - 1) >= 1;
    }
  }

  /** Padding a number that fits gives all its digits and nothing else. */
  lemma {:induction false} ZeroFilledFits(width: nat, n: nat)
    requires width >= 1 && n < PowerOfTen(width)
    ensures ZeroFilled(width, n) == Fixed(width, n)
  {
    DigitsOf(width, n);
    if width == 1 {
      assert PowerOfTen(1) == 10 * PowerOfTen(0);
      assert Fixed(1, n) == Fixed(0, n / 10) + [0x30 + n % 10];
    } else if n >= 10 {
      ZeroFilledFits(width - 1, n / 10);
      ZeroFilledMore(width, n);
    } else {
      ZeroFilledFits(width - 1, 0);
      ZeroThen(width, n);
    }
  }

  lemma ZeroFilledMore(width: nat, n: nat)
    requires width >= 2 && n >= 10 && |Digits(n)| <= width
    ensures ZeroFilled(width, n) == ZeroFilled(width - 1, n / 10) + [0x30 + n % 10]
  {
  }

  lemma ZeroThen(width: nat, n: nat)
    requires width >= 2 && n < 10
    ensures ZeroFilled(width, n) == ZeroFilled(width - 1, 0) + [0x30 + n]
  {
    var zeros := seq(width - 1, _ => 0x30 as byte);
    assert ZeroFilled(width, n) == zeros + [0x30 + n];
    assert ZeroFilled(width - 1, 0) == zeros;
  }

  lemma {:induction false} BeforeAppended(a: seq<byte>, b: seq<byte>, c: seq<byte>, d: seq<byte>)
    requires |a| == |c|
    ensures BytesBefore(a + b, c + d) <==> BytesBefore(a, c) || (a == c && BytesBefore(b, d))
  {
    if a == [] {
      assert a + b == b && c + d == d;
    } else {
      assert (a + b)[1..] == a[1..] + b && (c + d)[1..] == c[1..] + d;
      BeforeAppended(a[1..], b, c[1..], d);
      assert a == [a[0]] + a[1..] && c == [c[0]] + c[1..];
    }
  }

  /** Numbers of the same width are ordered as their digits are. */
  lemma {:induction false} FixedOrder(width: nat, n: nat, m: nat)
    requires n < PowerOfTen(width) && m < PowerOfTen(width)
    ensures BytesBefore(Fixed(width, n), Fixed(width, m)) <==> n < m
    ensures Fixed(width, n) == Fixed(width, m) <==> n == m
  {
    FixedWrites(width, n);
    FixedWrites(width, m);
    if width > 0 {
      FixedOrder(width - 1, n / 10, m / 10);
      BeforeAppended(Fixed(width - 1, n / 10), [0x30 + n % 10], Fixed(width - 1, m / 10), [0x30 + m % 10]);
    }
  }
}
