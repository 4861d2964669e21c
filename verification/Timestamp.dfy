/** Event timestamps: RFC 3339 in UTC with six fractional digits (section 5.6 profile). */
module Timestamp {
  import opened Wrappers
  import opened Bytes
  import opened Decimals
  import opened Calendar

  datatype EventTimestamp = EventTimestamp(secs: u64, micros: nat)

  const DASH: byte := 0x2D
  const LETTER_T: byte := 0x54
  const COLON: byte := 0x3A
  const DOT: byte := 0x2E
  const LETTER_Z: byte := 0x5A
  const MICROS := 1_000_000

  /** What a timestamp writes. */
  datatype Fields = Fields(date: Date, hour: nat, minute: nat, second: nat, micros: nat)

  function FieldsOf(t: EventTimestamp): Fields {
    var rem := t.secs % 86_400;
    Fields(CivilFromDays(t.secs / 86_400), rem / 3600, rem % 3600 / 60, rem % 60, t.micros)
  }

  lemma AfterEpoch(t: EventTimestamp)
    ensures FieldsOf(t).date.year >= 1970 && Exists(FieldsOf(t).date)
  {
    hide CivilFromDays, DaysFromCivil;
    DaysRoundTrip(t.secs / 86_400);
    EpochIsDayZero();
    DateOrder(FieldsOf(t).date, Date(1970, 1, 1));
  }

  function Display(t: EventTimestamp): seq<byte> {
    AfterEpoch(t);
    var f := FieldsOf(t);
    ZeroFilled(4, f.date.year) + [DASH] + ZeroFilled(2, f.date.month) + [DASH] + ZeroFilled(2, f.date.day) + [LETTER_T]
    + (ZeroFilled(2, f.hour) + [COLON] + ZeroFilled(2, f.minute) + [COLON] + ZeroFilled(2, f.second)
       + [DOT] + ZeroFilled(6, f.micros) + [LETTER_Z])
  }

  predicate WellShaped(s: seq<byte>) {
    && |s| == 27
    && s[4] == DASH && s[7] == DASH && s[10] == LETTER_T && s[13] == COLON && s[16] == COLON && s[19] == DOT && s[26] == LETTER_Z
  }

  predicate DigitsInPlace(s: seq<byte>)
    requires |s| == 27
  {
    AllDigits(s[0..4]) && AllDigits(s[5..7]) && AllDigits(s[8..10]) && AllDigits(s[11..13]) && AllDigits(s[14..16])
    && AllDigits(s[17..19]) && AllDigits(s[20..26])
  }

  function FieldsIn(s: seq<byte>): Fields
    requires |s| == 27 && DigitsInPlace(s)
  {
    Fields(Date(Decimal(s[0..4]), Decimal(s[5..7]), Decimal(s[8..10])),
           Decimal(s[11..13]), Decimal(s[14..16]), Decimal(s[17..19]), Decimal(s[20..26]))
  }

  function Parse(s: seq<byte>): Result<EventTimestamp, seq<byte>> {
    if !WellShaped(s) || !DigitsInPlace(s) then Failure(s)
    else
      var f := FieldsIn(s);
      if !(1 <= f.date.month <= 12) || !(1 <= f.date.day <= 31) then Failure(s)
      else if f.hour > 23 || f.minute > 59 || f.second > 59 then Failure(s)
      else
        var days := DaysFromCivil(f.date);
        if CivilFromDays(days) != f.date || days < 0 then Failure(s)
        else
          var secs := days * 86_400 + f.hour * 3600 + f.minute * 60 + f.second;
          SecondsFit(s, secs);
          Success(EventTimestamp(secs, f.micros))
  }

  // ---------------------------------------------------------------- layout

  /** Four digits of year, two of everything else, six of microseconds. */
  predicate FitsLayout(f: Fields) {
    && 0 <= f.date.year < 10_000 && 0 <= f.date.month < 100 && 0 <= f.date.day < 100
    && f.hour < 100 && f.minute < 100 && f.second < 100 && f.micros < MICROS
  }

  function DateLayout(date: Date): (s: seq<byte>)
    requires date.year >= 0 && date.month >= 0 && date.day >= 0
    ensures |s| == 10
  {
    Fixed(4, date.year) + [DASH] + Fixed(2, date.month) + [DASH] + Fixed(2, date.day)
  }

  function ClockLayout(f: Fields): (s: seq<byte>)
    ensures |s| == 16
  {
    Fixed(2, f.hour) + [COLON] + Fixed(2, f.minute) + [COLON] + Fixed(2, f.second) + [DOT] + Fixed(6, f.micros) + [LETTER_Z]
  }

  function Layout(f: Fields): (s: seq<byte>)
    requires FitsLayout(f)
    ensures |s| == 27
  {
    DateLayout(f.date) + [LETTER_T] + ClockLayout(f)
  }

  lemma Powers()
    ensures PowerOfTen(2) == 100 && PowerOfTen(4) == 10_000 && PowerOfTen(6) == 1_000_000
  {
    assert PowerOfTen(1) == 10 * PowerOfTen(0);
    assert PowerOfTen(3) == 10 * PowerOfTen(2);
    assert PowerOfTen(5) == 10 * PowerOfTen(4);
  }

  lemma DateSlices(date: Date)
    requires date.year >= 0 && date.month >= 0 && date.day >= 0
    ensures var s := DateLayout(date);
      s[0..4] == Fixed(4, date.year) && s[4] == DASH && s[5..7] == Fixed(2, date.month) && s[7] == DASH
      && s[8..10] == Fixed(2, date.day)
  {
    hide Fixed;
  }

  lemma ClockSlices(f: Fields)
    ensures var s := ClockLayout(f);
      s[0..2] == Fixed(2, f.hour) && s[2] == COLON && s[3..5] == Fixed(2, f.minute) && s[5] == COLON
      && s[6..8] == Fixed(2, f.second) && s[8] == DOT && s[9..15] == Fixed(6, f.micros) && s[15] == LETTER_Z
  {
    hide Fixed;
  }

  /** Slices of the two halves are slices of the whole. */
  lemma HalvesOf(s: seq<byte>, date: seq<byte>, clock: seq<byte>)
    requires |date| == 10 && |clock| == 16 && s == date + [LETTER_T] + clock
    ensures |s| == 27 && s[10] == LETTER_T
    ensures s[0..4] == date[0..4] && s[4] == date[4] && s[5..7] == date[5..7] && s[7] == date[7] && s[8..10] == date[8..10]
    ensures s[11..13] == clock[0..2] && s[13] == clock[2] && s[14..16] == clock[3..5] && s[16] == clock[5]
    ensures s[17..19] == clock[6..8] && s[19] == clock[8] && s[20..26] == clock[9..15] && s[26] == clock[15]
  {
  }

  /** The layout of some fields is well shaped and reads as them. */
  lemma LayoutReads(f: Fields)
    requires FitsLayout(f)
    ensures WellShaped(Layout(f)) && DigitsInPlace(Layout(f)) && FieldsIn(Layout(f)) == f
  {
    hide Fixed, Decimal, DateLayout, ClockLayout, AllDigits;
    HalvesOf(Layout(f), DateLayout(f.date), ClockLayout(f));
    DateSlices(f.date);
    ClockSlices(f);
    Powers();
    FixedWrites(4, f.date.year);
    FixedWrites(2, f.date.month);
    FixedWrites(2, f.date.day);
    FixedWrites(2, f.hour);
    FixedWrites(2, f.minute);
    FixedWrites(2, f.second);
    FixedWrites(6, f.micros);
  }

  lemma DateGathers(d: seq<byte>)
    requires |d| == 10 && d[4] == DASH && d[7] == DASH
    requires AllDigits(d[0..4]) && AllDigits(d[5..7]) && AllDigits(d[8..10])
    ensures DateLayout(Date(Decimal(d[0..4]), Decimal(d[5..7]), Decimal(d[8..10]))) == d
  {
    hide Fixed, Decimal;
    FixedReads(d[0..4]);
    FixedReads(d[5..7]);
    FixedReads(d[8..10]);
    assert d == d[0..4] + [DASH] + d[5..7] + [DASH] + d[8..10];
  }

  lemma ClockGathers(c: seq<byte>, f: Fields)
    requires |c| == 16 && c[2] == COLON && c[5] == COLON && c[8] == DOT && c[15] == LETTER_Z
    requires AllDigits(c[0..2]) && AllDigits(c[3..5]) && AllDigits(c[6..8]) && AllDigits(c[9..15])
    requires f.hour == Decimal(c[0..2]) && f.minute == Decimal(c[3..5]) && f.second == Decimal(c[6..8]) && f.micros == Decimal(c[9..15])
    ensures ClockLayout(f) == c
  {
    hide Fixed, Decimal;
    FixedReads(c[0..2]);
    FixedReads(c[3..5]);
    FixedReads(c[6..8]);
    FixedReads(c[9..15]);
    assert c == c[0..2] + [COLON] + c[3..5] + [COLON] + c[6..8] + [DOT] + c[9..15] + [LETTER_Z];
  }

  /** A well-shaped string is the layout of the fields it reads as. */
  lemma ShapeIsLayout(s: seq<byte>)
    requires WellShaped(s) && DigitsInPlace(s)
    ensures FitsLayout(FieldsIn(s)) && Layout(FieldsIn(s)) == s
  {
    hide Fixed, Decimal, DateLayout, ClockLayout, AllDigits;
    var date, clock := s[..10], s[11..];
    assert s == date + [LETTER_T] + clock;
    HalvesOf(s, date, clock);
    DateGathers(date);
    ClockGathers(clock, FieldsIn(s));
    Powers();
    FixedReads(s[0..4]);
    FixedReads(s[5..7]);
    FixedReads(s[8..10]);
    FixedReads(s[11..13]);
    FixedReads(s[14..16]);
    FixedReads(s[17..19]);
    FixedReads(s[20..26]);
  }

  // ---------------------------------------------------------------- the time of the fields

  predicate OnTheClock(f: Fields) {
    f.hour < 24 && f.minute < 60 && f.second < 60
  }

  /** The timestamp some fields say. */
  lemma TimeOfFields(f: Fields, secs: nat)
    requires Exists(f.date) && DaysFromCivil(f.date) >= 0 && OnTheClock(f)
    requires secs == DaysFromCivil(f.date) * 86_400 + f.hour * 3600 + f.minute * 60 + f.second && secs <= U64_MAX
    ensures FieldsOf(EventTimestamp(secs, f.micros)) == f
  {
    hide DaysFromCivil, CivilFromDays;
    DateRoundTrip(f.date);
    var rem := f.hour * 3600 + f.minute * 60 + f.second;
    Quotient(secs, 86_400, DaysFromCivil(f.date), rem);
    Quotient(rem, 3600, f.hour, f.minute * 60 + f.second);
  }

  lemma FieldsOfTime(t: EventTimestamp)
    ensures var f := FieldsOf(t);
      && Exists(f.date) && OnTheClock(f) && f.micros == t.micros && DaysFromCivil(f.date) == t.secs / 86_400
      && t.secs == DaysFromCivil(f.date) * 86_400 + f.hour * 3600 + f.minute * 60 + f.second
  {
    hide DaysFromCivil, CivilFromDays;
    DaysRoundTrip(t.secs / 86_400);
  }

  /** The first second of year 10000. */
  const YEAR_10000: u64 := 253_402_300_800

  lemma YearTenThousand()
    ensures DaysFromCivil(Date(10_000, 1, 1)) * 86_400 == YEAR_10000 && Exists(Date(10_000, 1, 1))
  {
  }

  lemma FourDigitYears(t: EventTimestamp)
    ensures FieldsOf(t).date.year < 10_000 <==> t.secs < YEAR_10000
  {
    hide DaysFromCivil, CivilFromDays;
    FieldsOfTime(t);
    YearTenThousand();
    DateOrder(FieldsOf(t).date, Date(10_000, 1, 1));
  }

  lemma MonthFits(date: Date)
    requires Exists(date)
    ensures 1 <= date.month <= 12 && 1 <= date.day <= 31
  {
  }

  /** Four-digit years come nowhere near the end of 64 bits. */
  lemma SecondsFit(s: seq<byte>, secs: int)
    requires WellShaped(s) && DigitsInPlace(s) && OnTheClock(FieldsIn(s))
    requires var f := FieldsIn(s);
      && CivilFromDays(DaysFromCivil(f.date)) == f.date && DaysFromCivil(f.date) >= 0
      && secs == DaysFromCivil(f.date) * 86_400 + f.hour * 3600 + f.minute * 60 + f.second
    ensures 0 <= secs < YEAR_10000
  {
    hide DaysFromCivil, CivilFromDays, Decimal, AllDigits;
    ShapeIsLayout(s);
    RoundTripDetects(FieldsIn(s).date);
    EarlyEnough(FieldsIn(s), secs);
  }

  /** Up to year 9999 a timestamp displays as the layout of its fields. */
  lemma DisplayIsLayout(t: EventTimestamp)
    requires t.micros < MICROS && t.secs < YEAR_10000
    ensures FitsLayout(FieldsOf(t)) && Display(t) == Layout(FieldsOf(t))
  {
    hide Fixed, ZeroFilled, CivilFromDays, DaysFromCivil, FieldsOf, Exists;
    var f := FieldsOf(t);
    AfterEpoch(t);
    FieldsOfTime(t);
    FourDigitYears(t);
    MonthFits(f.date);
    Powers();
    ZeroFilledFits(4, f.date.year);
    ZeroFilledFits(2, f.date.month);
    ZeroFilledFits(2, f.date.day);
    ZeroFilledFits(2, f.hour);
    ZeroFilledFits(2, f.minute);
    ZeroFilledFits(2, f.second);
    ZeroFilledFits(6, f.micros);
  }

  // ---------------------------------------------------------------- parse and display

  lemma EarlyEnough(f: Fields, secs: int)
    requires FitsLayout(f) && Exists(f.date) && OnTheClock(f)
    requires secs == DaysFromCivil(f.date) * 86_400 + f.hour * 3600 + f.minute * 60 + f.second
    ensures secs < YEAR_10000
    ensures DaysFromCivil(f.date) >= 0 <==> f.date.year >= 1970
  {
    hide DaysFromCivil;
    YearTenThousand();
    DateOrder(f.date, Date(10_000, 1, 1));
    EpochIsDayZero();
    DateOrder(f.date, Date(1970, 1, 1));
  }

  /** A string is accepted exactly if it is well shaped and its date and time exist, from 1970 on. */
  lemma ParseAccepts(s: seq<byte>)
    ensures Parse(s).Success? <==>
      WellShaped(s) && DigitsInPlace(s) && Exists(FieldsIn(s).date) && FieldsIn(s).date.year >= 1970 && OnTheClock(FieldsIn(s))
  {
    hide CivilFromDays, DaysFromCivil, Decimal, AllDigits, Exists;
    if WellShaped(s) && DigitsInPlace(s) {
      var f := FieldsIn(s);
      ShapeIsLayout(s);
      RoundTripDetects(f.date);
      if Exists(f.date) && OnTheClock(f) {
        MonthFits(f.date);
        EarlyEnough(f, DaysFromCivil(f.date) * 86_400 + f.hour * 3600 + f.minute * 60 + f.second);
      }
    }
  }

  /** What was parsed displays as the string it came from. */
  lemma DisplayUndoesParse(s: seq<byte>)
    requires Parse(s).Success?
    ensures Parse(s).value.micros < MICROS && Parse(s).value.secs < YEAR_10000 && Display(Parse(s).value) == s
  {
    hide CivilFromDays, DaysFromCivil, Decimal, AllDigits, Exists, Layout, Display, FieldsOf;
    var f := FieldsIn(s);
    var t := Parse(s).value;
    ParseAccepts(s);
    ShapeIsLayout(s);
    EarlyEnough(f, t.secs);
    TimeOfFields(f, t.secs);
    DisplayIsLayout(t);
  }

  /** What is displayed parses back, exactly up to year 9999. */
  lemma ParseUndoesDisplay(t: EventTimestamp)
    requires t.micros < MICROS
    ensures Parse(Display(t)) == Success(t) <==> t.secs < YEAR_10000
  {
    hide CivilFromDays, DaysFromCivil, Decimal, AllDigits, Exists, Layout, Display, FieldsOf, FieldsIn, DigitsInPlace, WellShaped;
    if t.secs < YEAR_10000 {
      var f := FieldsOf(t);
      DisplayIsLayout(t);
      LayoutReads(f);
      FieldsOfTime(t);
      MonthFits(f.date);
      RoundTripDetects(f.date);
    } else if Parse(Display(t)).Success? {
      DisplayUndoesParse(Display(t));
    }
  }

  // ---------------------------------------------------------------- order

  predicate Before(a: EventTimestamp, b: EventTimestamp) {
    a.secs < b.secs || (a.secs == b.secs && a.micros < b.micros)
  }

  /** Fields in the order they are written. */
  predicate ClockBefore(a: Fields, b: Fields) {
    || a.hour < b.hour
    || (a.hour == b.hour && (a.minute < b.minute
        || (a.minute == b.minute && (a.second < b.second || (a.second == b.second && a.micros < b.micros)))))
  }

  lemma OneMore(a: seq<byte>, b: seq<byte>, sep: byte)
    requires |a| == |b|
    ensures BytesBefore(a + [sep], b + [sep]) <==> BytesBefore(a, b)
    ensures a + [sep] == b + [sep] <==> a == b
  {
    BeforeAppended(a, [sep], b, [sep]);
    assert (a + [sep])[..|a|] == a && (b + [sep])[..|b|] == b;
  }

  lemma AppendBefore(a: seq<byte>, b: seq<byte>, x: seq<byte>, y: seq<byte>)
    requires |a| == |b| && |x| == |y|
    ensures BytesBefore(a + x, b + y) <==> BytesBefore(a, b) || (a == b && BytesBefore(x, y))
    ensures a + x == b + y <==> a == b && x == y
  {
    BeforeAppended(a, x, b, y);
    assert (a + x)[..|a|] == a && (b + y)[..|b|] == b && (a + x)[|a|..] == x && (b + y)[|b|..] == y;
  }

  lemma DateLayoutOrder(a: Fields, b: Fields)
    requires FitsLayout(a) && FitsLayout(b)
    ensures BytesBefore(DateLayout(a.date), DateLayout(b.date)) <==> Earlier(a.date, b.date)
    ensures DateLayout(a.date) == DateLayout(b.date) <==> a.date == b.date
  {
    hide Fixed, BytesBefore;
    Powers();
    FixedOrder(4, a.date.year, b.date.year);
    FixedOrder(2, a.date.month, b.date.month);
    FixedOrder(2, a.date.day, b.date.day);
    var (y, y') := (Fixed(4, a.date.year), Fixed(4, b.date.year));
    var (m, m') := (Fixed(2, a.date.month), Fixed(2, b.date.month));
    OneMore(y, y', DASH);
    AppendBefore(y + [DASH], y' + [DASH], m, m');
    OneMore(y + [DASH] + m, y' + [DASH] + m', DASH);
    AppendBefore(y + [DASH] + m + [DASH], y' + [DASH] + m' + [DASH], Fixed(2, a.date.day), Fixed(2, b.date.day));
  }

  lemma ClockLayoutOrder(a: Fields, b: Fields)
    requires FitsLayout(a) && FitsLayout(b)
    ensures BytesBefore(ClockLayout(a), ClockLayout(b)) <==> ClockBefore(a, b)
  {
    hide Fixed, BytesBefore;
    Powers();
    FixedOrder(2, a.hour, b.hour);
    FixedOrder(2, a.minute, b.minute);
    FixedOrder(2, a.second, b.second);
    FixedOrder(6, a.micros, b.micros);
    var (h, h') := (Fixed(2, a.hour) + [COLON], Fixed(2, b.hour) + [COLON]);
    OneMore(Fixed(2, a.hour), Fixed(2, b.hour), COLON);
    var (m, m') := (h + Fixed(2, a.minute), h' + Fixed(2, b.minute));
    AppendBefore(h, h', Fixed(2, a.minute), Fixed(2, b.minute));
    OneMore(m, m', COLON);
    var (s, s') := (m + [COLON] + Fixed(2, a.second), m' + [COLON] + Fixed(2, b.second));
    AppendBefore(m + [COLON], m' + [COLON], Fixed(2, a.second), Fixed(2, b.second));
    OneMore(s, s', DOT);
    AppendBefore(s + [DOT], s' + [DOT], Fixed(6, a.micros), Fixed(6, b.micros));
    OneMore(s + [DOT] + Fixed(6, a.micros), s' + [DOT] + Fixed(6, b.micros), LETTER_Z);
  }

  lemma LayoutOrder(a: Fields, b: Fields)
    requires FitsLayout(a) && FitsLayout(b)
    ensures BytesBefore(Layout(a), Layout(b)) <==> Earlier(a.date, b.date) || (a.date == b.date && ClockBefore(a, b))
  {
    hide BytesBefore, DateLayout, ClockLayout;
    DateLayoutOrder(a, b);
    ClockLayoutOrder(a, b);
    OneMore(DateLayout(a.date), DateLayout(b.date), LETTER_T);
    AppendBefore(DateLayout(a.date) + [LETTER_T], DateLayout(b.date) + [LETTER_T], ClockLayout(a), ClockLayout(b));
  }

  lemma ClockCounts(a: Fields, b: Fields)
    requires OnTheClock(a) && OnTheClock(b)
    ensures ClockBefore(a, b) <==>
      var (x, y) := (a.hour * 3600 + a.minute * 60 + a.second, b.hour * 3600 + b.minute * 60 + b.second);
      x < y || (x == y && a.micros < b.micros)
  {
  }

  /** Up to year 9999, byte order is time order. */
  lemma ByteOrderIsTimeOrder(a: EventTimestamp, b: EventTimestamp)
    requires a.micros < MICROS && b.micros < MICROS && a.secs < YEAR_10000 && b.secs < YEAR_10000
    ensures BytesBefore(Display(a), Display(b)) <==> Before(a, b)
  {
    hide BytesBefore, Display, Layout, CivilFromDays, DaysFromCivil, FieldsOf, Exists;
    var (f, g) := (FieldsOf(a), FieldsOf(b));
    DisplayIsLayout(a);
    DisplayIsLayout(b);
    LayoutOrder(f, g);
    FieldsOfTime(a);
    FieldsOfTime(b);
    DateOrder(f.date, g.date);
    DateOrder(g.date, f.date);
    SameDay(f.date, g.date);
    ClockCounts(f, g);
  }

  lemma SameDay(a: Date, b: Date)
    requires Exists(a) && Exists(b)
    ensures a == b <==> DaysFromCivil(a) == DaysFromCivil(b)
  {
    hide DaysFromCivil, CivilFromDays;
    DateRoundTrip(a);
    DateRoundTrip(b);
  }

  /** From year 10000 on it is not: the first second of that year is written before the year 9999. */
  lemma YearTenThousandIsOutOfOrder()
    ensures var (a, b) := (EventTimestamp(YEAR_10000 - 1, 0), EventTimestamp(YEAR_10000, 0));
      Before(a, b) && BytesBefore(Display(b), Display(a))
  {
    hide CivilFromDays, DaysFromCivil, Exists;
    var (a, b) := (EventTimestamp(YEAR_10000 - 1, 0), EventTimestamp(YEAR_10000, 0));
    YearTenThousand();
    DateRoundTrip(Date(10_000, 1, 1));
    AfterEpoch(b);
    FourDigitYears(a);
    FieldsOfTime(a);
    LastYearBefore(a);
    FirstByte(9999, 0x39);
    FirstByte(10_000, 0x31);
  }

  predicate OrderedAsWritten(a: EventTimestamp, b: EventTimestamp)
    requires a.micros < MICROS && b.micros < MICROS
  {
    BytesBefore(Display(a), Display(b)) <==> Before(a, b)
  }

  /** Byte order is time order for all timestamps before a bound exactly if the bound is no later than year 10000. */
  lemma {:induction false} ByteOrderUpTo(limit: nat)
    ensures (forall a: EventTimestamp, b: EventTimestamp
               | a.micros < MICROS && b.micros < MICROS && a.secs < limit && b.secs < limit :: OrderedAsWritten(a, b))
            <==> limit <= YEAR_10000
  {
    hide BytesBefore, Display, OrderedAsWritten;
    if limit <= YEAR_10000 {
      forall a: EventTimestamp, b: EventTimestamp | a.micros < MICROS && b.micros < MICROS && a.secs < limit && b.secs < limit
        ensures OrderedAsWritten(a, b)
      {
        WrittenInOrder(a, b);
      }
    } else {
      var (a, b) := (EventTimestamp(YEAR_10000 - 1, 0), EventTimestamp(YEAR_10000, 0));
      WrittenOutOfOrder(b, a);
      assert a.secs < limit && b.secs < limit;
    }
  }

  lemma WrittenInOrder(a: EventTimestamp, b: EventTimestamp)
    requires a.micros < MICROS && b.micros < MICROS && a.secs < YEAR_10000 && b.secs < YEAR_10000
    ensures OrderedAsWritten(a, b)
  {
    hide BytesBefore, Display;
    ByteOrderIsTimeOrder(a, b);
  }

  lemma WrittenOutOfOrder(later: EventTimestamp, earlier: EventTimestamp)
    requires earlier == EventTimestamp(YEAR_10000 - 1, 0) && later == EventTimestamp(YEAR_10000, 0)
    ensures !OrderedAsWritten(later, earlier)
  {
    hide BytesBefore, Display;
    YearTenThousandIsOutOfOrder();
  }

  lemma LastYearBefore(t: EventTimestamp)
    requires t.secs == YEAR_10000 - 1
    ensures FieldsOf(t).date.year == 9999
  {
    hide CivilFromDays, DaysFromCivil, FieldsOf;
    FieldsOfTime(t);
    FourDigitYears(t);
    assert DaysFromCivil(Date(9999, 1, 1)) * 86_400 <= t.secs by { NineThousand(); }
    DateOrder(FieldsOf(t).date, Date(9999, 1, 1));
  }

  lemma NineThousand()
    ensures DaysFromCivil(Date(9999, 1, 1)) == 2_932_532
  {
  }

  lemma FirstByte(year: nat, first: byte)
    requires (year == 9999 && first == 0x39) || (year == 10_000 && first == 0x31)
    ensures ZeroFilled(4, year)[0] == first
  {
    assert |Digits(year / 1000)| <= 2;
    assert Digits(year / 10) == Digits(year / 100) + [0x30 + year / 10 % 10];
    assert Digits(year / 100) == Digits(year / 1000) + [0x30 + year / 100 % 10];
  }

  // ---------------------------------------------------------------- user-supplied timestamps

  function FirstDot(s: seq<byte>): (i: nat)
    ensures i <= |s| && DOT !in s[..i] && (i < |s| ==> s[i] == DOT)
  {
    if s == [] || s[0] == DOT then 0
    else
      var i := FirstDot(s[1..]);
      assert s[..i + 1] == [s[0]] + s[1..][..i];
      i + 1
  }

  const SIX_ZEROS: seq<byte> := [0x30, 0x30, 0x30, 0x30, 0x30, 0x30]

  /** The first six digits of a fraction, zeros where it has fewer. */
  function SixDigits(fraction: seq<byte>): (six: seq<byte>)
    ensures |six| == 6
  {
    (fraction + SIX_ZEROS)[..6]
  }

  /** Zero to nine fractional digits, cut or filled to six. */
  function ParseFlexible(s: seq<byte>): Result<EventTimestamp, seq<byte>> {
    if s == [] || s[|s| - 1] != LETTER_Z then Failure(s)
    else
      var rest := s[..|s| - 1];
      var i := FirstDot(rest);
      var fraction := if i < |rest| then rest[i + 1..] else [];
      if |fraction| > 9 || !AllDigits(fraction) then Failure(s)
      else Parse(rest[..i] + [DOT] + SixDigits(fraction) + [LETTER_Z])
  }

  lemma {:induction false} DotAt(seconds: seq<byte>, rest: seq<byte>)
    requires DOT !in seconds && (rest == [] || rest[0] == DOT)
    ensures FirstDot(seconds + rest) == |seconds|
  {
    if seconds == [] {
      assert seconds + rest == rest;
    } else {
      assert (seconds + rest)[1..] == seconds[1..] + rest;
      DotAt(seconds[1..], rest);
    }
  }

  /** The timestamp up to its seconds, as a user may write it: with no fraction, or with one. */
  function Written(seconds: seq<byte>, fraction: Option<seq<byte>>): seq<byte> {
    seconds + (if fraction.Some? then [DOT] + fraction.value else []) + [LETTER_Z]
  }

  /** Up to nine digits are read as the strict form with six; more are refused. */
  lemma FlexibleMeans(seconds: seq<byte>, fraction: Option<seq<byte>>)
    requires DOT !in seconds && (fraction.Some? ==> AllDigits(fraction.value))
    ensures var digits := if fraction.Some? then fraction.value else [];
      ParseFlexible(Written(seconds, fraction))
      == if |digits| <= 9 then Parse(seconds + [DOT] + SixDigits(digits) + [LETTER_Z])
         else Failure(Written(seconds, fraction))
  {
    hide Parse;
    var tail := if fraction.Some? then [DOT] + fraction.value else [];
    var s := Written(seconds, fraction);
    assert s[..|s| - 1] == seconds + tail;
    DotAt(seconds, tail);
    assert (seconds + tail)[..|seconds|] == seconds;
    if fraction.Some? {
      assert (seconds + tail)[|seconds| + 1..] == fraction.value;
    }
  }

  /** Every strict timestamp is read the same. */
  lemma StrictIsFlexible(s: seq<byte>)
    requires Parse(s).Success?
    ensures ParseFlexible(s) == Parse(s)
  {
    hide Parse, DigitsInPlace, FieldsIn, ParseFlexible;
    ParseAccepts(s);
    var seconds, digits := s[..19], s[20..26];
    StrictHasOneDot(s);
    assert s == Written(seconds, Some(digits));
    FlexibleMeans(seconds, Some(digits));
    assert SixDigits(digits) == digits;
    assert s == seconds + [DOT] + digits + [LETTER_Z];
  }

  lemma StrictHasOneDot(s: seq<byte>)
    requires WellShaped(s) && DigitsInPlace(s)
    ensures DOT !in s[..19] && AllDigits(s[20..26])
  {
    assert s[..19] == s[0..4] + [DASH] + s[5..7] + [DASH] + s[8..10] + [LETTER_T] + s[11..13] + [COLON] + s[14..16]
                      + [COLON] + s[17..19];
  }
}
