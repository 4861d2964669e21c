/** Days and Gregorian dates: the conversions the event timestamps use, and what they count. */
module Calendar {
  datatype Date = Date(year: int, month: int, day: int)

  /** Integer division as the machine does it, towards zero. */
  function Truncated(a: int, b: int): int
    requires b > 0
  {
    if a >= 0 then a / b else -(-a / b)
  }

  /** The day of the 400-year era to the year of the era. Years here start in March. */
  function YearOfEra(doe: int): int {
    (doe - doe / 1460 + doe / 36_524 - doe / 146_096) / 365
  }

  function YearStart(yoe: int): int {
    365 * yoe + yoe / 4 - yoe / 100
  }

  /** Days since 1970-01-01 to a date. */
  function CivilFromDays(days: int): Date {
    var z := days + 719_468;
    var era := Truncated(if z >= 0 then z else z - 146_096, 146_097);
    var doe := z - era * 146_097;
    var yoe := YearOfEra(doe);
    var y := yoe + era * 400;
    var doy := doe - YearStart(yoe);
    var mp := (5 * doy + 2) / 153;
    var d := doy - (153 * mp + 2) / 5 + 1;
    var m := if mp < 10 then mp + 3 else mp - 9;
    Date(if m <= 2 then y + 1 else y, m, d)
  }

  /** A date to days since 1970-01-01. */
  function DaysFromCivil(date: Date): int {
    var y := if date.month <= 2 then date.year - 1 else date.year;
    var era := Truncated(if y >= 0 then y else y - 399, 400);
    var yoe := y - era * 400;
    var doy := (153 * (if date.month > 2 then date.month - 3 else date.month + 9) + 2) / 5 + date.day - 1;
    era * 146_097 + (YearStart(yoe) + doy) - 719_468
  }

  // ---------------------------------------------------------------- the calendar itself

  predicate IsLeap(year: int) {
    year % 4 == 0 && (year % 100 != 0 || year % 400 == 0)
  }

  function MonthLength(year: int, month: int): int {
    if month == 2 then (if IsLeap(year) then 29 else 28)
    else if month in {4, 6, 9, 11} then 30
    else 31
  }

  predicate Exists(date: Date) {
    1 <= date.month <= 12 && 1 <= date.day <= MonthLength(date.year, date.month)
  }

  function YearLength(year: int): int {
    if IsLeap(year) then 366 else 365
  }

  /** Days from 1970-01-01 to the start of a year, year by year. */
  function DaysToYear(year: int): int
    decreases if year >= 1970 then year - 1970 else 1970 - year
  {
    if year == 1970 then 0
    else if year > 1970 then DaysToYear(year - 1) + YearLength(year - 1)
    else DaysToYear(year + 1) - YearLength(year)
  }

  /** Days from the start of a year to the start of a month, month by month. */
  function DaysToMonth(year: int, month: nat): int
  {
    if month <= 1 then 0 else DaysToMonth(year, month - 1) + MonthLength(year, month - 1)
  }

  predicate Earlier(a: Date, b: Date) {
    a.year < b.year || (a.year == b.year && (a.month < b.month || (a.month == b.month && a.day < b.day)))
  }

  // ---------------------------------------------------------------- eras

  lemma FloorDivision(a: int, b: int)
    requires b > 0
    ensures Truncated(if a >= 0 then a else a - (b - 1), b) == a / b
  {
    if a < 0 {
      var q, r := a / b, a % b;
      assert a == b * q + r;
      var n := -(a - (b - 1));
      assert n == b * (-q) + (b - 1 - r);
      Quotient(n, b, -q, b - 1 - r);
    }
  }

  lemma Quotient(n: int, b: int, q: int, r: int)
    requires b > 0 && n == b * q + r && 0 <= r < b
    ensures n / b == q && n % b == r
  {
    var d := n / b - q;
    assert b * d == r - n % b;
    assert d >= 1 ==> b * d >= b;
    assert d <= -1 ==> b * d <= -b;
  }

  /** A day of the era as centuries, four-year cycles and days. */
  predicate Cycles(doe: int, c: int, q: int, s: int) {
    && 0 <= c < 4 && 0 <= q < 25 && 0 <= s <= 1460
    && (q == 24 && c < 3 ==> s < 1460)
    && doe == 36_524 * c + 1461 * q + s
  }

  function YearInCycle(s: int): int {
    if s < 1095 then s / 365 else 3
  }

  /** The divisions by almost-cycles: leap days not yet seen. */
  lemma CycleDivisions(doe: int, c: int, q: int, s: int, e: int)
    requires Cycles(doe, c, q, s) && e == (24 * c + q + s) / 1460
    ensures 0 <= e <= 1 && (e == 1 ==> s >= 1364)
    ensures doe / 1460 == 25 * c + q + e && doe / 36_524 - doe / 146_096 == c
  {
    Quotient(doe, 1460, 25 * c + q + e, 24 * c + q + s - 1460 * e);
    var f := if c == 3 && q == 24 && s == 1460 then 1 else 0;
    Quotient(doe, 36_524, c + f, 1461 * q + s - 36_524 * f);
    Quotient(doe, 146_096, f, doe - 146_096 * f);
  }

  lemma YearFromCycles(doe: int, c: int, q: int, s: int)
    requires Cycles(doe, c, q, s)
    ensures YearOfEra(doe) == 100 * c + 4 * q + YearInCycle(s)
    ensures YearStart(YearOfEra(doe)) == 36_524 * c + 1461 * q + 365 * YearInCycle(s)
  {
    var e, a := (24 * c + q + s) / 1460, YearInCycle(s);
    CycleDivisions(doe, c, q, s, e);
    Quotient(36_500 * c + 1460 * q + s - e, 365, 100 * c + 4 * q + a, s - e - 365 * a);
    StartFromCycles(c, q, a);
  }

  lemma StartFromCycles(c: int, q: int, a: int)
    requires 0 <= c < 4 && 0 <= q < 25 && 0 <= a < 4
    ensures YearStart(100 * c + 4 * q + a) == 36_524 * c + 1461 * q + 365 * a
  {
    Quotient(100 * c + 4 * q + a, 4, 25 * c + q, a);
    Quotient(100 * c + 4 * q + a, 100, c, 4 * q + a);
  }

  lemma CyclesOf(doe: int) returns (c: int, q: int, s: int)
    requires 0 <= doe < 146_097
    ensures Cycles(doe, c, q, s)
  {
    c := if doe < 109_572 then doe / 36_524 else 3;
    var r := doe - 36_524 * c;
    q := if r < 35_064 then r / 1461 else 24;
    s := r - 1461 * q;
  }

  /** Whether the March-based year has a 29 February at its end. */
  predicate LongYear(yoe: int) {
    IsLeap(yoe + 1)
  }

  lemma LeapCycles(c: int, q: int, a: int)
    requires 0 <= c < 4 && 0 <= q < 25 && 0 <= a < 4
    ensures LongYear(100 * c + 4 * q + a) <==> a == 3 && (q < 24 || c == 3)
  {
    var y := 100 * c + 4 * q + a + 1;
    Quotient(y, 4, if a == 3 then 25 * c + q + 1 else 25 * c + q, if a == 3 then 0 else a + 1);
    if a == 3 && q == 24 {
      Quotient(y, 100, c + 1, 0);
      Quotient(y, 400, if c == 3 then 1 else 0, if c == 3 then 0 else y);
    } else {
      Quotient(y, 100, c, 4 * q + a + 1);
    }
  }

  lemma LeapByEra(yoe: int, era: int)
    ensures IsLeap(yoe + era * 400) <==> IsLeap(yoe)
  {
    var y := yoe + era * 400;
    Quotient(y, 4, yoe / 4 + 100 * era, yoe % 4);
    Quotient(y, 100, yoe / 100 + 4 * era, yoe % 100);
    Quotient(y, 400, yoe / 400 + era, yoe % 400);
  }

  // ---------------------------------------------------------------- months

  function MonthOf(mp: int): int {
    if mp < 10 then mp + 3 else mp - 9
  }

  /** Days of the March-based year before its month `mp`. */
  function MonthStart(mp: int): int {
    (153 * mp + 2) / 5
  }

  /** The month and day of a day of the March-based year. */
  lemma MonthFromDay(doy: int, y: int)
    requires 0 <= doy < 365 || (doy == 365 && IsLeap(y + 1))
    ensures var mp := (5 * doy + 2) / 153;
      && 0 <= mp < 12
      && 1 <= doy - MonthStart(mp) + 1 <= MonthLength(if mp >= 10 then y + 1 else y, MonthOf(mp))
  {
    var mp := (5 * doy + 2) / 153;
    assert mp == 0 || mp == 1 || mp == 2 || mp == 3 || mp == 4 || mp == 5 || mp == 6 || mp == 7 || mp == 8
           || mp == 9 || mp == 10 || mp == 11;
  }

  /** A day within its month gives that month back. */
  lemma DayFromMonth(mp: int, d: int, y: int)
    requires 0 <= mp < 12 && 1 <= d <= MonthLength(if mp >= 10 then y + 1 else y, MonthOf(mp))
    ensures var doy := MonthStart(mp) + d - 1;
      && 0 <= doy <= 365 && (doy == 365 ==> IsLeap(y + 1))
      && (5 * doy + 2) / 153 == mp
  {
    assert mp == 0 || mp == 1 || mp == 2 || mp == 3 || mp == 4 || mp == 5 || mp == 6 || mp == 7 || mp == 8
           || mp == 9 || mp == 10 || mp == 11;
  }

  // ---------------------------------------------------------------- inverses

  /** A March-based year of an era and a day in it. */
  function EraDate(era: int, yoe: int, doy: int): Date {
    var mp := (5 * doy + 2) / 153;
    var y := yoe + era * 400;
    Date(if mp >= 10 then y + 1 else y, MonthOf(mp), doy - MonthStart(mp) + 1)
  }

  predicate InYear(yoe: int, doy: int) {
    0 <= yoe < 400 && 0 <= doy <= 365 && (doy == 365 ==> LongYear(yoe))
  }

  lemma DayFits(yoe: int, doy: int)
    requires InYear(yoe, doy)
    ensures var doe := YearStart(yoe) + doy; 0 <= doe < 146_097 && YearOfEra(doe) == yoe
  {
    var c, q, a := yoe / 100, yoe % 100 / 4, yoe % 4;
    assert yoe % 100 % 4 == a;
    LeapCycles(c, q, a);
    var s := 365 * a + doy;
    var doe := 36_524 * c + 1461 * q + s;
    assert Cycles(doe, c, q, s);
    YearFromCycles(doe, c, q, s);
    assert YearInCycle(s) == a;
  }

  lemma DaySplits(doe: int)
    requires 0 <= doe < 146_097
    ensures InYear(YearOfEra(doe), doe - YearStart(YearOfEra(doe)))
  {
    hide YearOfEra, YearStart, IsLeap;
    var c, q, s := CyclesOf(doe);
    YearFromCycles(doe, c, q, s);
    LeapCycles(c, q, YearInCycle(s));
  }

  lemma CivilOfEra(days: int)
    ensures var z := days + 719_468;
      var doe := z % 146_097;
      CivilFromDays(days) == EraDate(z / 146_097, YearOfEra(doe), doe - YearStart(YearOfEra(doe)))
  {
    hide YearOfEra, YearStart, Truncated;
    var z := days + 719_468;
    var doe := z % 146_097;
    FloorDivision(z, 146_097);
    DaySplits(doe);
    MonthFromDay(doe - YearStart(YearOfEra(doe)), YearOfEra(doe));
  }

  lemma DaysOfEra(era: int, yoe: int, doy: int)
    requires InYear(yoe, doy)
    ensures Exists(EraDate(era, yoe, doy))
    ensures DaysFromCivil(EraDate(era, yoe, doy)) == era * 146_097 + YearStart(yoe) + doy - 719_468
  {
    hide YearStart;
    MonthFromDay(doy, yoe);
    LeapByEra(yoe, era);
    LeapByEra(yoe + 1, era);
    var y := yoe + era * 400;
    FloorDivision(y, 400);
    Quotient(y, 400, era, yoe);
  }

  /** Every day number is a date that exists, and counts back to it. */
  lemma DaysRoundTrip(days: int)
    ensures Exists(CivilFromDays(days)) && DaysFromCivil(CivilFromDays(days)) == days
  {
    hide CivilFromDays, DaysFromCivil, Exists, EraDate, YearOfEra, YearStart, InYear;
    var z := days + 719_468;
    var doe := z % 146_097;
    CivilOfEra(days);
    DaySplits(doe);
    DaysOfEra(z / 146_097, YearOfEra(doe), doe - YearStart(YearOfEra(doe)));
  }

  /** A date that exists, as a March-based year of an era and a day in it. */
  lemma EraOf(date: Date) returns (era: int, yoe: int, doy: int)
    requires Exists(date)
    ensures InYear(yoe, doy) && EraDate(era, yoe, doy) == date
  {
    var y := if date.month <= 2 then date.year - 1 else date.year;
    var mp := if date.month > 2 then date.month - 3 else date.month + 9;
    era, yoe := y / 400, y % 400;
    doy := MonthStart(mp) + date.day - 1;
    DayFromMonth(mp, date.day, y);
    LeapByEra(yoe + 1, era);
    assert y + 1 == yoe + 1 + era * 400;
  }

  /** Every date that exists counts to a day number that gives it back. */
  lemma DateRoundTrip(date: Date)
    requires Exists(date)
    ensures CivilFromDays(DaysFromCivil(date)) == date
  {
    hide CivilFromDays, DaysFromCivil, Exists, EraDate, YearOfEra, YearStart, InYear;
    var era, yoe, doy := EraOf(date);
    DaysOfEra(era, yoe, doy);
    DayFits(yoe, doy);
    var days := DaysFromCivil(date);
    var doe := YearStart(yoe) + doy;
    Quotient(days + 719_468, 146_097, era, doe);
    CivilOfEra(days);
  }

  /** Converting there and back detects exactly the dates that do not exist. */
  lemma RoundTripDetects(date: Date)
    ensures CivilFromDays(DaysFromCivil(date)) == date <==> Exists(date)
  {
    hide CivilFromDays, DaysFromCivil, Exists;
    if Exists(date) {
      DateRoundTrip(date);
    }
    DaysRoundTrip(DaysFromCivil(date));
  }

  // ---------------------------------------------------------------- what the day number counts

  lemma JanuaryDays(era: int, yoe: int)
    requires 0 <= yoe < 400
    ensures DaysFromCivil(Date(yoe + 1 + era * 400, 1, 1)) == era * 146_097 + YearStart(yoe) + 306 - 719_468
  {
    hide YearStart, DaysFromCivil;
    DaysOfEra(era, yoe, 306);
    assert EraDate(era, yoe, 306) == Date(yoe + 1 + era * 400, 1, 1);
  }

  lemma JanuaryFirst(year: int)
    ensures DaysFromCivil(Date(year + 1, 1, 1)) == DaysFromCivil(Date(year, 1, 1)) + YearLength(year)
  {
    hide DaysFromCivil, YearStart, IsLeap;
    var era, yoe := (year - 1) / 400, (year - 1) % 400;
    assert year == yoe + 1 + era * 400;
    LeapByEra(yoe + 1, era);
    JanuaryDays(era, yoe);
    if yoe == 399 {
      JanuaryDays(era + 1, 0);
      LastYear();
    } else {
      JanuaryDays(era, yoe + 1);
      YearStep(yoe);
    }
  }

  lemma LastYear()
    ensures YearStart(0) == 0 && YearStart(399) + YearLength(400) == 146_097
  {
  }

  lemma YearStep(yoe: int)
    requires 0 <= yoe < 399
    ensures YearStart(yoe + 1) == YearStart(yoe) + YearLength(yoe + 1)
  {
    Quotient(yoe + 1, 4, if yoe % 4 == 3 then yoe / 4 + 1 else yoe / 4, if yoe % 4 == 3 then 0 else yoe % 4 + 1);
    Quotient(yoe + 1, 100, if yoe % 100 == 99 then yoe / 100 + 1 else yoe / 100, if yoe % 100 == 99 then 0 else yoe % 100 + 1);
  }

  lemma {:induction false} YearsCount(year: int)
    ensures DaysFromCivil(Date(year, 1, 1)) == DaysToYear(year)
    decreases if year >= 1970 then year - 1970 else 1970 - year
  {
    hide DaysFromCivil;
    if year == 1970 {
      EpochIsDayZero();
    } else if year > 1970 {
      YearsCount(year - 1);
      JanuaryFirst(year - 1);
    } else {
      YearsCount(year + 1);
      JanuaryFirst(year);
    }
  }

  lemma EpochIsDayZero()
    ensures DaysFromCivil(Date(1970, 1, 1)) == 0
  {
  }

  lemma MonthsCount(year: int, month: int)
    requires 1 <= month <= 12
    ensures DaysFromCivil(Date(year, month, 1)) == DaysFromCivil(Date(year, 1, 1)) + DaysToMonth(year, month)
  {
    hide YearStart, Truncated;
    if month > 2 {
      hide DaysFromCivil, DaysToMonth;
      MarchOn(year, month);
    } else {
      assert DaysToMonth(year, 1) == 0;
    }
  }

  lemma MarchOn(year: int, month: int)
    requires 3 <= month <= 12
    ensures DaysFromCivil(Date(year, month, 1)) == DaysFromCivil(Date(year, 1, 1)) + DaysToMonth(year, month)
  {
    MarchFirst(year);
    MonthStarts(year, month);
    SameYear(year, month);
  }

  lemma SameYear(year: int, month: int)
    requires 3 <= month <= 12
    ensures DaysFromCivil(Date(year, month, 1)) == DaysFromCivil(Date(year, 3, 1)) + MonthStart(month - 3)
  {
    hide YearStart, Truncated;
  }

  /** 31 January and February days before 1 March. */
  lemma MarchFirst(year: int)
    ensures DaysFromCivil(Date(year, 3, 1)) == DaysFromCivil(Date(year, 1, 1)) + YearLength(year) - 306
  {
    hide YearStart, Truncated;
    JanuaryFirst(year);
    assert DaysFromCivil(Date(year + 1, 1, 1)) == DaysFromCivil(Date(year, 3, 1)) + 306;
  }

  lemma MonthStarts(year: int, month: int)
    requires 3 <= month <= 12
    ensures DaysToMonth(year, month) == YearLength(year) - 306 + MonthStart(month - 3)
    decreases month
  {
    if month == 3 {
      assert DaysToMonth(year, 2) == 31;
    } else {
      MonthStarts(year, month - 1);
      assert MonthStart(month - 3) - MonthStart(month - 4) == MonthLength(year, month - 1);
    }
  }

  /** The day number counts whole years since 1970, months since January and days since the first. */
  lemma DayNumberCounts(date: Date)
    requires 1 <= date.month <= 12
    ensures DaysFromCivil(date) == DaysToYear(date.year) + DaysToMonth(date.year, date.month) + (date.day - 1)
  {
    hide DaysToYear, DaysToMonth;
    YearsCount(date.year);
    MonthsCount(date.year, date.month);
    FirstOfMonth(date);
  }

  lemma FirstOfMonth(date: Date)
    ensures DaysFromCivil(date) == DaysFromCivil(Date(date.year, date.month, 1)) + date.day - 1
  {
    hide YearStart, Truncated;
  }

  // ---------------------------------------------------------------- order

  lemma {:induction false} MonthsGrow(year: int, m: int, m': int)
    requires 1 <= m < m' <= 13
    ensures DaysToMonth(year, m) + MonthLength(year, m) <= DaysToMonth(year, m')
  {
    if m + 1 < m' {
      MonthsGrow(year, m, m' - 1);
    }
  }

  lemma {:induction false} YearsGrow(y: int, y': int)
    requires y < y'
    ensures DaysToYear(y) + YearLength(y) <= DaysToYear(y')
    decreases y' - y
  {
    if y + 1 < y' {
      YearsGrow(y, y' - 1);
      YearAfter(y' - 1);
    } else {
      YearAfter(y);
    }
  }

  lemma YearAfter(y: int)
    ensures DaysToYear(y + 1) == DaysToYear(y) + YearLength(y)
  {
  }

  lemma WholeYear(year: int)
    ensures DaysToMonth(year, 13) == YearLength(year)
  {
    MonthStarts(year, 12);
    assert DaysToMonth(year, 13) == DaysToMonth(year, 12) + MonthLength(year, 12);
  }

  /** Dates are ordered as their day numbers are. */
  lemma DateOrder(a: Date, b: Date)
    requires Exists(a) && Exists(b)
    ensures Earlier(a, b) <==> DaysFromCivil(a) < DaysFromCivil(b)
  {
    hide DaysFromCivil;
    DateOrderOneWay(a, b);
    DateOrderOneWay(b, a);
  }

  lemma DateOrderOneWay(a: Date, b: Date)
    requires Exists(a) && Exists(b)
    ensures Earlier(a, b) ==> DaysFromCivil(a) < DaysFromCivil(b)
  {
    hide DaysFromCivil, DaysToYear, DaysToMonth, MonthLength, YearLength;
    DayNumberCounts(a);
    DayNumberCounts(b);
    if a.year < b.year {
      YearsGrow(a.year, b.year);
      WholeYear(a.year);
      MonthsGrow(a.year, a.month, 13);
      NotNegative(b);
    } else if a.year == b.year && a.month < b.month {
      MonthsGrow(a.year, a.month, b.month);
    }
  }

  lemma {:induction false} NotNegative(date: Date)
    requires 1 <= date.month <= 12
    ensures DaysToMonth(date.year, date.month) >= 0
  {
    if date.month > 1 {
      MonthsGrow(date.year, 1, date.month);
    }
  }
}
