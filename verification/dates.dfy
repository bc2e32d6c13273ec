/**
 * Calendar dates as the dashboard handles them: the `dd/MM/yyyy` text it
 * stores in "Periodo Inicio" / "Periodo Fin", the rewrite to `yyyy-mm-dd`
 * it feeds to `new Date(...)`, and the year and month it reads back.
 * A date is an integer triple; time of day and time zone are not modelled.
 */
module Dates {
  import opened Wrappers
  import opened Text

  datatype Date = Date(day: int, month: int, year: int)

  /** Gregorian leap years. */
  predicate IsLeapYear(y: int) {
    y % 4 == 0 && (y % 100 != 0 || y % 400 == 0)
  }

  function DaysInMonth(month: int, year: int): (n: int)
    requires 1 <= month <= 12
    ensures 28 <= n <= 31
  {
    if month == 2 then (if IsLeapYear(year) then 29 else 28)
    else if month == 4 || month == 6 || month == 9 || month == 11 then 30
    else 31
  }

  predicate IsCalendarDate(d: Date) {
    1 <= d.month <= 12 && 1 <= d.day <= DaysInMonth(d.month, d.year)
  }

  /** A day that exists in the calendar: what a JavaScript `Date` always denotes. */
  type CalendarDate = d: Date | IsCalendarDate(d) witness Date(1, 1, 2000)

  /** `getFullYear()` of a parsed date: a year, or NaN for an invalid date. */
  datatype Year = Known(value: int) | NaN

  /** JavaScript `===` on two years: NaN equals nothing, not even NaN. */
  predicate SameYear(a: Year, b: Year) {
    a.Known? && b.Known? && a.value == b.value
  }

  /** `a >= b` on two dates taken at the same time of day. */
  predicate OnOrAfter(a: Date, b: Date) {
    a.year > b.year
    || (a.year == b.year && a.month > b.month)
    || (a.year == b.year && a.month == b.month && a.day >= b.day)
  }

  // ------------------------------------------------------------- parsing

  /** `s.split("/").reverse().join("-")`: `dd/mm/yyyy` becomes `yyyy-mm-dd`. */
  function IsoText(s: string): string {
    Join(Reverse(Split(s, '/')), '-')
  }

  /**
   * `new Date(IsoText(s))` read as a day. Three '/'-separated runs of
   * digits with a month in 1..12 and a day in 1..31 give that day. The
   * rewritten text may also be one of the standard date-only forms with
   * fewer fields: `yyyy` (the text is four digits) is 1 January of that
   * year, and `yyyy-MM` (the text is `MM/yyyy`) is the first of that month.
   * Anything else is an invalid date here, including a text already in ISO
   * form such as "2023-05-15", which JavaScript would read.
   */
  function ParseDayMonthYear(s: string): (r: Option<Date>)
    ensures r.Some? ==> 1 <= r.value.month <= 12 && 1 <= r.value.day <= 31 && r.value.year >= 0
    ensures r.Some? ==> 1 <= |Split(s, '/')| <= 3
    ensures r.Some? && |Split(s, '/')| < 3 ==> r.value.day == 1 && r.value.year < 10000
    ensures r.Some? && |Split(s, '/')| == 1 ==> r.value.month == 1
  {
    var parts := Reverse(Split(s, '/'));
    if |parts| == 1 then
      if |parts[0]| == 4 then
        match ParseNat(parts[0])
        case Some(y) => DecimalBelowPow10(parts[0]); assert Pow10(4) == 10000; Some(Date(1, 1, y))
        case None => None
      else None
    else if |parts| == 2 then
      if |parts[0]| == 4 && |parts[1]| == 2 then
        match (ParseNat(parts[0]), ParseNat(parts[1]))
        case (Some(y), Some(m)) =>
          DecimalBelowPow10(parts[0]);
          assert Pow10(4) == 10000;
          if 1 <= m <= 12 then Some(Date(1, m, y)) else None
        case _ => None
      else None
    else if |parts| == 3 then
      match (ParseNat(parts[0]), ParseNat(parts[1]), ParseNat(parts[2]))
      case (Some(y), Some(m), Some(d)) =>
        if 1 <= m <= 12 && 1 <= d <= 31 then Some(Date(d, m, y)) else None
      case _ => None
    else None
  }

  /**
   * The shorter standard forms: four year digits are 1 January of that
   * year, and `MM/yyyy` is the first of that month.
   */
  lemma ShortFormsParse(m: nat, y: nat)
    requires 1 <= m <= 12 && y < 10000
    ensures ParseDayMonthYear(PaddedDecimal(y, 4)) == Some(Date(1, 1, y))
    ensures ParseDayMonthYear(PaddedDecimal(m, 2) + "/" + PaddedDecimal(y, 4)) == Some(Date(1, m, y))
  {
    var a, b := PaddedDecimal(m, 2), PaddedDecimal(y, 4);
    assert Pow10(2) == 100;
    assert Pow10(4) == 10000;
    PaddedWidth(m, 2);
    PaddedWidth(y, 4);
    PaddedHasNo(m, 2, '/');
    PaddedHasNo(y, 4, '/');
    ParsePadded(m, 2);
    ParsePadded(y, 4);
    SplitJoin([b], '/');
    assert Join([b], '/') == b;
    assert Split(b, '/') == [b];
    assert Reverse([b]) == [b];
    assert [a, b][1..] == [b];
    assert Join([a, b], '/') == a + "/" + b;
    SplitJoin([a, b], '/');
    assert Reverse([a, b]) == [b, a];
  }

  /** `new Date(IsoText(s)).getFullYear()`. */
  function YearOf(s: string): (y: Year)
    ensures y.Known? <==> ParseDayMonthYear(s).Some?
    ensures y.Known? ==> y.value == ParseDayMonthYear(s).value.year
  {
    match ParseDayMonthYear(s)
    case Some(d) => Known(d.year)
    case None => NaN
  }

  /** An empty date text (an unset form date) has no year. */
  lemma EmptyDateHasNoYear()
    ensures YearOf("") == NaN
  {
    assert Split("", '/') == [""];
  }

  // ---------------------------------------------------------- formatting

  /** The year the `yyyy` token prints: 1 BC is printed as year 1, and so on. */
  function EraYear(y: int): (e: nat)
    ensures e >= 1
    ensures y >= 1 ==> e == y
  {
    if y > 0 then y else 1 - y
  }

  /** date-fns `format(d, "dd/MM/yyyy")`. */
  function FormatDayMonthYear(d: CalendarDate): (s: string)
    ensures |s| >= 10
    ensures s[2] == '/' && s[5] == '/'
    ensures AllDigits(s[..2]) && AllDigits(s[3..5]) && AllDigits(s[6..])
    ensures EraYear(d.year) <= 9999 ==> |s| == 10
  {
    PaddedWidth(d.day, 2);
    PaddedWidth(d.month, 2);
    assert Pow10(2) == 100;
    assert Pow10(4) == 10000;
    PaddedWidthWhenSmall(EraYear(d.year), 4);
    var s := PaddedDecimal(d.day, 2) + "/" + PaddedDecimal(d.month, 2) + "/" + PaddedDecimal(EraYear(d.year), 4);
    assert s[..2] == PaddedDecimal(d.day, 2);
    assert s[3..5] == PaddedDecimal(d.month, 2);
    assert s[6..] == PaddedDecimal(EraYear(d.year), 4);
    s
  }

  lemma JoinThree(a: string, b: string, c: string, sep: char)
    ensures Join([a, b, c], sep) == a + [sep] + b + [sep] + c
  {
    assert [a, b, c][1..] == [b, c];
    assert [b, c][1..] == [c];
    assert Join([c], sep) == c;
    assert Join([b, c], sep) == b + [sep] + c;
    assert Join([a, b, c], sep) == a + [sep] + (b + [sep] + c);
  }

  /** The three pieces a formatted date splits into on '/'. */
  lemma FormatSplits(d: CalendarDate)
    ensures Split(FormatDayMonthYear(d), '/')
         == [PaddedDecimal(d.day, 2), PaddedDecimal(d.month, 2), PaddedDecimal(EraYear(d.year), 4)]
  {
    var a, b, c := PaddedDecimal(d.day, 2), PaddedDecimal(d.month, 2), PaddedDecimal(EraYear(d.year), 4);
    PaddedHasNo(d.day, 2, '/');
    PaddedHasNo(d.month, 2, '/');
    PaddedHasNo(EraYear(d.year), 4, '/');
    PaddedWidth(d.day, 2);
    PaddedWidth(d.month, 2);
    assert Pow10(2) == 100;
    JoinThree(a, b, c, '/');
    SplitJoin([a, b, c], '/');
  }

  /**
   * The rewrite applied before `new Date(...)` turns a formatted
   * `dd/MM/yyyy` into `yyyy-MM-dd` with the same day, month and year.
   */
  lemma IsoTextOfFormat(d: CalendarDate)
    ensures IsoText(FormatDayMonthYear(d))
         == PaddedDecimal(EraYear(d.year), 4) + "-" + PaddedDecimal(d.month, 2) + "-" + PaddedDecimal(d.day, 2)
  {
    FormatSplits(d);
    var a, b, c := PaddedDecimal(d.day, 2), PaddedDecimal(d.month, 2), PaddedDecimal(EraYear(d.year), 4);
    assert Reverse([a, b, c]) == [c, b, a];
    JoinThree(c, b, a, '-');
  }

  /** Parsing a formatted date of the common era gives the date back. */
  lemma ParseFormatRoundTrip(d: CalendarDate)
    requires d.year >= 1
    ensures ParseDayMonthYear(FormatDayMonthYear(d)) == Some(d)
  {
    FormatSplits(d);
    ParsePadded(d.day, 2);
    ParsePadded(d.month, 2);
    ParsePadded(EraYear(d.year), 4);
  }

  // ------------------------------------------------------- date arithmetic

  /**
   * `now` after `setFullYear(now.getFullYear() - 1)`: the same day one year
   * earlier, where a 29 February with no counterpart rolls over to 1 March.
   */
  function OneYearBefore(now: CalendarDate): (r: CalendarDate)
    ensures r.year == now.year - 1
    ensures IsCalendarDate(Date(now.day, now.month, now.year - 1)) ==> r == Date(now.day, now.month, now.year - 1)
    ensures !IsCalendarDate(Date(now.day, now.month, now.year - 1)) ==> r == Date(1, 3, now.year - 1)
    ensures OnOrAfter(now, r) && r != now
  {
    if now.month == 2 && now.day == 29 && !IsLeapYear(now.year - 1) then Date(1, 3, now.year - 1)
    else Date(now.day, now.month, now.year - 1)
  }
}
