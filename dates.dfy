/**
  Calendar dates the way Python's `datetime.date` represents them: the
  proleptic Gregorian calendar from 0001-01-01 to 9999-12-31, each date
  identified by its ordinal (`date.toordinal()`, 0001-01-01 being day 1).
  `timedelta(days = k)` arithmetic is ordinal arithmetic, `isoformat()`
  renders YYYY-MM-DD, and `fromisoformat` reads that form back.
 */
module Dates {
  import opened Wrappers
  import opened Text

  const MaxYear := 9999
  /** The ordinal of 9999-12-31, `date.max`. */
  const MaxOrdinal := 3652059

  /** A representable date, by its ordinal. */
  type Day = n: int | 1 <= n <= MaxOrdinal witness 1

  predicate IsLeap(y: int) {
    y % 4 == 0 && (y % 100 != 0 || y % 400 == 0)
  }

  function DaysInYear(y: int): int {
    if IsLeap(y) then 366 else 365
  }

  function DaysInMonth(y: int, m: int): int
    requires 1 <= m <= 12
  {
    if m == 2 then (if IsLeap(y) then 29 else 28)
    else if m == 4 || m == 6 || m == 9 || m == 11 then 30
    else 31
  }

  /** Days in the years before year y (Python's `_days_before_year`). */
  function DaysBeforeYear(y: int): int
    requires y >= 1
  {
    var p := y - 1;
    p * 365 + p / 4 - p / 100 + p / 400
  }

  /** Days in year y before the first of month m (Python's `_days_before_month`). */
  function DaysBeforeMonth(y: int, m: int): int
    requires 1 <= m <= 12
  {
    var common :=
      if m <= 6 then
        (if m == 1 then 0 else if m == 2 then 31 else if m == 3 then 59
         else if m == 4 then 90 else if m == 5 then 120 else 151)
      else
        (if m == 7 then 181 else if m == 8 then 212 else if m == 9 then 243
         else if m == 10 then 273 else if m == 11 then 304 else 334);
    common + (if m > 2 && IsLeap(y) then 1 else 0)
  }

  datatype Civil = Civil(year: int, month: int, day: int)

  predicate ValidCivil(c: Civil) {
    && 1 <= c.year <= MaxYear
    && 1 <= c.month <= 12
    && 1 <= c.day <= DaysInMonth(c.year, c.month)
  }

  /** Consecutive years: the next year starts where this one ends. */
  lemma YearStep(y: int)
    requires y >= 1
    ensures DaysBeforeYear(y + 1) == DaysBeforeYear(y) + DaysInYear(y)
  {
    assert y / 4 == (y - 1) / 4 + (if y % 4 == 0 then 1 else 0);
    assert y / 100 == (y - 1) / 100 + (if y % 100 == 0 then 1 else 0);
    assert y / 400 == (y - 1) / 400 + (if y % 400 == 0 then 1 else 0);
  }

  lemma {:induction false} YearMonotone(a: int, b: int)
    requires 1 <= a <= b
    ensures DaysBeforeYear(a) + 365 * (b - a) <= DaysBeforeYear(b)
    decreases b - a
  {
    if a < b {
      YearStep(a);
      YearMonotone(a + 1, b);
    }
  }

  lemma LastYearEnds()
    ensures DaysBeforeYear(MaxYear) + DaysInYear(MaxYear) == MaxOrdinal
  {
    YearStep(MaxYear);
  }

  /** Consecutive months: the next month starts where this one ends, and December ends the year. */
  lemma MonthStep(y: int, m: int)
    requires 1 <= m <= 12
    ensures m < 12 ==> DaysBeforeMonth(y, m + 1) == DaysBeforeMonth(y, m) + DaysInMonth(y, m)
    ensures m == 12 ==> DaysBeforeMonth(y, m) + DaysInMonth(y, m) == DaysInYear(y)
  {
  }

  lemma {:induction false} MonthMonotone(y: int, a: int, b: int)
    requires 1 <= a <= b <= 12
    ensures DaysBeforeMonth(y, a) + 28 * (b - a) <= DaysBeforeMonth(y, b)
    decreases b - a
  {
    MonthStep(y, a);
    if a < b {
      MonthMonotone(y, a + 1, b);
    }
  }

  lemma MonthWithinYear(y: int, m: int)
    requires 1 <= m <= 12
    ensures DaysBeforeMonth(y, m) + DaysInMonth(y, m) <= DaysInYear(y)
  {
  }

  /** Python's `_ymd2ord`. */
  function ToOrdinal(c: Civil): (n: Day)
    requires ValidCivil(c)
    ensures DaysBeforeYear(c.year) < n <= DaysBeforeYear(c.year) + DaysInYear(c.year)
  {
    MonthWithinYear(c.year, c.month);
    YearMonotone(c.year, MaxYear);
    LastYearEnds();
    DaysBeforeYear(c.year) + DaysBeforeMonth(c.year, c.month) + c.day
  }

  /** The year that ordinal n falls in, searching upwards from year y. */
  function YearOf(n: int, y: int): (r: int)
    requires 1 <= y <= MaxYear && DaysBeforeYear(y) < n <= MaxOrdinal
    ensures y <= r <= MaxYear
    decreases MaxYear - y
  {
    YearStep(y);
    if n <= DaysBeforeYear(y) + DaysInYear(y) then y
    else
      LastYearEnds();
      YearOf(n, y + 1)
  }

  /** The year found is the one whose days contain ordinal n. */
  lemma {:induction false} YearOfContains(n: int, y: int)
    requires 1 <= y <= MaxYear && DaysBeforeYear(y) < n <= MaxOrdinal
    ensures var r := YearOf(n, y);
      DaysBeforeYear(r) < n <= DaysBeforeYear(r) + DaysInYear(r)
    decreases MaxYear - y
  {
    YearStep(y);
    if n > DaysBeforeYear(y) + DaysInYear(y) {
      LastYearEnds();
      YearOfContains(n, y + 1);
    }
  }

  /** The month that day-of-year doy of year y falls in, searching upwards from month m. */
  function MonthOf(y: int, doy: int, m: int): (r: int)
    requires 1 <= m <= 12 && DaysBeforeMonth(y, m) < doy <= DaysInYear(y)
    ensures m <= r <= 12
    decreases 12 - m
  {
    MonthStep(y, m);
    if doy <= DaysBeforeMonth(y, m) + DaysInMonth(y, m) then m
    else MonthOf(y, doy, m + 1)
  }

  /** The month found is the one whose days contain doy. */
  lemma {:induction false} MonthOfContains(y: int, doy: int, m: int)
    requires 1 <= m <= 12 && DaysBeforeMonth(y, m) < doy <= DaysInYear(y)
    ensures var r := MonthOf(y, doy, m);
      DaysBeforeMonth(y, r) < doy <= DaysBeforeMonth(y, r) + DaysInMonth(y, r)
    decreases 12 - m
  {
    MonthStep(y, m);
    if doy > DaysBeforeMonth(y, m) + DaysInMonth(y, m) {
      MonthOfContains(y, doy, m + 1);
    }
  }

  /** Python's `_ord2ymd`: the calendar date of an ordinal. */
  function CivilOf(n: Day): (c: Civil)
    ensures 1 <= c.year <= MaxYear && 1 <= c.month <= 12 && 1 <= c.day
  {
    var y := YearOf(n, 1);
    YearOfContains(n, 1);
    var doy := n - DaysBeforeYear(y);
    var m := MonthOf(y, doy, 1);
    MonthOfContains(y, doy, 1);
    Civil(y, m, doy - DaysBeforeMonth(y, m))
  }

  /** The date found is a real calendar date, and it has ordinal n. */
  lemma CivilOfValid(n: Day)
    ensures ValidCivil(CivilOf(n)) && ToOrdinal(CivilOf(n)) == n
  {
    var y := YearOf(n, 1);
    YearOfContains(n, 1);
    MonthOfContains(y, n - DaysBeforeYear(y), 1);
  }

  lemma {:induction false} YearOfUnique(n: int, y0: int, y: int)
    requires 1 <= y0 <= y <= MaxYear
    requires DaysBeforeYear(y0) < n <= MaxOrdinal
    requires DaysBeforeYear(y) < n <= DaysBeforeYear(y) + DaysInYear(y)
    ensures YearOf(n, y0) == y
    decreases y - y0
  {
    YearStep(y0);
    if y0 < y {
      YearMonotone(y0 + 1, y);
      YearOfUnique(n, y0 + 1, y);
    }
  }

  lemma {:induction false} MonthOfUnique(y: int, doy: int, m0: int, m: int)
    requires 1 <= m0 <= m <= 12
    requires DaysBeforeMonth(y, m0) < doy <= DaysInYear(y)
    requires DaysBeforeMonth(y, m) < doy <= DaysBeforeMonth(y, m) + DaysInMonth(y, m)
    ensures MonthOf(y, doy, m0) == m
    decreases m - m0
  {
    MonthStep(y, m0);
    if m0 < m {
      MonthMonotone(y, m0 + 1, m);
      MonthOfUnique(y, doy, m0 + 1, m);
    }
  }

  /** Every calendar date is recovered from its ordinal: ordinals and dates correspond one to one. */
  lemma CivilOfOrdinal(c: Civil)
    requires ValidCivil(c)
    ensures CivilOf(ToOrdinal(c)) == c
  {
    var n := ToOrdinal(c);
    YearOfUnique(n, 1, c.year);
    MonthWithinYear(c.year, c.month);
    MonthOfUnique(c.year, n - DaysBeforeYear(c.year), 1, c.month);
  }

  /** `date.isoformat()`: YYYY-MM-DD, each field zero-padded. */
  function IsoFormat(n: Day): string
  {
    var c := CivilOf(n);
    Padded(c.year, 4) + "-" + Padded(c.month, 2) + "-" + Padded(c.day, 2)
  }

  /** `date.fromisoformat` restricted to the YYYY-MM-DD form: ten characters, ASCII digits
      around two dashes, naming a real date of years 1 to 9999; anything else is None. */
  function ParseCalendarDate(s: string): Option<Day>
  {
    if |s| == 10 && s[4] == '-' && s[7] == '-'
       && AllDigits(s[..4]) && AllDigits(s[5..7]) && AllDigits(s[8..])
    then
      var c := Civil(ReadDigits(s[..4]), ReadDigits(s[5..7]), ReadDigits(s[8..]));
      if ValidCivil(c) then Some(ToOrdinal(c)) else None
    else None
  }

  /** What `isoformat` writes, the parser reads back as the same date. */
  lemma ParseIsoFormat(n: Day)
    ensures ParseCalendarDate(IsoFormat(n)) == Some(n)
  {
    CivilOfValid(n);
    ParseFields(CivilOf(n));
  }

  /** The parser reads the three padded fields of a valid date back as that date. */
  lemma ParseFields(c: Civil)
    requires ValidCivil(c)
    ensures ParseCalendarDate(Padded(c.year, 4) + "-" + Padded(c.month, 2) + "-" + Padded(c.day, 2))
      == Some(ToOrdinal(c))
  {
    var s := Padded(c.year, 4) + "-" + Padded(c.month, 2) + "-" + Padded(c.day, 2);
    assert s[..4] == Padded(c.year, 4);
    assert s[5..7] == Padded(c.month, 2);
    assert s[8..] == Padded(c.day, 2);
    ReadPadded(c.year, 4);
    ReadPadded(c.month, 2);
    ReadPadded(c.day, 2);
  }

  /** A string the parser accepts is exactly the `isoformat` text of the date it yields. */
  lemma IsoFormatOfParsed(s: string)
    requires ParseCalendarDate(s).Some?
    ensures IsoFormat(ParseCalendarDate(s).value) == s
  {
    var c := Civil(ReadDigits(s[..4]), ReadDigits(s[5..7]), ReadDigits(s[8..]));
    assert ParseCalendarDate(s).value == ToOrdinal(c);
    CivilOfOrdinal(c);
    PaddedRead(s[..4]);
    PaddedRead(s[5..7]);
    PaddedRead(s[8..]);
    DashedFields(s);
  }

  lemma DashedFields(s: string)
    requires |s| == 10 && s[4] == '-' && s[7] == '-'
    ensures s == s[..4] + "-" + s[5..7] + "-" + s[8..]
  {
  }

  /** Distinct dates have distinct ISO texts. */
  lemma IsoFormatInjective(a: Day, b: Day)
    requires IsoFormat(a) == IsoFormat(b)
    ensures a == b
  {
    ParseIsoFormat(a);
    ParseIsoFormat(b);
  }
}
