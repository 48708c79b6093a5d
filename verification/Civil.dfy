/** The proleptic Gregorian calendar on day numbers, as `datetime` counts them: day 1 is 0001-01-01. */
module Civil {
  predicate IsLeap(year: int) {
    year % 4 == 0 && (year % 100 != 0 || year % 400 == 0)
  }

  function DaysBeforeYear(year: int): int {
    365 * (year - 1) + (year - 1) / 4 - (year - 1) / 100 + (year - 1) / 400
  }

  type Month = m: int | 1 <= m <= 12 witness 1

  function DaysInMonth(year: int, month: Month): int {
    if month == 2 then if IsLeap(year) then 29 else 28
    else if month in {4, 6, 9, 11} then 30 else 31
  }

  function DaysBeforeMonth(year: int, month: int): int
    requires 1 <= month <= 13
  {
    if month == 1 then 0 else DaysBeforeMonth(year, month - 1) + DaysInMonth(year, month - 1)
  }

  function Ordinal(year: int, month: Month, day: int): int {
    DaysBeforeYear(year) + DaysBeforeMonth(year, month) + day
  }

  // ----- the decode

  function YearOf(n: int): int {
    var guess := 400 * (n - 1) / 146_097 + 1;
    if DaysBeforeYear(guess + 1) < n then guess + 1 else guess
  }

  function MonthFrom(year: int, month: Month, rest: int): Month
    decreases 12 - month
  {
    if month == 12 || rest <= DaysInMonth(year, month) then month
    else MonthFrom(year, month + 1, rest - DaysInMonth(year, month))
  }

  function MonthOf(n: int): Month {
    MonthFrom(YearOf(n), 1, n - DaysBeforeYear(YearOf(n)))
  }

  function DayOf(n: int): int {
    n - DaysBeforeYear(YearOf(n)) - DaysBeforeMonth(YearOf(n), MonthOf(n))
  }

  lemma YearLength(year: int)
    ensures DaysBeforeYear(year + 1) == DaysBeforeYear(year) + if IsLeap(year) then 366 else 365
  {
    var p := year - 1;
    assert year / 4 == p / 4 + if year % 4 == 0 then 1 else 0;
    assert year / 100 == p / 100 + if year % 100 == 0 then 1 else 0;
    assert year / 400 == p / 400 + if year % 400 == 0 then 1 else 0;
    assert year % 400 == 0 ==> year % 100 == 0;
    assert year % 100 == 0 ==> year % 4 == 0;
  }

  lemma MonthsFillTheYear(year: int)
    ensures DaysBeforeMonth(year, 13) == DaysBeforeYear(year + 1) - DaysBeforeYear(year)
  {
    YearLength(year);
    assert DaysBeforeMonth(year, 3) == DaysBeforeMonth(year, 2) + DaysInMonth(year, 2);
    assert DaysBeforeMonth(year, 5) == DaysBeforeMonth(year, 4) + 30 == DaysBeforeMonth(year, 3) + 61;
    assert DaysBeforeMonth(year, 7) == DaysBeforeMonth(year, 6) + 30 == DaysBeforeMonth(year, 5) + 61;
    assert DaysBeforeMonth(year, 9) == DaysBeforeMonth(year, 8) + 31 == DaysBeforeMonth(year, 7) + 62;
    assert DaysBeforeMonth(year, 11) == DaysBeforeMonth(year, 10) + 31 == DaysBeforeMonth(year, 9) + 61;
    assert DaysBeforeMonth(year, 13) == DaysBeforeMonth(year, 12) + 31 == DaysBeforeMonth(year, 11) + 61;
  }

  lemma YearBounds(n: int)
    ensures DaysBeforeYear(YearOf(n)) < n <= DaysBeforeYear(YearOf(n) + 1)
  {
    var p := 400 * (n - 1) / 146_097;
    assert 146_097 * p <= 400 * (n - 1) < 146_097 * (p + 1);
    DaysNear(p);
    DaysNear(p + 1);
    YearLength(p + 2);
  }

  /** 146,097 days in 400 years, to within two days either way. */
  lemma DaysNear(p: int)
    ensures 146_097 * p - 800 < 400 * DaysBeforeYear(p + 1) < 146_097 * p + 400
  {
  }

  lemma {:induction false} MonthBounds(year: int, month: Month, rest: int)
    requires 1 <= rest <= DaysBeforeMonth(year, 13) - DaysBeforeMonth(year, month)
    ensures var m := MonthFrom(year, month, rest);
            DaysBeforeMonth(year, m) < rest + DaysBeforeMonth(year, month) <= DaysBeforeMonth(year, m + 1)
    decreases 12 - month
  {
    if month < 12 && rest > DaysInMonth(year, month) {
      MonthBounds(year, month + 1, rest - DaysInMonth(year, month));
    }
  }

  /** The decode names a real date. */
  lemma DecodeIsADate(n: int)
    ensures 1 <= DayOf(n) <= DaysInMonth(YearOf(n), MonthOf(n))
    ensures Ordinal(YearOf(n), MonthOf(n), DayOf(n)) == n
  {
    YearBounds(n);
    MonthsFillTheYear(YearOf(n));
    MonthBounds(YearOf(n), 1, n - DaysBeforeYear(YearOf(n)));
  }

  lemma {:induction false} YearsApart(a: int, b: int)
    requires a < b
    ensures DaysBeforeYear(a + 1) <= DaysBeforeYear(b)
    decreases b - a
  {
    if a + 1 < b {
      YearsApart(a, b - 1);
      YearLength(b - 1);
    }
  }

  lemma {:induction false} MonthsApart(year: int, a: int, b: int)
    requires 1 <= a <= b <= 13
    ensures DaysBeforeMonth(year, a) + 28 * (b - a) <= DaysBeforeMonth(year, b)
    decreases b - a
  {
    if a < b {
      MonthsApart(year, a, b - 1);
    }
  }

  lemma YearIsUnique(n: int, year: int)
    requires DaysBeforeYear(year) < n <= DaysBeforeYear(year + 1)
    ensures YearOf(n) == year
  {
    YearBounds(n);
    if YearOf(n) < year {
      YearsApart(YearOf(n), year);
    } else if year < YearOf(n) {
      YearsApart(year, YearOf(n));
    }
  }

  lemma MonthIsUnique(year: int, a: Month, b: Month, rest: int)
    requires DaysBeforeMonth(year, a) < rest <= DaysBeforeMonth(year, a + 1)
    requires DaysBeforeMonth(year, b) < rest <= DaysBeforeMonth(year, b + 1)
    ensures a == b
  {
    if a < b {
      MonthsApart(year, a + 1, b);
    } else if b < a {
      MonthsApart(year, b + 1, a);
    }
  }

  lemma RestOfYear(year: int, month: Month, day: int)
    requires 1 <= day <= DaysInMonth(year, month)
    ensures 1 <= DaysBeforeMonth(year, month) + day <= DaysBeforeMonth(year, 13)
    ensures MonthFrom(year, 1, DaysBeforeMonth(year, month) + day) == month
  {
    var rest := DaysBeforeMonth(year, month) + day;
    MonthsApart(year, 1, month);
    MonthsApart(year, month + 1, 13);
    assert DaysBeforeMonth(year, month + 1) == DaysBeforeMonth(year, month) + DaysInMonth(year, month);
    MonthBounds(year, 1, rest);
    MonthIsUnique(year, MonthFrom(year, 1, rest), month, rest);
  }

  /** Each date has one day number: encoding then decoding gives the date back. */
  lemma DecodeEncode(year: int, month: Month, day: int)
    requires 1 <= day <= DaysInMonth(year, month)
    ensures YearOf(Ordinal(year, month, day)) == year
    ensures MonthOf(Ordinal(year, month, day)) == month
    ensures DayOf(Ordinal(year, month, day)) == day
  {
    RestOfYear(year, month, day);
    MonthsFillTheYear(year);
    YearIsUnique(Ordinal(year, month, day), year);
  }
}
