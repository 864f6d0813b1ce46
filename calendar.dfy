/** Month lengths of the proleptic Gregorian calendar, as used to size the roster. */
module Calendar {

  /** Gregorian leap-year rule: divisible by 4, except centuries not divisible by 400. */
  predicate IsLeapYear(year: int)
  {
    year % 4 == 0 && (year % 100 != 0 || year % 400 == 0)
  }

  /** Lengths of the months of a common year, indexed 1..12 (index 0 is unused). */
  const MonthDays: seq<nat> := [0, 31, 28, 31, 30, 31, 30, 31, 31, 30, 31, 30, 31]

  /** Number of days in the given month: the common-year table, plus one for February of a leap year. */
  function DaysInMonth(year: int, month: int): (n: nat)
    requires 1 <= month <= 12
    ensures 28 <= n <= 31
    ensures n == 29 <==> month == 2 && IsLeapYear(year)
    ensures n == 28 <==> month == 2 && !IsLeapYear(year)
    ensures n == 31 <==> month in {1, 3, 5, 7, 8, 10, 12}
  {
    MonthDays[month] + (if month == 2 && IsLeapYear(year) then 1 else 0)
  }

  /** Total days of the first `m` months of `year`. */
  function DaysBefore(year: int, m: nat): nat
    requires m <= 12
  {
    if m == 0 then 0 else DaysBefore(year, m - 1) + DaysInMonth(year, m)
  }

  /** The twelve month lengths add up to the length of the year. */
  lemma {:induction false} YearLength(year: int)
    ensures DaysBefore(year, 12) == if IsLeapYear(year) then 366 else 365
  {
    var leap := if IsLeapYear(year) then 1 else 0;
    assert DaysBefore(year, 1) == 31;
    assert DaysBefore(year, 2) == 59 + leap;
    assert DaysBefore(year, 4) == 120 + leap;
    assert DaysBefore(year, 6) == 181 + leap;
    assert DaysBefore(year, 8) == 243 + leap;
    assert DaysBefore(year, 10) == 304 + leap;
  }
}
