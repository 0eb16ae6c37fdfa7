/** Dates as day numbers: day 0 is 1 January of year 1. */
module Calendar {

  predicate IsLeap(year: nat)
  {
    year % 4 == 0 && (year % 100 != 0 || year % 400 == 0)
  }

  function YearLength(year: nat): nat
  {
    if IsLeap(year) then 366 else 365
  }

  /** The day of the year, counting from the first day of `year`. */
  function YdayFrom(day: nat, year: nat): (r: nat)
    ensures 1 <= r <= day + 1 && r <= 366
    decreases day
  {
    if day < YearLength(year) then day + 1 else YdayFrom(day - YearLength(year), year + 1)
  }

  /** `timetuple().tm_yday` */
  function Yday(day: nat): nat
  {
    YdayFrom(day, 1)
  }

  lemma {:induction false} RepeatsFrom(a: nat, b: nat, year: nat)
    requires a < b && YdayFrom(a, year) == YdayFrom(b, year)
    ensures b - a >= 365
    decreases a
  {
    if a >= YearLength(year) {
      RepeatsFrom(a - YearLength(year), b - YearLength(year), year + 1);
    }
  }

  /** A day of the year does not come back within 365 days. */
  lemma YdayRepeats(a: nat, b: nat)
    requires a < b && Yday(a) == Yday(b)
    ensures b - a >= 365
  {
    RepeatsFrom(a, b, 1);
  }

  /** The days before the first of January of a year, counted from year 1. */
  function DaysBefore(year: nat): int
    requires year > 0
  {
    var y := year - 1;
    365 * y + y / 4 - y / 100 + y / 400
  }

  lemma YearIs(year: nat)
    requires year > 0
    ensures YearLength(year) == DaysBefore(year + 1) - DaysBefore(year)
  {
    assert year / 4 == (year - 1) / 4 + if year % 4 == 0 then 1 else 0;
    assert year / 100 == (year - 1) / 100 + if year % 100 == 0 then 1 else 0;
    assert year / 400 == (year - 1) / 400 + if year % 400 == 0 then 1 else 0;
    Multiples(year);
  }

  lemma Multiples(year: nat)
    ensures year % 400 == 0 ==> year % 100 == 0
    ensures year % 100 == 0 ==> year % 4 == 0
  {
    if year % 400 == 0 {
      var q := year / 400;
      assert year == 100 * (4 * q);
    }
    if year % 100 == 0 {
      var q := year / 100;
      assert year == 4 * (25 * q);
    }
  }

  lemma {:induction false} YdayFromYear(day: nat, from: nat, year: nat)
    requires 0 < from <= year && DaysBefore(year) - DaysBefore(from) <= day < DaysBefore(year + 1) - DaysBefore(from)
    ensures YdayFrom(day, from) == day - (DaysBefore(year) - DaysBefore(from)) + 1
    decreases year - from
  {
    YearIs(from);
    if from < year {
      DaysGrow(from + 1, year);
      YdayFromYear(day - YearLength(from), from + 1, year);
    }
  }

  lemma {:induction false} DaysGrow(a: nat, b: nat)
    requires 0 < a <= b
    ensures DaysBefore(a) <= DaysBefore(b)
    decreases b - a
  {
    if a < b {
      YearIs(a);
      DaysGrow(a + 1, b);
    }
  }

  /** In the Gregorian calendar: the day of the year counts from the first of January of its year. */
  lemma YdayOfYear(year: nat, k: nat)
    requires year > 0 && k < YearLength(year)
    ensures DaysBefore(year) >= 0 && Yday(DaysBefore(year) + k) == k + 1
  {
    DaysGrow(1, year);
    YearIs(year);
    YdayFromYear(DaysBefore(year) + k, 1, year);
  }
}
