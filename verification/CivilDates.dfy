/** Proleptic Gregorian dates as ordinals, day 1 being 0001-01-01, a Monday. Years, and so
    days, are not bounded. */
module CivilDates {

  type Day = int

  predicate IsLeap(year: int) {
    year % 4 == 0 && (year % 100 != 0 || year % 400 == 0)
  }

  /** The ordinal of the last day before the given year. */
  function YearStart(year: int): Day {
    var y := year - 1;
    365 * y + y / 4 - y / 100 + y / 400
  }

  function YearLength(year: int): int {
    if IsLeap(year) then 366 else 365
  }

  function DaysBeforeMonth(year: int, month: int): int
    requires 1 <= month <= 12
  {
    var common := [0, 31, 59, 90, 120, 151, 181, 212, 243, 273, 304, 334];
    common[month - 1] + if month > 2 && IsLeap(year) then 1 else 0
  }

  function Civil(year: int, month: int, day: int): Day
    requires 1 <= month <= 12
  {
    YearStart(year) + DaysBeforeMonth(year, month) + day
  }

  /** Monday is 0, Sunday 6. */
  function Weekday(d: Day): (w: int)
    ensures 0 <= w < 7
  {
    (d + 6) % 7
  }

  lemma YearStartStep(year: int)
    ensures YearStart(year + 1) == YearStart(year) + YearLength(year)
  {
    var y := year - 1;
    assert (y + 1) / 4 == y / 4 + if (y + 1) % 4 == 0 then 1 else 0;
    assert (y + 1) / 100 == y / 100 + if (y + 1) % 100 == 0 then 1 else 0;
    assert (y + 1) / 400 == y / 400 + if (y + 1) % 400 == 0 then 1 else 0;
    assert year % 400 == 0 ==> year % 100 == 0;
    assert year % 100 == 0 ==> year % 4 == 0;
  }

  lemma {:induction false} YearStartGrows(a: int, b: int)
    requires a <= b
    ensures YearStart(a) + 365 * (b - a) <= YearStart(b) <= YearStart(a) + 366 * (b - a)
    decreases b - a
  {
    if a < b {
      YearStartGrows(a, b - 1);
      YearStartStep(b - 1);
    }
  }

  /** The year a day falls in. */
  function YearOf(d: Day): (year: int)
    ensures YearStart(year) < d <= YearStart(year + 1)
  {
    var guess := d * 400 / 146097;
    YearStartBounds(guess);
    YearStartBounds(guess + 1);
    YearStartBounds(guess + 2);
    YearStartBounds(guess + 3);
    if d <= YearStart(guess + 1) then guess
    else if d <= YearStart(guess + 2) then guess + 1
    else guess + 2
  }

  lemma YearStartBounds(year: int)
    ensures 146097 * (year - 1) - 700 <= 400 * YearStart(year) <= 146097 * (year - 1) + 396
  {
  }

  lemma YearUnique(d: Day, year: int)
    requires YearStart(year) < d <= YearStart(year + 1)
    ensures YearOf(d) == year
  {
    if year < YearOf(d) {
      YearStartGrows(year + 1, YearOf(d));
    } else if YearOf(d) < year {
      YearStartGrows(YearOf(d) + 1, year);
    }
  }
}
