/** The shape of the exchange calendar: holidays are isolated weekdays, so a session is never
    more than three days away. */
module TradingDays {
  import opened Conventions
  import opened CivilDates
  import opened SessionCalendar

  function Leap(year: int): int {
    if IsLeap(year) then 1 else 0
  }

  /** The j-th holiday of the year, in calendar order; 5 is Juneteenth, kept from 2022 on. */
  function Holiday(year: int, j: int): Day
    requires 0 <= j < 10
  {
    match j
    case 0 => ObservedFixedHoliday(year, 1, 1)
    case 1 => NthWeekday(year, 1, 0, 3)
    case 2 => NthWeekday(year, 2, 0, 3)
    case 3 => EasterSunday(year) - 2
    case 4 => LastWeekday(year, 5, 0)
    case 5 => ObservedFixedHoliday(year, 6, 19)
    case 6 => ObservedFixedHoliday(year, 7, 4)
    case 7 => NthWeekday(year, 9, 0, 1)
    case 8 => Thanksgiving(year)
    case _ => ObservedFixedHoliday(year, 12, 25)
  }

  lemma ClosedIsHoliday(year: int, d: Day) returns (j: int)
    requires d in ClosedDays(year)
    ensures 0 <= j < 10 && d == Holiday(year, j) && (j == 5 ==> year >= 2022)
  {
    j := if d == Holiday(year, 0) then 0 else if d == Holiday(year, 1) then 1
         else if d == Holiday(year, 2) then 2 else if d == Holiday(year, 3) then 3
         else if d == Holiday(year, 4) then 4 else if d == Holiday(year, 6) then 6
         else if d == Holiday(year, 7) then 7 else if d == Holiday(year, 8) then 8
         else if d == Holiday(year, 9) then 9 else 5;
  }

  lemma ObservedShape(year: int, month: int, day: int)
    requires 1 <= month <= 12
    ensures var h := ObservedFixedHoliday(year, month, day);
            Civil(year, month, day) - 1 <= h <= Civil(year, month, day) + 1 && Weekday(h) <= 4
  {
  }

  lemma WeekdayIs(d: Day, q: int, w: int)
    requires d + 6 == 7 * q + w && 0 <= w < 7
    ensures Weekday(d) == w
  {
  }

  /** The first day on or after d with the given weekday, moved by whole weeks. */
  lemma WeekdayForward(d: Day, weekday: int, weeks: int)
    requires 0 <= weekday < 7
    ensures Weekday(d + (weekday - Weekday(d)) % 7 + 7 * weeks) == weekday
  {
    var r := Weekday(d);
    var t := (weekday - r) % 7;
    assert t == weekday - r - 7 * ((weekday - r) / 7);
    assert d + 6 == 7 * ((d + 6) / 7) + r;
    WeekdayIs(d + t + 7 * weeks, (d + 6) / 7 - (weekday - r) / 7 + weeks, weekday);
  }

  lemma WeekdayBackward(d: Day, weekday: int)
    requires 0 <= weekday < 7
    ensures Weekday(d - (Weekday(d) - weekday) % 7) == weekday
  {
    var r := Weekday(d);
    var t := (r - weekday) % 7;
    assert t == r - weekday - 7 * ((r - weekday) / 7);
    assert d + 6 == 7 * ((d + 6) / 7) + r;
    WeekdayIs(d - t, (d + 6) / 7 + (r - weekday) / 7, weekday);
  }

  lemma NthWeekdayShape(year: int, month: int, weekday: int, occurrence: int)
    requires 1 <= month <= 12 && 0 <= weekday < 7
    ensures var n := NthWeekday(year, month, weekday, occurrence);
            && Civil(year, month, 1) + 7 * (occurrence - 1) <= n < Civil(year, month, 1) + 7 * occurrence
            && Weekday(n) == weekday
  {
    hide Civil, Weekday;
    WeekdayForward(Civil(year, month, 1), weekday, occurrence - 1);
  }

  lemma LastWeekdayShape(year: int, weekday: int)
    requires 0 <= weekday < 7
    ensures var n := LastWeekday(year, 5, weekday);
            Civil(year, 5, 25) <= n <= Civil(year, 5, 31) && Weekday(n) == weekday
  {
    hide Weekday, YearStart, IsLeap;
    WeekdayBackward(Civil(year, 6, 1) - 1, weekday);
  }

  /** Good Friday is a Friday between March 20 and April 23. */
  lemma GoodFridayShape(year: int)
    ensures Weekday(EasterSunday(year) - 2) == 4
    ensures Civil(year, 3, 20) <= EasterSunday(year) - 2 <= Civil(year, 3, 54)
  {
    hide EasterSunday, EasterMarchDay, YearStart, IsLeap;
    EasterIsSunday(year);
    EasterAsMarchDay(year);
  }

  /** Where in the year each holiday can fall. */
  function Earliest(j: int): int
    requires 0 <= j < 10
  {
    [0, 15, 46, 79, 145, 169, 184, 244, 326, 358][j]
  }

  function Latest(j: int): int
    requires 0 <= j < 10
  {
    [2, 21, 52, 113, 151, 171, 186, 250, 332, 360][j]
  }

  /** Every holiday the rules produce is a Monday-to-Friday date in its own part of the year.
      Good Friday in particular is a Friday, because Easter is a Sunday. */
  lemma HolidayShape(year: int, j: int)
    requires 0 <= j < 10
    ensures Weekday(Holiday(year, j)) <= 4
    ensures j == 3 ==> Weekday(Holiday(year, j)) == 4
    ensures var offset := Holiday(year, j) - YearStart(year) - if j >= 3 then Leap(year) else 0;
            Earliest(j) <= offset <= Latest(j)
  {
    hide EasterSunday, ObservedFixedHoliday, NthWeekday, LastWeekday, YearStart, Weekday, IsLeap;
    match j {
      case 0 => ObservedShape(year, 1, 1);
      case 1 => NthWeekdayShape(year, 1, 0, 3);
      case 2 => NthWeekdayShape(year, 2, 0, 3);
      case 3 => GoodFridayShape(year);
      case 4 => LastWeekdayShape(year, 0);
      case 5 => ObservedShape(year, 6, 19);
      case 6 => ObservedShape(year, 7, 4);
      case 7 => NthWeekdayShape(year, 9, 0, 1);
      case 8 => NthWeekdayShape(year, 11, 3, 4);
      case _ => ObservedShape(year, 12, 25);
    }
  }

  /** Every closed day produced for a year is a weekday. */
  lemma ClosedDaysAreWeekdays(year: int, d: Day)
    requires d in ClosedDays(year)
    ensures Weekday(d) <= 4
  {
    var j := ClosedIsHoliday(year, d);
    HolidayShape(year, j);
  }

  lemma SameYearGap(year: int, i: int, j: int)
    requires 0 <= i < j < 10
    ensures Holiday(year, j) - Holiday(year, i) >= 13
  {
    hide Holiday;
    HolidayShape(year, i);
    HolidayShape(year, j);
  }

  /** Christmas and the next New Year's Day fall on the same weekday, so they are observed a
      week apart. */
  lemma NewYearGap(year: int)
    ensures Holiday(year + 1, 0) == Holiday(year, 9) + 7
  {
    var christmas := Civil(year, 12, 25);
    assert Civil(year + 1, 1, 1) == christmas + 7 by {
      hide YearStart;
      YearStartStep(year);
    }
    hide Civil, Weekday;
    WeekdayForward(christmas, Weekday(christmas), 1);
  }

  predicate IsHoliday(d: Day) {
    d in ClosedDays(YearOf(d))
  }

  lemma NextYearGap(year: int, i: int, j: int)
    requires 0 <= i < 10 && 0 <= j < 10
    ensures Holiday(year + 1, j) - Holiday(year, i) >= 7
  {
    NewYearGap(year);
    if i < 9 {
      SameYearGap(year, i, 9);
    }
    if j > 0 {
      SameYearGap(year + 1, 0, j);
    }
  }

  lemma HolidayPairGap(y: int, i: int, d: Day, z: int, j: int, e: Day)
    requires 0 <= i < 10 && 0 <= j < 10 && d == Holiday(y, i) && e == Holiday(z, j) && d < e
    requires YearStart(y) < d <= YearStart(y + 1) && YearStart(z) < e <= YearStart(z + 1)
    ensures e - d >= 7
  {
    hide Holiday, YearStart;
    if z < y {
      YearStartGrows(z + 1, y);
    } else if z == y {
      if i < j {
        SameYearGap(y, i, j);
      } else if j < i {
        SameYearGap(y, j, i);
      }
    } else if z == y + 1 {
      NextYearGap(y, i, j);
    } else {
      YearStartGrows(y + 1, y + 2);
      YearStartGrows(y + 2, z);
    }
  }

  /** Two different holidays are at least a week apart, across year ends too. */
  lemma HolidaysAreWeeksApart(d: Day, e: Day)
    requires d < e && IsHoliday(d) && IsHoliday(e)
    ensures e - d >= 7
  {
    hide ClosedDays, YearOf, Holiday, YearStart;
    var i := ClosedIsHoliday(YearOf(d), d);
    var j := ClosedIsHoliday(YearOf(e), e);
    HolidayPairGap(YearOf(d), i, d, YearOf(e), j, e);
  }

  /** Any four consecutive calendar days contain a session. */
  lemma FourDaysHoldASession(d: Day)
    ensures !IsClosed(d) || !IsClosed(d + 1) || !IsClosed(d + 2) || !IsClosed(d + 3)
  {
    hide ClosedDays, YearOf;
    var w := Weekday(d);
    var p, q := if w == 5 then d + 2 else if w == 6 then d + 1 else d,
                if w <= 3 then d + 1 else if w == 6 then d + 2 else d + 3;
    assert Weekday(p) <= 4 && Weekday(q) <= 4 && p < q <= p + 3;
    if IsHoliday(p) && IsHoliday(q) {
      HolidaysAreWeeksApart(p, q);
    }
    assert !IsClosed(p) || !IsClosed(q);
  }

  /** Three do not always: the Independence Day weekend of 2025. */
  lemma ThreeDaysMayNot() returns (d: Day)
    ensures d == Civil(2025, 7, 4) && IsClosed(d) && IsClosed(d + 1) && IsClosed(d + 2)
  {
    d := Civil(2025, 7, 4);
    assert d == 739436 && YearStart(2025) == 739251 && YearStart(2026) == 739616;
    YearUnique(d, 2025);
    WeekdayIs(d, 105634, 4);
    WeekdayIs(d + 1, 105634, 5);
    WeekdayIs(d + 2, 105634, 6);
    hide Civil, YearOf, Weekday, EasterSunday, NthWeekday, LastWeekday;
    assert ObservedFixedHoliday(2025, 7, 4) == d;
  }

  lemma NextWeekday(d: Day)
    ensures Weekday(d + 1) == if Weekday(d) == 6 then 0 else Weekday(d) + 1
  {
    var q := (d + 6) / 7;
    if Weekday(d) == 6 {
      WeekdayIs(d + 1, q + 1, 0);
    } else {
      WeekdayIs(d + 1, q, Weekday(d) + 1);
    }
  }

  lemma HolidaysDoNotMeet(p: Day, q: Day)
    requires p < q <= p + 2
    ensures !IsHoliday(p) || !IsHoliday(q)
  {
    hide IsHoliday;
    if IsHoliday(p) && IsHoliday(q) {
      HolidaysAreWeeksApart(p, q);
    }
  }

  lemma ClosedMeans(d: Day)
    ensures IsClosed(d) <==> Weekday(d) >= 5 || IsHoliday(d)
    ensures IsHoliday(d) ==> Weekday(d) <= 4
  {
    hide ClosedDays, YearOf, Weekday;
    if IsHoliday(d) {
      ClosedDaysAreWeekdays(YearOf(d), d);
    }
  }

  /** Three days in a row are closed exactly around a weekend: a Friday holiday before it or a Monday
      holiday after it. */
  lemma ThreeClosedExactlyWhen(d: Day)
    ensures IsClosed(d) && IsClosed(d + 1) && IsClosed(d + 2) <==>
            (Weekday(d) == 4 && IsHoliday(d)) || (Weekday(d) == 5 && IsHoliday(d + 2))
  {
    hide IsClosed, IsHoliday, Weekday;
    NextWeekday(d);
    NextWeekday(d + 1);
    ClosedMeans(d);
    ClosedMeans(d + 1);
    ClosedMeans(d + 2);
    HolidaysDoNotMeet(d, d + 1);
    HolidaysDoNotMeet(d, d + 2);
    HolidaysDoNotMeet(d + 1, d + 2);
  }

  /** December 31 is never a holiday: a Saturday New Year's Day is observed in a year whose own
      list does not name it. */
  lemma YearEndIsNoHoliday(year: int)
    ensures !IsHoliday(Civil(year, 12, 31))
  {
    var d := Civil(year, 12, 31);
    YearStartStep(year);
    YearUnique(d, year);
    if IsHoliday(d) {
      var j := ClosedIsHoliday(year, d);
      HolidayShape(year, j);
    }
  }

  lemma NewYearListed(year: int)
    ensures ObservedFixedHoliday(year, 1, 1) in ClosedDays(year)
  {
    hide ObservedFixedHoliday, NthWeekday, LastWeekday, EasterSunday, Thanksgiving;
  }

  lemma YearEdges(year: int)
    ensures Civil(year, 1, 1) == YearStart(year) + 1 && Civil(year - 1, 12, 31) == YearStart(year)
    ensures YearStart(year) + 365 <= YearStart(year + 1)
  {
    hide YearStart;
    YearStartStep(year - 1);
    YearStartStep(year);
  }

  /** The rule's New Year holiday is kept unless the day itself is a Saturday: then it falls on
      December 31, in a year whose own list does not name it. */
  lemma NewYearKeptExactlyWhen(year: int)
    ensures IsHoliday(ObservedFixedHoliday(year, 1, 1)) <==> Weekday(Civil(year, 1, 1)) != 5
  {
    hide ClosedDays, YearOf, Weekday, Civil, YearStart;
    YearEdges(year);
    if Weekday(Civil(year, 1, 1)) == 5 {
      YearEndIsNoHoliday(year - 1);
    } else {
      NewYearListed(year);
      YearUnique(ObservedFixedHoliday(year, 1, 1), year);
    }
  }

  /** Sessions lie inside their own day and last six and a half hours, or three and a half. */
  lemma SessionShape(d: Day)
    requires !IsClosed(d)
    ensures var s := NyseSessionFor(d).value;
            && s.date == d && d * DAY_SECONDS < s.open < s.close < (d + 1) * DAY_SECONDS
            && s.close - s.open == (if s.isEarlyClose then 12600 else 23400)
            && (s.isEarlyClose <==> IsEarlyClose(d))
  {
  }

  lemma DayBefore(d: Day)
    requires Weekday(d) == 6
    ensures Weekday(d - 1) == 5
  {
    WeekdayIs(d - 1, (d + 6) / 7, 5);
  }

  lemma EveAdjoins(year: int, holiday: Day)
    requires YearOf(holiday) == year
    requires Weekday(holiday) <= 4 ==> holiday in ClosedDays(year)
    ensures IsClosed(EveOf(holiday) + 1)
  {
    hide YearOf, Weekday, ClosedDays;
    if Weekday(holiday) == 6 {
      DayBefore(holiday);
    }
  }

  lemma FestiveYears(year: int)
    ensures YearOf(Civil(year, 7, 4)) == year && YearOf(Civil(year, 12, 25)) == year
    ensures YearOf(Thanksgiving(year)) == year
  {
    hide IsLeap, YearOf, NthWeekday;
    YearStartStep(year);
    NthWeekdayShape(year, 11, 3, 4);
    YearUnique(Civil(year, 7, 4), year);
    YearUnique(Civil(year, 12, 25), year);
    YearUnique(Thanksgiving(year), year);
  }

  lemma FestiveClosures(year: int)
    ensures Thanksgiving(year) in ClosedDays(year)
    ensures Weekday(Civil(year, 7, 4)) <= 4 ==> Civil(year, 7, 4) in ClosedDays(year)
    ensures Weekday(Civil(year, 12, 25)) <= 4 ==> Civil(year, 12, 25) in ClosedDays(year)
  {
    hide Civil, Weekday, NthWeekday, LastWeekday, EasterSunday;
  }

  /** An early close always adjoins a closed day: a holiday or a weekend. */
  lemma EarlyClosesAdjoinClosedDays(d: Day)
    requires IsEarlyClose(d)
    ensures IsClosed(d - 1) || IsClosed(d + 1)
  {
    hide YearOf, Weekday, Civil, Thanksgiving, ClosedDays, EveOf;
    var year := YearOf(d);
    FestiveYears(year);
    FestiveClosures(year);
    EveAdjoins(year, Civil(year, 7, 4));
    EveAdjoins(year, Civil(year, 12, 25));
  }
}
