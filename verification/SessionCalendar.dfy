/** The exchange calendar (alert_ranker/session_calendar.py): the Easter computus, the holiday
    rules, and the session of a day. Instants are seconds of exchange-local time, so day d
    runs from d * 86400 up to the next midnight. */
module SessionCalendar {
  import opened Conventions
  import opened Sorting
  import opened CivilDates

  const OPEN_OFFSET := 34200
  const REGULAR_CLOSE := 57600
  const EARLY_CLOSE := 46800

  datatype Session = Session(date: Day, open: int, close: int, isEarlyClose: bool)

  // ----- holiday rules -----

  function ObservedFixedHoliday(year: int, month: int, day: int): Day
    requires 1 <= month <= 12
  {
    var holiday := Civil(year, month, day);
    if Weekday(holiday) == 5 then holiday - 1
    else if Weekday(holiday) == 6 then holiday + 1
    else holiday
  }

  /** h of the Meeus/Jones/Butcher algorithm: how far the full moon lies after March 21. */
  function MoonTerm(year: int): (h: int)
    ensures 0 <= h < 30
  {
    var a, b := year % 19, year / 100;
    var d, f := b / 4, (b + 8) / 25;
    var g := (b - f + 1) / 3;
    (19 * a + b - d - g + 15) % 30
  }

  /** l of the algorithm: the days from there to a Sunday. */
  function SundayTerm(year: int): (l: int)
    ensures 0 <= l < 7
  {
    var e, c := year / 100 % 4, year % 100;
    var i, k := c / 4, c % 4;
    (32 + 2 * e + 2 * i - MoonTerm(year) - k) % 7
  }

  function WeekTerm(year: int): int {
    (year % 19 + 11 * MoonTerm(year) + 22 * SundayTerm(year)) / 451
  }

  /** Month and day of Gregorian Easter. */
  function EasterMonthDay(year: int): (int, int) {
    var n := MoonTerm(year) + SundayTerm(year) - 7 * WeekTerm(year) + 114;
    (n / 31, n % 31 + 1)
  }

  function EasterSunday(year: int): Day {
    EasterInRange(year);
    Civil(year, EasterMonthDay(year).0, EasterMonthDay(year).1)
  }

  function NthWeekday(year: int, month: int, weekday: int, occurrence: int): Day
    requires 1 <= month <= 12
  {
    var first := Civil(year, month, 1);
    first + (weekday - Weekday(first)) % 7 + 7 * (occurrence - 1)
  }

  function LastWeekday(year: int, month: int, weekday: int): Day
    requires 1 <= month <= 12
  {
    var nextMonth := if month == 12 then Civil(year + 1, 1, 1) else Civil(year, month + 1, 1);
    var candidate := nextMonth - 1;
    candidate - (Weekday(candidate) - weekday) % 7
  }

  function Thanksgiving(year: int): Day {
    NthWeekday(year, 11, 3, 4)
  }

  function ClosedDays(year: int): set<Day> {
    { ObservedFixedHoliday(year, 1, 1),
      NthWeekday(year, 1, 0, 3),
      NthWeekday(year, 2, 0, 3),
      EasterSunday(year) - 2,
      LastWeekday(year, 5, 0),
      ObservedFixedHoliday(year, 7, 4),
      NthWeekday(year, 9, 0, 1),
      Thanksgiving(year),
      ObservedFixedHoliday(year, 12, 25) }
    + if year >= 2022 then { ObservedFixedHoliday(year, 6, 19) } else {}
  }

  function EveOf(holiday: Day): Day {
    if Weekday(holiday) == 6 then holiday - 2 else holiday - 1
  }

  predicate IsEarlyClose(d: Day) {
    var year := YearOf(d);
    d == Thanksgiving(year) + 1 || d == EveOf(Civil(year, 12, 25)) || d == EveOf(Civil(year, 7, 4))
  }

  predicate IsClosed(d: Day) {
    Weekday(d) >= 5 || d in ClosedDays(YearOf(d))
  }

  function NyseSessionFor(d: Day): Option<Session> {
    if IsClosed(d) then None else
    var close := if IsEarlyClose(d) then EARLY_CLOSE else REGULAR_CLOSE;
    Some(Session(d, d * DAY_SECONDS + OPEN_OFFSET, d * DAY_SECONDS + close, close < REGULAR_CLOSE))
  }

  // ----- Easter -----

  /** March 1 is day 1, so April 25 is day 56. */
  function EasterMarchDay(year: int): int {
    if EasterMonthDay(year).0 == 4 then EasterMonthDay(year).1 + 31 else EasterMonthDay(year).1
  }

  /** The computus always names a real date between March 22 and April 25. */
  lemma EasterInRange(year: int)
    ensures var (month, day) := EasterMonthDay(year);
            (month == 3 && 22 <= day <= 31) || (month == 4 && 1 <= day <= 25)
  {
    RangeArithmetic(year % 19, MoonTerm(year), SundayTerm(year));
  }

  lemma RangeArithmetic(a: int, h: int, l: int)
    requires 0 <= a < 19 && 0 <= h < 30 && 0 <= l < 7
    ensures var n := h + l - 7 * ((a + 11 * h + 22 * l) / 451) + 114;
            (n / 31 == 3 && 22 <= n % 31 + 1 <= 31) || (n / 31 == 4 && 1 <= n % 31 + 1 <= 25)
  {
    var m := (a + 11 * h + 22 * l) / 451;
    assert 0 <= m <= 1;
    assert m == 1 ==> l == 6 && h >= 28;
    assert m == 0 ==> h + l <= 34;
  }

  /** Day n of March as an ordinal; April 1 is March 32. */
  function MarchDay(year: int, n: int): Day {
    Civil(year, 3, n)
  }

  lemma EasterAsMarchDay(year: int)
    ensures EasterSunday(year) == MarchDay(year, EasterMarchDay(year))
    ensures 22 <= EasterMarchDay(year) <= 56
  {
    EasterInRange(year);
  }

  /** The number of days before March 1, counted so that the leap day lands in the quarters. */
  lemma MarchStart(year: int)
    ensures MarchDay(year, 0) == 365 * (year - 1) + year / 4 - year / 100 + year / 400 + 59
  {
    hide IsLeap;
    YearStartStep(year);
  }

  lemma CenturyParts(year: int, d: int, e: int, i: int, k: int)
    requires d == year / 100 / 4 && e == year / 100 % 4 && i == year % 100 / 4 && k == year % 100 % 4
    ensures year == 400 * d + 100 * e + 4 * i + k
    ensures year / 4 == 100 * d + 25 * e + i && year / 100 == 4 * d + e && year / 400 == d
  {
    assert 0 <= 4 * i + k < 100;
    assert 0 <= 100 * e + 4 * i + k < 400;
  }

  lemma ModSeven(n: int, q: int, r: int)
    requires n == 7 * q + r
    ensures n % 7 == r % 7
  {
    assert n % 7 == (n - 7 * q) % 7;
  }

  lemma MarchStartParts(year: int, d: int, e: int, i: int, k: int)
    requires d == year / 100 / 4 && e == year / 100 % 4 && i == year % 100 / 4 && k == year % 100 % 4
    ensures MarchDay(year, 0) == 7 * (20871 * d + 5217 * e + 208 * i + 52 * k - 44) + 5 * e + 5 * i + k + 2
  {
    hide MarchDay;
    MarchStart(year);
    CenturyParts(year, d, e, i, k);
  }

  lemma EasterOffset(year: int)
    ensures EasterMarchDay(year) == MoonTerm(year) + SundayTerm(year) - 7 * WeekTerm(year) + 22
    ensures EasterSunday(year) == MarchDay(year, 0) + MoonTerm(year) + SundayTerm(year) - 7 * WeekTerm(year) + 22
  {
    hide MoonTerm, SundayTerm;
    EasterAsMarchDay(year);
    RangeArithmetic(year % 19, MoonTerm(year), SundayTerm(year));
  }

  /** Easter is a Sunday, in every year. */
  lemma EasterIsSunday(year: int)
    ensures Weekday(EasterSunday(year)) == 6
  {
    hide EasterSunday, MarchDay, EasterMarchDay, MoonTerm, WeekTerm, SundayTerm;
    var d, e, i, k := year / 100 / 4, year / 100 % 4, year % 100 / 4, year % 100 % 4;
    EasterOffset(year);
    MarchStartParts(year, d, e, i, k);
    SundayTermParts(year, e, i, k);
    EasterModSeven(EasterSunday(year), d, e, i, k, MoonTerm(year), SundayTerm(year), WeekTerm(year));
    ModSeven(EasterSunday(year) + 6, EasterSunday(year) / 7, 6);
  }

  lemma SundayTermParts(year: int, e: int, i: int, k: int)
    requires e == year / 100 % 4 && i == year % 100 / 4 && k == year % 100 % 4
    ensures SundayTerm(year) == (32 + 2 * e + 2 * i - MoonTerm(year) - k) % 7
  {
    hide MoonTerm;
  }

  lemma EasterModSeven(easter: int, d: int, e: int, i: int, k: int, h: int, l: int, m: int)
    requires l == (32 + 2 * e + 2 * i - h - k) % 7
    requires easter == 7 * (20871 * d + 5217 * e + 208 * i + 52 * k - 44) + 5 * e + 5 * i + k + 2 + h + l - 7 * m + 22
    ensures easter % 7 == 0
  {
    var t := 32 + 2 * e + 2 * i - h - k;
    assert l == t - 7 * (t / 7);
    ModSeven(easter, 20871 * d + 5217 * e + 208 * i + 52 * k - 44 - m - t / 7 + e + i + 8, 0);
  }

  // ----- the computus against the church's tables -----

  /** The paschal full moon as a day of March, from the golden number and the Clavian epact with
      its century corrections: the tabular method, worked out without the computus. */
  function PaschalFullMoon(year: int): int {
    var golden, century := year % 19 + 1, year / 100 + 1;
    var solar, lunar := 3 * century / 4 - 12, (8 * century + 5) / 25 - 5;
    var epact := (11 * golden + 20 + lunar - solar) % 30;
    var shifted := if (epact == 25 && golden > 11) || epact == 24 then epact + 1 else epact;
    if 44 - shifted < 21 then 74 - shifted else 44 - shifted
  }

  lemma CenturyCorrections(b: int)
    ensures (b - (b + 8) / 25 + 1) / 3 == (8 * (b + 1) + 5) / 25
    ensures b - b / 4 == 3 * (b + 1) / 4
  {
    var q, r := b / 25, b % 25;
    assert (b + 8) / 25 == q + if r >= 17 then 1 else 0;
    assert (8 * (b + 1) + 5) / 25 == 8 * q + (8 * r + 13) / 25;
    CorrectionResidues(r);
    assert b - (b + 8) / 25 + 1 == 24 * q + (r + 1 - if r >= 17 then 1 else 0);
    assert (b - (b + 8) / 25 + 1) / 3 == 8 * q + (r + 1 - if r >= 17 then 1 else 0) / 3;
  }

  lemma CorrectionResidues(r: int)
    requires 0 <= r < 25
    ensures (r + 1 - if r >= 17 then 1 else 0) / 3 == (8 * r + 13) / 25
  {
  }

  lemma MoonTermIsEpact(year: int)
    ensures PaschalFullMoon(year) ==
            21 + if MoonTerm(year) == 29 || (MoonTerm(year) == 28 && year % 19 > 10)
                 then MoonTerm(year) - 1 else MoonTerm(year)
  {
    var a, b := year % 19, year / 100;
    CenturyCorrections(b);
    var g := (b - (b + 8) / 25 + 1) / 3;
    var sum := 11 * (a + 1) + 20 + (g - 5) - (b - b / 4 - 12);
    EpactComplement(sum, 19 * a + b - b / 4 - g + 15, a);
    assert MoonTerm(year) == (19 * a + b - b / 4 - g + 15) % 30;
    assert (11 * (a + 1) + 20 + ((8 * (b + 1) + 5) / 25 - 5) - (3 * (b + 1) / 4 - 12)) % 30 == sum % 30;
    EpactShift(sum % 30, a);
  }

  lemma EpactShift(epact: int, a: int)
    requires 0 <= epact < 30
    ensures var h, shifted := (23 - epact) % 30,
                              if (epact == 25 && a + 1 > 11) || epact == 24 then epact + 1 else epact;
            (if 44 - shifted < 21 then 74 - shifted else 44 - shifted) ==
            21 + if h == 29 || (h == 28 && a > 10) then h - 1 else h
  {
  }

  lemma EpactComplement(sum: int, moon: int, a: int)
    requires sum + moon == 30 * a + 53
    ensures moon % 30 == (23 - sum % 30) % 30
  {
    assert moon == 23 - sum % 30 + 30 * (a + 1 - sum / 30);
  }

  /** Easter is the first Sunday strictly after the paschal full moon, in every year. */
  lemma EasterFollowsPaschalMoon(year: int)
    ensures MarchDay(year, PaschalFullMoon(year)) < EasterSunday(year) <= MarchDay(year, PaschalFullMoon(year)) + 7
    ensures Weekday(EasterSunday(year)) == 6
  {
    hide MoonTerm, SundayTerm, EasterSunday, PaschalFullMoon;
    EasterIsSunday(year);
    EasterOffset(year);
    MoonTermIsEpact(year);
    FirstSundayArithmetic(year % 19, MoonTerm(year), SundayTerm(year));
  }

  lemma FirstSundayArithmetic(a: int, h: int, l: int)
    requires 0 <= a < 19 && 0 <= h < 30 && 0 <= l < 7
    ensures var moon := if h == 29 || (h == 28 && a > 10) then h - 1 else h;
            1 <= h + l - 7 * ((a + 11 * h + 22 * l) / 451) + 1 - moon <= 7
  {
    var m := (a + 11 * h + 22 * l) / 451;
    assert 0 <= m <= 1;
    assert m == 1 <==> l == 6 && (h == 29 || (h == 28 && a > 10));
  }
}
