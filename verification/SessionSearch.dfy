/** The bounded day-by-day searches around the calendar (alert_ranker/setup_capture.py and
    alert_ranker/coverage_collector.py). Each gives up after 14 or 10 days; the calendar's shape
    means they never do. */
module SessionSearch {
  import opened Conventions
  import opened Sorting
  import opened CivilDates
  import opened SessionCalendar
  import opened TradingDays

  const HORIZON_DAYS := 14
  const LATEST_LOOKBACK_DAYS := 10
  const SETTLE_AFTER_CLOSE := 1800

  function SessionOn(d: Day): (s: Session)
    requires !IsClosed(d)
    ensures NyseSessionFor(d) == Some(s) && s.date == d
    ensures d * DAY_SECONDS < s.open < s.close < (d + 1) * DAY_SECONDS
  {
    NyseSessionFor(d).value
  }

  /** The first session day on or after d. */
  function SessionDayFrom(d: Day): (s: Day)
    ensures d <= s <= d + 3 && !IsClosed(s)
    ensures forall e :: d <= e < s ==> IsClosed(e)
  {
    hide IsClosed;
    FourDaysHoldASession(d);
    if !IsClosed(d) then d else if !IsClosed(d + 1) then d + 1 else if !IsClosed(d + 2) then d + 2 else d + 3
  }

  /** The last session day on or before d. */
  function SessionDayUpTo(d: Day): (s: Day)
    ensures d - 3 <= s <= d && !IsClosed(s)
    ensures forall e :: s < e <= d ==> IsClosed(e)
  {
    hide IsClosed;
    FourDaysHoldASession(d - 3);
    if !IsClosed(d) then d else if !IsClosed(d - 1) then d - 1 else if !IsClosed(d - 2) then d - 2 else d - 3
  }

  /** The earliest session that has not closed by the given moment; None would be the
      RuntimeError at the end of the horizon. */
  method NextSessionOnOrAfter(moment: int) returns (r: Option<Session>)
    ensures r.Some? && NyseSessionFor(r.value.date) == r && moment < r.value.close
    ensures forall e :: e < r.value.date && !IsClosed(e) ==> SessionOn(e).close <= moment
  {
    hide IsClosed, NyseSessionFor;
    ghost var first := DayOf(moment);
    ghost var target := SessionDayFrom(first + 1);
    var day := DayOf(moment);
    for i := 0 to HORIZON_DAYS
      invariant day == first + i && day <= target
      invariant forall e :: first <= e < day && !IsClosed(e) ==> SessionOn(e).close <= moment
    {
      var session := NyseSessionFor(day);
      CloseInside(day);
      if session.Some? && moment < session.value.close {
        return session;
      }
      assert !IsClosed(target) && SessionOn(target).close > moment;
      day := day + 1;
    }
    return None;
  }

  lemma CloseInside(d: Day)
    ensures NyseSessionFor(d).Some? <==> !IsClosed(d)
    ensures NyseSessionFor(d).Some? ==>
              var s := NyseSessionFor(d).value;
              s.date == d && d * DAY_SECONDS < s.open < s.close < (d + 1) * DAY_SECONDS
  {
  }

  function SessionAfter(moment: int): Session {
    SessionOn(SessionDayFrom(DayOf(moment) + 1))
  }

  /** The first session on a later calendar day. */
  method NextSessionAfterClose(moment: int) returns (r: Option<Session>)
    ensures r == Some(SessionAfter(moment))
  {
    hide IsClosed, NyseSessionFor;
    ghost var target := SessionDayFrom(DayOf(moment) + 1);
    var day := DayOf(moment) + 1;
    for i := 0 to HORIZON_DAYS
      invariant day == DayOf(moment) + 1 + i && day <= target
    {
      var session := NyseSessionFor(day);
      CloseInside(day);
      if session.Some? {
        return session;
      }
      day := day + 1;
    }
    return None;
  }

  // ----- the collector -----

  datatype Target = Chosen(session: Session) | NoSession | NotSettled | NoneSettled

  predicate Settled(s: Session, now: int, settle: int) {
    now >= s.close + settle
  }

  /** s is the newest session, on or before the local day of now, that has settled. */
  ghost predicate NewestSettled(s: Session, now: int, settle: int) {
    && !IsClosed(s.date) && s == SessionOn(s.date) && Settled(s, now, settle)
    && s.date <= DayOf(now)
    && (forall e :: s.date < e <= DayOf(now) && !IsClosed(e) ==> !Settled(SessionOn(e), now, settle))
  }

  /** No session of the ten days up to now has settled. */
  ghost predicate NoneSettledLately(now: int, settle: int) {
    forall e :: DayOf(now) - LATEST_LOOKBACK_DAYS < e <= DayOf(now) && !IsClosed(e) ==>
      !Settled(SessionOn(e), now, settle)
  }

  /** The session to collect. Without an explicit day the ten-day walk back always finds the
      newest settled session, as long as settling takes at most five days and eight hours. */
  method ResolveTarget(now: int, explicit: Option<Day>, settle: int) returns (r: Target)
    ensures explicit.Some? ==>
              var session := NyseSessionFor(explicit.value);
              && (r == NoSession <==> session.None?)
              && (r == NotSettled <==> session.Some? && !Settled(session.value, now, settle))
              && (r.Chosen? <==> session.Some? && Settled(session.value, now, settle))
              && (r.Chosen? ==> Some(r.session) == session)
    ensures explicit.None? ==> r.Chosen? || r.NoneSettled?
    ensures explicit.None? ==> (r.NoneSettled? <==> NoneSettledLately(now, settle))
    ensures explicit.None? && r.Chosen? ==> NewestSettled(r.session, now, settle)
    ensures explicit.None? && settle <= 460800 ==> r.Chosen?
  {
    hide IsClosed, NyseSessionFor;
    if explicit.Some? {
      var session := NyseSessionFor(explicit.value);
      if session.None? {
        return NoSession;
      }
      if !Settled(session.value, now, settle) {
        return NotSettled;
      }
      return Chosen(session.value);
    }
    ghost var oldest := SessionDayUpTo(DayOf(now) - 6);
    CloseByAfternoon(oldest);
    var cursor := DayOf(now);
    for i := 0 to LATEST_LOOKBACK_DAYS
      invariant cursor == DayOf(now) - i
      invariant settle <= 460800 ==> oldest <= cursor
      invariant forall e :: cursor < e <= DayOf(now) && !IsClosed(e) ==> !Settled(SessionOn(e), now, settle)
    {
      var session := NyseSessionFor(cursor);
      CloseInside(cursor);
      if session.Some? && Settled(session.value, now, settle) {
        return Chosen(session.value);
      }
      cursor := cursor - 1;
    }
    return NoneSettled;
  }

  lemma CloseByAfternoon(d: Day)
    requires !IsClosed(d)
    ensures SessionOn(d).close <= d * DAY_SECONDS + REGULAR_CLOSE
  {
  }

  function Sessions(start: Day, end: Day): (r: seq<Session>)
    decreases end + 1 - start
  {
    if start > end then []
    else (if IsClosed(end) then Sessions(start, end - 1) else Sessions(start, end - 1) + [SessionOn(end)])
  }

  method SessionsBetween(start: Day, end: Day) returns (r: seq<Session>)
    ensures r == Sessions(start, end)
  {
    hide IsClosed, NyseSessionFor;
    r := [];
    var cursor := start;
    while cursor <= end
      invariant start <= cursor <= end + 1 || (cursor == start && start > end)
      invariant r == Sessions(start, cursor - 1)
    {
      var session := NyseSessionFor(cursor);
      CloseInside(cursor);
      if session.Some? {
        r := r + [session.value];
      }
      cursor := cursor + 1;
    }
  }

  function SettledBy(now: int, settle: int): Session -> bool {
    (s: Session) => Settled(s, now, settle)
  }

  function SettledSessions(now: int, start: Day, settle: int): seq<Session> {
    Filter(Sessions(start, DayOf(now)), SettledBy(now, settle))
  }

  lemma {:induction false} LastSettledUpTo(s: Session, now: int, settle: int, start: Day, end: Day)
    requires !IsClosed(s.date) && s == SessionOn(s.date) && Settled(s, now, settle) && start <= s.date <= end
    requires forall e :: s.date < e <= end && !IsClosed(e) ==> !Settled(SessionOn(e), now, settle)
    ensures var found := Filter(Sessions(start, end), SettledBy(now, settle));
            found != [] && found[|found| - 1] == s
    decreases end - start
  {
    hide IsClosed, NyseSessionFor;
    if !IsClosed(end) {
      FilterSnoc(Sessions(start, end - 1), SessionOn(end), SettledBy(now, settle));
    }
    if s.date < end {
      LastSettledUpTo(s, now, settle, start, end - 1);
    }
  }

  /** The two collector entry points agree: the session resolve_target picks is the last one
      settled_sessions lists, from any start on or before it. */
  lemma TargetIsLastSettled(s: Session, now: int, settle: int, start: Day)
    requires NewestSettled(s, now, settle) && start <= s.date
    ensures var listed := SettledSessions(now, start, settle);
            listed != [] && listed[|listed| - 1] == s
  {
    hide IsClosed, NyseSessionFor, Filter, Sessions, SettledBy, Settled;
    LastSettledUpTo(s, now, settle, start, DayOf(now));
  }

  /** With the default half hour of settling, a session settles on its own day. */
  lemma SettlesSameDay(d: Day, now: int)
    requires !IsClosed(d)
    ensures Settled(SessionOn(d), now, SETTLE_AFTER_CLOSE) ==> d <= DayOf(now)
  {
  }
}
