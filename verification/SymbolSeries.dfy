/** Half-hour bars of one symbol reduced to whole regular sessions
    (alert_ranker/coverage_observer.py:119-144, 213-279). */
module SymbolSeries {
  import opened Conventions
  import opened Sorting
  import opened CausalBars
  import opened CivilDates
  import opened SessionCalendar

  datatype Series = Series(symbol: int, sessions: seq<Session>, bySession: map<Day, seq<Bar>>, bars: seq<Bar>,
                           expectedCurrent: nat, missing: seq<Day>, incomplete: seq<Day>, vwapMissing: bool)
  {
    predicate Observable() {
      missing == [] && incomplete == [] && !vwapMissing
    }
  }

  function OnDay(d: Day): Bar -> bool {
    (b: Bar) => DayOf(b.start) == d
  }

  /** The bars of the day that lie inside the session. */
  function Kept(bars: seq<Bar>, s: Session): seq<Bar> {
    SessionBars(Filter(bars, OnDay(s.date)), HALF_HOUR, s.open, s.close)
  }

  function NotAfter(t: int): int -> bool {
    (start: int) => start <= t
  }

  /** The last session need only be whole up to the last bar it has. */
  function Expected(kept: seq<Bar>, s: Session, current: Option<Day>): seq<int>
    requires kept != []
  {
    var all := ExpectedStarts(HALF_HOUR, s.open, s.close);
    if current == Some(s.date) then Filter(all, NotAfter(LastStart(kept))) else all
  }

  predicate Gapless(kept: seq<Bar>, s: Session, current: Option<Day>)
    requires kept != []
  {
    forall t :: t in Expected(kept, s, current) ==> exists b :: b in kept && b.start == t
  }

  /** What the session loop has gathered. */
  datatype Gathered = Gathered(bySession: map<Day, seq<Bar>>, bars: seq<Bar>, missing: seq<Day>, incomplete: seq<Day>)

  function Gather(bars: seq<Bar>, sessions: seq<Session>, current: Option<Day>): Gathered {
    if sessions == [] then Gathered(map[], [], [], []) else
    var s, g := sessions[|sessions| - 1], Gather(bars, sessions[..|sessions| - 1], current);
    var kept := Kept(bars, s);
    if kept == [] then g.(missing := g.missing + [s.date])
    else if !Gapless(kept, s, current) then g.(incomplete := g.incomplete + [s.date])
    else g.(bySession := g.bySession[s.date := kept], bars := g.bars + kept)
  }

  function CurrentDay(sessions: seq<Session>): Option<Day> {
    if sessions == [] then None else Some(sessions[|sessions| - 1].date)
  }

  /** How many bars the last session would have. */
  function ExpectedCurrent(sessions: seq<Session>): nat {
    if sessions == [] then 0 else
    var s := sessions[|sessions| - 1];
    |ExpectedStarts(HALF_HOUR, s.open, s.close)|
  }

  function Built(symbol: int, bars: seq<Bar>, sessions: seq<Session>): Series {
    var current := CurrentDay(sessions);
    var g := Gather(bars, sessions, current);
    var vwapMissing := current.Some? && current.value in g.bySession && SessionVwap(g.bySession[current.value]).None?;
    Series(symbol, sessions, g.bySession, g.bars, ExpectedCurrent(sessions), g.missing, g.incomplete, vwapMissing)
  }

  /** The session loop; by_day.get(date, []) is the day's bars in list order. */
  method BuildSymbolSeries(symbol: int, bars: seq<Bar>, sessions: seq<Session>) returns (r: Series)
    ensures r == Built(symbol, bars, sessions)
  {
    hide Kept, Gapless;
    var bySession: map<Day, seq<Bar>> := map[];
    var series: seq<Bar>, missing: seq<Day>, incomplete: seq<Day> := [], [], [];
    var current := CurrentDay(sessions);
    var expectedCurrent := 0;
    if sessions != [] {
      var last := sessions[|sessions| - 1];
      var starts := ExpectedBarStarts(HALF_HOUR, last.open, last.close);
      expectedCurrent := |starts|;
    }
    for i := 0 to |sessions|
      invariant Gathered(bySession, series, missing, incomplete) == Gather(bars, sessions[..i], current)
    {
      assert sessions[..i + 1][..i] == sessions[..i];
      var session := sessions[i];
      var kept := Kept(bars, session);
      if kept == [] {
        missing := missing + [session.date];
        continue;
      }
      if !Gapless(kept, session, current) {
        incomplete := incomplete + [session.date];
        continue;
      }
      bySession := bySession[session.date := kept];
      series := series + kept;
    }
    assert sessions[..|sessions|] == sessions;
    var vwapMissing := current.Some? && current.value in bySession && SessionVwap(bySession[current.value]).None?;
    r := Series(symbol, sessions, bySession, series, expectedCurrent, missing, incomplete, vwapMissing);
  }

  // ----- what the build establishes -----

  ghost predicate DatesAscend(sessions: seq<Session>) {
    forall i, j :: 0 <= i < j < |sessions| ==> sessions[i].date < sessions[j].date
  }

  ghost predicate HasDate(sessions: seq<Session>, d: Day) {
    exists s :: s in sessions && s.date == d
  }

  /** The per-session lists are the series cut by day, and the series is in time order. */
  ghost predicate SlicedByDay(g: Gathered, sessions: seq<Session>) {
    && SortedBy(g.bars, ByStart)
    && (forall b :: b in g.bars ==> HasDate(sessions, DayOf(b.start)))
    && (forall d :: d in g.bySession ==> HasDate(sessions, d) && g.bySession[d] == Filter(g.bars, OnDay(d)))
    && (g.missing == [] && g.incomplete == [] ==> forall s :: s in sessions ==> s.date in g.bySession)
  }

  lemma KeptOnDay(bars: seq<Bar>, s: Session)
    ensures SortedBy(Kept(bars, s), ByStart)
    ensures forall b :: b in Kept(bars, s) ==> DayOf(b.start) == s.date
  {
    var day := Filter(bars, OnDay(s.date));
    FilterMembers(bars, OnDay(s.date));
    FilterMembers(day, Inside(HALF_HOUR, s.open, s.close));
    ByStartOrder();
    SortSorts(Filter(day, Inside(HALF_HOUR, s.open, s.close)), ByStart);
    forall b | b in Kept(bars, s) ensures DayOf(b.start) == s.date {
      assert OnDay(s.date)(b);
    }
  }

  lemma LaterDayKeepsOrder(bars: seq<Bar>, kept: seq<Bar>, d: Day)
    requires SortedBy(bars, ByStart) && SortedBy(kept, ByStart)
    requires (forall b :: b in bars ==> DayOf(b.start) < d) && forall b :: b in kept ==> DayOf(b.start) == d
    ensures SortedBy(bars + kept, ByStart)
  {
    var all := bars + kept;
    forall i, j | 0 <= i < j < |all| ensures ByStart(all[i], all[j]) {
      if i < |bars| <= j {
        assert all[i] in bars && all[j] in kept;
      }
    }
  }

  lemma SliceStep(bars: seq<Bar>, kept: seq<Bar>, d: Day, day: Day)
    requires (forall b :: b in bars ==> DayOf(b.start) < d) && forall b :: b in kept ==> DayOf(b.start) == d
    ensures Filter(bars + kept, OnDay(day)) == if day == d then kept else Filter(bars, OnDay(day))
  {
    hide Filter;
    FilterAppend(bars, kept, OnDay(day));
    if day == d {
      FilterNone(bars, OnDay(day));
      FilterAll(kept, OnDay(day));
    } else {
      FilterNone(kept, OnDay(day));
    }
  }

  lemma {:induction false} GatherSlices(bars: seq<Bar>, sessions: seq<Session>, current: Option<Day>)
    requires DatesAscend(sessions)
    ensures SlicedByDay(Gather(bars, sessions, current), sessions)
  {
    hide Kept, Gapless, Filter, SortedBy;
    if sessions == [] {
      NothingSliced();
    } else {
      var n := |sessions| - 1;
      var s, early := sessions[n], sessions[..n];
      GatherSlices(bars, early, current);
      var g, kept := Gather(bars, early, current), Kept(bars, s);
      KeptOnDay(bars, s);
      EarlierDates(sessions);
      forall b | b in g.bars ensures DayOf(b.start) < s.date {
        assert HasDate(early, DayOf(b.start));
      }
      LaterDayKeepsOrder(g.bars, kept, s.date);
      forall d ensures Filter(g.bars + kept, OnDay(d)) == if d == s.date then kept else Filter(g.bars, OnDay(d)) {
        SliceStep(g.bars, kept, s.date, d);
      }
    }
  }

  lemma NothingSliced()
    ensures SlicedByDay(Gathered(map[], [], [], []), [])
  {
  }

  lemma EarlierDates(sessions: seq<Session>)
    requires sessions != [] && DatesAscend(sessions)
    ensures var n := |sessions| - 1;
      && DatesAscend(sessions[..n])
      && (forall d :: HasDate(sessions, d) <==> HasDate(sessions[..n], d) || d == sessions[n].date)
      && (forall d :: HasDate(sessions[..n], d) ==> d < sessions[n].date)
      && (forall s :: s in sessions <==> s in sessions[..n] || s == sessions[n])
  {
    var n := |sessions| - 1;
    assert sessions == sessions[..n] + [sessions[n]];
  }

  /** What the observer relies on. */
  ghost predicate WellFormed(s: Series) {
    && SortedBy(s.bars, ByStart)
    && (forall d :: d in s.bySession ==> s.bySession[d] == Filter(s.bars, OnDay(d)))
    && (s.Observable() ==> forall d :: d in s.bySession <==> HasDate(s.sessions, d))
  }

  lemma BuiltIsWellFormed(symbol: int, bars: seq<Bar>, sessions: seq<Session>)
    requires DatesAscend(sessions)
    ensures WellFormed(Built(symbol, bars, sessions))
  {
    hide Filter, SortedBy, Gather;
    GatherSlices(bars, sessions, CurrentDay(sessions));
  }

  // ----- the build and a cutoff -----

  function Closed(t: int): Bar -> bool {
    ClosedBy(HALF_HOUR, t)
  }

  lemma KeptCutoff(bars: seq<Bar>, s: Session, t: int)
    ensures Filter(Kept(bars, s), Closed(t)) == Kept(Filter(bars, Closed(t)), s)
  {
    hide Filter, StableSort;
    ByStartOrder();
    var day := Filter(bars, OnDay(s.date));
    var inside := Inside(HALF_HOUR, s.open, s.close);
    SortFilter(Filter(day, inside), ByStart, Closed(t));
    FilterSwap(day, inside, Closed(t));
    FilterSwap(bars, OnDay(s.date), Closed(t));
  }

  lemma {:induction false} GatherCutoff(bars: seq<Bar>, other: seq<Bar>, sessions: seq<Session>,
                                        current: Option<Day>, t: int)
    requires Filter(bars, Closed(t)) == Filter(other, Closed(t))
    requires var g := Gather(bars, sessions, current); g.missing == [] && g.incomplete == []
    requires var g := Gather(other, sessions, current); g.missing == [] && g.incomplete == []
    ensures Filter(Gather(bars, sessions, current).bars, Closed(t)) ==
            Filter(Gather(other, sessions, current).bars, Closed(t))
  {
    hide Kept, Gapless, Filter, Closed;
    if sessions != [] {
      var n := |sessions| - 1;
      GatherCutoff(bars, other, sessions[..n], current, t);
      KeptCutoff(bars, sessions[n], t);
      KeptCutoff(other, sessions[n], t);
      FilterAppend(Gather(bars, sessions[..n], current).bars, Kept(bars, sessions[n]), Closed(t));
      FilterAppend(Gather(other, sessions[..n], current).bars, Kept(other, sessions[n]), Closed(t));
    }
  }

  /** Observability looks at the whole last session: one bar of it without a volume-weighted price,
      however late, makes the series unobservable. */
  lemma UnpricedBarHidesTheDay(symbol: int, bars: seq<Bar>, sessions: seq<Session>, late: Bar)
    requires sessions != [] && late in bars && late.vwap.None?
    requires var s := sessions[|sessions| - 1];
      DayOf(late.start) == s.date && Inside(HALF_HOUR, s.open, s.close)(late)
    ensures !Built(symbol, bars, sessions).Observable()
  {
    hide Gapless, StableSort, Filter;
    var s := sessions[|sessions| - 1];
    var day := Filter(bars, OnDay(s.date));
    FilterMembers(bars, OnDay(s.date));
    assert OnDay(s.date)(late);
    FilterMembers(day, Inside(HALF_HOUR, s.open, s.close));
    ByStartOrder();
    SortSorts(Filter(day, Inside(HALF_HOUR, s.open, s.close)), ByStart);
    assert late in Kept(bars, s);
    FoldMeaning(Kept(bars, s));
  }
}
