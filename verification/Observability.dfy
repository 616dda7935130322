/** The one thing later bars can change about what the coverage observer recorded: whether a series is
    observable (alert_ranker/coverage_observer.py:223-593). */
module Observability {
  import opened Conventions
  import opened Sorting
  import opened CausalBars
  import opened CivilDates
  import opened SessionCalendar
  import opened SymbolSeries
  import opened CoverageObserver
  import opened ObserverCausality

  /** Two series of one symbol built from provider bars that agree on what closed by t. */
  ghost predicate BuiltFrom(a: Series, b: Series, bars: seq<Bar>, other: seq<Bar>, t: int) {
    && a.symbol == b.symbol && a.sessions == b.sessions && DatesAscend(a.sessions)
    && Filter(bars, Closed(t)) == Filter(other, Closed(t))
    && a == Built(a.symbol, bars, a.sessions) && b == Built(b.symbol, other, b.sessions)
  }

  ghost predicate BuiltAlike(a: Series, b: Series, t: int) {
    exists bars, other :: BuiltFrom(a, b, bars, other, t)
  }

  lemma BuiltAlikeAgrees(a: Series, b: Series, t: int)
    requires BuiltAlike(a, b, t) && a.Observable() && b.Observable()
    ensures WellFormed(a) && WellFormed(b) && Agree(a, b, t)
  {
    hide Built, Filter, WellFormed, Agree;
    var bars, other :| BuiltFrom(a, b, bars, other, t);
    BuiltSeriesAgree(a.symbol, bars, other, a.sessions, t);
  }

  // ----- an index -----

  predicate Usable(index: Option<Series>) {
    index.Some? && index.value.Observable()
  }

  ghost predicate IndexAlike(a: Option<Series>, b: Option<Series>, t: int) {
    if a.None? then b.None? else b.Some? && BuiltAlike(a.value, b.value, t)
  }

  /** Both indices are usable, or neither, or the usable one has no trend there. */
  predicate Undisturbed(a: Option<Series>, b: Option<Series>, d: Day, c: int) {
    (Usable(a) <==> Usable(b)) || IndexTrend(if Usable(a) then a else b, d, c).None?
  }

  /** An index whose provider bars agree up to t stands alike at a close by t, if and only if it is usable
      in both runs, or in neither, or has no trend there. */
  lemma TrendsAgreeExactlyWhen(a: Option<Series>, b: Option<Series>, t: int, d: Day, c: int)
    requires IndexAlike(a, b, t) && c <= t
    ensures IndexTrend(a, d, c) == IndexTrend(b, d, c) <==> Undisturbed(a, b, d, c)
  {
    hide TrendOf, Filter, BuiltAlike, WellFormed, Agree;
    if Usable(a) && Usable(b) {
      BuiltAlikeAgrees(a.value, b.value, t);
      IndexTrendsAgree(a, b, t, d, c);
    }
  }

  // ----- whole runs -----

  /** Two runs over provider bars that agree, for the symbol and both indices, on what closed by t. */
  ghost predicate ProvidersAgree(x: Inputs, y: Inputs, t: int) {
    && x.session == y.session && x.delay == y.delay && x.finder == y.finder
    && BuiltAlike(x.symbol, y.symbol, t) && IndexAlike(x.spy, y.spy, t) && IndexAlike(x.qqq, y.qqq, t)
  }

  /** Some bar of the session is a one-sided break closed by t. */
  ghost predicate SomeBreakBy(x: Inputs, t: int) {
    exists i :: 0 <= i < |x.symbol.bars| && BreakBy(x, t, i)
  }

  predicate IndicesUndisturbed(x: Inputs, y: Inputs, i: nat)
    requires i < |x.symbol.bars|
  {
    var c, d := x.symbol.bars[i].start + HALF_HOUR, x.session.date;
    Undisturbed(x.spy, y.spy, d, c) && Undisturbed(x.qqq, y.qqq, d, c)
  }

  lemma {:induction false} NoEventsExactlyWhen(x: Inputs, t: int, n: nat)
    requires n <= |x.symbol.bars| && x.session.date in x.symbol.bySession
    ensures Filter(EventsUpTo(x, n), ByClose(t)) == [] <==> forall i :: 0 <= i < n ==> !BreakBy(x, t, i)
  {
    hide Filter, ClassifyWindow, StructureLevels, Targets, IndexTrend, HourlyType, DailyType, Failures, FirstTick,
         SightOf, PriceAt;
    if n == 0 {
      FilterNone<Event>([], ByClose(t));
    } else {
      NoEventsExactlyWhen(x, t, n - 1);
      var f := FactsAt(x, n - 1);
      if f.Some? {
        FilterSnoc(EventsUpTo(x, n - 1), EventOf(x, f.value), ByClose(t));
        assert ByClose(t)(EventOf(x, f.value)) <==> BreakBy(x, t, n - 1);
      } else {
        assert EventsUpTo(x, n) == EventsUpTo(x, n - 1);
      }
    }
  }

  lemma NoFactsExactlyWhen(x: Inputs, t: int)
    ensures FactsOf(Filter(Observed(x), ByClose(t))) == [] <==> !x.symbol.Observable() || !SomeBreakBy(x, t)
  {
    hide Filter, EventsUpTo, ClassifyWindow;
    FilterNone<Event>([], ByClose(t));
    if x.symbol.Observable() && x.session.date in x.symbol.bySession {
      NoEventsExactlyWhen(x, t, |x.symbol.bars|);
    }
  }

  /** Runs whose provider bars agree up to t record the same facts by t, if and only if: both symbols are
      observable and no index is disturbed at a one-sided break closed by t; or neither symbol is; or the
      observable one has no such break. */
  lemma RunsAgreeExactlyWhen(x: Inputs, y: Inputs, t: int)
    requires ProvidersAgree(x, y, t)
    ensures FactsOf(Filter(Observed(x), ByClose(t))) == FactsOf(Filter(Observed(y), ByClose(t))) <==>
            if x.symbol.Observable() && y.symbol.Observable()
            then forall i :: 0 <= i < |x.symbol.bars| && BreakBy(x, t, i) ==> IndicesUndisturbed(x, y, i)
            else (!x.symbol.Observable() && !y.symbol.Observable())
                 || !SomeBreakBy(if x.symbol.Observable() then x else y, t)
  {
    hide Filter, Observed, WellFormed, Agree, BuiltAlike, IndexAlike, Undisturbed, IndexTrend, ClassifyWindow,
         SomeBreakBy;
    if x.symbol.Observable() && y.symbol.Observable() {
      BuiltAlikeAgrees(x.symbol, y.symbol, t);
      FactsAgreeExactlyWhen(x, y, t);
      forall i | 0 <= i < |x.symbol.bars| && BreakBy(x, t, i)
        ensures SameTrends(x, y, i) <==> IndicesUndisturbed(x, y, i)
      {
        var c := x.symbol.bars[i].start + HALF_HOUR;
        TrendsAgreeExactlyWhen(x.spy, y.spy, t, x.session.date, c);
        TrendsAgreeExactlyWhen(x.qqq, y.qqq, t, x.session.date, c);
      }
    } else {
      NoFactsExactlyWhen(x, t);
      NoFactsExactlyWhen(y, t);
    }
  }

  // ----- one late bar -----

  /** A bar of the last session that closes after t without a volume-weighted price. */
  predicate LateBar(late: Bar, sessions: seq<Session>, t: int) {
    && sessions != [] && late.vwap.None? && late.start + HALF_HOUR > t
    && var s := sessions[|sessions| - 1];
       DayOf(late.start) == s.date && Inside(HALF_HOUR, s.open, s.close)(late)
  }

  /** What a late bar makes of a series. */
  function WithLate(s: Series, bars: seq<Bar>, late: Bar): Series {
    Built(s.symbol, bars + [late], s.sessions)
  }

  lemma LateBarIsAlike(s: Series, bars: seq<Bar>, late: Bar, t: int)
    requires LateBar(late, s.sessions, t) && DatesAscend(s.sessions) && s == Built(s.symbol, bars, s.sessions)
    ensures BuiltAlike(s, WithLate(s, bars, late), t) && !WithLate(s, bars, late).Observable()
  {
    hide Filter, Gather;
    FilterSnoc(bars, late, Closed(t));
    assert Filter(bars, Closed(t)) + [] == Filter(bars, Closed(t));
    UnpricedBarHidesTheDay(s.symbol, bars + [late], s.sessions, late);
    assert BuiltFrom(s, WithLate(s, bars, late), bars, bars + [late], t);
  }

  /** A late bar of the symbol takes back every fact recorded by t. */
  lemma LateBarErasesFacts(x: Inputs, bars: seq<Bar>, late: Bar, t: int)
    requires x.symbol == Built(x.symbol.symbol, bars, x.symbol.sessions) && DatesAscend(x.symbol.sessions)
    requires x.symbol.Observable() && SomeBreakBy(x, t) && LateBar(late, x.symbol.sessions, t)
    ensures var y := x.(symbol := WithLate(x.symbol, bars, late));
      && BuiltAlike(x.symbol, y.symbol, t)
      && FactsOf(Filter(Observed(x), ByClose(t))) != [] == FactsOf(Filter(Observed(y), ByClose(t)))
  {
    hide Filter, Observed, Built, SomeBreakBy, BuiltAlike;
    LateBarIsAlike(x.symbol, bars, late, t);
    NoFactsExactlyWhen(x, t);
    NoFactsExactlyWhen(x.(symbol := WithLate(x.symbol, bars, late)), t);
  }

  /** A late bar of SPY changes the facts of every break by t at which SPY had a trend. */
  lemma LateIndexBarChangesFacts(x: Inputs, bars: seq<Bar>, late: Bar, t: int, i: nat)
    requires x.symbol.Observable() && WellFormed(x.symbol) && i < |x.symbol.bars| && BreakBy(x, t, i)
    requires x.spy.Some? && DatesAscend(x.spy.value.sessions) && LateBar(late, x.spy.value.sessions, t)
    requires x.spy.value == Built(x.spy.value.symbol, bars, x.spy.value.sessions)
    requires IndexTrend(x.spy, x.session.date, x.symbol.bars[i].start + HALF_HOUR).Some?
    ensures var y := x.(spy := Some(WithLate(x.spy.value, bars, late)));
      && IndexAlike(x.spy, y.spy, t)
      && FactsOf(Filter(Observed(x), ByClose(t))) != FactsOf(Filter(Observed(y), ByClose(t)))
  {
    hide Filter, Observed, Built, BuiltAlike, WellFormed, ClassifyWindow, TrendOf;
    var y := x.(spy := Some(WithLate(x.spy.value, bars, late)));
    LateBarIsAlike(x.spy.value, bars, late, t);
    FactsAgreeExactlyWhen(x, y, t);
    assert BreakBy(x, t, i) && !SameTrends(x, y, i);
  }
}
