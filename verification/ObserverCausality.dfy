/** Two runs of the coverage observer that agree on every bar closed by a time agree on everything
    they recorded by then; only the first-sight price may look further, and only as far as the
    first-sight tick. */
module ObserverCausality {
  import opened Conventions
  import opened Sorting
  import opened CausalBars
  import opened CivilDates
  import opened SessionCalendar
  import opened SymbolSeries
  import opened CoverageObserver

  // ----- agreement up to a time -----

  ghost predicate Agree(a: Series, b: Series, t: int) {
    a.sessions == b.sessions && Filter(a.bars, Closed(t)) == Filter(b.bars, Closed(t))
  }

  /** Both indices are unusable, or both are usable and agree. */
  ghost predicate IndexAgree(a: Option<Series>, b: Option<Series>, t: int) {
    if a.None? || !a.value.Observable() then b.None? || !b.value.Observable()
    else b.Some? && b.value.Observable() && WellFormed(a.value) && WellFormed(b.value) && Agree(a.value, b.value, t)
  }

  /** Two observable runs of one symbol whose bars closed by t agree. */
  ghost predicate SymbolsAgree(x: Inputs, y: Inputs, t: int) {
    && x.session == y.session && x.delay == y.delay && x.finder == y.finder
    && x.symbol.Observable() && y.symbol.Observable() && WellFormed(x.symbol) && WellFormed(y.symbol)
    && Agree(x.symbol, y.symbol, t)
  }

  ghost predicate RunsAgree(x: Inputs, y: Inputs, t: int) {
    SymbolsAgree(x, y, t) && IndexAgree(x.spy, y.spy, t) && IndexAgree(x.qqq, y.qqq, t)
  }

  lemma EarlierAgree(a: Series, b: Series, t: int, c: int)
    requires Agree(a, b, t) && c <= t
    ensures Filter(a.bars, Closed(c)) == Filter(b.bars, Closed(c))
  {
    FilterImplied(a.bars, Closed(t), Closed(c));
    FilterImplied(b.bars, Closed(t), Closed(c));
  }

  lemma SameDays(a: Series, b: Series, d: Day)
    requires WellFormed(a) && WellFormed(b) && a.Observable() && b.Observable() && a.sessions == b.sessions
    ensures d in a.bySession <==> d in b.bySession
  {
  }

  lemma SlicesAgree(a: Series, b: Series, t: int, c: int, d: Day)
    requires WellFormed(a) && WellFormed(b) && a.Observable() && b.Observable() && Agree(a, b, t) && c <= t
    ensures Filter(SessionPart(a, d), Closed(c)) == Filter(SessionPart(b, d), Closed(c))
  {
    hide Filter;
    EarlierAgree(a, b, t, c);
    SameDays(a, b, d);
    FilterSwap(a.bars, OnDay(d), Closed(c));
    FilterSwap(b.bars, OnDay(d), Closed(c));
  }

  lemma IndexTrendsAgree(a: Option<Series>, b: Option<Series>, t: int, d: Day, c: int)
    requires IndexAgree(a, b, t) && c <= t
    ensures IndexTrend(a, d, c) == IndexTrend(b, d, c)
  {
    hide Filter, TrendOf, WellFormed;
    if a.Some? && a.value.Observable() {
      EarlierAgree(a.value, b.value, t, c);
      SlicesAgree(a.value, b.value, t, c, d);
    }
  }

  /** An earlier day's bars are all closed once a bar of this day is. */
  lemma PriorDaysAgree(a: Series, b: Series, t: int, day: Day, d: Day, start: int)
    requires WellFormed(a) && WellFormed(b) && a.Observable() && b.Observable() && Agree(a, b, t)
    requires day < d && DayOf(start) == d && start + HALF_HOUR <= t
    ensures SessionPart(a, day) == SessionPart(b, day)
  {
    hide Filter;
    SlicesAgree(a, b, t, t, day);
    AllClosed(a, t, day, start);
    AllClosed(b, t, day, start);
  }

  lemma AllClosed(s: Series, t: int, day: Day, start: int)
    requires WellFormed(s) && day < DayOf(start) && start + HALF_HOUR <= t
    ensures Filter(SessionPart(s, day), Closed(t)) == SessionPart(s, day)
  {
    FilterMembers(s.bars, OnDay(day));
    forall b | b in SessionPart(s, day) ensures Closed(t)(b) {
      assert OnDay(day)(b);
    }
    FilterAll(SessionPart(s, day), Closed(t));
  }

  lemma {:induction false} PriorCandlesAgree(a: Series, b: Series, sessions: seq<Session>, t: int, d: Day, start: int)
    requires WellFormed(a) && WellFormed(b) && a.Observable() && b.Observable() && Agree(a, b, t)
    requires DayOf(start) == d && start + HALF_HOUR <= t
    ensures PriorCandles(a, sessions, d) == PriorCandles(b, sessions, d)
  {
    hide Filter, SessionCandle, WellFormed;
    if sessions != [] {
      PriorCandlesAgree(a, b, sessions[..|sessions| - 1], t, d, start);
      var day := sessions[|sessions| - 1].date;
      SameDays(a, b, day);
      if day < d {
        PriorDaysAgree(a, b, t, day, d, start);
      }
    }
  }

  // ----- one bar -----

  /** Both indices stand at the close of bar i as they do in the other run. */
  predicate SameTrends(x: Inputs, y: Inputs, i: nat)
    requires i < |x.symbol.bars|
  {
    var c, d := x.symbol.bars[i].start + HALF_HOUR, x.session.date;
    IndexTrend(x.spy, d, c) == IndexTrend(y.spy, d, c) && IndexTrend(x.qqq, d, c) == IndexTrend(y.qqq, d, c)
  }

  /** Bar i of the session is a one-sided break closed by t. */
  predicate BreakBy(x: Inputs, t: int, i: nat)
    requires i < |x.symbol.bars|
  {
    var bars := x.symbol.bars;
    && x.session.date in x.symbol.bySession
    && 3 <= i && DayOf(bars[i].start) == x.session.date && bars[i].start + HALF_HOUR <= t
    && ClassifyWindow(bars[i - 3], bars[i - 2], bars[i - 1], bars[i]).Some?
  }

  lemma BreakHasFacts(x: Inputs, t: int, i: nat)
    requires x.session.date in x.symbol.bySession && i < |x.symbol.bars| && x.symbol.bars[i].start + HALF_HOUR <= t
    ensures FactsAt(x, i).Some? <==> BreakBy(x, t, i)
  {
    hide ClassifyWindow, StructureLevels, Targets, IndexTrend, HourlyType, DailyType, Failures, FirstTick;
  }

  /** The facts of a bar closed by t agree in everything but the index trends. */
  lemma FactsAgree(x: Inputs, y: Inputs, t: int, i: nat)
    requires SymbolsAgree(x, y, t) && x.session.date in x.symbol.bySession && x.session.date in y.symbol.bySession
    requires i < |x.symbol.bars| && i < |y.symbol.bars| && x.symbol.bars[..i + 1] == y.symbol.bars[..i + 1]
    requires x.symbol.bars[i].start + HALF_HOUR <= t
    ensures FactsAt(x, i).Some? <==> FactsAt(y, i).Some?
    ensures FactsAt(x, i) == FactsAt(y, i) <==> (FactsAt(x, i).Some? ==> SameTrends(x, y, i))
  {
    hide Filter, WellFormed, Agree, ClassifyWindow, StructureLevels, Targets, IndexTrend, HourlyType,
         Failures, FirstTick, PriorCandles, LastType;
    var a, b, d := x.symbol.bars, y.symbol.bars, x.session.date;
    assert forall j :: 0 <= j <= i ==> a[j] == a[..i + 1][j] && b[j] == b[..i + 1][j];
    if DayOf(a[i].start) == d {
      SlicesAgree(x.symbol, y.symbol, t, a[i].start + HALF_HOUR, d);
      SameSessions(x.symbol, y.symbol, t);
      PriorCandlesAgree(x.symbol, y.symbol, x.symbol.sessions, t, d, a[i].start);
    }
  }

  lemma SameIndicesSameTrends(x: Inputs, y: Inputs, t: int, i: nat)
    requires RunsAgree(x, y, t) && i < |x.symbol.bars| && x.symbol.bars[i].start + HALF_HOUR <= t
    ensures SameTrends(x, y, i)
  {
    hide IndexTrend, IndexAgree, SymbolsAgree;
    IndexTrendsAgree(x.spy, y.spy, t, x.session.date, x.symbol.bars[i].start + HALF_HOUR);
    IndexTrendsAgree(x.qqq, y.qqq, t, x.session.date, x.symbol.bars[i].start + HALF_HOUR);
  }

  lemma SameSessions(a: Series, b: Series, t: int)
    requires Agree(a, b, t)
    ensures a.sessions == b.sessions
  {
  }

  // ----- whole runs -----

  function ByClose(t: int): Event -> bool {
    (e: Event) => e.facts.barClose <= t
  }

  function FactsOf(es: seq<Event>): (r: seq<Facts>)
    ensures |r| == |es|
  {
    seq(|es|, i requires 0 <= i < |es| => es[i].facts)
  }

  lemma FactsOfSnoc(es: seq<Event>, e: Event)
    ensures FactsOf(es + [e]) == FactsOf(es) + [e.facts]
  {
  }

  lemma {:induction false} EventsCut(x: Inputs, t: int, k: nat, n: nat)
    requires x.session.date in x.symbol.bySession && n <= |x.symbol.bars|
    requires forall i :: 0 <= i < |x.symbol.bars| ==> (x.symbol.bars[i].start + HALF_HOUR <= t <==> i < k)
    ensures Filter(EventsUpTo(x, n), ByClose(t)) == EventsUpTo(x, if n < k then n else k)
  {
    hide Filter, ClassifyWindow, StructureLevels, Targets, IndexTrend, HourlyType, DailyType, Failures, FirstTick,
         SightOf, PriceAt;
    if n == 0 {
      FilterNone<Event>([], ByClose(t));
    } else {
      EventsCut(x, t, k, n - 1);
      var f := FactsAt(x, n - 1);
      if f.Some? {
        FilterSnoc(EventsUpTo(x, n - 1), EventOf(x, f.value), ByClose(t));
        assert f.value.barClose == x.symbol.bars[n - 1].start + HALF_HOUR;
        assert ByClose(t)(EventOf(x, f.value)) <==> n - 1 < k;
      } else {
        assert EventsUpTo(x, n) == EventsUpTo(x, n - 1);
      }
    }
  }

  lemma {:induction false} FactsUpToAgree(x: Inputs, y: Inputs, t: int, n: nat)
    requires SymbolsAgree(x, y, t) && x.session.date in x.symbol.bySession && x.session.date in y.symbol.bySession
    requires n <= |x.symbol.bars| && n <= |y.symbol.bars| && x.symbol.bars[..n] == y.symbol.bars[..n]
    requires forall i :: 0 <= i < n ==> x.symbol.bars[i].start + HALF_HOUR <= t
    ensures |EventsUpTo(x, n)| == |EventsUpTo(y, n)|
    ensures FactsOf(EventsUpTo(x, n)) == FactsOf(EventsUpTo(y, n)) <==>
            forall i :: 0 <= i < n && BreakBy(x, t, i) ==> SameTrends(x, y, i)
  {
    hide FactsAt, SymbolsAgree, SightOf, PriceAt, BreakBy, SameTrends;
    if n > 0 {
      var a, b := x.symbol.bars, y.symbol.bars;
      assert a[..n][..n - 1] == a[..n - 1] && b[..n][..n - 1] == b[..n - 1];
      BothPresent(x, y, t);
      FactsUpToAgree(x, y, t, n - 1);
      FactsAgree(x, y, t, n - 1);
      BreakHasFacts(x, t, n - 1);
      var f, g := FactsAt(x, n - 1), FactsAt(y, n - 1);
      if f.Some? {
        FactsOfSnoc(EventsUpTo(x, n - 1), EventOf(x, f.value));
        FactsOfSnoc(EventsUpTo(y, n - 1), EventOf(y, g.value));
        SnocAgrees(FactsOf(EventsUpTo(x, n - 1)), f.value, FactsOf(EventsUpTo(y, n - 1)), g.value);
      } else {
        assert EventsUpTo(x, n) == EventsUpTo(x, n - 1) && EventsUpTo(y, n) == EventsUpTo(y, n - 1);
      }
    }
  }

  lemma SnocAgrees(s: seq<Facts>, f: Facts, t: seq<Facts>, g: Facts)
    requires |s| == |t|
    ensures s + [f] == t + [g] <==> s == t && f == g
  {
    if s + [f] == t + [g] {
      assert s == (s + [f])[..|s|] == (t + [g])[..|t|] == t;
      assert f == (s + [f])[|s|] == (t + [g])[|t|] == g;
    }
  }

  lemma BothPresent(x: Inputs, y: Inputs, t: int)
    requires SymbolsAgree(x, y, t)
    ensures x.session.date in x.symbol.bySession <==> x.session.date in y.symbol.bySession
    ensures SortedBy(x.symbol.bars, ByStart) && SortedBy(y.symbol.bars, ByStart)
    ensures Filter(x.symbol.bars, Closed(t)) == Filter(y.symbol.bars, Closed(t))
    ensures x.symbol.Observable() && y.symbol.Observable() && x.session == y.session
  {
  }

  /** Two observable runs whose symbol bars closed by t agree record the same facts by t, if and only if
      both indices stand alike at the close of every one-sided break closed by t. */
  lemma FactsAgreeExactlyWhen(x: Inputs, y: Inputs, t: int)
    requires SymbolsAgree(x, y, t)
    ensures FactsOf(Filter(Observed(x), ByClose(t))) == FactsOf(Filter(Observed(y), ByClose(t))) <==>
            forall i :: 0 <= i < |x.symbol.bars| && BreakBy(x, t, i) ==> SameTrends(x, y, i)
  {
    hide Filter, EventsUpTo, SymbolsAgree, SortedBy, SameTrends, ClassifyWindow;
    BothPresent(x, y, t);
    if x.session.date in x.symbol.bySession {
      var k := SortedCut(x.symbol.bars, ByStart, Closed(t));
      var m := SortedCut(y.symbol.bars, ByStart, Closed(t));
      assert k == |x.symbol.bars[..k]| == |y.symbol.bars[..m]| == m;
      EventsCut(x, t, k, |x.symbol.bars|);
      EventsCut(y, t, m, |y.symbol.bars|);
      FactsUpToAgree(x, y, t, k);
    }
  }

  /** The observer never uses a later bar: two observable runs whose symbol, SPY and QQQ bars closed
      by t agree record the same structures, levels, trends, alignment and first-sight instants for
      every bar closed by t, whatever comes after. */
  lemma LaterBarsDoNotInterfere(x: Inputs, y: Inputs, t: int)
    requires RunsAgree(x, y, t)
    ensures FactsOf(Filter(Observed(x), ByClose(t))) == FactsOf(Filter(Observed(y), ByClose(t)))
  {
    hide Filter, Observed, SymbolsAgree, SameTrends, ClassifyWindow, FactsOf;
    FactsAgreeExactlyWhen(x, y, t);
    forall i | 0 <= i < |x.symbol.bars| && BreakBy(x, t, i) ensures SameTrends(x, y, i) {
      SameIndicesSameTrends(x, y, t, i);
    }
  }

  // ----- the first-sight price -----

  /** The fine bars closed by the first-sight tick of t agree. */
  ghost predicate FineAgree(x: Inputs, y: Inputs, t: int) {
    && x.fineStep == y.fineStep && x.delay == y.delay
    && (x.fineStep.Some? ==>
          var step, tick := x.fineStep.value, FirstTick(t + x.delay);
          Filter(x.fine, ClosedBy(step, tick)) == Filter(y.fine, ClosedBy(step, tick)))
  }

  lemma PricesAgree(x: Inputs, y: Inputs, t: int, close: int)
    requires FineAgree(x, y, t) && close <= t
    ensures var tick := FirstTick(close + x.delay);
      PriceAt(x.fine, x.fineStep, tick) == PriceAt(y.fine, y.fineStep, tick)
  {
    hide Filter;
    if x.fineStep.Some? {
      var step, tick := x.fineStep.value, FirstTick(close + x.delay);
      assert tick <= FirstTick(t + x.delay);
      FilterImplied(x.fine, ClosedBy(step, FirstTick(t + x.delay)), ClosedBy(step, tick));
      FilterImplied(y.fine, ClosedBy(step, FirstTick(t + x.delay)), ClosedBy(step, tick));
      FilterNone<Bar>([], ClosedBy(step, tick));
    }
  }

  lemma SightFacts(x: Inputs, i: nat)
    requires i < |x.symbol.bars| && x.session.date in x.symbol.bySession && FactsAt(x, i).Some?
    ensures FactsAt(x, i).value.sightAt == FirstTick(x.symbol.bars[i].start + HALF_HOUR + x.delay)
  {
    hide ClassifyWindow, StructureLevels, Targets, IndexTrend, HourlyType, DailyType, Failures, FirstTick;
  }

  lemma {:induction false} EventsUpToAgree(x: Inputs, y: Inputs, t: int, n: nat)
    requires RunsAgree(x, y, t) && x.session.date in x.symbol.bySession && x.session.date in y.symbol.bySession
    requires n <= |x.symbol.bars| && n <= |y.symbol.bars| && x.symbol.bars[..n] == y.symbol.bars[..n]
    requires (forall i :: 0 <= i < n ==> x.symbol.bars[i].start + HALF_HOUR <= t) && FineAgree(x, y, t)
    ensures EventsUpTo(x, n) == EventsUpTo(y, n)
  {
    hide FactsAt, SymbolsAgree, IndexAgree, SightOf, PriceAt, FineAgree, FirstTick, SameTrends;
    if n > 0 {
      var a, b := x.symbol.bars, y.symbol.bars;
      assert a[..n][..n - 1] == a[..n - 1] && b[..n][..n - 1] == b[..n - 1];
      EventsUpToAgree(x, y, t, n - 1);
      FactsAgree(x, y, t, n - 1);
      SameIndicesSameTrends(x, y, t, n - 1);
      if FactsAt(x, n - 1).Some? {
        SightFacts(x, n - 1);
        PricesAgree(x, y, t, a[n - 1].start + HALF_HOUR);
      }
    }
  }

  /** The rest of an event looks no further than fine bars closed by the first-sight tick: when those
      agree too, the whole events agree. */
  lemma SightLooksToItsTick(x: Inputs, y: Inputs, t: int)
    requires RunsAgree(x, y, t) && FineAgree(x, y, t)
    ensures Filter(Observed(x), ByClose(t)) == Filter(Observed(y), ByClose(t))
  {
    hide Filter, EventsUpTo, SymbolsAgree, IndexAgree, SortedBy, FineAgree;
    BothPresent(x, y, t);
    if x.session.date in x.symbol.bySession {
      var k := SortedCut(x.symbol.bars, ByStart, Closed(t));
      var m := SortedCut(y.symbol.bars, ByStart, Closed(t));
      assert k == |x.symbol.bars[..k]| == |y.symbol.bars[..m]| == m;
      EventsCut(x, t, k, |x.symbol.bars|);
      EventsCut(y, t, m, |y.symbol.bars|);
      EventsUpToAgree(x, y, t, k);
    }
  }

  // ----- from provider bars -----

  /** Series built from provider bars that agree on what closed by t agree on it too. */
  lemma BuiltSeriesAgree(symbol: int, bars: seq<Bar>, other: seq<Bar>, sessions: seq<Session>, t: int)
    requires DatesAscend(sessions) && Filter(bars, Closed(t)) == Filter(other, Closed(t))
    requires Built(symbol, bars, sessions).Observable() && Built(symbol, other, sessions).Observable()
    ensures var a, b := Built(symbol, bars, sessions), Built(symbol, other, sessions);
      WellFormed(a) && WellFormed(b) && Agree(a, b, t)
  {
    hide Filter, Gather;
    BuiltIsWellFormed(symbol, bars, sessions);
    BuiltIsWellFormed(symbol, other, sessions);
    GatherCutoff(bars, other, sessions, CurrentDay(sessions), t);
  }
}
