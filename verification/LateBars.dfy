/** Two regular days on which one late bar changes what the coverage observer recorded before it
    (alert_ranker/coverage_observer.py:223-593). */
module LateBars {
  import opened Conventions
  import opened Sorting
  import opened CausalBars
  import opened CivilDates
  import opened SessionCalendar
  import opened SymbolSeries
  import opened CoverageObserver
  import opened ObserverCausality
  import opened Observability

  const SLOTS := 13

  predicate RegularDay(s: Session) {
    s.date * DAY_SECONDS <= s.open && s.close == s.open + SLOTS * HALF_HOUR && s.close <= (s.date + 1) * DAY_SECONDS
  }

  /** A steady climb: each bar breaks the high of the one before. */
  function Rung(start: int): Bar {
    var price := start as real;
    Bar(start, price, price + 1.0, price, price, 1.0, Some(price))
  }

  function Rungs(open: int, n: nat): (r: seq<Bar>)
    ensures |r| == n && forall i :: 0 <= i < n ==> r[i] == Rung(open + i * HALF_HOUR)
  {
    seq(n, i requires 0 <= i < n => Rung(open + i * HALF_HOUR))
  }

  function TwoDays(p: Session, s: Session, n: nat): seq<Bar> {
    Rungs(p.open, SLOTS) + Rungs(s.open, n)
  }

  lemma RungsInSession(s: Session, n: nat)
    requires RegularDay(s) && n <= SLOTS
    ensures SortedBy(Rungs(s.open, n), ByStart)
    ensures forall b :: b in Rungs(s.open, n) ==> OnDay(s.date)(b) && Inside(HALF_HOUR, s.open, s.close)(b)
  {
    forall b | b in Rungs(s.open, n) ensures OnDay(s.date)(b) && Inside(HALF_HOUR, s.open, s.close)(b) {
      var i :| 0 <= i < n && Rungs(s.open, n)[i] == b;
      assert s.date * DAY_SECONDS <= b.start < (s.date + 1) * DAY_SECONDS;
    }
  }

  lemma KeptAmong(before: seq<Bar>, own: seq<Bar>, behind: seq<Bar>, s: Session)
    requires forall b :: b in before || b in behind ==> !OnDay(s.date)(b)
    requires forall b :: b in own ==> OnDay(s.date)(b) && Inside(HALF_HOUR, s.open, s.close)(b)
    requires SortedBy(own, ByStart)
    ensures Kept(before + own + behind, s) == own
  {
    hide Filter, StableSort;
    FilterNone(before, OnDay(s.date));
    FilterNone(behind, OnDay(s.date));
    FilterAll(own, OnDay(s.date));
    FilterAppend(before + own, behind, OnDay(s.date));
    FilterAppend(before, own, OnDay(s.date));
    assert [] + own + [] == own;
    FilterAll(own, Inside(HALF_HOUR, s.open, s.close));
    SortOfSorted(own, ByStart);
  }

  lemma {:induction false} ExpectedOnGrid(open: int, close: int, t: int)
    requires t in ExpectedStarts(HALF_HOUR, open, close)
    ensures open <= t <= close - HALF_HOUR && (t - open) % HALF_HOUR == 0
    decreases close - open
  {
    if t != open {
      assert t in ExpectedStarts(HALF_HOUR, open + HALF_HOUR, close);
      ExpectedOnGrid(open + HALF_HOUR, close, t);
    }
  }

  lemma RungsGapless(s: Session, n: nat, current: Option<Day>)
    requires RegularDay(s) && 0 < n <= SLOTS && (n == SLOTS || current == Some(s.date))
    ensures Gapless(Rungs(s.open, n), s, current) && SessionVwap(Rungs(s.open, n)).Some?
  {
    hide ExpectedStarts, LastStart, Filter, FoldAll;
    var kept := Rungs(s.open, n);
    LastStartIs(kept);
    assert forall b :: b in kept ==> b.start <= s.open + (n - 1) * HALF_HOUR;
    FilterMembers(ExpectedStarts(HALF_HOUR, s.open, s.close), NotAfter(LastStart(kept)));
    forall t | t in Expected(kept, s, current) ensures exists b :: b in kept && b.start == t {
      ExpectedOnGrid(s.open, s.close, t);
      var i := (t - s.open) / HALF_HOUR;
      assert kept[i] in kept && kept[i].start == t;
    }
    RungsPriced(s.open, n);
  }

  lemma {:induction false} RungsPriced(open: int, n: nat)
    requires n > 0
    ensures FoldAll(Rungs(open, n)).volume >= 1.0 && FoldAll(Rungs(open, n)).turnover.Some?
  {
    var bars := Rungs(open, n);
    if n > 1 {
      assert bars[..n - 1] == Rungs(open, n - 1);
      RungsPriced(open, n - 1);
    }
  }

  ghost predicate Climb(r: Series, p: Session, s: Session, n: nat) {
    && r.Observable() && r.sessions == [p, s] && r.bars == TwoDays(p, s, n)
    && r.bySession == map[p.date := Rungs(p.open, SLOTS), s.date := Rungs(s.open, n)]
  }

  lemma ClimbIsBuilt(symbol: int, p: Session, s: Session, n: nat)
    requires RegularDay(p) && RegularDay(s) && p.date < s.date && 0 < n <= SLOTS
    ensures var r := Built(symbol, TwoDays(p, s, n), [p, s]); Climb(r, p, s, n) && r.symbol == symbol
  {
    hide Kept, Gapless, RegularDay, SessionVwap;
    var bars, first, last := TwoDays(p, s, n), Rungs(p.open, SLOTS), Rungs(s.open, n);
    RungsInSession(p, SLOTS);
    RungsInSession(s, n);
    KeptAmong([], first, last, p);
    KeptAmong(first, last, [], s);
    assert [] + first + last == bars == first + last + [];
    RungsGapless(p, SLOTS, Some(s.date));
    RungsGapless(s, n, Some(s.date));
    assert [p, s][..1] == [p] && [p][..0] == [];
    assert Gather(bars, [], Some(s.date)) == Gathered(map[], [], [], []);
    assert Gather(bars, [p], Some(s.date)) == Gathered(map[p.date := first], [] + first, [], []);
    assert Gather(bars, [p, s], Some(s.date)) == Gathered(map[p.date := first, s.date := last], bars, [], []);
  }

  /** The late bar: the last half hour of the day, without a volume-weighted price. */
  function Unpriced(s: Session): Bar {
    Rung(s.close - HALF_HOUR).(vwap := None)
  }

  /** The climb up to the last half hour, watched as the symbol and as both indices. */
  function Watching(p: Session, s: Session, delay: int, finder: Finder): Inputs {
    var series := Built(0, TwoDays(p, s, SLOTS - 1), [p, s]);
    Inputs(series, s, Some(series), Some(series), [], None, delay, finder)
  }

  lemma LastRungBreaks(p: Session, s: Session, delay: int, finder: Finder)
    requires RegularDay(p) && RegularDay(s) && p.date < s.date
    ensures var x := Watching(p, s, delay, finder);
      && |x.symbol.bars| == 25 && x.symbol.Observable() && WellFormed(x.symbol)
      && x.symbol.bars[24].start + HALF_HOUR == s.close - HALF_HOUR
      && BreakBy(x, s.close - HALF_HOUR, 24)
  {
    hide Built;
    ClimbIsBuilt(0, p, s, SLOTS - 1);
    BuiltIsWellFormed(0, TwoDays(p, s, SLOTS - 1), [p, s]);
    var x := Watching(p, s, delay, finder);
    var bars := x.symbol.bars;
    assert bars[23] == Rung(s.open + 10 * HALF_HOUR) && bars[24] == Rung(s.open + 11 * HALF_HOUR);
    DirectionalBarsCarryStructure(bars[21], bars[22], bars[23], bars[24]);
  }

  lemma LastRungHasTrend(p: Session, s: Session)
    requires RegularDay(p) && RegularDay(s) && p.date < s.date
    ensures var series := Built(0, TwoDays(p, s, SLOTS - 1), [p, s]);
      IndexTrend(Some(series), s.date, s.close - HALF_HOUR).Some?
  {
    hide Built, Filter, Ema;
    ClimbIsBuilt(0, p, s, SLOTS - 1);
    var bars, part, c := TwoDays(p, s, SLOTS - 1), Rungs(s.open, SLOTS - 1), s.close - HALF_HOUR;
    forall b | b in bars ensures Closed(c)(b) {
      var i :| 0 <= i < |bars| && bars[i] == b;
      assert p.close <= s.open;
    }
    FilterAll(bars, Closed(c));
    forall b | b in part ensures Closed(c)(b) {
      var i :| 0 <= i < |part| && part[i] == b;
    }
    FilterAll(part, Closed(c));
    RungsGapless(s, SLOTS - 1, Some(s.date));
    EnoughHistory(Closes(bars));
  }

  lemma EnoughHistory(values: seq<real>)
    requires |values| >= EMA_PERIOD
    ensures Ema(values, EMA_PERIOD).Some?
  {
  }

  /** On any two regular days: one unpriced bar in the last half hour takes back every fact the symbol
      had by then, and the same bar of SPY changes them. */
  lemma OneLateBar(p: Session, s: Session, delay: int, finder: Finder)
    requires RegularDay(p) && RegularDay(s) && p.date < s.date
    ensures var x, bars, t := Watching(p, s, delay, finder), TwoDays(p, s, SLOTS - 1), s.close - HALF_HOUR;
      var y := x.(symbol := WithLate(x.symbol, bars, Unpriced(s)));
      var z := x.(spy := Some(WithLate(x.spy.value, bars, Unpriced(s))));
      && BuiltAlike(x.symbol, y.symbol, t) && IndexAlike(x.spy, z.spy, t)
      && FactsOf(Filter(Observed(x), ByClose(t))) != [] == FactsOf(Filter(Observed(y), ByClose(t)))
      && FactsOf(Filter(Observed(x), ByClose(t))) != FactsOf(Filter(Observed(z), ByClose(t)))
  {
    hide Built, Filter, Observed, IndexTrend, BuiltAlike, WellFormed, BreakBy;
    var x, bars, t := Watching(p, s, delay, finder), TwoDays(p, s, SLOTS - 1), s.close - HALF_HOUR;
    ClimbIsBuilt(0, p, s, SLOTS - 1);
    LastRungBreaks(p, s, delay, finder);
    LastRungHasTrend(p, s);
    LateBarErasesFacts(x, bars, Unpriced(s), t);
    LateIndexBarChangesFacts(x, bars, Unpriced(s), t, 24);
  }
}
