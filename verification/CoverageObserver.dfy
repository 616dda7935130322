/** The half-hour coverage observer (alert_ranker/coverage_observer.py:287-593): one event per
    completed directional bar, with its targets, market alignment and first-sight price. The level
    finder is a function of its arguments. */
module CoverageObserver {
  import opened Conventions
  import opened Sorting
  import opened CausalBars
  import opened CivilDates
  import opened SessionCalendar
  import opened SymbolSeries

  const EMA_PERIOD := 20
  const GRID := 300
  const GRID_OFFSET := 177

  datatype BarType = InsideBar | TwoUp | TwoDown | OutsideBar

  datatype Trend = Bullish | Bearish | Neutral

  datatype Family =
    | Continuation212 | Reversal212 | Continuation222 | Reversal222 | Break312 | Continuation322 | Reversal322
    | Other122 | Other22Continuation | Other22Reversal | Other322Reversal | OtherInsideBreak | OtherOutside

  datatype Window = Window(twoBackType: BarType, previousType: BarType, currentType: BarType, direction: Direction,
                           entry: real, invalidation: real, family: Family)

  // ----- structure -----

  function Classify(current: Bar, previous: Bar): BarType {
    var breaksHigh, breaksLow := current.high > previous.high, current.low < previous.low;
    if breaksHigh && breaksLow then OutsideBar
    else if !breaksHigh && !breaksLow then InsideBar
    else if breaksHigh then TwoUp
    else TwoDown
  }

  predicate Directional(t: BarType) {
    t.TwoUp? || t.TwoDown?
  }

  /** The family the daily detector names, if it triggers. */
  function DailyFamily(twoBack: BarType, previous: BarType, current: BarType): Option<Family> {
    if twoBack.OutsideBar? && Directional(previous) && Directional(current) then
      Some(if current == previous then Continuation322 else Reversal322)
    else if Directional(twoBack) && previous.InsideBar? && Directional(current) then
      if current != twoBack then None else Some(Continuation212)
    else if Directional(twoBack) && Directional(previous) && Directional(current) then
      Some(if current == previous then Continuation222 else Reversal222)
    else None
  }

  /** The family of the shared classifier's label for the shapes the daily detector refuses. */
  function ClassifierFamily(twoBack: BarType, previous: BarType, current: BarType): Option<Family> {
    if !Directional(current) then None
    else if Directional(previous) then
      Some(if twoBack.OutsideBar? && previous != current then Other322Reversal
           else if twoBack.InsideBar? && previous != current then Other122
           else if previous == current then Other22Continuation
           else Other22Reversal)
    else if previous.InsideBar? then
      Some(if twoBack.OutsideBar? then Break312
           else if twoBack == current then Continuation212
           else if Directional(twoBack) then Reversal212
           else OtherInsideBreak)
    else Some(OtherOutside)
  }

  function ClassifyWindow(threeBack: Bar, twoBack: Bar, previous: Bar, current: Bar): Option<Window> {
    var t2, t1, t0 := Classify(twoBack, threeBack), Classify(previous, twoBack), Classify(current, previous);
    if !Directional(t0) then None else
    var direction := if t0.TwoUp? then Long else Short;
    var (entry, invalidation) :=
      if direction.Long? then (previous.high, previous.low) else (previous.low, previous.high);
    var family := if DailyFamily(t2, t1, t0).Some? then DailyFamily(t2, t1, t0) else ClassifierFamily(t2, t1, t0);
    if family.None? then None else Some(Window(t2, t1, t0, direction, entry, invalidation, family.value))
  }

  /** Every directional bar carries exactly one structure, and no other bar carries any. */
  lemma DirectionalBarsCarryStructure(threeBack: Bar, twoBack: Bar, previous: Bar, current: Bar)
    ensures ClassifyWindow(threeBack, twoBack, previous, current).Some? <==>
            (current.high > previous.high) != (current.low < previous.low)
  {
  }

  /** The two detectors together: which family each shape of three bars gets. */
  lemma FamilyTable(threeBack: Bar, twoBack: Bar, previous: Bar, current: Bar)
    ensures ClassifyWindow(threeBack, twoBack, previous, current).Some? ==>
              var w := ClassifyWindow(threeBack, twoBack, previous, current).value;
              var (t2, t1, t0) := (w.twoBackType, w.previousType, w.currentType);
              && (w.family.Continuation212? <==> t1.InsideBar? && t2 == t0)
              && (w.family.Reversal212? <==> t1.InsideBar? && Directional(t2) && t2 != t0)
              && (w.family.Break312? <==> t1.InsideBar? && t2.OutsideBar?)
              && (w.family.Continuation222? <==> Directional(t2) && t1 == t0)
              && (w.family.Reversal222? <==> Directional(t2) && Directional(t1) && t1 != t0)
              && (w.family.Continuation322? <==> t2.OutsideBar? && t1 == t0)
              && (w.family.Reversal322? <==> t2.OutsideBar? && Directional(t1) && t1 != t0)
              && !w.family.Other322Reversal? && !w.family.Other22Reversal?
              && (if w.direction.Long? then current.high > w.entry == previous.high && w.invalidation == previous.low
                  else current.low < w.entry == previous.low && w.invalidation == previous.high)
  {
  }

  function DayFold(known: seq<Bar>, d: Day): Option<Fold> {
    var day := Filter(known, OnDay(d));
    if day == [] then None else Some(FoldAll(day))
  }

  function DayHighs(known: seq<Bar>): set<real> {
    set b | b in known && DayFold(known, DayOf(b.start)).Some? :: DayFold(known, DayOf(b.start)).value.high
  }

  function DayLows(known: seq<Bar>): set<real> {
    set b | b in known && DayFold(known, DayOf(b.start)).Some? :: DayFold(known, DayOf(b.start)).value.low
  }

  /** The target pool: each earlier day's extreme, and the bar two before the current one. */
  function StructureLevels(bars: seq<Bar>): (set<real>, set<real>) {
    if |bars| < 3 then ({}, {}) else
    var known, directional := bars[..|bars| - 2], bars[|bars| - 3];
    (DayHighs(known) + {directional.high}, DayLows(known) + {directional.low})
  }

  /** x is the extreme of the day of some known bar. */
  ghost predicate IsDayHigh(known: seq<Bar>, x: real) {
    exists b :: b in known && b.high == x && forall c :: c in known && DayOf(c.start) == DayOf(b.start) ==> c.high <= x
  }

  ghost predicate IsDayLow(known: seq<Bar>, x: real) {
    exists b :: b in known && b.low == x && forall c :: c in known && DayOf(c.start) == DayOf(b.start) ==> c.low >= x
  }

  lemma DayFoldMeaning(known: seq<Bar>, b: Bar)
    requires b in known
    ensures var f := DayFold(known, DayOf(b.start));
      && f.Some? && IsDayHigh(known, f.value.high) && IsDayLow(known, f.value.low)
      && f.value.low <= b.low && b.high <= f.value.high
      && (forall c :: c in known && DayOf(c.start) == DayOf(b.start) ==> f.value.low <= c.low && c.high <= f.value.high)
  {
    var day := Filter(known, OnDay(DayOf(b.start)));
    FilterMembers(known, OnDay(DayOf(b.start)));
    forall c | c in known ensures c in day <==> DayOf(c.start) == DayOf(b.start) {
      assert OnDay(DayOf(b.start))(c) <==> DayOf(c.start) == DayOf(b.start);
    }
    assert b in day;
    FoldMeaning(day);
    var high :| high in day && high.high == FoldAll(day).high;
    var low :| low in day && low.low == FoldAll(day).low;
  }

  lemma HighIsFold(known: seq<Bar>, b: Bar)
    requires b in known && forall c :: c in known && DayOf(c.start) == DayOf(b.start) ==> c.high <= b.high
    ensures DayFold(known, DayOf(b.start)).Some? && DayFold(known, DayOf(b.start)).value.high == b.high
  {
    var day := Filter(known, OnDay(DayOf(b.start)));
    FilterMembers(known, OnDay(DayOf(b.start)));
    DayFoldMeaning(known, b);
    FoldMeaning(day);
    var c :| c in day && c.high == FoldAll(day).high;
    assert OnDay(DayOf(b.start))(c);
  }

  lemma LowIsFold(known: seq<Bar>, b: Bar)
    requires b in known && forall c :: c in known && DayOf(c.start) == DayOf(b.start) ==> c.low >= b.low
    ensures DayFold(known, DayOf(b.start)).Some? && DayFold(known, DayOf(b.start)).value.low == b.low
  {
    var day := Filter(known, OnDay(DayOf(b.start)));
    FilterMembers(known, OnDay(DayOf(b.start)));
    DayFoldMeaning(known, b);
    FoldMeaning(day);
    var c :| c in day && c.low == FoldAll(day).low;
    assert OnDay(DayOf(b.start))(c);
  }

  lemma DayHighsAre(known: seq<Bar>, x: real)
    ensures x in DayHighs(known) <==> IsDayHigh(known, x)
  {
    hide DayFold;
    if x in DayHighs(known) {
      var b :| b in known && DayFold(known, DayOf(b.start)).Some? && DayFold(known, DayOf(b.start)).value.high == x;
      DayFoldMeaning(known, b);
    }
    if IsDayHigh(known, x) {
      var b :| b in known && b.high == x && forall c :: c in known && DayOf(c.start) == DayOf(b.start) ==> c.high <= x;
      HighIsFold(known, b);
    }
  }

  lemma DayLowsAre(known: seq<Bar>, x: real)
    ensures x in DayLows(known) <==> IsDayLow(known, x)
  {
    hide DayFold;
    if x in DayLows(known) {
      var b :| b in known && DayFold(known, DayOf(b.start)).Some? && DayFold(known, DayOf(b.start)).value.low == x;
      DayFoldMeaning(known, b);
    }
    if IsDayLow(known, x) {
      var b :| b in known && b.low == x && forall c :: c in known && DayOf(c.start) == DayOf(b.start) ==> c.low >= x;
      LowIsFold(known, b);
    }
  }

  /** The pool is exactly the daily extremes of the bars before the last two, and the last of those. */
  lemma LevelsAreDayExtremes(bars: seq<Bar>, x: real)
    requires |bars| >= 3
    ensures var known, directional := bars[..|bars| - 2], bars[|bars| - 3];
      && (x in StructureLevels(bars).0 <==> IsDayHigh(known, x) || x == directional.high)
      && (x in StructureLevels(bars).1 <==> IsDayLow(known, x) || x == directional.low)
  {
    hide DayHighs, DayLows;
    DayHighsAre(bars[..|bars| - 2], x);
    DayLowsAre(bars[..|bars| - 2], x);
  }

  datatype Found = Found(ok: bool, target1: Option<real>, target2: Option<real>, rr1: Option<real>, reason: int)

  type Finder = (Direction, real, real, set<real>, set<real>, Option<real>) -> Found

  function Targets(finder: Finder, w: Window, levels: (set<real>, set<real>), floor: Option<real>): Found {
    var r := finder(w.direction, w.entry, w.invalidation, levels.0, levels.1, floor);
    if r.ok then r else Found(false, None, None, None, r.reason)
  }

  // ----- market alignment -----

  function TrendOf(bars: seq<Bar>, sessionBars: seq<Bar>): Option<Trend> {
    if bars == [] || sessionBars == [] then None else
    var close := bars[|bars| - 1].close;
    var vwap, ema20 := SessionVwap(sessionBars), Ema(Closes(bars), EMA_PERIOD);
    if vwap.None? || ema20.None? then None
    else if close > vwap.value && close > ema20.value then Some(Bullish)
    else if close < vwap.value && close < ema20.value then Some(Bearish)
    else Some(Neutral)
  }

  /** by_session.get(date, []). */
  function SessionPart(s: Series, d: Day): seq<Bar> {
    if d in s.bySession then s.bySession[d] else []
  }

  function IndexTrend(index: Option<Series>, d: Day, barClose: int): Option<Trend> {
    if index.None? || !index.value.Observable() then None else
    TrendOf(Filter(index.value.bars, Closed(barClose)), Filter(SessionPart(index.value, d), Closed(barClose)))
  }

  function LastType(candles: seq<Bar>): Option<BarType> {
    if |candles| < 2 then None else Some(Classify(candles[|candles| - 1], candles[|candles| - 2]))
  }

  function HourlyType(part: seq<Bar>, session: Session): Option<BarType> {
    LastType(Build(part, HALF_HOUR, HOUR, session.open))
  }

  /** build_session_candle: the whole list folded from its first start. */
  function SessionCandle(bars: seq<Bar>): Option<Bar> {
    var ordered := StableSort(bars, ByStart);
    if ordered == [] then None else Some(Candle(ordered[0].start, ordered))
  }

  /** The candles of the earlier sessions that are in the series. */
  function PriorCandles(s: Series, sessions: seq<Session>, d: Day): seq<Bar> {
    if sessions == [] then [] else
    var last := sessions[|sessions| - 1];
    var candle := if last.date < d && last.date in s.bySession then SessionCandle(s.bySession[last.date]) else None;
    PriorCandles(s, sessions[..|sessions| - 1], d) + if candle.Some? then [candle.value] else []
  }

  function DailyType(s: Series, d: Day): Option<BarType> {
    LastType(PriorCandles(s, s.sessions, d))
  }

  // ----- first sight -----

  predicate IsTick(t: int) {
    t % GRID == GRID_OFFSET
  }

  /** The first scanner tick at or after an instant. */
  function FirstTick(earliest: int): (t: int)
    ensures IsTick(t) && earliest <= t
    ensures forall u :: IsTick(u) && earliest <= u ==> t <= u
  {
    var t := earliest + (GRID_OFFSET - earliest) % GRID;
    TickArithmetic(earliest);
    forall u | IsTick(u) && earliest <= u ensures t <= u {
      TicksApart(t, u);
    }
    t
  }

  lemma TickArithmetic(e: int)
    ensures (e + (GRID_OFFSET - e) % GRID) % GRID == GRID_OFFSET
  {
    var q := (GRID_OFFSET - e) / GRID;
    assert e + (GRID_OFFSET - e) % GRID == GRID_OFFSET - GRID * q;
  }

  lemma TicksApart(t: int, u: int)
    requires IsTick(t) && IsTick(u)
    ensures u <= t - GRID || t <= u
  {
  }

  /** The loop of first_sight: start at the hour's first tick and step to the first late enough. */
  method FirstSight(barClose: int, delay: int) returns (anchor: int)
    ensures anchor == FirstTick(barClose + delay)
  {
    hide IsTick, HourTick;
    var earliest := barClose + delay;
    anchor := HourTick(earliest);
    HourTickIsTick(earliest);
    while anchor < earliest
      invariant IsTick(anchor) && anchor - GRID < earliest
      decreases earliest - anchor
    {
      NextTick(anchor);
      anchor := anchor + GRID;
    }
    TicksApart(FirstTick(earliest), anchor);
    TicksApart(anchor, FirstTick(earliest));
  }

  /** The first tick of the hour an instant lies in. */
  function HourTick(e: int): int {
    e - e % HOUR + GRID_OFFSET
  }

  lemma HourTickIsTick(e: int)
    ensures IsTick(HourTick(e)) && HourTick(e) - GRID < e
  {
    assert e - e % HOUR == GRID * (12 * (e / HOUR));
  }

  lemma NextTick(t: int)
    ensures IsTick(t) ==> IsTick(t + GRID)
  {
  }

  /** The bar with the latest start, the first of them in list order. */
  function Latest(bars: seq<Bar>): (b: Bar)
    requires bars != []
    ensures b in bars && forall x :: x in bars ==> x.start <= b.start
  {
    var n := |bars| - 1;
    assert bars == bars[..n] + [bars[n]];
    if n == 0 then bars[0] else
    var best := Latest(bars[..n]);
    if bars[n].start > best.start then bars[n] else best
  }

  function PriceAt(fine: seq<Bar>, step: Option<int>, moment: int): Option<real> {
    if fine == [] || step.None? then None else
    var closed := Filter(fine, ClosedBy(step.value, moment));
    if closed == [] then None else Some(Latest(closed).close)
  }

  function RemainingRewardToRisk(d: Direction, price: real, stop: real, target: real): Option<real> {
    var (reward, risk) := if d.Long? then (target - price, price - stop) else (price - target, stop - price);
    if risk <= 0.0 then None else Some(reward / risk)
  }

  function Late(price: Option<real>, target: Option<real>, remaining: Option<real>): Option<bool> {
    if price.None? || target.None? then None
    else if remaining.None? then Some(true)
    else Some(remaining.value < 1.0)
  }

  // ----- events -----

  datatype Gate = SpyGate | QqqGate | HourlyGate | DailyGate

  /** The fields decided when the bar closes. */
  datatype Facts = Facts(barStart: int, barClose: int, window: Window, risk: real, nearest: Found, nearestOk: bool,
                         floor: Found, floorOk: bool, floorRescued: bool,
                         spy: Option<Trend>, qqq: Option<Trend>, hourly: Option<BarType>, daily: Option<BarType>,
                         failures: seq<Gate>, sightAt: int, afterClose: bool, levels: (set<real>, set<real>))

  /** The first-sight price and what derives from it. */
  datatype Sight = Sight(price: Option<real>, nearestRemaining: Option<real>, floorRemaining: Option<real>,
                         lateNearest: Option<bool>, lateFloor: Option<bool>,
                         qualifiesV1: Option<bool>, qualifiesFloor: Option<bool>)

  datatype Event = Event(facts: Facts, sight: Sight)

  datatype Inputs = Inputs(symbol: Series, session: Session, spy: Option<Series>, qqq: Option<Series>,
                           fine: seq<Bar>, fineStep: Option<int>, delay: int, finder: Finder)

  function Failures(d: Direction, spy: Option<Trend>, qqq: Option<Trend>, hourly: Option<BarType>,
                    daily: Option<BarType>): seq<Gate> {
    var trend := if d.Long? then Bullish else Bearish;
    var candle := if d.Long? then TwoUp else TwoDown;
    (if spy == Some(trend) then [] else [SpyGate]) + (if qqq == Some(trend) then [] else [QqqGate])
    + (if hourly == Some(candle) then [] else [HourlyGate]) + if daily == Some(candle) then [] else [DailyGate]
  }

  function FactsAt(x: Inputs, i: nat): Option<Facts>
    requires i < |x.symbol.bars| && x.session.date in x.symbol.bySession
  {
    var bars, d := x.symbol.bars, x.session.date;
    if i < 3 || DayOf(bars[i].start) != d then None else
    var window := ClassifyWindow(bars[i - 3], bars[i - 2], bars[i - 1], bars[i]);
    if window.None? then None else
    var w := window.value;
    var risk := if w.entry >= w.invalidation then w.entry - w.invalidation else w.invalidation - w.entry;
    var levels := StructureLevels(bars[..i + 1]);
    var nearest, floor := Targets(x.finder, w, levels, None), Targets(x.finder, w, levels, Some(1.0));
    var nearestOk := nearest.ok && nearest.rr1.Some? && nearest.rr1.value >= 1.0;
    var barClose := bars[i].start + HALF_HOUR;
    var part := Filter(x.symbol.bySession[d], Closed(barClose));
    var spy, qqq := IndexTrend(x.spy, d, barClose), IndexTrend(x.qqq, d, barClose);
    var hourly, daily := HourlyType(part, x.session), DailyType(x.symbol, d);
    var sight := FirstTick(barClose + x.delay);
    Some(Facts(bars[i].start, barClose, w, risk, nearest, nearestOk, floor, floor.ok, floor.ok && !nearestOk,
               spy, qqq, hourly, daily, Failures(w.direction, spy, qqq, hourly, daily),
               sight, sight >= x.session.close, levels))
  }

  function Qualify(f: Facts, geometryOk: bool, late: Option<bool>): Option<bool> {
    if !geometryOk || f.failures != [] || f.afterClose then Some(false)
    else if late.None? then None
    else Some(!late.value)
  }

  function Remaining(w: Window, price: Option<real>, target: Option<real>): Option<real> {
    if price.Some? && target.Some?
    then RemainingRewardToRisk(w.direction, price.value, w.invalidation, target.value) else None
  }

  function SightOf(f: Facts, price: Option<real>): Sight {
    var toNearest := Remaining(f.window, price, f.nearest.target1);
    var toFloor := Remaining(f.window, price, f.floor.target1);
    var lateNearest, lateFloor := Late(price, f.nearest.target1, toNearest), Late(price, f.floor.target1, toFloor);
    Sight(price, toNearest, toFloor, lateNearest, lateFloor,
          Qualify(f, f.nearestOk, lateNearest), Qualify(f, f.floorOk, lateFloor))
  }

  /** From this price the stop is still ahead and the target at least as far away. */
  predicate Pays(w: Window, price: real, target: real) {
    if w.direction.Long? then w.invalidation < price && target - price >= price - w.invalidation
    else price < w.invalidation && price - target >= w.invalidation - price
  }

  lemma RatioAtLeastOne(reward: real, risk: real)
    requires risk > 0.0
    ensures reward / risk >= 1.0 <==> reward >= risk
  {
    assert reward / risk * risk == reward;
    if reward / risk >= 1.0 {
      MulAtLeast(reward / risk, risk);
    } else {
      MulBelow(reward / risk, risk);
    }
  }

  lemma MulAtLeast(q: real, risk: real)
    requires q >= 1.0 && risk > 0.0
    ensures q * risk >= risk
  {
  }

  lemma MulBelow(q: real, risk: real)
    requires q < 1.0 && risk > 0.0
    ensures q * risk < risk
  {
  }

  lemma LateExactlyWhen(w: Window, price: Option<real>, target: Option<real>)
    ensures Late(price, target, Remaining(w, price, target)) ==
            if price.None? || target.None? then None else Some(!Pays(w, price.value, target.value))
  {
    if price.Some? && target.Some? {
      var (reward, risk) := if w.direction.Long? then (target.value - price.value, price.value - w.invalidation)
                            else (price.value - target.value, w.invalidation - price.value);
      if risk > 0.0 {
        RatioAtLeastOne(reward, risk);
      }
    }
  }

  /** The verdict behind the gates: an event qualifies exactly when its geometry and alignment hold, it is
      first seen before the close, and the first-sight price still leaves at least one risk to the
      target; without a price there is no verdict. */
  lemma QualifiesExactlyWhen(f: Facts, price: Option<real>)
    ensures var s, passed := SightOf(f, price), f.failures == [] && !f.afterClose;
      var near, floor := f.nearest.target1, f.floor.target1;
      && (s.qualifiesV1 == Some(true) <==>
            passed && f.nearestOk && price.Some? && near.Some? && Pays(f.window, price.value, near.value))
      && (s.qualifiesV1 == None <==> passed && f.nearestOk && (price.None? || near.None?))
      && (s.qualifiesFloor == Some(true) <==>
            passed && f.floorOk && price.Some? && floor.Some? && Pays(f.window, price.value, floor.value))
      && (s.qualifiesFloor == None <==> passed && f.floorOk && (price.None? || floor.None?))
  {
    hide Late, Remaining, Pays;
    LateExactlyWhen(f.window, price, f.nearest.target1);
    LateExactlyWhen(f.window, price, f.floor.target1);
  }

  function EventOf(x: Inputs, f: Facts): Event {
    Event(f, SightOf(f, PriceAt(x.fine, x.fineStep, f.sightAt)))
  }

  /** The events of the first n bars of the series. */
  function EventsUpTo(x: Inputs, n: nat): seq<Event>
    requires n <= |x.symbol.bars| && x.session.date in x.symbol.bySession
  {
    if n == 0 then [] else
    var f := FactsAt(x, n - 1);
    EventsUpTo(x, n - 1) + if f.Some? then [EventOf(x, f.value)] else []
  }

  function Observed(x: Inputs): seq<Event> {
    if !x.symbol.Observable() || x.session.date !in x.symbol.bySession then [] else EventsUpTo(x, |x.symbol.bars|)
  }

  method ObserveSymbol(x: Inputs) returns (events: seq<Event>)
    ensures events == Observed(x)
  {
    hide ClassifyWindow, StructureLevels, Targets, IndexTrend, HourlyType, DailyType, Failures, PriceAt, Filter,
         SightOf;
    var d := x.session.date;
    events := [];
    if !x.symbol.Observable() || d !in x.symbol.bySession {
      return;
    }
    var bars := x.symbol.bars;
    for i := 0 to |bars|
      invariant events == EventsUpTo(x, i)
    {
      if i < 3 {
        continue;
      }
      var current := bars[i];
      if DayOf(current.start) != d {
        continue;
      }
      var window := ClassifyWindow(bars[i - 3], bars[i - 2], bars[i - 1], current);
      if window.None? {
        continue;
      }
      var w := window.value;
      var risk := if w.entry >= w.invalidation then w.entry - w.invalidation else w.invalidation - w.entry;
      var levels := StructureLevels(bars[..i + 1]);
      var nearest, floor := Targets(x.finder, w, levels, None), Targets(x.finder, w, levels, Some(1.0));
      var nearestOk := nearest.ok && nearest.rr1.Some? && nearest.rr1.value >= 1.0;
      var barClose := current.start + HALF_HOUR;
      var part := Filter(x.symbol.bySession[d], Closed(barClose));
      var spy, qqq := IndexTrend(x.spy, d, barClose), IndexTrend(x.qqq, d, barClose);
      var hourly, daily := HourlyType(part, x.session), DailyType(x.symbol, d);
      var failures := Failures(w.direction, spy, qqq, hourly, daily);
      var sight := FirstSight(barClose, x.delay);
      var facts := Facts(current.start, barClose, w, risk, nearest, nearestOk, floor, floor.ok, floor.ok && !nearestOk,
                         spy, qqq, hourly, daily, failures, sight, sight >= x.session.close, levels);
      var price := PriceAt(x.fine, x.fineStep, sight);
      events := events + [Event(facts, SightOf(facts, price))];
    }
  }
}
