/** The level observer of one session (alert_ranker/non_strat_coverage.py:195-445): which level
    interactions each completed five-minute bar made, with the retest arming dictionary of the
    source proved against a definition that has no state. */
module LevelObserver {
  import opened Conventions
  import opened Sorting
  import Bars = CausalBars
  import opened LevelEvents

  type Bar = Bars.Bar

  const EMA_PERIOD := 20
  const VOLUME_LOOKBACK := 20
  const OPENING_BARS := 6

  /** An index's prior history and its bars of the observed session. */
  datatype Index = Index(history: seq<Bar>, session: seq<Bar>)

  datatype Feed = Feed(symbol: int, session: int, prior: seq<Bar>, current: seq<Bar>, history: seq<Bar>,
                       spy: Option<Index>, qqq: Option<Index>)

  // ----- context recorded with every event -----

  function Volumes(bars: seq<Bar>): seq<real> {
    seq(|bars|, i requires 0 <= i < |bars| => bars[i].volume)
  }

  function VolumeRatio(before: seq<Bar>, bar: Bar): Option<real> {
    var recent := if |before| > VOLUME_LOOKBACK then before[|before| - VOLUME_LOOKBACK..] else before;
    if recent == [] then None else
    var baseline := Bars.SumOf(Volumes(recent)) / |recent| as real;
    if baseline <= 0.0 then None else Some(bar.volume / baseline)
  }

  function TrendOf(history: seq<Bar>, sofar: seq<Bar>): Option<Trend> {
    if sofar == [] then None else
    var vwap, ema20 := Bars.SessionVwap(sofar), Bars.Ema(Bars.Closes(history), EMA_PERIOD);
    if vwap.None? || ema20.None? then None else
    var close := sofar[|sofar| - 1].close;
    if close > vwap.value && close > ema20.value then Some(Bullish)
    else if close < vwap.value && close < ema20.value then Some(Bearish)
    else Some(Neutral)
  }

  /** The index trend from the bars closed by an instant. */
  function IndexTrend(index: Option<Index>, through: int): Option<Trend> {
    if index.None? then None else
    var part := Filter(index.value.session, Bars.ClosedBy(MINUTE_5, through));
    TrendOf(Filter(index.value.history, Bars.ClosedBy(MINUTE_5, through)) + part, part)
  }

  function MarketAligned(d: Direction, spy: Option<Trend>, qqq: Option<Trend>): Option<bool> {
    if spy.None? || qqq.None? then None else
    var wanted := if d.Long? then Bullish else Bearish;
    Some(spy.value == wanted && qqq.value == wanted)
  }

  function ContextAt(f: Feed, history: seq<Bar>, bars: seq<Bar>, i: nat): Context
    requires i < |bars|
  {
    var closeAt := bars[i].start + MINUTE_5;
    Context(Bars.SessionVwap(bars[..i + 1]),
            Bars.Ema(Bars.Closes(history + bars[..i + 1]), EMA_PERIOD),
            VolumeRatio(history + bars[..i], bars[i]),
            IndexTrend(f.spy, closeAt), IndexTrend(f.qqq, closeAt))
  }

  // ----- breaks and retests -----

  datatype Watch = PdhLong | PdlShort | OrbLong | OrbShort

  function Opening(bars: seq<Bar>): seq<Bar> {
    if |bars| < OPENING_BARS then bars else bars[..OPENING_BARS]
  }

  /** The watched price: yesterday's extreme or the opening range's. */
  function Watched(w: Watch, prior: seq<Bar>, bars: seq<Bar>): real
    requires prior != [] && bars != []
  {
    match w
    case PdhLong => Bars.FoldAll(prior).high
    case PdlShort => Bars.FoldAll(prior).low
    case OrbLong => Bars.FoldAll(Opening(bars)).high
    case OrbShort => Bars.FoldAll(Opening(bars)).low
  }

  predicate FromAbove(w: Watch) {
    w.PdhLong? || w.OrbLong?
  }

  /** The opening range is knowable from the seventh bar on. */
  predicate Knowable(w: Watch, i: nat) {
    w.PdhLong? || w.PdlShort? || i >= OPENING_BARS
  }

  /** The bar closes through the level from the other side. */
  predicate Crosses(w: Watch, level: real, prev: Bar, bar: Bar) {
    if FromAbove(w) then prev.close <= level < bar.close else prev.close >= level > bar.close
  }

  /** The bar comes back to the level and closes beyond it. */
  predicate ComesBack(w: Watch, level: real, bar: Bar) {
    if FromAbove(w) then bar.low <= level < bar.close else bar.high >= level > bar.close
  }

  predicate Breaks(w: Watch, prior: seq<Bar>, bars: seq<Bar>, i: nat)
    requires prior != [] && 0 < i < |bars|
  {
    Knowable(w, i) && Crosses(w, Watched(w, prior, bars), bars[i - 1], bars[i])
  }

  /** Bar i comes back to the level and is not itself a break. */
  predicate Touches(w: Watch, prior: seq<Bar>, bars: seq<Bar>, i: nat)
    requires prior != [] && 0 < i < |bars|
  {
    Knowable(w, i) && !Breaks(w, prior, bars, i) && ComesBack(w, Watched(w, prior, bars), bars[i])
  }

  /** A break before bar i that no later touch has used up. */
  predicate Armed(w: Watch, prior: seq<Bar>, bars: seq<Bar>, i: nat)
    requires prior != [] && 0 < i <= |bars|
  {
    exists j :: 0 < j < i && OpenBreak(w, prior, bars, j, i)
  }

  predicate OpenBreak(w: Watch, prior: seq<Bar>, bars: seq<Bar>, j: nat, i: nat)
    requires prior != [] && 0 < j < i <= |bars|
  {
    Breaks(w, prior, bars, j) && forall m :: j < m < i ==> !Touches(w, prior, bars, m)
  }

  predicate Retests(w: Watch, prior: seq<Bar>, bars: seq<Bar>, i: nat)
    requires prior != [] && 0 < i < |bars|
  {
    Touches(w, prior, bars, i) && Armed(w, prior, bars, i)
  }

  /** Bar i pokes through the level and closes back on the side it came from. */
  predicate Rejects(w: Watch, prior: seq<Bar>, bars: seq<Bar>, i: nat)
    requires prior != [] && 0 < i < |bars|
  {
    var level := Watched(w, prior, bars);
    Knowable(w, i) &&
    if FromAbove(w) then bars[i - 1].close <= level && bars[i].high > level && bars[i].close < level
    else bars[i - 1].close >= level && bars[i].low < level && bars[i].close > level
  }

  // ----- average-price interactions -----

  /** Bar i closes above the running average price after bar i - 1 closed at or below its own. */
  predicate Reclaims(bars: seq<Bar>, i: nat)
    requires i < |bars|
  {
    var before, now := Bars.SessionVwap(bars[..i]), Bars.SessionVwap(bars[..i + 1]);
    i > 0 && before.Some? && now.Some? && bars[i - 1].close <= before.value && bars[i].close > now.value
  }

  predicate FailsReclaim(bars: seq<Bar>, i: nat)
    requires i < |bars|
  {
    var twoBack := if i >= 2 then Bars.SessionVwap(bars[..i - 1]) else None;
    var before, now := Bars.SessionVwap(bars[..i]), Bars.SessionVwap(bars[..i + 1]);
    i >= 2 && twoBack.Some? && before.Some? && now.Some?
    && bars[i - 2].close <= twoBack.value && bars[i - 1].close > before.value && bars[i].close < now.value
  }

  predicate HoldsAbove(bars: seq<Bar>, i: nat)
    requires i < |bars|
  {
    var before, now := Bars.SessionVwap(bars[..i]), Bars.SessionVwap(bars[..i + 1]);
    i > 0 && before.Some? && now.Some?
    && bars[i - 1].close > before.value && bars[i].low <= now.value < bars[i].close
  }

  predicate HoldsBelow(bars: seq<Bar>, i: nat)
    requires i < |bars|
  {
    var before, now := Bars.SessionVwap(bars[..i]), Bars.SessionVwap(bars[..i + 1]);
    i > 0 && before.Some? && now.Some?
    && bars[i - 1].close < before.value && bars[i].high >= now.value > bars[i].close
  }

  // ----- the events of one bar and of a session -----

  function DirectionOf(f: Family): Direction {
    match f
    case VwapReclaimLong | VwapTestHoldLong | PdhReclaimLong | PdlRejectionLong | PdhBreakRetestLong
       | OrbBreakoutLong | OrbRejectionLong | OrbBreakRetestLong => Long
    case _ => Short
  }

  function LevelOf(f: Family): Level {
    match f
    case VwapReclaimLong | VwapFailedReclaimShort | VwapTestHoldLong | VwapTestHoldShort => Vwap
    case PdhReclaimLong | PdhRejectionShort | PdhBreakRetestLong => Pdh
    case PdlReclaimShort | PdlRejectionLong | PdlBreakRetestShort => Pdl
    case OrbBreakoutLong | OrbRejectionShort | OrbBreakRetestLong => OrbHigh
    case OrbBreakoutShort | OrbRejectionLong | OrbBreakRetestShort => OrbLow
  }

  function LevelValue(l: Level, prior: seq<Bar>, bars: seq<Bar>, i: nat): real
    requires prior != [] && i < |bars|
  {
    match l
    case Vwap => var v := Bars.SessionVwap(bars[..i + 1]); if v.Some? then v.value else 0.0
    case Pdh => Watched(PdhLong, prior, bars)
    case Pdl => Watched(PdlShort, prior, bars)
    case OrbHigh => Watched(OrbLong, prior, bars)
    case OrbLow => Watched(OrbShort, prior, bars)
  }

  /** Family f happens on bar i. */
  predicate Fires(f: Family, prior: seq<Bar>, bars: seq<Bar>, i: nat)
    requires prior != [] && 0 < i < |bars|
  {
    match f
    case VwapReclaimLong => Reclaims(bars, i)
    case VwapFailedReclaimShort => FailsReclaim(bars, i)
    case VwapTestHoldLong => HoldsAbove(bars, i)
    case VwapTestHoldShort => HoldsBelow(bars, i)
    case PdhReclaimLong => Breaks(PdhLong, prior, bars, i)
    case PdhBreakRetestLong => Retests(PdhLong, prior, bars, i)
    case PdlReclaimShort => Breaks(PdlShort, prior, bars, i)
    case PdlBreakRetestShort => Retests(PdlShort, prior, bars, i)
    case PdhRejectionShort => Rejects(PdhLong, prior, bars, i)
    case PdlRejectionLong => Rejects(PdlShort, prior, bars, i)
    case OrbBreakoutLong => Breaks(OrbLong, prior, bars, i)
    case OrbBreakRetestLong => Retests(OrbLong, prior, bars, i)
    case OrbBreakoutShort => Breaks(OrbShort, prior, bars, i)
    case OrbBreakRetestShort => Retests(OrbShort, prior, bars, i)
    case OrbRejectionShort => Rejects(OrbLong, prior, bars, i)
    case OrbRejectionLong => Rejects(OrbShort, prior, bars, i)
  }

  /** The order in which one bar's events are appended. */
  function Checked(): (fs: seq<Family>)
    ensures |fs| == 16
  {
    [VwapReclaimLong, VwapFailedReclaimShort, VwapTestHoldLong, VwapTestHoldShort,
     PdhReclaimLong, PdhBreakRetestLong, PdlReclaimShort, PdlBreakRetestShort,
     PdhRejectionShort, PdlRejectionLong,
     OrbBreakoutLong, OrbBreakRetestLong, OrbBreakoutShort, OrbBreakRetestShort,
     OrbRejectionShort, OrbRejectionLong]
  }

  function MakeEvent(feed: Feed, history: seq<Bar>, bars: seq<Bar>, i: nat, f: Family): Event
    requires feed.prior != [] && i < |bars|
  {
    var context := ContextAt(feed, history, bars, i);
    Event(feed.symbol, feed.session, bars[i].start, f, DirectionOf(f), LevelOf(f),
          LevelValue(LevelOf(f), feed.prior, bars, i), bars[i].close, context,
          MarketAligned(DirectionOf(f), context.spy, context.qqq), None)
  }

  /** The events of bar i among the first n checked families. */
  function EventsAt(feed: Feed, history: seq<Bar>, bars: seq<Bar>, i: nat, n: nat): seq<Event>
    requires feed.prior != [] && 0 < i < |bars| && n <= 16
  {
    if n == 0 then [] else
    EventsAt(feed, history, bars, i, n - 1)
    + if Fires(Checked()[n - 1], feed.prior, bars, i) then [MakeEvent(feed, history, bars, i, Checked()[n - 1])] else []
  }

  /** The raw events of bars 1 .. n - 1. */
  function Raw(feed: Feed, history: seq<Bar>, bars: seq<Bar>, n: nat): seq<Event>
    requires feed.prior != [] && n <= |bars|
  {
    if n <= 1 then [] else
    Raw(feed, history, bars, n - 1) + EventsAt(feed, history, bars, n - 1, 16)
  }

  function Observed(feed: Feed): seq<Event> {
    var bars := StableSort(feed.current, Bars.ByStart);
    var history := StableSort(feed.history, Bars.ByStart);
    if |bars| < 2 || feed.prior == [] then [] else AssignIds(Raw(feed, history, bars, |bars|))
  }

  // ----- the observer as the loop it is -----

  lemma ArmedStep(w: Watch, prior: seq<Bar>, bars: seq<Bar>, i: nat)
    requires prior != [] && 0 < i < |bars|
    ensures Armed(w, prior, bars, i + 1) <==>
            Breaks(w, prior, bars, i) || (Armed(w, prior, bars, i) && !Touches(w, prior, bars, i))
  {
    hide Breaks, Touches;
    if Breaks(w, prior, bars, i) {
      assert OpenBreak(w, prior, bars, i, i + 1);
    }
    if Armed(w, prior, bars, i) && !Touches(w, prior, bars, i) {
      var j :| 0 < j < i && OpenBreak(w, prior, bars, j, i);
      assert OpenBreak(w, prior, bars, j, i + 1);
    }
    if Armed(w, prior, bars, i + 1) && !Breaks(w, prior, bars, i) {
      var j :| 0 < j < i + 1 && OpenBreak(w, prior, bars, j, i + 1);
      assert OpenBreak(w, prior, bars, j, i);
    }
  }

  function BreakFamily(w: Watch): Family {
    match w
    case PdhLong => PdhReclaimLong
    case PdlShort => PdlReclaimShort
    case OrbLong => OrbBreakoutLong
    case OrbShort => OrbBreakoutShort
  }

  function RetestFamily(w: Watch): Family {
    match w
    case PdhLong => PdhBreakRetestLong
    case PdlShort => PdlBreakRetestShort
    case OrbLong => OrbBreakRetestLong
    case OrbShort => OrbBreakRetestShort
  }

  function RejectFamily(w: Watch): Family {
    match w
    case PdhLong => PdhRejectionShort
    case PdlShort => PdlRejectionLong
    case OrbLong => OrbRejectionShort
    case OrbShort => OrbRejectionLong
  }

  lemma WatchFires(w: Watch, prior: seq<Bar>, bars: seq<Bar>, i: nat)
    requires prior != [] && 0 < i < |bars|
    ensures Fires(BreakFamily(w), prior, bars, i) == Breaks(w, prior, bars, i)
    ensures Fires(RetestFamily(w), prior, bars, i) == Retests(w, prior, bars, i)
    ensures Fires(RejectFamily(w), prior, bars, i) == Rejects(w, prior, bars, i)
  {
    hide Breaks, Retests, Rejects;
  }

  /** Append the event of the next checked family if it happens. */
  method Check(feed: Feed, history: seq<Bar>, bars: seq<Bar>, i: nat, n: nat, happens: bool, added: seq<Event>)
      returns (result: seq<Event>)
    requires feed.prior != [] && 0 < i < |bars| && n < 16
    requires added == EventsAt(feed, history, bars, i, n) && happens == Fires(Checked()[n], feed.prior, bars, i)
    ensures result == EventsAt(feed, history, bars, i, n + 1)
  {
    hide MakeEvent, Fires, Checked;
    result := added;
    if happens {
      result := result + [MakeEvent(feed, history, bars, i, Checked()[n])];
    }
  }

  method VwapEvents(feed: Feed, history: seq<Bar>, bars: seq<Bar>, i: nat) returns (added: seq<Event>)
    requires feed.prior != [] && 0 < i < |bars|
    ensures added == EventsAt(feed, history, bars, i, 4)
  {
    hide MakeEvent, EventsAt, Bars.SessionVwap;
    var bar, prev := bars[i], bars[i - 1];
    var currentVwap, previousVwap := Bars.SessionVwap(bars[..i + 1]), Bars.SessionVwap(bars[..i]);
    var reclaimed, failed, above, below := false, false, false, false;
    if currentVwap.Some? && previousVwap.Some? {
      var vwap := currentVwap.value;
      reclaimed := prev.close <= previousVwap.value && bar.close > vwap;
      if i >= 2 {
        var twoBackVwap := Bars.SessionVwap(bars[..i - 1]);
        var priorWasReclaim := twoBackVwap.Some? && bars[i - 2].close <= twoBackVwap.value
                               && prev.close > previousVwap.value;
        failed := priorWasReclaim && bar.close < vwap;
      }
      above := prev.close > previousVwap.value && bar.low <= vwap <= bar.close && bar.close > vwap && !reclaimed;
      below := prev.close < previousVwap.value && bar.high >= vwap >= bar.close && bar.close < vwap;
    }
    NothingAt(feed, history, bars, i);
    added := Check(feed, history, bars, i, 0, reclaimed, []);
    added := Check(feed, history, bars, i, 1, failed, added);
    added := Check(feed, history, bars, i, 2, above, added);
    added := Check(feed, history, bars, i, 3, below, added);
  }

  lemma NothingAt(feed: Feed, history: seq<Bar>, bars: seq<Bar>, i: nat)
    requires feed.prior != [] && 0 < i < |bars|
    ensures EventsAt(feed, history, bars, i, 0) == []
  {
  }

  /** The break branch and the retest branch of one watched level, with its arming entry. */
  method BreakOrRetest(feed: Feed, history: seq<Bar>, bars: seq<Bar>, i: nat, n: nat, w: Watch, level: real,
                       armed: bool, added: seq<Event>)
      returns (nowArmed: bool, result: seq<Event>)
    requires feed.prior != [] && 0 < i < |bars| && n + 1 < 16
    requires Checked()[n] == BreakFamily(w) && Checked()[n + 1] == RetestFamily(w)
    requires Knowable(w, i) && level == Watched(w, feed.prior, bars)
    requires added == EventsAt(feed, history, bars, i, n) && armed == Armed(w, feed.prior, bars, i)
    ensures result == EventsAt(feed, history, bars, i, n + 2) && nowArmed == Armed(w, feed.prior, bars, i + 1)
  {
    hide MakeEvent, EventsAt, Fires, Watched, Armed, BreakFamily, RetestFamily, Checked;
    ArmedStep(w, feed.prior, bars, i);
    WatchFires(w, feed.prior, bars, i);
    var bar, prev := bars[i], bars[i - 1];
    nowArmed := armed;
    var broke := if FromAbove(w) then prev.close <= level && bar.close > level
                 else prev.close >= level && bar.close < level;
    assert broke == Crosses(w, level, prev, bar);
    var retested := false;
    if broke {
      nowArmed := true;
    } else if armed && (if FromAbove(w) then bar.low <= level < bar.close else bar.high >= level > bar.close) {
      retested := true;
      nowArmed := false;
    }
    assert broke == Breaks(w, feed.prior, bars, i) && retested == Retests(w, feed.prior, bars, i);
    result := Check(feed, history, bars, i, n, broke, added);
    result := Check(feed, history, bars, i, n + 1, retested, result);
  }

  method Rejection(feed: Feed, history: seq<Bar>, bars: seq<Bar>, i: nat, n: nat, w: Watch, level: real,
                   added: seq<Event>)
      returns (result: seq<Event>)
    requires feed.prior != [] && 0 < i < |bars| && n < 16 && Checked()[n] == RejectFamily(w)
    requires Knowable(w, i) && level == Watched(w, feed.prior, bars)
    requires added == EventsAt(feed, history, bars, i, n)
    ensures result == EventsAt(feed, history, bars, i, n + 1)
  {
    hide MakeEvent, EventsAt, Fires, Watched, RejectFamily, Checked;
    WatchFires(w, feed.prior, bars, i);
    var bar, prev := bars[i], bars[i - 1];
    var rejected := if FromAbove(w) then prev.close <= level && bar.high > level && bar.close < level
                    else prev.close >= level && bar.low < level && bar.close > level;
    result := Check(feed, history, bars, i, n, rejected, added);
  }

  predicate FiresNot(w: Watch, prior: seq<Bar>, bars: seq<Bar>, i: nat)
    requires prior != [] && 0 < i < |bars|
  {
    !Fires(BreakFamily(w), prior, bars, i) && !Fires(RetestFamily(w), prior, bars, i)
    && !Fires(RejectFamily(w), prior, bars, i)
  }

  lemma NotKnowable(w: Watch, prior: seq<Bar>, bars: seq<Bar>, i: nat)
    requires prior != [] && 0 < i < |bars| && !Knowable(w, i)
    ensures Armed(w, prior, bars, i + 1) == Armed(w, prior, bars, i) && FiresNot(w, prior, bars, i)
  {
    hide Armed, Watched;
    ArmedStep(w, prior, bars, i);
  }

  /** Before the seventh bar the opening range takes no part. */
  lemma NoOpeningRangeYet(feed: Feed, history: seq<Bar>, bars: seq<Bar>, i: nat)
    requires feed.prior != [] && 0 < i < |bars| && i < OPENING_BARS
    ensures EventsAt(feed, history, bars, i, 16) == EventsAt(feed, history, bars, i, 10)
    ensures Armed(OrbLong, feed.prior, bars, i + 1) == Armed(OrbLong, feed.prior, bars, i)
    ensures Armed(OrbShort, feed.prior, bars, i + 1) == Armed(OrbShort, feed.prior, bars, i)
  {
    hide Armed, Fires, MakeEvent;
    NotKnowable(OrbLong, feed.prior, bars, i);
    NotKnowable(OrbShort, feed.prior, bars, i);
    Quiet(feed, history, bars, i, 16);
  }

  lemma {:induction false} Quiet(feed: Feed, history: seq<Bar>, bars: seq<Bar>, i: nat, n: nat)
    requires feed.prior != [] && 0 < i < |bars| && 10 <= n <= 16
    requires FiresNot(OrbLong, feed.prior, bars, i) && FiresNot(OrbShort, feed.prior, bars, i)
    ensures EventsAt(feed, history, bars, i, n) == EventsAt(feed, history, bars, i, 10)
  {
    hide Fires, MakeEvent;
    if n > 10 {
      Quiet(feed, history, bars, i, n - 1);
    }
  }

  /** The arming dictionary says for each watched level whether it is armed before bar i. */
  predicate ArmedAs(armed: map<Watch, bool>, prior: seq<Bar>, bars: seq<Bar>, i: nat)
    requires prior != [] && 0 < i <= |bars|
  {
    && PdhLong in armed && armed[PdhLong] == Armed(PdhLong, prior, bars, i)
    && PdlShort in armed && armed[PdlShort] == Armed(PdlShort, prior, bars, i)
    && OrbLong in armed && armed[OrbLong] == Armed(OrbLong, prior, bars, i)
    && OrbShort in armed && armed[OrbShort] == Armed(OrbShort, prior, bars, i)
  }

  method PriorDayEvents(feed: Feed, history: seq<Bar>, bars: seq<Bar>, i: nat, pdh: real, pdl: real,
                        armed: map<Watch, bool>, added: seq<Event>)
      returns (nowPdh: bool, nowPdl: bool, result: seq<Event>)
    requires feed.prior != [] && 0 < i < |bars| && ArmedAs(armed, feed.prior, bars, i)
    requires pdh == Watched(PdhLong, feed.prior, bars) && pdl == Watched(PdlShort, feed.prior, bars)
    requires added == EventsAt(feed, history, bars, i, 4)
    ensures result == EventsAt(feed, history, bars, i, 10)
    ensures nowPdh == Armed(PdhLong, feed.prior, bars, i + 1) && nowPdl == Armed(PdlShort, feed.prior, bars, i + 1)
  {
    hide EventsAt, Armed, Watched;
    nowPdh, result := BreakOrRetest(feed, history, bars, i, 4, PdhLong, pdh, armed[PdhLong], added);
    nowPdl, result := BreakOrRetest(feed, history, bars, i, 6, PdlShort, pdl, armed[PdlShort], result);
    result := Rejection(feed, history, bars, i, 8, PdhLong, pdh, result);
    result := Rejection(feed, history, bars, i, 9, PdlShort, pdl, result);
  }

  method OpeningRangeEvents(feed: Feed, history: seq<Bar>, bars: seq<Bar>, i: nat, orbHigh: Option<real>,
                            orbLow: Option<real>, armed: map<Watch, bool>, added: seq<Event>)
      returns (nowLong: bool, nowShort: bool, result: seq<Event>)
    requires feed.prior != [] && 0 < i < |bars| && ArmedAs(armed, feed.prior, bars, i)
    requires orbHigh == if |bars| >= OPENING_BARS then Some(Watched(OrbLong, feed.prior, bars)) else None
    requires orbLow == if |bars| >= OPENING_BARS then Some(Watched(OrbShort, feed.prior, bars)) else None
    requires added == EventsAt(feed, history, bars, i, 10)
    ensures result == EventsAt(feed, history, bars, i, 16)
    ensures nowLong == Armed(OrbLong, feed.prior, bars, i + 1) && nowShort == Armed(OrbShort, feed.prior, bars, i + 1)
  {
    hide EventsAt, Armed, Watched;
    if orbHigh.Some? && orbLow.Some? && i >= OPENING_BARS {
      nowLong, result := BreakOrRetest(feed, history, bars, i, 10, OrbLong, orbHigh.value, armed[OrbLong], added);
      nowShort, result := BreakOrRetest(feed, history, bars, i, 12, OrbShort, orbLow.value, armed[OrbShort], result);
      result := Rejection(feed, history, bars, i, 14, OrbLong, orbHigh.value, result);
      result := Rejection(feed, history, bars, i, 15, OrbShort, orbLow.value, result);
    } else {
      NoOpeningRangeYet(feed, history, bars, i);
      nowLong, nowShort, result := armed[OrbLong], armed[OrbShort], added;
    }
  }

  method ObserveSession(feed: Feed) returns (events: seq<Event>)
    ensures events == Observed(feed)
  {
    hide StableSort, EventsAt, Armed, AssignIds;
    var bars := StableSort(feed.current, Bars.ByStart);
    var history := StableSort(feed.history, Bars.ByStart);
    if |bars| < 2 || feed.prior == [] {
      return [];
    }
    var pdh, pdl := Bars.FoldAll(feed.prior).high, Bars.FoldAll(feed.prior).low;
    var orbReady := |bars| >= OPENING_BARS;
    var orbHigh := if orbReady then Some(Bars.FoldAll(bars[..OPENING_BARS]).high) else None;
    var orbLow := if orbReady then Some(Bars.FoldAll(bars[..OPENING_BARS]).low) else None;
    events := [];
    var armed: map<Watch, bool> := map[PdhLong := false, PdlShort := false, OrbLong := false, OrbShort := false];
    NothingArmed(feed.prior, bars);
    for i := 1 to |bars|
      invariant events == Raw(feed, history, bars, i)
      invariant ArmedAs(armed, feed.prior, bars, i)
    {
      var added := VwapEvents(feed, history, bars, i);
      var nowPdh, nowPdl, nowLong, nowShort;
      nowPdh, nowPdl, added := PriorDayEvents(feed, history, bars, i, pdh, pdl, armed, added);
      nowLong, nowShort, added := OpeningRangeEvents(feed, history, bars, i, orbHigh, orbLow, armed, added);
      armed := map[PdhLong := nowPdh, PdlShort := nowPdl, OrbLong := nowLong, OrbShort := nowShort];
      events := events + added;
    }
    events := AssignEpisodeIds(events);
  }

  lemma NothingArmed(prior: seq<Bar>, bars: seq<Bar>)
    requires prior != [] && |bars| > 0
    ensures forall w: Watch :: !Armed(w, prior, bars, 1)
  {
  }
}
