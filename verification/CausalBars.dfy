/** Source-neutral bar math (alert_ranker/causal_bars.py): completion and session filters,
    session-anchored aggregation across gaps, and moving averages. Times are whole seconds. */
module CausalBars {
  import opened Sorting

  datatype Bar = Bar(start: int, open: real, high: real, low: real, close: real, volume: real, vwap: Option<real>)

  predicate ByStart(a: Bar, b: Bar) {
    a.start <= b.start
  }

  function ClosedBy(timeframe: int, cutoff: int): Bar -> bool {
    (b: Bar) => b.start + timeframe <= cutoff
  }

  function Inside(timeframe: int, open: int, close: int): Bar -> bool {
    (b: Bar) => b.start >= open && b.start + timeframe <= close
  }

  function StartsAt(t: int): Bar -> bool {
    (b: Bar) => b.start == t
  }

  /** Bars whose full interval finished by the cutoff, in order. */
  function Completed(bars: seq<Bar>, timeframe: int, cutoff: int): seq<Bar> {
    StableSort(Filter(bars, ClosedBy(timeframe, cutoff)), ByStart)
  }

  /** Bars fully contained in the session, in order. */
  function SessionBars(bars: seq<Bar>, timeframe: int, open: int, close: int): seq<Bar> {
    StableSort(Filter(bars, Inside(timeframe, open, close)), ByStart)
  }

  /** Every bar start a complete session contains: open, open + timeframe, ... while the bar
      still ends by the close. */
  function ExpectedStarts(timeframe: int, open: int, close: int): (r: seq<int>)
    requires timeframe > 0
    ensures if r == [] then open + timeframe > close
            else r[0] == open && r[|r| - 1] + timeframe <= close < r[|r| - 1] + timeframe + timeframe
    decreases close - open
  {
    if open + timeframe <= close then [open] + ExpectedStarts(timeframe, open + timeframe, close) else []
  }

  lemma {:induction false} ExpectedStep(timeframe: int, open: int, close: int, i: nat)
    requires timeframe > 0 && 0 < i < |ExpectedStarts(timeframe, open, close)|
    ensures var r := ExpectedStarts(timeframe, open, close); r[i] == r[i - 1] + timeframe
    decreases i
  {
    if i > 1 {
      ExpectedStep(timeframe, open + timeframe, close, i - 1);
    }
  }

  lemma ExpectedCons(timeframe: int, open: int, close: int)
    requires timeframe > 0
    ensures ExpectedStarts(timeframe, open, close) ==
            if open + timeframe <= close then [open] + ExpectedStarts(timeframe, open + timeframe, close) else []
  {
  }

  /** The cursor loop of expected_bar_starts. */
  method ExpectedBarStarts(timeframe: int, open: int, close: int) returns (starts: seq<int>)
    requires timeframe > 0
    ensures starts == ExpectedStarts(timeframe, open, close)
  {
    hide ExpectedStarts;
    starts := [];
    var cursor := open;
    ghost var all, rest := ExpectedStarts(timeframe, open, close), ExpectedStarts(timeframe, open, close);
    while cursor + timeframe <= close
      invariant rest == ExpectedStarts(timeframe, cursor, close) && starts + rest == all
      decreases close - cursor
    {
      ExpectedCons(timeframe, cursor, close);
      assert starts + rest == (starts + [cursor]) + rest[1..];
      starts, rest := starts + [cursor], rest[1..];
      cursor := cursor + timeframe;
    }
    ExpectedCons(timeframe, cursor, close);
  }

  // ----- the by-start index -----

  /** The bar a {start: bar} dictionary ends up holding for t: the last one in list order. */
  function Lookup(bars: seq<Bar>, t: int): (r: Option<Bar>)
    ensures r.Some? ==> r.value.start == t && r.value in bars
  {
    var found := Filter(bars, StartsAt(t));
    FilterMembers(bars, StartsAt(t));
    if found == [] then None else
    var last := found[|found| - 1];
    assert last in found;
    Some(last)
  }

  lemma ByStartOrder()
    ensures TotalPreorder(ByStart)
  {
  }

  lemma {:induction false} FilterTwice(bars: seq<Bar>, p: Bar -> bool, t: int, keep: bool)
    requires forall b: Bar :: b.start == t ==> p(b) == keep
    ensures Filter(Filter(bars, p), StartsAt(t)) == if keep then Filter(bars, StartsAt(t)) else []
  {
    if bars != [] {
      FilterTwice(bars[1..], p, t, keep);
      if p(bars[0]) {
        assert Filter(bars, p)[1..] == Filter(bars[1..], p);
      }
    }
  }

  /** Sorting does not change what the index holds, and a filter that looks only at start times
      keeps an entry whole or drops it whole. */
  lemma LookupSortedFilter(bars: seq<Bar>, p: Bar -> bool, t: int, keep: bool)
    requires forall b: Bar :: b.start == t ==> p(b) == keep
    ensures Lookup(StableSort(Filter(bars, p), ByStart), t) == if keep then Lookup(bars, t) else None
  {
    var kept := Filter(bars, p);
    ByStartOrder();
    SortFilter(kept, ByStart, StartsAt(t));
    FilterMembers(kept, StartsAt(t));
    var same := Filter(kept, StartsAt(t));
    forall i, j | 0 <= i < j < |same| ensures ByStart(same[i], same[j]) {
      assert same[i] in same && same[j] in same;
    }
    SortOfSorted(same, ByStart);
    FilterTwice(bars, p, t, keep);
  }

  lemma LookupCompleted(bars: seq<Bar>, timeframe: int, cutoff: int, t: int)
    ensures Lookup(Completed(bars, timeframe, cutoff), t) ==
            if t + timeframe <= cutoff then Lookup(bars, t) else None
  {
    LookupSortedFilter(bars, ClosedBy(timeframe, cutoff), t, t + timeframe <= cutoff);
  }

  lemma LookupSession(bars: seq<Bar>, timeframe: int, open: int, close: int, t: int)
    ensures Lookup(SessionBars(bars, timeframe, open, close), t) ==
            if t >= open && t + timeframe <= close then Lookup(bars, t) else None
  {
    LookupSortedFilter(bars, Inside(timeframe, open, close), t, t >= open && t + timeframe <= close);
  }

  ghost predicate Ascending(bars: seq<Bar>) {
    forall i, j :: 0 <= i < j < |bars| ==> bars[i].start < bars[j].start
  }

  lemma {:induction false} AscendingSame(s: seq<Bar>, t: seq<Bar>)
    requires Ascending(s) && Ascending(t)
    requires forall b :: b in s <==> b in t
    ensures s == t
  {
    assert t != [] ==> t[0] in t;
    if s != [] {
      assert s[0] in t;
      var j :| 0 <= j < |t| && t[j] == s[0];
      assert t[0] in s;
      var i :| 0 <= i < |s| && s[i] == t[0];
      assert i == 0 && j == 0;
      forall b ensures b in s[1..] <==> b in t[1..] {
        AscendingTail(s, b);
        AscendingTail(t, b);
      }
      AscendingSame(s[1..], t[1..]);
    }
  }

  lemma AscendingTail(s: seq<Bar>, b: Bar)
    requires s != [] && Ascending(s)
    ensures b in s[1..] <==> b in s && b != s[0]
  {
    assert s == [s[0]] + s[1..];
    if b in s[1..] {
      var m :| 0 <= m < |s[1..]| && s[1..][m] == b;
      assert s[0].start < s[m + 1].start;
    }
  }

  lemma {:induction false} LookupAscending(s: seq<Bar>, b: Bar)
    requires Ascending(s)
    ensures b in s ==> Lookup(s, b.start) == Some(b)
    ensures b !in s ==> Lookup(s, b.start) != Some(b)
  {
    FilterMembers(s, StartsAt(b.start));
    if b in s {
      var found := Filter(s, StartsAt(b.start));
      assert b in found;
      var last := found[|found| - 1];
      assert last in found;
      var i :| 0 <= i < |s| && s[i] == b;
      var j :| 0 <= j < |s| && s[j] == last;
    }
  }

  // ----- folding bars into one -----

  /** What a group of bars adds up to: its candle fields and, for the weighted average, the sum
      of price times volume, unknown as soon as one bar has no volume-weighted price. */
  datatype Fold = Fold(open: real, high: real, low: real, close: real, volume: real, turnover: Option<real>)

  function Turnover(price: real, volume: real): real {
    price * volume
  }

  function AveragePrice(turnover: real, volume: real): real
    requires volume > 0.0
  {
    turnover / volume
  }

  lemma AverageTimesVolume(turnover: real, volume: real)
    requires volume > 0.0
    ensures Turnover(AveragePrice(turnover, volume), volume) == turnover
  {
  }

  function One(b: Bar): Fold {
    Fold(b.open, b.high, b.low, b.close, b.volume,
         if b.vwap.Some? then Some(Turnover(b.vwap.value, b.volume)) else None)
  }

  function Join(x: Fold, y: Fold): Fold {
    Fold(x.open, if y.high > x.high then y.high else x.high, if y.low < x.low then y.low else x.low,
         y.close, x.volume + y.volume,
         if x.turnover.Some? && y.turnover.Some? then Some(x.turnover.value + y.turnover.value) else None)
  }

  function FoldAll(bars: seq<Bar>): Fold
    requires bars != []
  {
    var last := One(bars[|bars| - 1]);
    if |bars| == 1 then last else Join(FoldAll(bars[..|bars| - 1]), last)
  }

  function WeightedVwap(f: Fold): Option<real> {
    if f.volume <= 0.0 then None
    else if f.turnover.None? then None
    else Some(AveragePrice(f.turnover.value, f.volume))
  }

  /** Cumulative average price of the bars so far. */
  function SessionVwap(bars: seq<Bar>): Option<real> {
    if bars == [] then None else WeightedVwap(FoldAll(bars))
  }

  function Candle(start: int, bars: seq<Bar>): (b: Bar)
    requires bars != []
    ensures b.start == start
  {
    var f := FoldAll(bars);
    Bar(start, f.open, f.high, f.low, f.close, f.volume, WeightedVwap(f))
  }

  lemma {:induction false} FoldAppend(s: seq<Bar>, t: seq<Bar>)
    requires s != [] && t != []
    ensures FoldAll(s + t) == Join(FoldAll(s), FoldAll(t))
  {
    var n := |t| - 1;
    assert (s + t)[..|s + t| - 1] == s + t[..n];
    if n > 0 {
      FoldAppend(s, t[..n]);
    } else {
      assert s + t[..n] == s;
    }
  }

  /** The candle of a group: first open, highest high, lowest low, last close. */
  lemma {:induction false} FoldMeaning(bars: seq<Bar>)
    requires bars != []
    ensures var f := FoldAll(bars);
            && f.open == bars[0].open && f.close == bars[|bars| - 1].close
            && (forall b :: b in bars ==> f.low <= b.low && b.high <= f.high)
            && (exists b :: b in bars && b.high == f.high)
            && (exists b :: b in bars && b.low == f.low)
            && (f.turnover.Some? <==> forall b :: b in bars ==> b.vwap.Some?)
  {
    var n := |bars| - 1;
    assert bars == bars[..n] + [bars[n]];
    if n > 0 {
      FoldMeaning(bars[..n]);
      assert bars[..n][0] == bars[0];
    }
  }

  // ----- session-anchored aggregation -----

  predicate Whole(bars: seq<Bar>, t: int, step: int, n: nat) {
    forall i :: 0 <= i < n ==> Lookup(bars, t + i * step).Some?
  }

  function Members(bars: seq<Bar>, t: int, step: int, n: nat): (m: seq<Bar>)
    requires Whole(bars, t, step, n)
    ensures |m| == n
  {
    seq(n, i requires 0 <= i < n => Lookup(bars, t + i * step).value)
  }

  function LastStart(bars: seq<Bar>): int
    requires bars != []
  {
    var last := bars[|bars| - 1].start;
    if |bars| == 1 then last else
    var before := LastStart(bars[..|bars| - 1]);
    if last > before then last else before
  }

  /** The candles of the groups starting at cursor, cursor + step * factor, ... up to last. */
  function GroupsFrom(bars: seq<Bar>, step: int, factor: nat, cursor: int, last: int): seq<Bar>
    requires step > 0 && factor > 0
    decreases last - cursor
  {
    assert step * factor > 0;
    if cursor > last then [] else
    (if Whole(bars, cursor, step, factor) then [Candle(cursor, Members(bars, cursor, step, factor))] else [])
    + GroupsFrom(bars, step, factor, cursor + step * factor, last)
  }

  function Groups(bars: seq<Bar>, step: int, factor: nat, open: int): seq<Bar>
    requires step > 0 && factor > 0
  {
    if bars == [] then [] else GroupsFrom(bars, step, factor, open, LastStart(bars))
  }

  predicate Divides(source: int, target: int) {
    source > 0 && target > 0 && target % source == 0
  }

  /** build_session_timeframe on a source timeframe that divides the target. */
  function Build(bars: seq<Bar>, source: int, target: int, open: int): seq<Bar>
    requires Divides(source, target)
  {
    FactorPositive(source, target);
    Groups(bars, source, target / source, open)
  }

  lemma FactorPositive(source: int, target: int)
    requires Divides(source, target)
    ensures target / source > 0 && source * (target / source) == target
  {
  }

  lemma {:induction false} LastStartIs(bars: seq<Bar>)
    requires bars != []
    ensures forall b :: b in bars ==> b.start <= LastStart(bars)
    ensures exists b :: b in bars && b.start == LastStart(bars)
  {
    var n := |bars| - 1;
    assert bars == bars[..n] + [bars[n]];
    assert bars[n] in bars;
    if n > 0 {
      LastStartIs(bars[..n]);
      var b :| b in bars[..n] && b.start == LastStart(bars[..n]);
      assert b in bars;
    }
  }

  lemma SortedLastStart(bars: seq<Bar>)
    requires bars != []
    ensures var ordered := StableSort(bars, ByStart);
            ordered != [] && ordered[|ordered| - 1].start == LastStart(bars)
  {
    hide StableSort, LastStart;
    ByStartOrder();
    SortSorts(bars, ByStart);
    LastStartIs(bars);
    var ordered := StableSort(bars, ByStart);
    var b :| b in bars && b.start == LastStart(bars);
    assert b in ordered;
    var i :| 0 <= i < |ordered| && ordered[i] == b;
    assert i == |ordered| - 1 || ByStart(ordered[i], ordered[|ordered| - 1]);
    assert ordered[|ordered| - 1] in bars;
  }

  /** The loop of build_session_timeframe; None stands for its ValueErrors. */
  method BuildSessionTimeframe(bars: seq<Bar>, source: int, target: int, open: int) returns (r: Option<seq<Bar>>)
    requires source > 0
    ensures r.Some? <==> Divides(source, target)
    ensures r.Some? ==> r.value == Build(bars, source, target, open)
  {
    hide StableSort, Whole, Candle, Members, LastStart;
    if target % source != 0 {
      return None;
    }
    var factor := target / source;
    if factor < 1 {
      return None;
    }
    FactorPositive(source, target);
    var ordered := StableSort(bars, ByStart);
    var built := [];
    if bars == [] {
      return Some(built);
    }
    SortedLastStart(bars);
    var cursor, last := open, ordered[|ordered| - 1].start;
    while cursor <= last
      invariant built + GroupsFrom(bars, source, factor, cursor, last) == GroupsFrom(bars, source, factor, open, last)
      decreases last - cursor
    {
      if Whole(bars, cursor, source, factor) {
        built := built + [Candle(cursor, Members(bars, cursor, source, factor))];
      }
      cursor := cursor + target;
    }
    r := Some(built);
  }

  // ----- averages -----

  function Closes(bars: seq<Bar>): seq<real> {
    seq(|bars|, i requires 0 <= i < |bars| => bars[i].close)
  }

  function SumOf(values: seq<real>): real {
    if values == [] then 0.0 else SumOf(values[..|values| - 1]) + values[|values| - 1]
  }

  /** The new value weighed against the average so far. */
  function Blend(value: real, average: real, multiplier: real): real {
    value * multiplier + average * (1.0 - multiplier)
  }

  function EmaFrom(seed: real, values: seq<real>, multiplier: real): real {
    if values == [] then seed else
    Blend(values[|values| - 1], EmaFrom(seed, values[..|values| - 1], multiplier), multiplier)
  }

  function Mean(total: real, n: nat): real
    requires n > 0
  {
    total / n as real
  }

  function Multiplier(period: nat): (m: real)
    ensures 0.0 < m && (period > 0 ==> m <= 1.0)
  {
    2.0 / (period + 1) as real
  }

  /** Exponential moving average; None with less than one period of history. */
  function Ema(values: seq<real>, period: nat): Option<real>
    requires period > 0
  {
    if |values| < period then None else
    Some(EmaFrom(Mean(SumOf(values[..period]), period), values[period..], Multiplier(period)))
  }

  method ComputeEma(values: seq<real>, period: nat) returns (r: Option<real>)
    requires period > 0
    ensures r == Ema(values, period)
    ensures r.None? <==> |values| < period
    ensures forall lo, hi :: r.Some? && Within(values, lo, hi) ==> lo <= r.value <= hi
  {
    hide Blend, Mean, Multiplier, Within;
    if |values| < period {
      return None;
    }
    var total := 0.0;
    for i := 0 to period
      invariant total == SumOf(values[..i])
    {
      assert values[..i + 1][..i] == values[..i];
      total := total + values[i];
    }
    var average := Mean(total, period);
    ghost var seed, rest := average, values[period..];
    for i := 0 to |values| - period
      invariant average == EmaFrom(seed, rest[..i], Multiplier(period))
    {
      assert rest[..i + 1][..i] == rest[..i];
      average := Blend(values[period + i], average, Multiplier(period));
    }
    assert rest[..|rest|] == rest;
    r := Some(average);
    forall lo, hi | Within(values, lo, hi) ensures lo <= average <= hi {
      EmaWithin(values, period, lo, hi);
    }
  }

  // ----- what the average means -----

  ghost predicate Within(values: seq<real>, lo: real, hi: real) {
    lo <= hi && forall i :: 0 <= i < |values| ==> lo <= values[i] <= hi
  }

  lemma BlendWithin(value: real, average: real, m: real, lo: real, hi: real)
    requires 0.0 <= m <= 1.0 && lo <= value <= hi && lo <= average <= hi
    ensures lo <= Blend(value, average, m) <= hi
  {
    Scaled(value - lo, m);
    Scaled(average - lo, 1.0 - m);
    Scaled(hi - value, m);
    Scaled(hi - average, 1.0 - m);
    assert Blend(value, average, m) == lo + (value - lo) * m + (average - lo) * (1.0 - m);
    assert Blend(value, average, m) == hi - (hi - value) * m - (hi - average) * (1.0 - m);
  }

  lemma Scaled(x: real, m: real)
    requires x >= 0.0 && m >= 0.0
    ensures x * m >= 0.0
  {
  }

  function Times(x: real, n: nat): real {
    x * n as real
  }

  lemma {:induction false} SumWithin(values: seq<real>, lo: real, hi: real)
    requires Within(values, lo, hi)
    ensures Times(lo, |values|) <= SumOf(values) <= Times(hi, |values|)
  {
    hide Times;
    if values == [] {
      NoTimes(lo);
      NoTimes(hi);
    } else {
      var n := |values| - 1;
      SumWithin(values[..n], lo, hi);
      OnceMore(lo, n);
      OnceMore(hi, n);
    }
  }

  lemma NoTimes(x: real)
    ensures Times(x, 0) == 0.0
  {
  }

  lemma OnceMore(x: real, n: nat)
    ensures Times(x, n + 1) == Times(x, n) + x
  {
  }

  lemma MeanWithin(total: real, n: nat, lo: real, hi: real)
    requires n > 0 && Times(lo, n) <= total <= Times(hi, n)
    ensures lo <= Mean(total, n) <= hi
  {
    hide Times, Mean;
    var m := Mean(total, n);
    MeanTimes(total, n);
    TimesGrows(m, lo, n);
    TimesGrows(hi, m, n);
  }

  lemma MeanTimes(total: real, n: nat)
    requires n > 0
    ensures Times(Mean(total, n), n) == total
  {
  }

  lemma TimesGrows(x: real, y: real, n: nat)
    requires n > 0
    ensures x < y ==> Times(x, n) < Times(y, n)
  {
    if x < y {
      Grows(y - x, n as real);
      assert (y - x) * n as real == y * n as real - x * n as real;
    }
  }

  lemma Grows(x: real, n: real)
    requires x > 0.0 && n > 0.0
    ensures x * n > 0.0
  {
  }

  lemma {:induction false} EmaFromWithin(seed: real, values: seq<real>, m: real, lo: real, hi: real)
    requires 0.0 <= m <= 1.0 && lo <= seed <= hi && Within(values, lo, hi)
    ensures lo <= EmaFrom(seed, values, m) <= hi
  {
    hide Blend;
    if values != [] {
      var n := |values| - 1;
      EmaFromWithin(seed, values[..n], m, lo, hi);
      BlendWithin(values[n], EmaFrom(seed, values[..n], m), m, lo, hi);
    }
  }

  /** The average lies between the least and the greatest value; a constant series is its own. */
  lemma EmaWithin(values: seq<real>, period: nat, lo: real, hi: real)
    requires period > 0 && |values| >= period && Within(values, lo, hi)
    ensures lo <= Ema(values, period).value <= hi
    ensures lo == hi ==> Ema(values, period) == Some(lo)
  {
    hide Blend, Mean, Multiplier, SumOf, Times;
    assert Within(values[..period], lo, hi) && Within(values[period..], lo, hi);
    SumWithin(values[..period], lo, hi);
    MeanWithin(SumOf(values[..period]), period, lo, hi);
    EmaFromWithin(Mean(SumOf(values[..period]), period), values[period..], Multiplier(period), lo, hi);
  }

  /** Each later value moves the average toward itself, by the multiplier's share of the distance. */
  lemma EmaMovesToward(values: seq<real>, period: nat, v: real)
    requires period > 0 && |values| >= period
    ensures var before, now := Ema(values, period).value, Ema(values + [v], period);
      now.Some? && v - now.value == (v - before) * (1.0 - Multiplier(period))
  {
    hide Mean, Multiplier, SumOf;
    var all := values + [v];
    assert all[..period] == values[..period] && all[period..] == values[period..] + [v];
    assert (values[period..] + [v])[..|values| - period] == values[period..];
    BlendMoves(v, Ema(values, period).value, Multiplier(period));
  }

  lemma BlendMoves(v: real, average: real, m: real)
    ensures v - Blend(v, average, m) == (v - average) * (1.0 - m)
  {
  }
}
