/** How long funded trades are carried overnight (alert_ranker/account_equity.py:313-358): counted
    trade by trade and, in a dictionary, night by night; and the worst fall of a bid from one marked
    day of a trade to the next. */
module OvernightHolds {
  import opened Conventions
  import opened Grouping
  import opened Sorting
  import opened MapSums
  import opened AccountEquity

  function LatestTime(t: Trade): int {
    if t.exitTime.Some? then t.exitTime.value
    else if t.marks != [] then t.marks[|t.marks| - 1].timestamp
    else t.entryTime
  }

  /** The exit, or the later of the last evidence and the end of the replay. */
  function StopTime(t: Trade, end: int): int {
    if t.exitTime.Some? then t.exitTime.value
    else if end > LatestTime(t) then end
    else LatestTime(t)
  }

  function NightsOf(t: Trade, end: int): nat {
    var first, last := DayOf(t.entryTime), DayOf(StopTime(t, end));
    if last > first then last - first else 0
  }

  /** The trade is open over the night that follows day d. */
  function Spans(end: int, d: int): Trade -> bool {
    (t: Trade) => DayOf(t.entryTime) <= d < DayOf(StopTime(t, end))
  }

  function IsHeld(end: int): Trade -> bool {
    (t: Trade) => NightsOf(t, end) > 0
  }

  function TotalNights(trades: seq<Trade>, end: int): nat {
    if trades == [] then 0 else
    TotalNights(trades[..|trades| - 1], end) + NightsOf(trades[|trades| - 1], end)
  }

  function AsReal(): int -> real {
    (n: int) => n as real
  }

  /** The dictionary holds, for every night, how many trades are open over it. */
  ghost predicate CountsNights(counts: map<int, int>, trades: seq<Trade>, end: int) {
    forall d :: |Filter(trades, Spans(end, d))| == if d in counts then counts[d] else 0
  }

  /** How the dictionary stands when the trade's nights before day have been added. */
  ghost predicate CountsPartly(counts: map<int, int>, trades: seq<Trade>, t: Trade, end: int, day: int) {
    forall d :: (if d in counts then counts[d] else 0) ==
                |Filter(trades, Spans(end, d))| + if Spans(end, d)(t) && d < day then 1 else 0
  }

  lemma NightAdded(counts: map<int, int>, trades: seq<Trade>, t: Trade, end: int, day: int)
    requires CountsPartly(counts, trades, t, end, day) && Spans(end, day)(t)
    ensures var n := if day in counts then counts[day] else 0;
      && CountsPartly(counts[day := n + 1], trades, t, end, day + 1)
      && Sum(counts[day := n + 1], AsReal()) == Sum(counts, AsReal()) + 1.0
  {
    hide Filter;
    var n := if day in counts then counts[day] else 0;
    SumInsert(counts, day, n + 1, AsReal());
  }

  lemma TradeAdded(counts: map<int, int>, trades: seq<Trade>, t: Trade, end: int, day: int)
    requires CountsPartly(counts, trades, t, end, day) && day >= DayOf(StopTime(t, end))
    ensures CountsNights(counts, trades + [t], end)
  {
    hide Filter;
    forall d ensures |Filter(trades + [t], Spans(end, d))| == if d in counts then counts[d] else 0 {
      FilterSnoc(trades, t, Spans(end, d));
    }
  }

  lemma NothingOfTradeYet(counts: map<int, int>, trades: seq<Trade>, t: Trade, end: int)
    requires CountsNights(counts, trades, end)
    ensures CountsPartly(counts, trades, t, end, DayOf(t.entryTime))
  {
    hide Filter;
  }

  /** The keys of the dictionary in insertion order. */
  ghost predicate Lists(order: seq<int>, counts: map<int, int>) {
    forall d :: d in counts <==> d in order
  }

  /** The inner loop: one more for every night of the trade. */
  method AddNights(counts: map<int, int>, order: seq<int>, t: Trade, end: int, ghost trades: seq<Trade>)
      returns (result: map<int, int>, longer: seq<int>, nights: nat)
    requires CountsNights(counts, trades, end) && NightsOf(t, end) > 0 && Lists(order, counts)
    ensures CountsNights(result, trades + [t], end) && nights == NightsOf(t, end) && Lists(longer, result)
    ensures Sum(result, AsReal()) == Sum(counts, AsReal()) + nights as real
  {
    hide Sum, CountsNights, CountsPartly;
    NothingOfTradeYet(counts, trades, t, end);
    var day, last := DayOf(t.entryTime), DayOf(StopTime(t, end));
    result, longer, nights := counts, order, 0;
    while day < last
      invariant DayOf(t.entryTime) <= day <= last && nights == day - DayOf(t.entryTime)
      invariant CountsPartly(result, trades, t, end, day) && Lists(longer, result)
      invariant Sum(result, AsReal()) == Sum(counts, AsReal()) + nights as real
    {
      NightAdded(result, trades, t, end, day);
      if day !in result {
        longer := longer + [day];
      }
      result := result[day := (if day in result then result[day] else 0) + 1];
      nights := nights + 1;
      day := day + 1;
    }
    TradeAdded(result, trades, t, end, day);
  }

  lemma NoNights(counts: map<int, int>, trades: seq<Trade>, t: Trade, end: int)
    requires CountsNights(counts, trades, end) && NightsOf(t, end) == 0
    ensures CountsNights(counts, trades + [t], end)
  {
    NothingOfTradeYet(counts, trades, t, end);
    TradeAdded(counts, trades, t, end, DayOf(t.entryTime));
  }

  /** m is the largest number of trades open over one night. */
  ghost predicate IsPeak(m: int, trades: seq<Trade>, end: int) {
    && (forall d :: |Filter(trades, Spans(end, d))| <= m)
    && (m > 0 ==> exists d :: |Filter(trades, Spans(end, d))| == m)
  }

  /** max(counts.values(), default=0) */
  method LargestValue(counts: map<int, int>, order: seq<int>) returns (m: int)
    requires Lists(order, counts)
    ensures m >= 0 && (forall d :: d in counts ==> counts[d] <= m)
    ensures m > 0 ==> exists d :: d in counts && counts[d] == m
  {
    m := 0;
    for i := 0 to |order|
      invariant m >= 0 && (forall j :: 0 <= j < i ==> order[j] in counts && counts[order[j]] <= m)
      invariant m > 0 ==> exists d :: d in counts && counts[d] == m
    {
      var d := order[i];
      assert d in order;
      if counts[d] > m {
        m := counts[d];
      }
    }
  }

  /** The night loop of _overnight_metrics: the nights counted by trade are the nights counted by
      calendar night, and the reported maximum is the peak of trades open over one night. */
  method CountNights(trades: seq<Trade>, end: int)
      returns (holds: nat, positionNights: nat, peak: int, ghost counts: map<int, int>)
    ensures holds == |Filter(trades, IsHeld(end))| && positionNights == TotalNights(trades, end)
    ensures IsPeak(peak, trades, end)
    ensures CountsNights(counts, trades, end) && Sum(counts, AsReal()) == positionNights as real
  {
    hide Sum, CountsNights, Filter;
    holds, positionNights := 0, 0;
    var byNight: map<int, int>, order: seq<int> := map[], [];
    NothingCounted(trades[..0], end);
    for i := 0 to |trades|
      invariant holds == |Filter(trades[..i], IsHeld(end))| && positionNights == TotalNights(trades[..i], end)
      invariant Lists(order, byNight) && CountsNights(byNight, trades[..i], end)
      invariant Sum(byNight, AsReal()) == positionNights as real
    {
      assert trades[..i + 1] == trades[..i] + [trades[i]] && trades[..i + 1][..i] == trades[..i];
      FilterSnoc(trades[..i], trades[i], IsHeld(end));
      if DayOf(StopTime(trades[i], end)) > DayOf(trades[i].entryTime) {
        holds := holds + 1;
        var nights;
        byNight, order, nights := AddNights(byNight, order, trades[i], end, trades[..i]);
        positionNights := positionNights + nights;
      } else {
        NoNights(byNight, trades[..i], trades[i], end);
      }
    }
    assert trades[..|trades|] == trades;
    peak := LargestValue(byNight, order);
    PeakOfCounts(byNight, trades, end, peak);
    counts := byNight;
  }

  lemma NothingCounted(trades: seq<Trade>, end: int)
    requires trades == []
    ensures CountsNights(map[], trades, end) && Filter(trades, IsHeld(end)) == []
    ensures Sum<int, int>(map[], AsReal()) == 0.0
  {
  }

  lemma PeakOfCounts(counts: map<int, int>, trades: seq<Trade>, end: int, m: int)
    requires CountsNights(counts, trades, end) && m >= 0 && (forall d :: d in counts ==> counts[d] <= m)
    requires m > 0 ==> exists d :: d in counts && counts[d] == m
    ensures IsPeak(m, trades, end)
  {
    if m > 0 {
      var d :| d in counts && counts[d] == m;
      assert |Filter(trades, Spans(end, d))| == m;
    }
  }

  // ----- gaps between marked days -----

  /** Marks from the entry to the exit, both included. */
  function WhileHeld(t: Trade): Mark -> bool {
    (m: Mark) => t.entryTime <= m.timestamp && (t.exitTime.Some? ==> m.timestamp <= t.exitTime.value)
  }

  function MarkDay(m: Mark): int {
    DayOf(m.timestamp)
  }

  function DayMarks(t: Trade, d: int): seq<Mark> {
    Filter(Filter(t.marks, WhileHeld(t)), Keyed(MarkDay, d))
  }

  /** e is the next day after d on which the trade has a mark. */
  ghost predicate NextMarkedDay(t: Trade, d: int, e: int) {
    DayMarks(t, d) != [] && DayMarks(t, e) != [] && d < e && forall x :: d < x < e ==> DayMarks(t, x) == []
  }

  /** What the fall from the last bid of one day to the first of the other costs. */
  function GapLoss(t: Trade, before: seq<Mark>, after: seq<Mark>): real
    requires before != [] && after != []
  {
    var fall := before[|before| - 1].bid - after[0].bid;
    Loss(if fall > 0.0 then fall else 0.0, t.quantity)
  }

  function Loss(fall: real, quantity: nat): real {
    fall * (100.0 * quantity as real)
  }

  ghost function MarkedGap(t: Trade, d: int, e: int): real
    requires NextMarkedDay(t, d, e)
  {
    GapLoss(t, DayMarks(t, d), DayMarks(t, e))
  }

  ghost predicate GapsWithin(w: real, t: Trade) {
    forall d, e :: NextMarkedDay(t, d, e) ==> MarkedGap(t, d, e) <= w
  }

  ghost predicate HasGap(w: real, t: Trade) {
    exists d, e :: NextMarkedDay(t, d, e) && MarkedGap(t, d, e) == w
  }

  /** w is the worst loss over a gap of any trade, or zero. */
  ghost predicate IsWorstGap(w: real, trades: seq<Trade>) {
    && w >= 0.0 && (forall t :: t in trades ==> GapsWithin(w, t))
    && (w == 0.0 || exists t :: t in trades && HasGap(w, t))
  }

  predicate IntLe(a: int, b: int) {
    a <= b
  }

  /** The marked days in order: every mark's day once, ascending. */
  lemma MarkedDays(t: Trade, held: seq<Mark>, days: seq<int>)
    requires held == Filter(t.marks, WhileHeld(t)) && days == StableSort(FirstSeen(held, MarkDay), IntLe)
    ensures forall i, j :: 0 <= i < j < |days| ==> days[i] < days[j]
    ensures forall d :: d in days <==> d in FirstSeen(held, MarkDay)
    ensures forall d :: d in days <==> DayMarks(t, d) != []
  {
    hide Filter, StableSort, FirstSeen;
    var seen := FirstSeen(held, MarkDay);
    SortSorts(seen, IntLe);
    DistinctSorted(seen, days);
    forall d ensures d in days <==> DayMarks(t, d) != [] {
      FilterMembers(held, Keyed(MarkDay, d));
      if d in days {
        var m :| m in held && MarkDay(m) == d;
        assert m in DayMarks(t, d);
      }
      if DayMarks(t, d) != [] {
        var m := DayMarks(t, d)[0];
        assert m in DayMarks(t, d) && Keyed(MarkDay, d)(m);
      }
    }
  }

  lemma DistinctSorted(s: seq<int>, t: seq<int>)
    requires multiset(s) == multiset(t) && SortedBy(t, IntLe)
    requires Distinct(s)
    ensures forall i, j :: 0 <= i < j < |t| ==> t[i] < t[j]
  {
    DistinctBag(s, t);
    forall i, j | 0 <= i < j < |t| ensures t[i] < t[j] {
      assert IntLe(t[i], t[j]);
    }
  }

  lemma Neighbours(t: Trade, days: seq<int>, k: nat)
    requires forall i, j :: 0 <= i < j < |days| ==> days[i] < days[j]
    requires (forall d :: d in days <==> DayMarks(t, d) != []) && 0 < k < |days|
    ensures NextMarkedDay(t, days[k - 1], days[k])
  {
    hide DayMarks;
    assert days[k - 1] in days && days[k] in days;
    forall x | days[k - 1] < x < days[k] ensures x !in days {
    }
  }

  lemma NeighboursAreAll(t: Trade, days: seq<int>, d: int, e: int) returns (k: nat)
    requires forall i, j :: 0 <= i < j < |days| ==> days[i] < days[j]
    requires (forall x :: x in days <==> DayMarks(t, x) != []) && NextMarkedDay(t, d, e)
    ensures 0 < k < |days| && days[k - 1] == d && days[k] == e
  {
    hide DayMarks;
    assert d in days && e in days;
    var i :| 0 <= i < |days| && days[i] == d;
    k :| 0 <= k < |days| && days[k] == e;
    DayBetween(days, i, k);
  }

  lemma DayBetween(days: seq<int>, i: nat, k: nat)
    requires (forall m, n :: 0 <= m < n < |days| ==> days[m] < days[n]) && i < |days| && k < |days|
    ensures i + 1 < k ==> exists x :: x in days && days[i] < x < days[k]
    ensures days[i] < days[k] ==> i < k
  {
    if i + 1 < k {
      assert days[i + 1] in days;
    }
  }

  /** The worst loss over the first k gaps of the listed days. */
  ghost predicate WorstSoFar(w: real, start: real, t: Trade, days: seq<int>, k: nat)
    requires forall x :: x in days ==> DayMarks(t, x) != []
  {
    && w >= start
    && (forall i :: 0 < i < k && i < |days| ==> GapLoss(t, DayMarks(t, days[i - 1]), DayMarks(t, days[i])) <= w)
    && (w == start ||
        exists i :: 0 < i < k && i < |days| && GapLoss(t, DayMarks(t, days[i - 1]), DayMarks(t, days[i])) == w)
  }

  lemma GapSeen(w: real, start: real, t: Trade, days: seq<int>, k: nat)
    requires (forall x :: x in days ==> DayMarks(t, x) != []) && WorstSoFar(w, start, t, days, k) && 0 < k < |days|
    ensures var loss := GapLoss(t, DayMarks(t, days[k - 1]), DayMarks(t, days[k]));
      WorstSoFar(if loss > w then loss else w, start, t, days, k + 1)
  {
    hide DayMarks, GapLoss;
  }

  /** The gap loop of one trade. */
  method WorstGapOf(t: Trade, start: real) returns (worst: real)
    requires start >= 0.0
    ensures worst >= start && GapsWithin(worst, t) && (worst == start || HasGap(worst, t))
  {
    hide DayMarks, GapLoss, StableSort, FirstSeen, HoldsKeys, HoldsRows, Filter, WorstSoFar, GapsWithin, HasGap;
    var held := Filter(t.marks, WhileHeld(t));
    var byDay, order := GroupRows(held, MarkDay);
    var days := StableSort(order, IntLe);
    MarkedDays(t, held, days);
    worst := start;
    NoGapYet(start, t, days);
    var k := 1;
    while k < |days|
      invariant k >= 1 && WorstSoFar(worst, start, t, days, k)
    {
      assert days[k - 1] in days && days[k] in days;
      DayGroup(t, held, byDay, days[k - 1]);
      DayGroup(t, held, byDay, days[k]);
      GapSeen(worst, start, t, days, k);
      var loss := GapLoss(t, byDay[days[k - 1]], byDay[days[k]]);
      if loss > worst {
        worst := loss;
      }
      k := k + 1;
    }
    AllGapsSeen(worst, start, t, days, k);
  }

  lemma NoGapYet(start: real, t: Trade, days: seq<int>)
    requires forall x :: x in days ==> DayMarks(t, x) != []
    ensures WorstSoFar(start, start, t, days, 1)
  {
  }

  lemma AllGapsSeen(w: real, start: real, t: Trade, days: seq<int>, k: nat)
    requires forall i, j :: 0 <= i < j < |days| ==> days[i] < days[j]
    requires (forall x :: x in days <==> DayMarks(t, x) != []) && k >= |days| && WorstSoFar(w, start, t, days, k)
    ensures w >= start && GapsWithin(w, t) && (w == start || HasGap(w, t))
  {
    hide DayMarks, GapLoss, NextMarkedDay, WorstSoFar;
    forall d, e | NextMarkedDay(t, d, e) ensures MarkedGap(t, d, e) <= w {
      GapAt(w, start, t, days, k, d, e);
    }
    WorstIsReached(w, start, t, days, k);
  }

  lemma GapAt(w: real, start: real, t: Trade, days: seq<int>, k: nat, d: int, e: int)
    requires forall i, j :: 0 <= i < j < |days| ==> days[i] < days[j]
    requires (forall x :: x in days <==> DayMarks(t, x) != []) && k >= |days| && WorstSoFar(w, start, t, days, k)
    requires NextMarkedDay(t, d, e)
    ensures MarkedGap(t, d, e) <= w
  {
    hide DayMarks, GapLoss, NextMarkedDay;
    var i := NeighboursAreAll(t, days, d, e);
  }

  lemma WorstIsReached(w: real, start: real, t: Trade, days: seq<int>, k: nat)
    requires forall i, j :: 0 <= i < j < |days| ==> days[i] < days[j]
    requires (forall x :: x in days <==> DayMarks(t, x) != []) && k >= |days| && WorstSoFar(w, start, t, days, k)
    ensures w >= start && (w == start || HasGap(w, t))
  {
    hide DayMarks, GapLoss, NextMarkedDay;
    if w != start {
      var i :| 0 < i < k && i < |days| && GapLoss(t, DayMarks(t, days[i - 1]), DayMarks(t, days[i])) == w;
      Neighbours(t, days, i);
      assert MarkedGap(t, days[i - 1], days[i]) == w;
    }
  }

  lemma DayGroup(t: Trade, held: seq<Mark>, byDay: map<int, seq<Mark>>, d: int)
    requires held == Filter(t.marks, WhileHeld(t)) && Grouped(byDay, held, MarkDay) && d in FirstSeen(held, MarkDay)
    ensures d in byDay && byDay[d] == DayMarks(t, d)
  {
    GroupsOf(byDay, held, MarkDay, d);
  }

  /** The whole of _overnight_metrics. */
  method OvernightMetrics(trades: seq<Trade>, end: int)
      returns (holds: nat, positionNights: nat, peak: int, worstGap: real, ghost counts: map<int, int>)
    ensures holds == |Filter(trades, IsHeld(end))| && positionNights == TotalNights(trades, end)
    ensures IsPeak(peak, trades, end) && IsWorstGap(worstGap, trades)
    ensures CountsNights(counts, trades, end) && Sum(counts, AsReal()) == positionNights as real
  {
    hide GapsWithin, HasGap, CountsNights, Sum, Filter;
    holds, positionNights, peak, counts := CountNights(trades, end);
    worstGap := 0.0;
    for i := 0 to |trades|
      invariant worstGap >= 0.0 && (forall j :: 0 <= j < i ==> GapsWithin(worstGap, trades[j]))
      invariant worstGap == 0.0 || exists j :: 0 <= j < i && HasGap(worstGap, trades[j])
    {
      var before := worstGap;
      worstGap := WorstGapOf(trades[i], before);
      forall j | 0 <= j < i ensures GapsWithin(worstGap, trades[j]) {
        Wider(before, worstGap, trades[j]);
      }
    }
  }

  lemma Wider(w: real, wider: real, t: Trade)
    requires GapsWithin(w, t) && w <= wider
    ensures GapsWithin(wider, t)
  {
    hide GapLoss, DayMarks;
  }
}
