/** One scenario of the account report (alert_ranker/account_equity.py:361-482): the replay, the
    overnight figures of the funded trades, and the rates read off them. */
module AccountReport {
  import opened MapSums
  import opened Sorting
  import opened AccountEquity
  import opened OvernightHolds

  datatype Report = Report(
    start: real, replay: ScenarioResult, considered: nat, funded: nat, blocked: nat, openAtEnd: nat,
    holds: nat, positionNights: nat, peakOvernight: int, worstGap: real,
    returnPercent: real, blockPercent: real, capitalPercent: real, riskPercent: real)

  function Percent(part: real, whole: real): real
    requires whole > 0.0
  {
    part / whole * 100.0
  }

  /** The ids of the trades, each once. */
  function TradeIds(trades: seq<Trade>): (ids: seq<int>)
    ensures forall id :: id in ids <==> exists t :: t in trades && t.shadowId == id
    ensures Distinct(ids)
  {
    if trades == [] then [] else
    var n := |trades| - 1;
    var before := TradeIds(trades[..n]);
    assert trades == trades[..n] + [trades[n]];
    if trades[n].shadowId in before then before else before + [trades[n].shadowId]
  }

  function OneOf(ids: set<int>): int -> bool {
    (id: int) => id in ids
  }

  /** sorted(funded_ids) */
  function SortedIds(trades: seq<Trade>, funded: set<int>): seq<int> {
    StableSort(Filter(TradeIds(trades), OneOf(funded)), IntLe)
  }

  /** [by_id[id] for id in sorted(funded_ids)] */
  function FundedTrades(trades: seq<Trade>, funded: set<int>): seq<Trade> {
    SortedIdsKnown(trades, funded);
    var ids := SortedIds(trades, funded);
    seq(|ids|, i requires 0 <= i < |ids| => ById(trades)[ids[i]])
  }

  lemma SortedIdsKnown(trades: seq<Trade>, funded: set<int>)
    ensures forall i :: 0 <= i < |SortedIds(trades, funded)| ==> SortedIds(trades, funded)[i] in ById(trades)
    ensures forall id :: id in SortedIds(trades, funded) <==> id in funded && id in TradeIds(trades)
  {
    hide TradeIds, Filter, StableSort, ById;
    var seen := TradeIds(trades);
    FilterMembers(seen, OneOf(funded));
    SortSorts(Filter(seen, OneOf(funded)), IntLe);
    var ids := SortedIds(trades, funded);
    forall id ensures id in ids <==> id in funded && id in seen {
      assert id in ids <==> id in seen && OneOf(funded)(id);
    }
    forall i | 0 <= i < |ids| ensures ids[i] in ById(trades) {
      assert ids[i] in ids;
    }
  }

  /** Only trades of the list are ever funded. */
  lemma {:induction false} FundedKnown(balance: real, events: seq<Event>, byId: map<int, Trade>)
    requires Known(events, byId) && (forall id :: id in byId ==> byId[id].shadowId == id)
    ensures Run(balance, events, byId).funded + Run(balance, events, byId).blocked <= byId.Keys
  {
    if events != [] {
      FundedKnown(balance, events[..|events| - 1], byId);
      assert events == events[..|events| - 1] + [events[|events| - 1]];
    }
  }

  /** The list holds every funded trade once, by ascending id. */
  ghost predicate ListsFunded(list: seq<Trade>, funded: set<int>) {
    && (forall i, j :: 0 <= i < j < |list| ==> list[i].shadowId < list[j].shadowId)
    && (forall id :: id in funded <==> exists t :: t in list && t.shadowId == id)
  }

  lemma FundedTradesListed(trades: seq<Trade>, funded: set<int>)
    requires funded <= ById(trades).Keys
    ensures ListsFunded(FundedTrades(trades, funded), funded)
  {
    hide TradeIds, Filter, StableSort, ById;
    SortedIdsKnown(trades, funded);
    var ids, list := SortedIds(trades, funded), FundedTrades(trades, funded);
    IdsAscend(trades, funded);
    forall id ensures id in funded <==> exists t :: t in list && t.shadowId == id {
      if id in funded {
        assert id in ById(trades) && ById(trades)[id] in trades;
        assert id in ids;
        var i :| 0 <= i < |ids| && ids[i] == id;
        assert list[i] in list && list[i].shadowId == id;
      }
      if t :| t in list && t.shadowId == id {
        var i :| 0 <= i < |list| && list[i] == t;
        assert ids[i] in ids;
      }
    }
  }

  lemma IdsAscend(trades: seq<Trade>, funded: set<int>)
    ensures var ids := SortedIds(trades, funded); forall i, j :: 0 <= i < j < |ids| ==> ids[i] < ids[j]
  {
    hide TradeIds, Filter, StableSort;
    var kept := Filter(TradeIds(trades), OneOf(funded));
    FilterDistinct(TradeIds(trades), OneOf(funded));
    SortSorts(kept, IntLe);
    DistinctSorted(kept, SortedIds(trades, funded));
  }

  lemma {:induction false} FilterDistinct(s: seq<int>, p: int -> bool)
    requires Distinct(s)
    ensures Distinct(Filter(s, p))
  {
    if s != [] {
      FilterDistinct(s[1..], p);
      FilterMembers(s[1..], p);
      assert s[0] !in s[1..];
    }
  }

  lemma FundedOfReplay(r: ScenarioResult, trades: seq<Trade>, balance: real, end: int)
    requires Known(Processed(trades, end), ById(trades))
    requires Replays(r, balance, Processed(trades, end), ById(trades))
    ensures ListsFunded(FundedTrades(trades, r.account.funded), r.account.funded)
  {
    hide Run, Processed, ById, FundedTrades, ListsFunded;
    FundedKnown(balance, Processed(trades, end), ById(trades));
    FundedTradesListed(trades, r.account.funded);
  }

  ghost predicate Reports(r: Report, trades: seq<Trade>, balance: real, end: int)
    requires balance > 0.0 && Known(Processed(trades, end), ById(trades))
  {
    var list := FundedTrades(trades, r.replay.account.funded);
    && ListsFunded(list, r.replay.account.funded)
    && r.start == balance && Replays(r.replay, balance, Processed(trades, end), ById(trades))
    && r.considered == |trades|
    && r.funded == |r.replay.account.funded| && r.blocked == |r.replay.account.blocked|
    && r.openAtEnd == |r.replay.account.open|
    && r.holds == |Filter(list, IsHeld(end))| && r.positionNights == TotalNights(list, end)
    && IsPeak(r.peakOvernight, list, end) && IsWorstGap(r.worstGap, list)
    && r.returnPercent == Percent(r.replay.endingEquity - balance, balance)
    && r.blockPercent == (if trades == [] then 0.0 else Percent(r.blocked as real, |trades| as real))
    && r.capitalPercent == Percent(r.replay.load.capital, balance)
    && r.riskPercent == Percent(r.replay.load.risk, balance)
  }

  /** The whole of simulate_account. None stands for the ValueError on a non-positive balance. */
  method SimulateAccount(trades: seq<Trade>, balance: real, asOf: Option<int>, clock: int)
      returns (r: Option<Report>)
    ensures r.None? <==> balance <= 0.0
    ensures Known(Processed(trades, EndTime(trades, asOf, clock)), ById(trades))
    ensures r.Some? ==> Reports(r.value, trades, balance, EndTime(trades, asOf, clock))
  {
    hide Replays, Filter, StableSort, FundedTrades, ListsFunded, IsPeak, IsWorstGap, TotalNights, Sum, CountsNights,
         Percent, Events, EndTime, ById;
    EventsKnown(trades);
    if balance <= 0.0 {
      return None;
    }
    var end := EndTime(trades, asOf, clock);
    var replay := ReplayAccount(trades, balance, end);
    var list := FundedTrades(trades, replay.account.funded);
    FundedOfReplay(replay, trades, balance, end);
    var holds, nights, peak, gap;
    ghost var counts;
    holds, nights, peak, gap, counts := OvernightMetrics(list, end);
    r := Some(Report(balance, replay, |trades|, |replay.account.funded|, |replay.account.blocked|,
                     |replay.account.open|, holds, nights, peak, gap,
                     Percent(replay.endingEquity - balance, balance),
                     if trades == [] then 0.0 else Percent(|replay.account.blocked| as real, |trades| as real),
                     Percent(replay.load.capital, balance), Percent(replay.load.risk, balance)));
  }
}
