/** The cash-only account replay (alert_ranker/account_equity.py): the event stream, one
    step of the account, the replay loop, and the independent minimum-cash loop. Money is
    real; the 1e-9 tolerance and the display rounding are not modelled. */
module AccountEquity {
  import opened Sorting
  import opened MapSums
  import opened EquityCurve

  datatype Mark = Mark(timestamp: int, bid: real)

  datatype Trade = Trade(shadowId: int, entryTime: int, exitTime: Option<int>, entryAsk: real,
                         entryBid: Option<real>, exitBid: Option<real>, quantity: nat,
                         plannedRisk: real, capitalRequired: real, marks: seq<Mark>)

  datatype Kind = Entry | Quote | Exit

  datatype Event = Event(timestamp: int, kind: Kind, tradeId: int, bid: Option<real>)

  datatype Position = Position(trade: Trade, markBid: real)

  datatype Account = Account(cash: real, open: map<int, Position>, funded: set<int>, blocked: set<int>, realized: real)

  // ----- the event stream -----

  function Priority(k: Kind): int {
    match k
    case Entry => 0
    case Quote => 1
    case Exit => 2
  }

  predicate EventLe(a: Event, b: Event) {
    if a.timestamp != b.timestamp then a.timestamp < b.timestamp
    else if a.kind != b.kind then Priority(a.kind) < Priority(b.kind)
    else a.tradeId <= b.tradeId
  }

  function QuoteEvents(t: Trade, marks: seq<Mark>): seq<Event> {
    if marks == [] then [] else
    var m := marks[0];
    if m.timestamp < t.entryTime || (t.exitTime.Some? && m.timestamp > t.exitTime.value)
    then QuoteEvents(t, marks[1..])
    else [Event(m.timestamp, Quote, t.shadowId, Some(m.bid))] + QuoteEvents(t, marks[1..])
  }

  function ExitEvents(t: Trade): seq<Event> {
    if t.exitTime.Some? then [Event(t.exitTime.value, Exit, t.shadowId, t.exitBid)] else []
  }

  function EntryEvent(t: Trade): Event {
    Event(t.entryTime, Entry, t.shadowId, None)
  }

  function TradeEvents(t: Trade): seq<Event> {
    [EntryEvent(t)] + QuoteEvents(t, t.marks) + ExitEvents(t)
  }

  function AllEvents(trades: seq<Trade>): seq<Event> {
    if trades == [] then [] else AllEvents(trades[..|trades| - 1]) + TradeEvents(trades[|trades| - 1])
  }

  function Events(trades: seq<Trade>): seq<Event> {
    StableSort(AllEvents(trades), EventLe)
  }

  /** {trade.shadow_id: trade for trade in trades}: the last trade of an id wins. */
  function ById(trades: seq<Trade>): (m: map<int, Trade>)
    ensures forall id :: id in m ==> m[id].shadowId == id && m[id] in trades
    ensures forall t :: t in trades ==> t.shadowId in m
  {
    if trades == [] then map[] else
    var last := trades[|trades| - 1];
    ById(trades[..|trades| - 1])[last.shadowId := last]
  }

  /** The loop of _events. */
  method CollectEvents(trades: seq<Trade>) returns (events: seq<Event>)
    ensures events == Events(trades)
  {
    events := [];
    for i := 0 to |trades|
      invariant events == AllEvents(trades[..i])
    {
      var t := trades[i];
      assert trades[..i + 1][..i] == trades[..i];
      ghost var before := events;
      events := events + [EntryEvent(t)];
      for j := 0 to |t.marks|
        invariant events + QuoteEvents(t, t.marks[j..]) == before + [EntryEvent(t)] + QuoteEvents(t, t.marks)
      {
        var m := t.marks[j];
        assert t.marks[j..][1..] == t.marks[j + 1..];
        if !(m.timestamp < t.entryTime) && !(t.exitTime.Some? && m.timestamp > t.exitTime.value) {
          events := events + [Event(m.timestamp, Quote, t.shadowId, Some(m.bid))];
        }
      }
      assert events == before + [EntryEvent(t)] + QuoteEvents(t, t.marks);
      if t.exitTime.Some? {
        events := events + [Event(t.exitTime.value, Exit, t.shadowId, t.exitBid)];
      }
      assert events == before + TradeEvents(t);
    }
    assert trades[..|trades|] == trades;
    events := StableSort(events, EventLe);
  }

  // ----- one account step -----

  function MarketValue(p: Position): real {
    p.markBid * 100.0 * p.trade.quantity as real
  }

  function Capital(p: Position): real {
    p.trade.capitalRequired
  }

  function Risk(p: Position): real {
    p.trade.plannedRisk
  }

  function Proceeds(bid: real, quantity: nat): real {
    bid * 100.0 * quantity as real
  }

  predicate Usable(bid: Option<real>) {
    bid.Some? && bid.value > 0.0
  }

  function InitialBid(t: Trade): real {
    if t.entryBid.Some? && t.entryBid.value != 0.0 then t.entryBid.value else t.entryAsk
  }

  function Opened(balance: real): Account {
    Account(balance, map[], {}, {}, 0.0)
  }

  function Step(a: Account, e: Event, t: Trade): Account {
    match e.kind
    case Entry =>
      if t.capitalRequired <= a.cash
      then a.(cash := a.cash - t.capitalRequired, funded := a.funded + {t.shadowId},
              open := a.open[t.shadowId := Position(t, InitialBid(t))])
      else a.(blocked := a.blocked + {t.shadowId})
    case Quote =>
      if t.shadowId in a.open && Usable(e.bid)
      then a.(open := a.open[t.shadowId := a.open[t.shadowId].(markBid := e.bid.value)])
      else a
    case Exit =>
      if t.shadowId in a.open && Usable(e.bid)
      then a.(cash := a.cash + Proceeds(e.bid.value, t.quantity),
              realized := a.realized + (Proceeds(e.bid.value, t.quantity) - t.capitalRequired),
              open := a.open - {t.shadowId})
      else a
  }

  predicate Known(events: seq<Event>, byId: map<int, Trade>) {
    forall e :: e in events ==> e.tradeId in byId
  }

  function Run(balance: real, events: seq<Event>, byId: map<int, Trade>): Account
    requires Known(events, byId)
  {
    if events == [] then Opened(balance) else
    var last := events[|events| - 1];
    Step(Run(balance, events[..|events| - 1], byId), last, byId[last.tradeId])
  }

  ghost function Equity(a: Account): real {
    a.cash + Sum(a.open, MarketValue)
  }

  /** Starting balance, then the equity after each event. */
  ghost function EquityPath(balance: real, events: seq<Event>, byId: map<int, Trade>): (path: seq<real>)
    requires Known(events, byId)
    ensures |path| == |events| + 1
    ensures forall i :: 0 <= i <= |events| ==> path[i] == Equity(Run(balance, events[..i], byId))
  {
    if events == [] then [Equity(Opened(balance))] else
    var n := |events| - 1;
    assert forall i :: 0 <= i <= n ==> events[..n][..i] == events[..i];
    assert events[..n + 1] == events;
    EquityPath(balance, events[..n], byId) + [Equity(Run(balance, events, byId))]
  }

  // ----- what is out at once -----

  ghost function OpenCount(a: Account): real {
    |a.open| as real
  }

  ghost function Deployed(a: Account): real {
    Sum(a.open, Capital)
  }

  ghost function RiskOpen(a: Account): real {
    Sum(a.open, Risk)
  }

  /** One figure of the account after each event. */
  ghost function LoadPath(balance: real, events: seq<Event>, byId: map<int, Trade>, f: Account -> real): seq<real>
    requires Known(events, byId)
  {
    if events == [] then [] else
    LoadPath(balance, events[..|events| - 1], byId, f) + [f(Run(balance, events, byId))]
  }

  /** m is the highest of the values and zero. */
  ghost predicate IsHighWater(m: real, values: seq<real>) {
    m >= 0.0 && (forall v :: v in values ==> v <= m) && (m == 0.0 || m in values)
  }

  lemma HighWaterSnoc(m: real, values: seq<real>, v: real)
    requires IsHighWater(m, values)
    ensures IsHighWater(if v > m then v else m, values + [v])
  {
    assert forall x :: x in values + [v] <==> x in values || x == v;
  }

  lemma LoadPathStep(balance: real, done: seq<Event>, byId: map<int, Trade>, n: nat, f: Account -> real)
    requires Known(done, byId) && n < |done|
    ensures LoadPath(balance, done[..n + 1], byId, f) ==
            LoadPath(balance, done[..n], byId, f) + [f(Run(balance, done[..n + 1], byId))]
  {
    assert done[..n + 1][..n] == done[..n];
  }

  /** The largest number of open positions, capital deployed and planned risk open after any event. */
  datatype Load = Load(positions: int, capital: real, risk: real)

  ghost predicate IsPeakLoad(l: Load, balance: real, events: seq<Event>, byId: map<int, Trade>)
    requires Known(events, byId)
  {
    && IsHighWater(l.positions as real, LoadPath(balance, events, byId, OpenCount))
    && IsHighWater(l.capital, LoadPath(balance, events, byId, Deployed))
    && IsHighWater(l.risk, LoadPath(balance, events, byId, RiskOpen))
  }

  lemma NoLoad(balance: real, done: seq<Event>, byId: map<int, Trade>)
    requires done == []
    ensures IsPeakLoad(Load(0, 0.0, 0.0), balance, done, byId)
  {
  }

  function HigherLoad(l: Load, positions: int, capital: real, risk: real): Load {
    Load(if positions > l.positions then positions else l.positions,
         if capital > l.capital then capital else l.capital,
         if risk > l.risk then risk else l.risk)
  }

  lemma LoadStep(l: Load, balance: real, done: seq<Event>, byId: map<int, Trade>, n: nat)
    requires Known(done, byId) && n < |done| && IsPeakLoad(l, balance, done[..n], byId)
    ensures var a := Run(balance, done[..n + 1], byId);
      IsPeakLoad(HigherLoad(l, |a.open|, Deployed(a), RiskOpen(a)), balance, done[..n + 1], byId)
  {
    hide Run, LoadPath, IsHighWater, Sum;
    var a := Run(balance, done[..n + 1], byId);
    LoadPathStep(balance, done, byId, n, OpenCount);
    LoadPathStep(balance, done, byId, n, Deployed);
    LoadPathStep(balance, done, byId, n, RiskOpen);
    HighWaterSnoc(l.positions as real, LoadPath(balance, done[..n], byId, OpenCount), OpenCount(a));
    HighWaterSnoc(l.capital, LoadPath(balance, done[..n], byId, Deployed), Deployed(a));
    HighWaterSnoc(l.risk, LoadPath(balance, done[..n], byId, RiskOpen), RiskOpen(a));
  }

  ghost function Times(events: seq<Event>): seq<int> {
    seq(|events|, i requires 0 <= i < |events| => events[i].timestamp)
  }

  /** How many events happen before the loop breaks at the first one after end. */
  function CutIndex(events: seq<Event>, end: int): (n: nat)
    ensures n <= |events|
    ensures forall i :: 0 <= i < n ==> events[i].timestamp <= end
    ensures n < |events| ==> events[n].timestamp > end
  {
    if events == [] || events[0].timestamp > end then 0 else 1 + CutIndex(events[1..], end)
  }

  datatype ScenarioResult = ScenarioResult(
    account: Account, endingEquity: real, unrealized: real, lowestEquity: real, peakEquity: real,
    maxDrawdown: real, maxDrawdownPercent: real, longestUnderwater: int, load: Load)

  ghost predicate Replays(r: ScenarioResult, balance: real, events: seq<Event>, byId: map<int, Trade>)
    requires Known(events, byId)
  {
    var path := EquityPath(balance, events, byId);
    && r.account == Run(balance, events, byId)
    && r.endingEquity == Equity(r.account)
    && r.unrealized == Sum(r.account.open, MarketValue) - Sum(r.account.open, Capital)
    && r.peakEquity == Peak(path)
    && r.lowestEquity == Trough(path)
    && IsMaxDrawdown(r.maxDrawdown, path)
    && IsDrawdownPercent(r.maxDrawdownPercent, r.maxDrawdown, path, |events|)
    && IsLongestUnderwater(r.longestUnderwater, path, Times(events))
    && IsPeakLoad(r.load, balance, events, byId)
  }

  lemma EventOrder()
    ensures TotalPreorder(EventLe)
  {
  }

  lemma {:induction false} EventsKnown(trades: seq<Trade>)
    ensures forall e :: e in AllEvents(trades) ==> exists t :: t in trades && e in TradeEvents(t)
    ensures forall t, e :: t in trades && e in TradeEvents(t) ==> e in AllEvents(trades)
    ensures Known(Events(trades), ById(trades))
  {
    if trades != [] {
      var n := |trades| - 1;
      EventsKnown(trades[..n]);
      assert trades == trades[..n] + [trades[n]];
    }
    EventOrder();
    SortSorts(AllEvents(trades), EventLe);
    forall e | e in Events(trades) ensures e.tradeId in ById(trades) {
      var t :| t in trades && e in TradeEvents(t);
      TradeEventShape(t, e);
    }
  }

  lemma {:induction false} QuoteEventShape(t: Trade, marks: seq<Mark>, e: Event)
    requires e in QuoteEvents(t, marks)
    ensures e.kind.Quote? && e.tradeId == t.shadowId && t.entryTime <= e.timestamp
  {
    var m := marks[0];
    if e in QuoteEvents(t, marks[1..]) {
      QuoteEventShape(t, marks[1..], e);
    }
  }

  lemma TradeEventShape(t: Trade, e: Event)
    requires e in TradeEvents(t)
    ensures e.tradeId == t.shadowId
    ensures e.kind.Entry? ==> e == EntryEvent(t)
    ensures e.kind.Exit? ==> t.exitTime == Some(e.timestamp) && e.bid == t.exitBid
    ensures e.kind.Quote? ==> t.entryTime <= e.timestamp
  {
    if e in QuoteEvents(t, t.marks) {
      QuoteEventShape(t, t.marks, e);
    }
  }

  lemma SortedTimes(trades: seq<Trade>)
    ensures var events := Events(trades);
            forall i, j :: 0 <= i <= j < |events| ==> events[i].timestamp <= events[j].timestamp
  {
    hide StableSort, AllEvents;
    EventOrder();
    SortSorts(AllEvents(trades), EventLe);
    var events := Events(trades);
    forall i, j | 0 <= i < j < |events| ensures events[i].timestamp <= events[j].timestamp {
      assert EventLe(events[i], events[j]);
    }
  }

  function Latest(events: seq<Event>): int
    requires events != []
  {
    var last := events[|events| - 1].timestamp;
    if |events| == 1 then last else
    var before := Latest(events[..|events| - 1]);
    if last > before then last else before
  }

  /** as_of, or the newest event, or the clock when there is no event at all. */
  function EndTime(trades: seq<Trade>, asOf: Option<int>, clock: int): int {
    if asOf.Some? then asOf.value
    else if Events(trades) == [] then clock
    else Latest(Events(trades))
  }

  function Processed(trades: seq<Trade>, end: int): seq<Event> {
    Events(trades)[..CutIndex(Events(trades), end)]
  }

  /** The account half of the loop body. */
  method ApplyEvent(a: Account, event: Event, trade: Trade) returns (next: Account)
    ensures next == Step(a, event, trade)
  {
    next := a;
    match event.kind {
      case Entry =>
        if trade.capitalRequired <= a.cash {
          next := next.(funded := a.funded + {trade.shadowId}, cash := a.cash - trade.capitalRequired);
          next := next.(open := a.open[trade.shadowId := Position(trade, InitialBid(trade))]);
        } else {
          next := next.(blocked := a.blocked + {trade.shadowId});
        }
      case Quote =>
        if trade.shadowId in a.open && Usable(event.bid) {
          next := next.(open := a.open[trade.shadowId := a.open[trade.shadowId].(markBid := event.bid.value)]);
        }
      case Exit =>
        if trade.shadowId in a.open && Usable(event.bid) {
          var proceeds := Proceeds(event.bid.value, trade.quantity);
          next := next.(cash := a.cash + proceeds,
                        realized := a.realized + (proceeds - trade.capitalRequired));
          next := next.(open := a.open - {trade.shadowId});
        }
    }
  }

  /** The watermark variables of the loop. */
  datatype Curve = Curve(peak: real, lowest: real, maxDrawdown: real, percent: real,
                         started: Option<int>, longest: int)

  ghost predicate CurveInv(c: Curve, path: seq<real>, times: seq<int>, n: nat)
    requires |path| == |times| + 1 && n < |path|
  {
    && c.peak == Peak(path[..n + 1])
    && c.lowest == Trough(path[..n + 1])
    && IsMaxDrawdown(c.maxDrawdown, path[..n + 1])
    && IsDrawdownPercent(c.percent, c.maxDrawdown, path, n)
    && UnderwaterInv(path, times, n, c.started, c.longest)
  }

  function Advance(c: Curve, equity: real, timestamp: int): Curve {
    var fall := c.peak - equity;
    Curve(
      if equity > c.peak then equity else c.peak,
      if equity < c.lowest then equity else c.lowest,
      if fall > c.maxDrawdown then fall else c.maxDrawdown,
      if fall > c.maxDrawdown then PercentOf(fall, c.peak) else c.percent,
      if equity > c.peak then None
      else if c.started.None? && equity < c.peak then Some(timestamp) else c.started,
      if equity > c.peak && c.started.Some? && timestamp - c.started.value > c.longest
      then timestamp - c.started.value else c.longest)
  }

  lemma AdvanceDrawdown(c: Curve, path: seq<real>, n: nat, fall: real)
    requires n + 1 < |path| && IsMaxDrawdown(c.maxDrawdown, path[..n + 1])
    requires fall == Peak(path[..n + 1]) - path[n + 1]
    ensures fall > c.maxDrawdown ==> IsMaxDrawdown(fall, path[..n + 2])
    ensures fall <= c.maxDrawdown ==> IsMaxDrawdown(c.maxDrawdown, path[..n + 2])
    ensures c.maxDrawdown >= 0.0
  {
    DrawdownStep(path, n, c.maxDrawdown);
    FallBounded(path, n, c.maxDrawdown, 0);
  }

  lemma AdvancePercent(c: Curve, path: seq<real>, n: nat, fall: real)
    requires n + 1 < |path| && IsMaxDrawdown(c.maxDrawdown, path[..n + 1])
    requires fall == Peak(path[..n + 1]) - path[n + 1]
    requires IsDrawdownPercent(c.percent, c.maxDrawdown, path, n)
    ensures fall > c.maxDrawdown ==> IsDrawdownPercent(PercentOf(fall, Peak(path[..n + 1])), fall, path, n + 1)
    ensures fall <= c.maxDrawdown ==> IsDrawdownPercent(c.percent, c.maxDrawdown, path, n + 1)
  {
    if fall > c.maxDrawdown {
      DeeperIsFirst(path, n, c.maxDrawdown);
      PercentDeepens(path, n, fall, PercentOf(fall, Peak(path[..n + 1])));
    }
  }

  lemma AdvanceUnderwater(c: Curve, path: seq<real>, times: seq<int>, n: nat)
    requires |path| == |times| + 1 && n + 1 < |path|
    requires c.peak == Peak(path[..n + 1]) && UnderwaterInv(path, times, n, c.started, c.longest)
    requires forall i, j :: 0 <= i <= j < |times| ==> times[i] <= times[j]
    ensures var next := Advance(c, path[n + 1], times[n]);
            UnderwaterInv(path, times, n + 1, next.started, next.longest)
  {
    if path[n + 1] > c.peak {
      UnderwaterNewPeak(path, times, n, c.started, c.longest);
    } else {
      UnderwaterNoPeak(path, times, n, c.started, c.longest);
    }
  }

  lemma RunStart(balance: real, byId: map<int, Trade>)
    ensures Run(balance, [], byId) == Opened(balance)
  {
  }

  lemma EquityStart(balance: real)
    ensures Equity(Opened(balance)) == balance
  {
  }

  lemma CurveStart(balance: real, path: seq<real>, times: seq<int>)
    requires |path| == |times| + 1 && path[0] == balance
    ensures CurveInv(Curve(balance, balance, 0.0, 0.0, None, 0), path, times, 0)
  {
    var p := path[..1];
    assert p[0] - p[0] == 0.0;
  }

  lemma CurveEnd(c: Curve, path: seq<real>, times: seq<int>, last: int)
    requires |path| == |times| + 1 && CurveInv(c, path, times, |times|)
    requires times != [] ==> last == times[|times| - 1]
    ensures c.peak == Peak(path) && c.lowest == Trough(path) && IsMaxDrawdown(c.maxDrawdown, path)
    ensures IsDrawdownPercent(c.percent, c.maxDrawdown, path, |times|)
    ensures IsLongestUnderwater(
              if c.started.Some? && last - c.started.value > c.longest then last - c.started.value else c.longest,
              path, times)
  {
    hide IsMaxDrawdown, IsDrawdownPercent, IsLongestUnderwater, Peak, Trough, UnderwaterInv;
    assert path[..|times| + 1] == path;
    UnderwaterEnd(path, times, c.started, c.longest);
  }

  /** Advancing the watermarks by the next path entry keeps them true of the longer path. */
  lemma AdvanceKeeps(c: Curve, path: seq<real>, times: seq<int>, n: nat)
    requires |path| == |times| + 1 && n + 1 < |path| && CurveInv(c, path, times, n)
    requires forall i, j :: 0 <= i <= j < |times| ==> times[i] <= times[j]
    ensures CurveInv(Advance(c, path[n + 1], times[n]), path, times, n + 1) && c.maxDrawdown >= 0.0
  {
    hide IsMaxDrawdown, IsDrawdownPercent, UnderwaterInv, Peak, Trough, PercentOf;
    PeakGrows(path, n);
    AdvanceDrawdown(c, path, n, c.peak - path[n + 1]);
    AdvancePercent(c, path, n, c.peak - path[n + 1]);
    AdvanceUnderwater(c, path, times, n);
  }

  /** The watermark half of the loop body: peak, trough, drawdown, its percentage and the underwater
      clock, true of the path so far, become true of the path with the next equity. */
  method ObserveEquity(c: Curve, equity: real, timestamp: int, ghost path: seq<real>, ghost times: seq<int>,
                       ghost n: nat)
      returns (next: Curve)
    requires |path| == |times| + 1 && n + 1 < |path| && CurveInv(c, path, times, n)
    requires forall i, j :: 0 <= i <= j < |times| ==> times[i] <= times[j]
    requires equity == path[n + 1] && timestamp == times[n]
    ensures CurveInv(next, path, times, n + 1)
  {
    hide CurveInv, PercentOf;
    AdvanceKeeps(c, path, times, n);
    next := c;
    if equity < c.lowest {
      next := next.(lowest := equity);
    }
    if equity > c.peak {
      next := next.(peak := equity);
      if c.started.Some? {
        if timestamp - c.started.value > c.longest {
          next := next.(longest := timestamp - c.started.value);
        }
        next := next.(started := None);
      }
    } else if equity < c.peak {
      if c.started.None? {
        next := next.(started := Some(timestamp));
      }
      var drawdown := c.peak - equity;
      if drawdown > c.maxDrawdown {
        next := next.(maxDrawdown := drawdown, percent := PercentOf(drawdown, c.peak));
      }
    }
  }

  lemma RunStep(balance: real, done: seq<Event>, byId: map<int, Trade>, n: nat)
    requires Known(done, byId) && n < |done|
    ensures Run(balance, done[..n + 1], byId) == Step(Run(balance, done[..n], byId), done[n], byId[done[n].tradeId])
  {
    assert done[..n + 1][..n] == done[..n];
  }

  /** The replay loop over the events it reaches before the first one after end. */
  method ReplayEvents(events: seq<Event>, byId: map<int, Trade>, balance: real, end: int)
    returns (a: Account, curve: Curve, load: Load, last: int)
    requires Known(events, byId)
    requires forall i, j :: 0 <= i <= j < |events| ==> events[i].timestamp <= events[j].timestamp
    ensures var done := events[..CutIndex(events, end)];
            && a == Run(balance, done, byId)
            && CurveInv(curve, EquityPath(balance, done, byId), Times(done), |done|)
            && IsPeakLoad(load, balance, done, byId)
            && last == if done == [] then end else done[|done| - 1].timestamp
  {
    hide CurveInv, Step, EquityPath, Sum, Run, IsPeakLoad;
    a, curve, last := Opened(balance), Curve(balance, balance, 0.0, 0.0, None, 0), end;
    load := Load(0, 0.0, 0.0);
    ghost var done := events[..CutIndex(events, end)];
    ghost var path, times := EquityPath(balance, done, byId), Times(done);
    RunStart(balance, byId);
    EquityStart(balance);
    assert done[..0] == [];
    CurveStart(balance, path, times);
    NoLoad(balance, done[..0], byId);
    var n := 0;
    while n < |events| && events[n].timestamp <= end
      invariant n <= |done|
      invariant a == Run(balance, done[..n], byId)
      invariant CurveInv(curve, path, times, n)
      invariant IsPeakLoad(load, balance, done[..n], byId)
      invariant last == if n == 0 then end else times[n - 1]
    {
      RunStep(balance, done, byId, n);
      LoadStep(load, balance, done, byId, n);
      last := events[n].timestamp;
      a := ApplyEvent(a, events[n], byId[events[n].tradeId]);
      var held := SumValues(a.open, MarketValue);
      var capital := SumValues(a.open, Capital);
      var risk := SumValues(a.open, Risk);
      load := HigherLoad(load, |a.open|, capital, risk);
      curve := ObserveEquity(curve, a.cash + held, events[n].timestamp, path, times, n);
      n := n + 1;
    }
    assert done[..n] == done;
  }

  lemma Assembled(r: ScenarioResult, curve: Curve, last: int, balance: real, events: seq<Event>, byId: map<int, Trade>)
    requires Known(events, byId) && r.account == Run(balance, events, byId)
    requires CurveInv(curve, EquityPath(balance, events, byId), Times(events), |events|)
    requires IsPeakLoad(r.load, balance, events, byId) && (events != [] ==> last == events[|events| - 1].timestamp)
    requires r.endingEquity == Equity(r.account)
    requires r.unrealized == Sum(r.account.open, MarketValue) - Sum(r.account.open, Capital)
    requires r.lowestEquity == curve.lowest && r.peakEquity == curve.peak
    requires r.maxDrawdown == curve.maxDrawdown && r.maxDrawdownPercent == curve.percent
    requires r.longestUnderwater == if curve.started.Some? && last - curve.started.value > curve.longest
                                    then last - curve.started.value else curve.longest
    ensures Replays(r, balance, events, byId)
  {
    hide IsMaxDrawdown, IsDrawdownPercent, IsLongestUnderwater, Peak, Trough, CurveInv, EquityPath, Run, Sum, Equity,
         IsPeakLoad;
    CurveEnd(curve, EquityPath(balance, events, byId), Times(events), last);
  }

  /** The replay up to the end time and the figures read off it. */
  method ReplayAccount(trades: seq<Trade>, balance: real, end: int) returns (r: ScenarioResult)
    ensures Known(Processed(trades, end), ById(trades))
    ensures Replays(r, balance, Processed(trades, end), ById(trades))
  {
    hide CurveInv, EquityPath, Run, Sum, Replays, IsPeakLoad, ById, StableSort;
    EventsKnown(trades);
    SortedTimes(trades);
    var byId := ById(trades);
    var events := CollectEvents(trades);
    var a, curve, load, last := ReplayEvents(events, byId, balance, end);
    var longest := if curve.started.Some? && last - curve.started.value > curve.longest
                   then last - curve.started.value else curve.longest;
    var held := SumValues(a.open, MarketValue);
    var invested := SumValues(a.open, Capital);
    r := ScenarioResult(a, a.cash + held, held - invested, curve.lowest, curve.peak,
                        curve.maxDrawdown, curve.percent, longest, load);
    Assembled(r, curve, last, balance, Processed(trades, end), byId);
  }

  // ----- the minimum-cash loop -----

  datatype Need = Need(delta: real, minimum: real)

  function CashNeed(events: seq<Event>, byId: map<int, Trade>): Need
    requires Known(events, byId)
  {
    if events == [] then Need(0.0, 0.0) else
    var need := CashNeed(events[..|events| - 1], byId);
    var e := events[|events| - 1];
    var t := byId[e.tradeId];
    if e.kind.Entry? then
      var delta := need.delta - t.capitalRequired;
      Need(delta, if delta < need.minimum then delta else need.minimum)
    else if e.kind.Exit? && Usable(e.bid) then
      need.(delta := need.delta + Proceeds(e.bid.value, t.quantity))
    else need
  }

  function MinimumCash(trades: seq<Trade>): real
    requires Known(Events(trades), ById(trades))
  {
    var minimum := CashNeed(Events(trades), ById(trades)).minimum;
    if -minimum > 0.0 then -minimum else 0.0
  }

  method MinimumStartingCash(trades: seq<Trade>) returns (m: real)
    ensures Known(Events(trades), ById(trades)) && m == MinimumCash(trades)
  {
    EventsKnown(trades);
    var byId := ById(trades);
    var events := CollectEvents(trades);
    var delta, minimum := 0.0, 0.0;
    for n := 0 to |events|
      invariant CashNeed(events[..n], byId) == Need(delta, minimum)
    {
      var e := events[n];
      var t := byId[e.tradeId];
      assert events[..n + 1][..n] == events[..n];
      if e.kind.Entry? {
        delta := delta - t.capitalRequired;
        if delta < minimum {
          minimum := delta;
        }
      } else if e.kind.Exit? && Usable(e.bid) {
        delta := delta + Proceeds(e.bid.value, t.quantity);
      }
    }
    assert events[..|events|] == events;
    m := if -minimum > 0.0 then -minimum else 0.0;
  }
}
