/** What the account replay and the minimum-cash loop promise together: the number the second
    computes is exactly the funding threshold of the first, and no step creates money. */
module AccountLaws {
  import opened Sorting
  import opened MapSums
  import opened AccountEquity

  ghost predicate UniqueIds(trades: seq<Trade>) {
    forall i, j :: 0 <= i < j < |trades| ==> trades[i].shadowId != trades[j].shadowId
  }

  ghost predicate ExitsFollowEntries(trades: seq<Trade>) {
    forall t :: t in trades && t.exitTime.Some? ==> t.entryTime <= t.exitTime.value
  }

  // ----- one entry and at most one exit per trade, in that order -----

  function IsOf(k: Kind, id: int): Event -> bool {
    (e: Event) => e.kind == k && e.tradeId == id
  }

  lemma TradeEventsOnce(t: Trade, k: Kind, id: int)
    requires !k.Quote?
    ensures |Filter(TradeEvents(t), IsOf(k, id))| <= if t.shadowId == id then 1 else 0
  {
    var p := IsOf(k, id);
    forall e | e in QuoteEvents(t, t.marks) ensures !p(e) {
      QuoteEventShape(t, t.marks, e);
    }
    FilterNone(QuoteEvents(t, t.marks), p);
    FilterAppend([EntryEvent(t)] + QuoteEvents(t, t.marks), ExitEvents(t), p);
    FilterAppend([EntryEvent(t)], QuoteEvents(t, t.marks), p);
  }

  lemma {:induction false} AllEventsOnce(trades: seq<Trade>, k: Kind, id: int)
    requires !k.Quote? && UniqueIds(trades)
    ensures |Filter(AllEvents(trades), IsOf(k, id))| <= 1
    ensures (forall t :: t in trades ==> t.shadowId != id) ==> Filter(AllEvents(trades), IsOf(k, id)) == []
  {
    if trades != [] {
      var n := |trades| - 1;
      AllEventsOnce(trades[..n], k, id);
      TradeEventsOnce(trades[n], k, id);
      FilterAppend(AllEvents(trades[..n]), TradeEvents(trades[n]), IsOf(k, id));
    }
  }

  lemma EventsOnce(trades: seq<Trade>, i: nat, j: nat)
    requires UniqueIds(trades) && i < j < |Events(trades)|
    requires !Events(trades)[i].kind.Quote? && Events(trades)[j].kind == Events(trades)[i].kind
    ensures Events(trades)[i].tradeId != Events(trades)[j].tradeId
  {
    var events := Events(trades);
    var p := IsOf(events[i].kind, events[i].tradeId);
    EventOrder();
    SortFilter(AllEvents(trades), EventLe, p);
    SortSorts(Filter(AllEvents(trades), p), EventLe);
    AllEventsOnce(trades, events[i].kind, events[i].tradeId);
    FilterOnce(events, p, i, j);
  }

  /** Each trade enters exactly once, and exits exactly once if it has an exit. */
  lemma EachTradeOnce(trades: seq<Trade>, t: Trade)
    requires UniqueIds(trades) && t in trades
    ensures |Filter(Events(trades), IsOf(Entry, t.shadowId))| == 1
    ensures |Filter(Events(trades), IsOf(Exit, t.shadowId))| == if t.exitTime.Some? then 1 else 0
  {
    hide Filter, StableSort, TradeEvents;
    KindOnce(trades, t, Entry);
    KindOnce(trades, t, Exit);
    EntryOf(t);
  }

  lemma EntryOf(t: Trade)
    ensures EntryEvent(t) in TradeEvents(t)
    ensures t.exitTime.Some? ==> Event(t.exitTime.value, Exit, t.shadowId, t.exitBid) in TradeEvents(t)
    ensures t.exitTime.None? ==> forall e :: e in TradeEvents(t) ==> !e.kind.Exit?
  {
    forall e | e in TradeEvents(t) ensures e.kind.Exit? ==> t.exitTime.Some? {
      TradeEventShape(t, e);
    }
  }

  lemma KindOnce(trades: seq<Trade>, t: Trade, k: Kind)
    requires UniqueIds(trades) && t in trades && !k.Quote?
    ensures |Filter(Events(trades), IsOf(k, t.shadowId))| ==
            if exists e :: e in TradeEvents(t) && e.kind == k then 1 else 0
  {
    hide Filter, StableSort, TradeEvents, ById;
    var p := IsOf(k, t.shadowId);
    EventOrder();
    SortFilter(AllEvents(trades), EventLe, p);
    SortSorts(Filter(AllEvents(trades), p), EventLe);
    AllEventsOnce(trades, k, t.shadowId);
    FilterMembers(AllEvents(trades), p);
    EventsKnown(trades);
    var kept := Filter(AllEvents(trades), p);
    if e :| e in TradeEvents(t) && e.kind == k {
      TradeEventShape(t, e);
      assert e in kept;
    }
    if kept != [] {
      var e := kept[0];
      assert e in kept;
      var u :| u in trades && e in TradeEvents(u);
      TradeEventShape(u, e);
      SameTrade(trades, t);
      SameTrade(trades, u);
    }
  }

  lemma SameTrade(trades: seq<Trade>, t: Trade)
    requires UniqueIds(trades) && t in trades
    ensures ById(trades)[t.shadowId] == t
  {
    var u := ById(trades)[t.shadowId];
    var i :| 0 <= i < |trades| && trades[i] == t;
    var j :| 0 <= j < |trades| && trades[j] == u;
    assert i == j;
  }

  lemma EntryInStream(trades: seq<Trade>, t: Trade)
    requires t in trades
    ensures EntryEvent(t) in Events(trades)
  {
    EventsKnown(trades);
    EventOrder();
    SortSorts(AllEvents(trades), EventLe);
    assert EntryEvent(t) in TradeEvents(t);
  }

  lemma ExitSortsLast(x: Event, e: Event)
    requires x.kind.Exit? && e.kind.Entry? && e.timestamp <= x.timestamp
    ensures !EventLe(x, e)
  {
  }

  /** In the sorted stream an exit comes after the entry of its trade. */
  lemma EntryBeforeExit(trades: seq<Trade>, x: nat) returns (i: nat)
    requires UniqueIds(trades) && ExitsFollowEntries(trades)
    requires x < |Events(trades)| && Events(trades)[x].kind.Exit?
    ensures i < x && Events(trades)[i].kind.Entry? && Events(trades)[i].tradeId == Events(trades)[x].tradeId
  {
    hide StableSort, AllEvents, ById, EventLe, TradeEvents;
    var events := Events(trades);
    EventOrder();
    SortSorts(AllEvents(trades), EventLe);
    EventsKnown(trades);
    assert events[x] in events;
    var t :| t in trades && events[x] in TradeEvents(t);
    TradeEventShape(t, events[x]);
    EntryInStream(trades, t);
    i :| 0 <= i < |events| && events[i] == EntryEvent(t);
    assert x < i ==> EventLe(events[x], events[i]);
    ExitSortsLast(events[x], events[i]);
  }

  // ----- the funding threshold -----

  /** With every processed entry funded, the two loops' running cash agrees from above, for any
      trades at all: the replay never has more than the cash-flow loop says. */
  lemma {:induction false} FundedMeansEnough(balance: real, events: seq<Event>, byId: map<int, Trade>)
    requires Known(events, byId) && balance >= 0.0
    requires Run(balance, events, byId).blocked == {}
    ensures Run(balance, events, byId).cash <= balance + CashNeed(events, byId).delta
    ensures 0.0 <= balance + CashNeed(events, byId).minimum
  {
    if events != [] {
      var n := |events| - 1;
      var before, t := Run(balance, events[..n], byId), byId[events[n].tradeId];
      assert before.blocked == {} by {
        assert before.blocked <= Run(balance, events, byId).blocked;
      }
      FundedMeansEnough(balance, events[..n], byId);
      if Usable(events[n].bid) {
        ProceedsPositive(events[n].bid.value, t.quantity);
      }
    }
  }

  lemma ProceedsPositive(bid: real, quantity: nat)
    requires bid > 0.0
    ensures Proceeds(bid, quantity) >= 0.0
  {
  }

  /** Every funded trade is open unless its exit has been seen. */
  ghost predicate OpenUnlessExited(a: Account, events: seq<Event>, n: nat)
    requires n <= |events|
  {
    forall i :: 0 <= i < n && events[i].kind.Entry? && events[i].tradeId !in a.open ==>
      exists j :: 0 <= j < n && events[j].kind.Exit? && events[j].tradeId == events[i].tradeId
  }

  lemma RunIds(balance: real, events: seq<Event>, byId: map<int, Trade>, n: nat)
    requires Known(events, byId) && n < |events|
    requires forall id :: id in byId ==> byId[id].shadowId == id
    ensures Run(balance, events[..n + 1], byId) ==
            Step(Run(balance, events[..n], byId), events[n], byId[events[n].tradeId])
    ensures byId[events[n].tradeId].shadowId == events[n].tradeId
    ensures var need := CashNeed(events[..n], byId);
            var t := byId[events[n].tradeId];
            CashNeed(events[..n + 1], byId) ==
            if events[n].kind.Entry? then
              Need(need.delta - t.capitalRequired,
                   if need.delta - t.capitalRequired < need.minimum then need.delta - t.capitalRequired
                    else need.minimum)
            else if events[n].kind.Exit? && Usable(events[n].bid) then
              need.(delta := need.delta + Proceeds(events[n].bid.value, t.quantity))
            else need
  {
    assert events[..n + 1][..n] == events[..n];
    assert events[n] in events;
  }

  lemma {:induction false} NeedFalls(events: seq<Event>, byId: map<int, Trade>, n: nat)
    requires Known(events, byId) && n <= |events|
    ensures CashNeed(events, byId).minimum <= CashNeed(events[..n], byId).minimum <= CashNeed(events[..n], byId).delta
    decreases |events|
  {
    var last := |events| - 1;
    if n < |events| {
      NeedFalls(events[..last], byId, n);
      assert events[..last][..n] == events[..n];
    } else {
      assert events[..n] == events;
      if events != [] {
        NeedFalls(events[..last], byId, last);
        assert events[..last][..last] == events[..last];
        if Usable(events[last].bid) {
          ProceedsPositive(events[last].bid.value, byId[events[last].tradeId].quantity);
        }
      }
    }
  }

  /** With enough cash every entry reached so far is funded, and the replay's cash is exactly
      the starting balance plus the cash-flow loop's running total. */
  lemma {:induction false} EnoughFundsPrefix(trades: seq<Trade>, balance: real, n: nat)
    requires UniqueIds(trades) && ExitsFollowEntries(trades) && n <= |Events(trades)|
    requires Known(Events(trades), ById(trades)) && balance >= MinimumCash(trades)
    ensures var a := Run(balance, Events(trades)[..n], ById(trades));
            && a.blocked == {} && a.cash >= 0.0
            && a.cash == balance + CashNeed(Events(trades)[..n], ById(trades)).delta
            && OpenUnlessExited(a, Events(trades), n)
  {
    var events, byId := Events(trades), ById(trades);
    hide StableSort, AllEvents, ById, CashNeed, Run;
    if n == 0 {
      assert events[..0] == [];
      NeedStart(byId);
      RunStart(balance, byId);
    } else {
      var m := n - 1;
      EnoughFundsPrefix(trades, balance, m);
      RunIds(balance, events, byId, m);
      NeedFalls(events, byId, n);
      var before, a, e := Run(balance, events[..m], byId), Run(balance, events[..n], byId), events[m];
      if e.kind.Exit? {
        var i := EntryBeforeExit(trades, m);
        if e.tradeId !in before.open {
          var j :| 0 <= j < m && events[j].kind.Exit? && events[j].tradeId == events[i].tradeId;
          EventsOnce(trades, j, m);
        }
      }
      forall i | 0 <= i < n && events[i].kind.Entry? && events[i].tradeId !in a.open
        ensures exists j :: 0 <= j < n && events[j].kind.Exit? && events[j].tradeId == events[i].tradeId
      {
        if i == m {
        } else if events[i].tradeId in before.open {
          assert events[m].kind.Exit? && events[m].tradeId == events[i].tradeId;
        } else {
          var j :| 0 <= j < m && events[j].kind.Exit? && events[j].tradeId == events[i].tradeId;
          assert j < n;
        }
      }
    }
  }

  lemma NeedStart(byId: map<int, Trade>)
    ensures CashNeed([], byId) == Need(0.0, 0.0)
  {
  }

  lemma {:induction false} EveryEntryDecided(balance: real, events: seq<Event>, byId: map<int, Trade>)
    requires Known(events, byId) && (forall id :: id in byId ==> byId[id].shadowId == id)
    ensures var a := Run(balance, events, byId);
            forall e :: e in events && e.kind.Entry? ==> e.tradeId in a.funded + a.blocked
  {
    if events != [] {
      EveryEntryDecided(balance, events[..|events| - 1], byId);
      assert events == events[..|events| - 1] + [events[|events| - 1]];
    }
  }

  /** The minimum starting cash is exactly the funding threshold of the replay: a balance meets
      it if and only if the replay of the whole stream blocks nothing, and then it funds every
      trade. */
  lemma FundingThreshold(trades: seq<Trade>, balance: real)
    requires UniqueIds(trades) && ExitsFollowEntries(trades) && balance > 0.0
    ensures Known(Events(trades), ById(trades))
    ensures var a := Run(balance, Events(trades), ById(trades));
            && (balance >= MinimumCash(trades) <==> a.blocked == {})
            && (balance >= MinimumCash(trades) ==> forall t :: t in trades ==> t.shadowId in a.funded)
  {
    var events, byId := Events(trades), ById(trades);
    EventsKnown(trades);
    if balance >= MinimumCash(trades) {
      EnoughFundsPrefix(trades, balance, |events|);
      assert events[..|events|] == events;
      EveryEntryDecided(balance, events, byId);
      forall t | t in trades ensures t.shadowId in Run(balance, events, byId).funded {
        EntryInStream(trades, t);
      }
    } else if Run(balance, events, byId).blocked == {} {
      FundedMeansEnough(balance, events, byId);
    }
  }

  /** The same at any cut-off: enough cash never blocks an entry and never overdraws, whatever
      moment the replay is stopped at. */
  lemma EnoughFundsAtAnyTime(trades: seq<Trade>, balance: real, end: int)
    requires UniqueIds(trades) && ExitsFollowEntries(trades)
    ensures Known(Events(trades), ById(trades)) && Known(Processed(trades, end), ById(trades))
    ensures balance >= MinimumCash(trades) ==>
              var a := Run(balance, Processed(trades, end), ById(trades));
              a.blocked == {} && a.cash >= 0.0
  {
    EventsKnown(trades);
    if balance >= MinimumCash(trades) {
      EnoughFundsPrefix(trades, balance, CutIndex(Events(trades), end));
    }
  }

  /** Half of the threshold needs no condition on the trades: too little cash always blocks. */
  lemma TooLittleAlwaysBlocks(trades: seq<Trade>, balance: real)
    requires balance > 0.0
    ensures Known(Events(trades), ById(trades))
    ensures balance < MinimumCash(trades) ==> Run(balance, Events(trades), ById(trades)).blocked != {}
  {
    EventsKnown(trades);
    if Run(balance, Events(trades), ById(trades)).blocked == {} {
      FundedMeansEnough(balance, Events(trades), ById(trades));
    }
  }

  // ----- conservation -----

  /** Cash, plus what the open positions cost, minus what has been realized. */
  ghost function Balance(a: Account): real {
    a.cash + Sum(a.open, Capital) - a.realized
  }

  ghost predicate Coherent(a: Account, byId: map<int, Trade>) {
    forall id :: id in a.open ==> id in byId && a.open[id].trade == byId[id]
  }

  /** A funded entry whose id is already open overwrites the position and loses its cost. */
  predicate Overwrites(a: Account, e: Event, t: Trade) {
    e.kind.Entry? && t.capitalRequired <= a.cash && t.shadowId in a.open
    && a.open[t.shadowId].trade.capitalRequired != 0.0
  }

  /** A step conserves money exactly when it overwrites no open position. */
  lemma StepConserves(a: Account, e: Event, t: Trade)
    requires t.shadowId in a.open && !e.kind.Entry? ==> a.open[t.shadowId].trade == t
    ensures Balance(Step(a, e, t)) == Balance(a) <==> !Overwrites(a, e, t)
  {
    var id := t.shadowId;
    match e.kind {
      case Entry =>
        SumInsert(a.open, id, Position(t, InitialBid(t)), Capital);
      case Quote =>
        if id in a.open && Usable(e.bid) {
          SumInsert(a.open, id, a.open[id].(markBid := e.bid.value), Capital);
        }
      case Exit =>
        if id in a.open && Usable(e.bid) {
          SumRemove(a.open, id, Capital);
        }
    }
  }

  lemma {:induction false} OpenIds(balance: real, events: seq<Event>, byId: map<int, Trade>)
    requires Known(events, byId) && (forall id :: id in byId ==> byId[id].shadowId == id)
    ensures Coherent(Run(balance, events, byId), byId)
    ensures forall id :: id in Run(balance, events, byId).open ==>
              exists i :: 0 <= i < |events| && events[i].kind.Entry? && events[i].tradeId == id
  {
    if events != [] {
      var n := |events| - 1;
      OpenIds(balance, events[..n], byId);
      forall id | id in Run(balance, events, byId).open
        ensures exists i :: 0 <= i < |events| && events[i].kind.Entry? && events[i].tradeId == id
      {
        if id in Run(balance, events[..n], byId).open {
          var i :| 0 <= i < n && events[..n][i].kind.Entry? && events[..n][i].tradeId == id;
          assert events[i].tradeId == id;
        } else {
          assert events[n].tradeId == id;
        }
      }
    }
  }

  /** After every step of every replay: cash plus the capital of the open positions is the
      starting balance plus the realized result, so equity is the start plus realized plus
      unrealized result. */
  lemma {:induction false} ReplayConserves(trades: seq<Trade>, balance: real, n: nat)
    requires UniqueIds(trades) && n <= |Events(trades)|
    ensures Known(Events(trades), ById(trades))
    ensures var a := Run(balance, Events(trades)[..n], ById(trades));
            && a.cash + Sum(a.open, Capital) == balance + a.realized
            && Equity(a) == balance + a.realized + (Sum(a.open, MarketValue) - Sum(a.open, Capital))
  {
    var events, byId := Events(trades), ById(trades);
    EventsKnown(trades);
    if n == 0 {
      assert events[..0] == [];
    } else {
      var m := n - 1;
      ReplayConserves(trades, balance, m);
      RunIds(balance, events, byId, m);
      var before, t := Run(balance, events[..m], byId), byId[events[m].tradeId];
      OpenIds(balance, events[..m], byId);
      StepConserves(before, events[m], t);
      if Overwrites(before, events[m], t) {
        var i :| 0 <= i < m && events[..m][i].kind.Entry? && events[..m][i].tradeId == t.shadowId;
        EventsOnce(trades, i, m);
      }
    }
  }

  /** The same seen from the reported figures of one scenario. */
  lemma ReportedEquityAddsUp(trades: seq<Trade>, balance: real, end: int, r: ScenarioResult)
    requires UniqueIds(trades) && Known(Processed(trades, end), ById(trades))
    requires Replays(r, balance, Processed(trades, end), ById(trades))
    ensures r.endingEquity == balance + r.account.realized + r.unrealized
  {
    ReplayConserves(trades, balance, CutIndex(Events(trades), end));
  }

  // ----- where the hypotheses bite -----

  function Bare(id: int, entry: int, cost: real): Trade {
    Trade(id, entry, None, 1.0, None, None, 1, 25.0, cost, [])
  }

  /** An exit stamped before its own entry breaks the threshold: the cash-flow loop counts its
      proceeds, the replay ignores them. */
  lemma ExitBeforeEntryBreaksThreshold() returns (trades: seq<Trade>)
    ensures UniqueIds(trades) && Known(Events(trades), ById(trades))
    ensures 50.0 >= MinimumCash(trades) && Run(50.0, Events(trades), ById(trades)).blocked != {}
  {
    var t := Trade(1, 10, Some(5), 1.0, None, Some(1.0), 1, 25.0, 100.0, []);
    var x, e := Event(5, Exit, 1, Some(1.0)), EntryEvent(t);
    trades := [t];
    EventsKnown(trades);
    assert trades[..0] == [];
    assert AllEvents(trades) == [e, x];
    assert [e, x][1..] == [x] && [x][1..] == [];
    assert StableSort([x], EventLe) == [x] && !EventLe(e, x);
    assert Insert(e, [x], EventLe) == [x] + Insert(e, [], EventLe) == [x, e];
    assert Events(trades) == [x, e];
    var byId := ById(trades);
    assert [x, e][..1] == [x] && [x][..0] == [];
    assert CashNeed([x], byId) == Need(100.0, 0.0);
    assert CashNeed([x, e], byId) == Need(0.0, 0.0);
    assert Run(50.0, [x], byId) == Opened(50.0);
    assert 1 in Run(50.0, [x, e], byId).blocked;
  }

  /** Two rows sharing an id break conservation: the second entry overwrites the first position. */
  lemma SharedIdLosesMoney() returns (a: Account, e: Event, t: Trade)
    ensures Balance(a) == 500.0 && Balance(Step(a, e, t)) == 400.0
  {
    t := Bare(1, 10, 100.0);
    e := EntryEvent(t);
    a := Step(Opened(500.0), e, t);
    StepConserves(Opened(500.0), e, t);
    SumInsert(a.open, 1, Position(t, 1.0), Capital);
    assert Balance(Opened(500.0)) == 500.0;
  }

  lemma RunOfThree(balance: real, e: Event, f: Event, g: Event, byId: map<int, Trade>)
    requires e.tradeId in byId && f.tradeId in byId && g.tradeId in byId
    ensures Run(balance, [e, f, g], byId) ==
            Step(Step(Step(Opened(balance), e, byId[e.tradeId]), f, byId[f.tradeId]), g, byId[g.tradeId])
  {
    assert [e, f, g][..2] == [e, f] && [e, f][..1] == [e] && [e][..0] == [];
    assert Run(balance, [e], byId) == Step(Run(balance, [], byId), e, byId[e.tradeId]);
    assert Run(balance, [e, f], byId) == Step(Run(balance, [e], byId), f, byId[f.tradeId]);
  }

  lemma BareEvents(t: Trade)
    requires t.marks == [] && t.exitTime == None
    ensures TradeEvents(t) == [EntryEvent(t)]
  {
  }

  lemma ThreeTrades(t: Trade, u: Trade, v: Trade)
    ensures AllEvents([t, u, v]) == TradeEvents(t) + TradeEvents(u) + TradeEvents(v)
    ensures ById([t, u, v]) == map[][t.shadowId := t][u.shadowId := u][v.shadowId := v]
  {
    hide TradeEvents;
    assert [t, u, v][..2] == [t, u] && [t, u][..1] == [t] && [t][..0] == [];
    assert AllEvents([t]) == [] + TradeEvents(t);
    assert AllEvents([t, u]) == TradeEvents(t) + TradeEvents(u);
    assert ById([t]) == map[][t.shadowId := t];
    assert ById([t, u]) == map[][t.shadowId := t][u.shadowId := u];
  }

  lemma ThreeBareTrades(t: Trade, u: Trade, v: Trade)
    requires t.marks == u.marks == v.marks == [] && t.exitTime == u.exitTime == v.exitTime == None
    requires t.entryTime < u.entryTime < v.entryTime
    requires t.shadowId != u.shadowId && u.shadowId != v.shadowId && t.shadowId != v.shadowId
    ensures UniqueIds([t, u, v]) && Events([t, u, v]) == [EntryEvent(t), EntryEvent(u), EntryEvent(v)]
    ensures ById([t, u, v]) == map[t.shadowId := t, u.shadowId := u, v.shadowId := v]
  {
    hide StableSort, TradeEvents, AllEvents, ById;
    ThreeTrades(t, u, v);
    BareEvents(t);
    BareEvents(u);
    BareEvents(v);
    assert AllEvents([t, u, v]) == [EntryEvent(t), EntryEvent(u), EntryEvent(v)];
    SortOfSorted([EntryEvent(t), EntryEvent(u), EntryEvent(v)], EventLe);
  }

  /** Funding is not monotone: one more dollar can fund fewer trades, because it lets an early
      expensive entry through. */
  lemma MoreCashCanFundFewer() returns (trades: seq<Trade>)
    ensures UniqueIds(trades) && ExitsFollowEntries(trades) && Known(Events(trades), ById(trades))
    ensures Run(899.0, Events(trades), ById(trades)).funded == {2, 3}
    ensures Run(900.0, Events(trades), ById(trades)).funded == {1}
  {
    var t, u, v := Bare(1, 1, 900.0), Bare(2, 2, 500.0), Bare(3, 3, 399.0);
    trades := [t, u, v];
    ThreeBareTrades(t, u, v);
    hide Run, Events, ById;
    RunOfThree(899.0, EntryEvent(t), EntryEvent(u), EntryEvent(v), ById(trades));
    RunOfThree(900.0, EntryEvent(t), EntryEvent(u), EntryEvent(v), ById(trades));
  }
}
