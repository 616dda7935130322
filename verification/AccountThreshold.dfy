/** What the minimum starting cash means for unique ids when exits precede their own entries, and when two
    starting balances decide alike. */
module AccountThreshold {
  import opened Sorting
  import opened AccountEquity
  import opened AccountLaws
  import opened AccountTill

  // ----- trades whose exit precedes their entry -----

  predicate Backwards(t: Trade) {
    t.exitTime.Some? && t.exitTime.value < t.entryTime
  }

  /** The trade without an exit that precedes its entry. */
  function MendedTrade(t: Trade): Trade {
    if Backwards(t) then t.(exitTime := None) else t
  }

  function Mended(trades: seq<Trade>): (r: seq<Trade>)
    ensures |r| == |trades| && forall i :: 0 <= i < |r| ==> r[i] == MendedTrade(trades[i])
  {
    seq(|trades|, i requires 0 <= i < |trades| => MendedTrade(trades[i]))
  }

  lemma MendedIsOrderly(trades: seq<Trade>)
    requires UniqueIds(trades)
    ensures UniqueIds(Mended(trades)) && ExitsFollowEntries(Mended(trades))
  {
  }

  // ----- events that cannot touch the till -----

  function IsBackwards(byId: map<int, Trade>): int -> bool {
    (id: int) => id in byId && Backwards(byId[id])
  }

  /** Entries, and exits of trades that are not backwards. */
  function MovesCash(byId: map<int, Trade>): Event -> bool {
    (e: Event) => e.kind.Entry? || (e.kind.Exit? && !IsBackwards(byId)(e.tradeId))
  }

  /** When a backwards trade exits it is not held. */
  ghost predicate IdleExits(balance: real, events: seq<Event>, byId: map<int, Trade>)
    requires Known(events, byId)
  {
    forall i :: 0 <= i < |events| && events[i].kind.Exit? && IsBackwards(byId)(events[i].tradeId) ==>
      byId[events[i].tradeId].shadowId !in TillRun(balance, events[..i], byId).held
  }

  lemma {:induction false} OnlyCashMoves(balance: real, events: seq<Event>, byId: map<int, Trade>)
    requires Known(events, byId) && IdleExits(balance, events, byId)
    ensures Known(Filter(events, MovesCash(byId)), byId)
    ensures TillRun(balance, Filter(events, MovesCash(byId)), byId) == TillRun(balance, events, byId)
  {
    hide Filter;
    var p := MovesCash(byId);
    if events == [] {
      FilterNone(events, p);
    } else {
      var n := |events| - 1;
      var e, early := events[n], events[..n];
      assert forall i :: 0 <= i < n ==> early[..i] == events[..i];
      OnlyCashMoves(balance, early, byId);
      FilterSnoc(early, e, p);
      assert events == early + [e];
      var kept := Filter(early, p);
      if p(e) {
        assert (kept + [e])[..|kept|] == kept;
      } else {
        assert kept + [] == kept;
      }
    }
  }

  // ----- the two streams -----

  lemma {:induction false} SameCashEvents(trades: seq<Trade>, byId: map<int, Trade>)
    requires forall t :: t in trades ==> t.shadowId in byId && byId[t.shadowId] == t
    ensures Filter(AllEvents(trades), MovesCash(byId)) == Filter(AllEvents(Mended(trades)), MovesCash(byId))
  {
    hide Filter;
    if trades == [] {
    } else {
      var n := |trades| - 1;
      SameCashEvents(trades[..n], byId);
      assert Mended(trades)[..n] == Mended(trades[..n]);
      FilterAppend(AllEvents(trades[..n]), TradeEvents(trades[n]), MovesCash(byId));
      FilterAppend(AllEvents(Mended(trades[..n])), TradeEvents(MendedTrade(trades[n])), MovesCash(byId));
      SameCashOfTrade(trades[n], byId);
    }
  }

  lemma CashOfTrade(t: Trade, byId: map<int, Trade>)
    ensures Filter(TradeEvents(t), MovesCash(byId)) ==
            [EntryEvent(t)] + if t.exitTime.Some? && !IsBackwards(byId)(t.shadowId) then ExitEvents(t) else []
  {
    var p := MovesCash(byId);
    forall e | e in QuoteEvents(t, t.marks) ensures !p(e) {
      QuoteEventShape(t, t.marks, e);
    }
    FilterNone(QuoteEvents(t, t.marks), p);
    FilterAppend([EntryEvent(t)] + QuoteEvents(t, t.marks), ExitEvents(t), p);
    FilterAppend([EntryEvent(t)], QuoteEvents(t, t.marks), p);
    assert [EntryEvent(t)][1..] == [];
    assert ExitEvents(t) != [] ==> ExitEvents(t)[1..] == [];
  }

  lemma SameCashOfTrade(t: Trade, byId: map<int, Trade>)
    requires t.shadowId in byId && byId[t.shadowId] == t
    ensures Filter(TradeEvents(t), MovesCash(byId)) == Filter(TradeEvents(MendedTrade(t)), MovesCash(byId))
  {
    hide Filter;
    CashOfTrade(t, byId);
    CashOfTrade(MendedTrade(t), byId);
  }

  lemma SameCashStream(trades: seq<Trade>)
    requires UniqueIds(trades)
    ensures Filter(Events(trades), MovesCash(ById(trades))) == Filter(Events(Mended(trades)), MovesCash(ById(trades)))
  {
    hide Filter, StableSort, ById, AllEvents;
    forall t | t in trades ensures t.shadowId in ById(trades) && ById(trades)[t.shadowId] == t {
      SameTrade(trades, t);
    }
    EventOrder();
    SameCashEvents(trades, ById(trades));
    SortFilter(AllEvents(trades), EventLe, MovesCash(ById(trades)));
    SortFilter(AllEvents(Mended(trades)), EventLe, MovesCash(ById(trades)));
  }

  lemma {:induction false} HeldWasEntered(balance: real, events: seq<Event>, byId: map<int, Trade>, id: int)
    requires Known(events, byId) && id in TillRun(balance, events, byId).held
    ensures exists e :: e in events && e.kind.Entry? && byId[e.tradeId].shadowId == id
  {
    hide Proceeds;
    var n := |events| - 1;
    assert events[n] in events;
    if id in TillRun(balance, events[..n], byId).held {
      HeldWasEntered(balance, events[..n], byId, id);
      var e :| e in events[..n] && e.kind.Entry? && byId[e.tradeId].shadowId == id;
      assert e in events;
    }
  }

  /** Every event of the stream belongs to a trade of the list. */
  lemma OwnerOf(trades: seq<Trade>, i: nat) returns (t: Trade)
    requires UniqueIds(trades) && i < |Events(trades)|
    ensures t in trades && Events(trades)[i] in TradeEvents(t) && Events(trades)[i].tradeId == t.shadowId
    ensures t.shadowId in ById(trades) && ById(trades)[t.shadowId] == t
  {
    hide StableSort, AllEvents, ById, EventLe, TradeEvents;
    EventOrder();
    SortSorts(AllEvents(trades), EventLe);
    EventsKnown(trades);
    assert Events(trades)[i] in Events(trades);
    t :| t in trades && Events(trades)[i] in TradeEvents(t);
    TradeEventShape(t, Events(trades)[i]);
    SameTrade(trades, t);
  }

  lemma BackwardsExitsAreIdle(trades: seq<Trade>, balance: real)
    requires UniqueIds(trades)
    ensures Known(Events(trades), ById(trades)) && IdleExits(balance, Events(trades), ById(trades))
  {
    hide Events, ById, TillRun, TradeEvents;
    EventsKnown(trades);
    SortedTimes(trades);
    var events, byId := Events(trades), ById(trades);
    forall i | 0 <= i < |events| && events[i].kind.Exit? && IsBackwards(byId)(events[i].tradeId)
      ensures byId[events[i].tradeId].shadowId !in TillRun(balance, events[..i], byId).held
    {
      var t := OwnerOf(trades, i);
      TradeEventShape(t, events[i]);
      if t.shadowId in TillRun(balance, events[..i], byId).held {
        HeldWasEntered(balance, events[..i], byId, t.shadowId);
        var j :| 0 <= j < i && events[j].kind.Entry? && byId[events[j].tradeId].shadowId == t.shadowId;
        var u := OwnerOf(trades, j);
        TradeEventShape(u, events[j]);
      }
    }
  }

  lemma MendedExitsAreIdle(trades: seq<Trade>, balance: real)
    requires UniqueIds(trades)
    ensures Known(Events(Mended(trades)), ById(trades))
    ensures IdleExits(balance, Events(Mended(trades)), ById(trades))
  {
    hide Events, ById, TillRun, TradeEvents;
    MendedIsOrderly(trades);
    var events, byId := Events(Mended(trades)), ById(trades);
    forall i | 0 <= i < |events|
      ensures events[i].tradeId in byId && !(events[i].kind.Exit? && IsBackwards(byId)(events[i].tradeId))
    {
      var m := OwnerOf(Mended(trades), i);
      TradeEventShape(m, events[i]);
      var k :| 0 <= k < |trades| && Mended(trades)[k] == m;
      SameTrade(trades, trades[k]);
    }
  }

  ghost predicate SameTerms(a: map<int, Trade>, b: map<int, Trade>) {
    forall id :: id in a ==> id in b && a[id].shadowId == b[id].shadowId && a[id].quantity == b[id].quantity
                             && a[id].capitalRequired == b[id].capitalRequired
  }

  lemma {:induction false} SameTermsSameTill(balance: real, events: seq<Event>, a: map<int, Trade>, b: map<int, Trade>)
    requires Known(events, a) && SameTerms(a, b)
    ensures Known(events, b) && TillRun(balance, events, a) == TillRun(balance, events, b)
  {
    hide Proceeds;
    if events != [] {
      SameTermsSameTill(balance, events[..|events| - 1], a, b);
    }
  }

  lemma MendedTerms(trades: seq<Trade>)
    requires UniqueIds(trades)
    ensures SameTerms(ById(trades), ById(Mended(trades)))
  {
    hide ById;
    MendedIsOrderly(trades);
    forall id | id in ById(trades)
      ensures id in ById(Mended(trades)) && ById(Mended(trades))[id] == MendedTrade(ById(trades)[id])
    {
      var t := ById(trades)[id];
      var k :| 0 <= k < |trades| && trades[k] == t;
      assert Mended(trades)[k] in Mended(trades);
      SameTrade(Mended(trades), Mended(trades)[k]);
    }
  }

  /** Clearing the exits that precede their entries changes nothing about what is funded. */
  lemma MendingKeepsTheTill(trades: seq<Trade>, balance: real)
    requires UniqueIds(trades)
    ensures Known(Events(trades), ById(trades)) && Known(Events(Mended(trades)), ById(Mended(trades)))
    ensures TillOf(Run(balance, Events(trades), ById(trades))) ==
            TillOf(Run(balance, Events(Mended(trades)), ById(Mended(trades))))
  {
    hide Events, ById, TillRun, Filter, IdleExits, SameTerms, Run;
    var events, mended, byId := Events(trades), Events(Mended(trades)), ById(trades);
    BackwardsExitsAreIdle(trades, balance);
    MendedExitsAreIdle(trades, balance);
    OnlyCashMoves(balance, events, byId);
    OnlyCashMoves(balance, mended, byId);
    SameCashStream(trades);
    MendedTerms(trades);
    SameTermsSameTill(balance, mended, byId, ById(Mended(trades)));
    EventsKnown(trades);
    EventsKnown(Mended(trades));
    TillOfRun(balance, events, byId);
    TillOfRun(balance, mended, ById(Mended(trades)));
  }

  /** Whatever the exit times: a balance blocks nothing if and only if it meets the minimum starting
      cash of the mended trades, and then it funds every trade. */
  lemma MendedThreshold(trades: seq<Trade>, balance: real)
    requires UniqueIds(trades) && balance > 0.0
    ensures Known(Events(trades), ById(trades)) && Known(Events(Mended(trades)), ById(Mended(trades)))
    ensures var a := Run(balance, Events(trades), ById(trades));
      && (balance >= MinimumCash(Mended(trades)) <==> a.blocked == {})
      && (balance >= MinimumCash(Mended(trades)) ==> forall t :: t in trades ==> t.shadowId in a.funded)
  {
    hide Events, ById, Run, MinimumCash;
    MendedIsOrderly(trades);
    MendingKeepsTheTill(trades, balance);
    FundingThreshold(Mended(trades), balance);
    forall t | t in trades ensures MendedTrade(t) in Mended(trades) {
      var k :| 0 <= k < |trades| && trades[k] == t;
      assert Mended(trades)[k] in Mended(trades);
    }
  }

  /** So for unique ids the cash the held positions need is the minimum of the mended trades. */
  lemma MendedIsHeld(trades: seq<Trade>)
    requires UniqueIds(trades)
    ensures Known(Events(trades), ById(trades)) && Known(Events(Mended(trades)), ById(Mended(trades)))
    ensures HeldMinimum(trades) == MinimumCash(Mended(trades))
  {
    hide Events, ById, Run, HeldCash, CashNeed;
    EventsKnown(trades);
    EventsKnown(Mended(trades));
    var m, n := HeldMinimum(trades), MinimumCash(Mended(trades));
    if m != n {
      var between := (m + n) / 2.0;
      MendedThreshold(trades, between);
      HeldThreshold(trades, between);
    }
  }

  // ----- two starting balances -----

  /** The entry at i costs more than the smaller balance has left, but not more than the larger. */
  predicate CostBetween(events: seq<Event>, byId: map<int, Trade>, less: real, more: real, i: nat)
    requires Known(events, byId) && i < |events|
  {
    var cash := TillRun(less, events[..i], byId).cash;
    events[i].kind.Entry? && cash < byId[events[i].tradeId].capitalRequired <= cash + (more - less)
  }

  lemma {:induction false} AlikeSoFar(events: seq<Event>, byId: map<int, Trade>, less: real, more: real, n: nat)
    requires Known(events, byId) && less <= more && n <= |events|
    requires forall i :: 0 <= i < n ==> !CostBetween(events, byId, less, more, i)
    ensures var a, b := TillRun(less, events[..n], byId), TillRun(more, events[..n], byId);
      b == a.(cash := a.cash + (more - less))
  {
    hide Proceeds;
    if n > 0 {
      AlikeSoFar(events, byId, less, more, n - 1);
      TillAfter(less, events, byId, n - 1);
      TillAfter(more, events, byId, n - 1);
      assert !CostBetween(events, byId, less, more, n - 1);
    }
  }

  /** Both balances fund the entry at i, or both block it. */
  predicate SameDecision(events: seq<Event>, byId: map<int, Trade>, less: real, more: real, i: nat)
    requires Known(events, byId) && i < |events|
  {
    var cost := byId[events[i].tradeId].capitalRequired;
    events[i].kind.Entry? ==>
      (cost <= TillRun(less, events[..i], byId).cash <==> cost <= TillRun(more, events[..i], byId).cash)
  }

  /** Whatever the ids and exit times: two balances decide every entry alike, if and only if no entry costs
      more than the smaller one has left at that moment and not more than the larger. */
  lemma DecidedAlikeExactlyWhen(trades: seq<Trade>, less: real, more: real)
    requires less <= more
    ensures Known(Events(trades), ById(trades))
    ensures (forall i :: 0 <= i < |Events(trades)| ==> SameDecision(Events(trades), ById(trades), less, more, i)) <==>
            (forall i :: 0 <= i < |Events(trades)| ==> !CostBetween(Events(trades), ById(trades), less, more, i))
  {
    hide Events, ById, TillRun;
    EventsKnown(trades);
    var events, byId := Events(trades), ById(trades);
    var i := 0;
    while i < |events| && !CostBetween(events, byId, less, more, i)
      invariant i <= |events| && forall j :: 0 <= j < i ==> !CostBetween(events, byId, less, more, j)
      invariant forall j :: 0 <= j < i ==> SameDecision(events, byId, less, more, j)
    {
      AlikeSoFar(events, byId, less, more, i);
      assert events[i] in events;
      i := i + 1;
    }
    if i < |events| {
      AlikeSoFar(events, byId, less, more, i);
      assert !SameDecision(events, byId, less, more, i);
    }
  }

  /** With unique ids an entry is decided once: later events leave it funded or not. */
  lemma {:induction false} DecidedOnce(trades: seq<Trade>, balance: real, i: nat, n: nat)
    requires UniqueIds(trades) && i < n <= |Events(trades)| && Events(trades)[i].kind.Entry?
    ensures Known(Events(trades), ById(trades))
    ensures Events(trades)[i].tradeId in TillRun(balance, Events(trades)[..n], ById(trades)).funded <==>
            Events(trades)[i].tradeId in TillRun(balance, Events(trades)[..i + 1], ById(trades)).funded
  {
    hide Events, ById, Proceeds, TillRun;
    EventsKnown(trades);
    if n > i + 1 {
      DecidedOnce(trades, balance, i, n - 1);
      TillAfter(balance, Events(trades), ById(trades), n - 1);
      var t := OwnerOf(trades, n - 1);
      if Events(trades)[n - 1].kind.Entry? {
        EventsOnce(trades, i, n - 1);
      }
    }
  }

  lemma {:induction false} NotYetFunded(trades: seq<Trade>, balance: real, i: nat, n: nat)
    requires UniqueIds(trades) && n <= i < |Events(trades)| && Events(trades)[i].kind.Entry?
    ensures Known(Events(trades), ById(trades))
    ensures Events(trades)[i].tradeId !in TillRun(balance, Events(trades)[..n], ById(trades)).funded
  {
    hide Events, ById, Proceeds, TillRun;
    EventsKnown(trades);
    if n > 0 {
      NotYetFunded(trades, balance, i, n - 1);
      TillAfter(balance, Events(trades), ById(trades), n - 1);
      var t := OwnerOf(trades, n - 1);
      if Events(trades)[n - 1].kind.Entry? {
        EventsOnce(trades, n - 1, i);
      }
    } else {
      EmptyTill(balance, Events(trades)[..0], ById(trades));
    }
  }

  lemma DifferAt(trades: seq<Trade>, less: real, more: real, i: nat)
    requires UniqueIds(trades) && less <= more && i < |Events(trades)| && Known(Events(trades), ById(trades))
    requires forall j :: 0 <= j < i ==> !CostBetween(Events(trades), ById(trades), less, more, j)
    requires CostBetween(Events(trades), ById(trades), less, more, i)
    ensures TillRun(less, Events(trades), ById(trades)).funded != TillRun(more, Events(trades), ById(trades)).funded
  {
    hide Events, ById, Proceeds, TillRun;
    var events, byId := Events(trades), ById(trades);
    AlikeSoFar(events, byId, less, more, i);
    TillAfter(less, events, byId, i);
    TillAfter(more, events, byId, i);
    NotYetFunded(trades, less, i, i);
    var t := OwnerOf(trades, i);
    assert events[..|events|] == events;
    DecidedOnce(trades, less, i, |events|);
    DecidedOnce(trades, more, i, |events|);
  }

  /** Two balances fund and block the same trades, if and only if no entry costs more than the
      smaller one has left at that moment and not more than the larger. */
  lemma AlikeExactlyWhen(trades: seq<Trade>, less: real, more: real)
    requires UniqueIds(trades) && less <= more
    ensures Known(Events(trades), ById(trades))
    ensures var a, b := Run(less, Events(trades), ById(trades)), Run(more, Events(trades), ById(trades));
      a.funded == b.funded && a.blocked == b.blocked <==>
      forall i :: 0 <= i < |Events(trades)| ==> !CostBetween(Events(trades), ById(trades), less, more, i)
  {
    hide Events, ById, Run, TillRun, CostBetween;
    EventsKnown(trades);
    var events, byId := Events(trades), ById(trades);
    TillOfRun(less, events, byId);
    TillOfRun(more, events, byId);
    assert events[..|events|] == events;
    var i := 0;
    while i < |events| && !CostBetween(events, byId, less, more, i)
      invariant i <= |events| && forall j :: 0 <= j < i ==> !CostBetween(events, byId, less, more, j)
    {
      i := i + 1;
    }
    if i < |events| {
      DifferAt(trades, less, more, i);
    } else {
      AlikeSoFar(events, byId, less, more, |events|);
    }
  }

  // ----- shared ids -----

  function Quick(id: int, cost: real): Trade {
    Trade(id, 0, Some(0), 1.0, None, Some(1.0), 1, 25.0, cost, [])
  }

  lemma SharedStream(t: Trade, u: Trade, e: Event, x: Event, f: Event)
    requires t == Quick(1, 100.0) && u == Bare(2, 1, 200.0)
    requires e == EntryEvent(t) && x == Event(0, Exit, 1, Some(1.0)) && f == EntryEvent(u)
    ensures Events([t, t, u]) == [e, e, x, x, f] && ById([t, t, u]) == map[1 := t, 2 := u]
  {
    SharedEvents(t, u, e, x, f);
    SharedSort(e, x, f);
    assert [t, t, u][..2] == [t, t] && [t, t][..1] == [t] && [t][..0] == [];
  }

  lemma SharedEvents(t: Trade, u: Trade, e: Event, x: Event, f: Event)
    requires t == Quick(1, 100.0) && u == Bare(2, 1, 200.0)
    requires e == EntryEvent(t) && x == Event(0, Exit, 1, Some(1.0)) && f == EntryEvent(u)
    ensures AllEvents([t, t, u]) == [e, x, e, x, f]
  {
    assert [t, t, u][..2] == [t, t] && [t, t][..1] == [t] && [t][..0] == [];
    assert TradeEvents(t) == [e, x] && TradeEvents(u) == [f];
    assert AllEvents([t]) == [e, x];
    assert AllEvents([t, t]) == [e, x, e, x];
  }

  lemma SharedSort(e: Event, x: Event, f: Event)
    requires EventLe(e, x) && EventLe(x, f) && EventLe(e, f) && EventLe(e, e) && EventLe(x, x)
    requires !EventLe(x, e) && !EventLe(f, x) && !EventLe(f, e)
    ensures StableSort([e, x, e, x, f], EventLe) == [e, e, x, x, f]
  {
    hide EventLe;
    assert [e, x, e, x, f][1..] == [x, e, x, f] && [x, e, x, f][1..] == [e, x, f] && [e, x, f][1..] == [x, f];
    SortOfSorted([e, x, f], EventLe);
    assert Insert(x, [x, f], EventLe) == [x, x, f];
    assert Insert(x, [e, x, f], EventLe) == [e] + Insert(x, [x, f], EventLe) == [e, x, x, f];
    assert StableSort([x, e, x, f], EventLe) == [e, x, x, f];
    assert Insert(e, [e, x, x, f], EventLe) == [e, e, x, x, f];
  }

  lemma RunOfFive(balance: real, a: Event, b: Event, c: Event, d: Event, e: Event, byId: map<int, Trade>)
    requires Known([a, b, c, d, e], byId)
    ensures a.tradeId in byId && b.tradeId in byId && c.tradeId in byId && d.tradeId in byId && e.tradeId in byId
    ensures Run(balance, [a, b, c, d, e], byId) ==
            Step(Step(Step(Step(Step(Opened(balance), a, byId[a.tradeId]), b, byId[b.tradeId]), c, byId[c.tradeId]),
                      d, byId[d.tradeId]), e, byId[e.tradeId])
  {
    hide Step;
    var s := [a, b, c, d, e];
    assert a == s[0] && b == s[1] && c == s[2] && d == s[3] && e == s[4];
    assert s[..4] == [a, b, c, d] && [a, b, c, d][..3] == [a, b, c];
    RunOfThree(balance, a, b, c, byId);
    assert Run(balance, [a, b, c, d], byId) == Step(Run(balance, [a, b, c], byId), d, byId[d.tradeId]);
  }

  lemma SharedSteps(t: Trade, u: Trade, e: Event, x: Event, f: Event)
    requires t == Quick(1, 100.0) && u == Bare(2, 1, 200.0)
    requires e == EntryEvent(t) && x == Event(0, Exit, 1, Some(1.0)) && f == EntryEvent(u)
    ensures Step(Step(Step(Step(Step(Opened(200.0), e, t), e, t), x, t), x, t), f, u).blocked == {2}
  {
    var a := Step(Step(Opened(200.0), e, t), e, t);
    assert a.cash == 0.0 && a.open.Keys == {1} && a.blocked == {};
    var b := Step(a, x, t);
    assert b.cash == 100.0 && b.open.Keys == {} && b.blocked == {};
    assert Step(b, x, t) == b;
  }

  lemma SharedNeed(t: Trade, u: Trade, e: Event, x: Event, f: Event)
    requires t == Quick(1, 100.0) && u == Bare(2, 1, 200.0)
    requires e == EntryEvent(t) && x == Event(0, Exit, 1, Some(1.0)) && f == EntryEvent(u)
    ensures var byId := map[1 := t, 2 := u];
      Known([e, e, x, x, f], byId) && CashNeed([e, e, x, x, f], byId).minimum == -200.0
  {
    var byId := map[1 := t, 2 := u];
    assert [e, e, x, x, f][..4] == [e, e, x, x] && [e, e, x, x][..3] == [e, e, x] && [e, e, x][..2] == [e, e];
    assert [e, e][..1] == [e] && [e][..0] == [];
    assert CashNeed([e], byId) == Need(-100.0, -100.0);
    assert CashNeed([e, e], byId) == Need(-200.0, -200.0);
    assert CashNeed([e, e, x], byId) == Need(-100.0, -200.0);
    assert CashNeed([e, e, x, x], byId) == Need(0.0, -200.0);
  }

  /** Two rows sharing an id break the threshold too: the cash-flow loop counts both exits, the replay
      only the first, and a later entry is blocked at the very minimum. */
  lemma SharedIdBreaksThreshold() returns (trades: seq<Trade>)
    ensures ExitsFollowEntries(trades) && !UniqueIds(trades) && Known(Events(trades), ById(trades))
    ensures MinimumCash(trades) == 200.0 && Run(200.0, Events(trades), ById(trades)).blocked == {2}
  {
    var t, u := Quick(1, 100.0), Bare(2, 1, 200.0);
    var e, x, f := EntryEvent(t), Event(0, Exit, 1, Some(1.0)), EntryEvent(u);
    trades := [t, t, u];
    SharedStream(t, u, e, x, f);
    var byId := map[1 := t, 2 := u];
    hide Run, CashNeed, Events, ById, Step;
    SharedNeed(t, u, e, x, f);
    RunOfFive(200.0, e, e, x, x, f, byId);
    SharedSteps(t, u, e, x, f);
    assert trades[0].shadowId == trades[1].shadowId;
  }
}
