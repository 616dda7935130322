/** What the replay's positions and realized result are, read off the event stream: which trades are
    open, at which mark, and what the closed ones earned. */
module AccountPositions {
  import opened Sorting
  import opened AccountEquity
  import opened AccountLaws

  /** The last usable mark of the trade, or what it was opened at. */
  function LatestMark(events: seq<Event>, t: Trade): real {
    if events == [] then InitialBid(t) else
    var last := events[|events| - 1];
    if last.kind.Quote? && last.tradeId == t.shadowId && Usable(last.bid) then last.bid.value
    else LatestMark(events[..|events| - 1], t)
  }

  lemma {:induction false} NoMarkYet(events: seq<Event>, t: Trade)
    requires forall e :: e in events ==> !(e.kind.Quote? && e.tradeId == t.shadowId)
    ensures LatestMark(events, t) == InitialBid(t)
  {
    if events != [] {
      NoMarkYet(events[..|events| - 1], t);
    }
  }

  predicate Closes(e: Event, id: int) {
    e.kind.Exit? && e.tradeId == id && Usable(e.bid)
  }

  /** No usable exit of the trade so far. */
  ghost predicate StillHeld(events: seq<Event>, id: int) {
    forall e :: e in events ==> !Closes(e, id)
  }

  lemma HeldSnoc(events: seq<Event>, e: Event, id: int)
    ensures StillHeld(events + [e], id) <==> StillHeld(events, id) && !Closes(e, id)
    ensures (forall x :: x in events ==> x.tradeId != id) ==> StillHeld(events, id)
  {
    assert forall x :: x in events + [e] <==> x in events || x == e;
  }

  lemma QuoteSortsLast(q: Event, e: Event)
    requires q.kind.Quote? && e.kind.Entry? && e.timestamp <= q.timestamp
    ensures !EventLe(q, e)
  {
  }

  /** In the sorted stream a mark comes after the entry of its trade. */
  lemma EntryBeforeQuote(trades: seq<Trade>, x: nat) returns (i: nat)
    requires x < |Events(trades)| && Events(trades)[x].kind.Quote?
    ensures i < x && Events(trades)[i].kind.Entry? && Events(trades)[i].tradeId == Events(trades)[x].tradeId
  {
    hide StableSort, AllEvents, ById, EventLe, TradeEvents;
    var events := Events(trades);
    EventOrder();
    SortSorts(AllEvents(trades), EventLe);
    EventsKnown(trades);
    assert events[x] in events;
    var t :| t in trades && events[x] in TradeEvents(t);
    TradeEventShape(t, events[x]);
    EntryInStream(trades, t);
    i :| 0 <= i < |events| && events[i] == EntryEvent(t);
    assert x < i ==> EventLe(events[x], events[i]);
    QuoteSortsLast(events[x], events[i]);
  }

  /** Before the entry of a trade the stream holds neither a mark nor an exit of it. */
  lemma NothingBeforeEntry(trades: seq<Trade>, m: nat, j: nat)
    requires UniqueIds(trades) && ExitsFollowEntries(trades)
    requires j < m < |Events(trades)| && Events(trades)[m].kind.Entry?
    ensures Events(trades)[j].tradeId != Events(trades)[m].tradeId
  {
    hide Events;
    var events := Events(trades);
    if events[j].tradeId == events[m].tradeId {
      var i: nat := j;
      if events[j].kind.Quote? {
        i := EntryBeforeQuote(trades, j);
      } else if events[j].kind.Exit? {
        i := EntryBeforeExit(trades, j);
      }
      EventsOnce(trades, i, m);
    }
  }

  /** What is known about one trade after n events. */
  ghost predicate Stands(a: Account, events: seq<Event>, t: Trade) {
    var id := t.shadowId;
    && (id in a.funded ==> exists e :: e in events && e.kind.Entry? && e.tradeId == id)
    && (id in a.open <==> id in a.funded && StillHeld(events, id))
    && (id in a.open ==> a.open[id] == Position(t, LatestMark(events, t)))
  }

  lemma StandsAtStart(balance: real, byId: map<int, Trade>, t: Trade)
    ensures Stands(Opened(balance), [], t)
  {
  }

  lemma StandsStep(a: Account, events: seq<Event>, e: Event, u: Trade, t: Trade)
    requires Stands(a, events, t) && e.tradeId == u.shadowId && (u.shadowId == t.shadowId ==> u == t)
    requires e.kind.Entry? && u == t ==> forall x :: x in events ==> x.tradeId != t.shadowId
    ensures Stands(Step(a, e, u), events + [e], t)
  {
    var all := events + [e];
    assert all[..|events|] == events && all[|events|] == e;
    assert forall x :: x in all <==> x in events || x == e;
    HeldSnoc(events, e, t.shadowId);
    if e.kind.Entry? && u == t {
      NoMarkYet(events, t);
    }
  }

  /** A trade is open exactly when its entry was funded and no usable exit of it has come; it is then
      carried at its last usable mark, or at what it was opened at. */
  lemma {:induction false} OpenExactlyWhen(trades: seq<Trade>, balance: real, n: nat, t: Trade)
    requires UniqueIds(trades) && ExitsFollowEntries(trades) && n <= |Events(trades)| && t in trades
    ensures Known(Events(trades), ById(trades))
    ensures Stands(Run(balance, Events(trades)[..n], ById(trades)), Events(trades)[..n], t)
  {
    hide Stands, Events, ById, Run;
    var events, byId := Events(trades), ById(trades);
    EventsKnown(trades);
    if n == 0 {
      assert events[..0] == [];
      RunStart(balance, byId);
      StandsAtStart(balance, byId, t);
    } else {
      var m := n - 1;
      OpenExactlyWhen(trades, balance, m, t);
      RunIds(balance, events, byId, m);
      SameTrade(trades, t);
      var e, u := events[m], byId[events[m].tradeId];
      if e.kind.Entry? {
        forall x | x in events[..m] ensures x.tradeId != e.tradeId {
          var j :| 0 <= j < m && events[j] == x;
          NothingBeforeEntry(trades, m, j);
        }
      }
      StandsStep(Run(balance, events[..m], byId), events[..m], e, u, t);
      assert events[..n] == events[..m] + [e];
    }
  }

  // ----- the realized result -----

  function Earned(t: Trade): real {
    if Usable(t.exitBid) then Proceeds(t.exitBid.value, t.quantity) - t.capitalRequired else 0.0
  }

  /** What the funded trades that are no longer open earned. */
  function ClosedResult(trades: seq<Trade>, a: Account): real {
    if trades == [] then 0.0 else
    var t := trades[|trades| - 1];
    ClosedResult(trades[..|trades| - 1], a)
    + if t.shadowId in a.funded && t.shadowId !in a.open then Earned(t) else 0.0
  }

  lemma {:induction false} ClosedResultMoves(trades: seq<Trade>, a: Account, b: Account, t: Trade)
    requires UniqueIds(trades) && forall u :: u in trades && u.shadowId == t.shadowId ==> u == t
    requires forall u :: u in trades && u.shadowId != t.shadowId ==>
               (u.shadowId in a.funded && u.shadowId !in a.open <==> u.shadowId in b.funded && u.shadowId !in b.open)
    requires t.shadowId in a.funded ==> t.shadowId in a.open
    ensures ClosedResult(trades, b) == ClosedResult(trades, a)
            + if t in trades && t.shadowId in b.funded && t.shadowId !in b.open then Earned(t) else 0.0
    ensures (forall u :: u in trades ==> u.shadowId != t.shadowId) ==>
              ClosedResult(trades, b) == ClosedResult(trades, a)
  {
    if trades != [] {
      var n := |trades| - 1;
      assert trades == trades[..n] + [trades[n]];
      assert forall u :: u in trades[..n] ==> u.shadowId != trades[n].shadowId;
      ClosedResultMoves(trades[..n], a, b, t);
    }
  }

  lemma ClosedAtStart(trades: seq<Trade>, balance: real)
    ensures ClosedResult(trades, Opened(balance)) == 0.0
  {
    if trades != [] {
      ClosedAtStart(trades[..|trades| - 1], balance);
    }
  }

  /** The realized result is the sum of what the closed trades earned at their own exit bids. */
  lemma {:induction false} RealizedIsClosedResult(trades: seq<Trade>, balance: real, n: nat)
    requires UniqueIds(trades) && ExitsFollowEntries(trades) && n <= |Events(trades)|
    ensures Known(Events(trades), ById(trades))
    ensures var a := Run(balance, Events(trades)[..n], ById(trades)); a.realized == ClosedResult(trades, a)
  {
    hide Events, ById, Run, ClosedResult, Proceeds;
    var events, byId := Events(trades), ById(trades);
    EventsKnown(trades);
    if n == 0 {
      assert events[..0] == [];
      RunStart(balance, byId);
      ClosedAtStart(trades, balance);
    } else {
      var m := n - 1;
      RealizedIsClosedResult(trades, balance, m);
      RunIds(balance, events, byId, m);
      var before, a := Run(balance, events[..m], byId), Run(balance, events[..n], byId);
      var e, t := events[m], byId[events[m].tradeId];
      OpenExactlyWhen(trades, balance, m, t);
      TradesOfId(trades, t);
      if e.kind.Entry? {
        forall x | x in events[..m] ensures x.tradeId != e.tradeId {
          var j :| 0 <= j < m && events[j] == x;
          NothingBeforeEntry(trades, m, j);
        }
        ClosedResultMoves(trades, before, a, t);
      } else if e.kind.Exit? && t.shadowId in before.open && Usable(e.bid) {
        ExitBidIsOwn(trades, m);
        ClosedResultMoves(trades, before, a, t);
      } else {
        ClosedResultSame(trades, before, a);
      }
    }
  }

  lemma TradesOfId(trades: seq<Trade>, t: Trade)
    requires UniqueIds(trades) && t in trades
    ensures forall u :: u in trades && u.shadowId == t.shadowId ==> u == t
  {
    var i :| 0 <= i < |trades| && trades[i] == t;
  }

  lemma {:induction false} ClosedResultSame(trades: seq<Trade>, a: Account, b: Account)
    requires a.funded == b.funded && forall id :: id in a.open <==> id in b.open
    ensures ClosedResult(trades, a) == ClosedResult(trades, b)
  {
    if trades != [] {
      ClosedResultSame(trades[..|trades| - 1], a, b);
    }
  }

  lemma ExitBidIsOwn(trades: seq<Trade>, x: nat)
    requires UniqueIds(trades) && x < |Events(trades)| && Events(trades)[x].kind.Exit?
    ensures Known(Events(trades), ById(trades))
    ensures Events(trades)[x].bid == ById(trades)[Events(trades)[x].tradeId].exitBid
  {
    hide StableSort, AllEvents, ById, EventLe, TradeEvents;
    EventOrder();
    SortSorts(AllEvents(trades), EventLe);
    EventsKnown(trades);
    assert Events(trades)[x] in Events(trades);
    var t :| t in trades && Events(trades)[x] in TradeEvents(t);
    TradeEventShape(t, Events(trades)[x]);
    SameTrade(trades, t);
  }
}
