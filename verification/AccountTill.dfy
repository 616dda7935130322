/** The cash side of the replay, and the funding threshold for any trades at all: repeated ids, exits
    stamped before their own entries (alert_ranker/account_equity.py:361-502). */
module AccountTill {
  import opened AccountEquity
  import opened AccountLaws

  /** The part of the account that decides what is funded. */
  datatype Till = Till(cash: real, held: set<int>, funded: set<int>, blocked: set<int>)

  function TillOf(a: Account): Till {
    Till(a.cash, a.open.Keys, a.funded, a.blocked)
  }

  function TillStep(c: Till, e: Event, t: Trade): Till {
    match e.kind
    case Entry =>
      if t.capitalRequired <= c.cash
      then Till(c.cash - t.capitalRequired, c.held + {t.shadowId}, c.funded + {t.shadowId}, c.blocked)
      else c.(blocked := c.blocked + {t.shadowId})
    case Quote => c
    case Exit =>
      if t.shadowId in c.held && Usable(e.bid)
      then c.(cash := c.cash + Proceeds(e.bid.value, t.quantity), held := c.held - {t.shadowId})
      else c
  }

  lemma TillFollows(a: Account, e: Event, t: Trade)
    ensures TillOf(Step(a, e, t)) == TillStep(TillOf(a), e, t)
  {
    hide Proceeds;
  }

  function TillRun(balance: real, events: seq<Event>, byId: map<int, Trade>): Till
    requires Known(events, byId)
  {
    if events == [] then Till(balance, {}, {}, {}) else
    var last := events[|events| - 1];
    TillStep(TillRun(balance, events[..|events| - 1], byId), last, byId[last.tradeId])
  }

  lemma {:induction false} TillOfRun(balance: real, events: seq<Event>, byId: map<int, Trade>)
    requires Known(events, byId)
    ensures TillOf(Run(balance, events, byId)) == TillRun(balance, events, byId)
  {
    hide Step, TillStep;
    if events != [] {
      var n := |events| - 1;
      TillOfRun(balance, events[..n], byId);
      TillFollows(Run(balance, events[..n], byId), events[n], byId[events[n].tradeId]);
    }
  }

  lemma TillAfter(balance: real, events: seq<Event>, byId: map<int, Trade>, n: nat)
    requires Known(events, byId) && n < |events|
    ensures TillRun(balance, events[..n + 1], byId) ==
            TillStep(TillRun(balance, events[..n], byId), events[n], byId[events[n].tradeId])
  {
    assert events[..n + 1][..n] == events[..n];
    assert events[n] in events;
  }

  lemma EmptyTill(balance: real, events: seq<Event>, byId: map<int, Trade>)
    requires events == []
    ensures TillRun(balance, events, byId) == Till(balance, {}, {}, {})
  {
  }

  // ----- the cash the held positions need -----

  datatype HeldNeed = HeldNeed(delta: real, minimum: real, held: set<int>)

  /** The cash flow of a replay that funds everything: an exit pays only while its id is held. */
  function HeldCash(events: seq<Event>, byId: map<int, Trade>): HeldNeed
    requires Known(events, byId)
  {
    if events == [] then HeldNeed(0.0, 0.0, {}) else
    var need := HeldCash(events[..|events| - 1], byId);
    var e := events[|events| - 1];
    var t := byId[e.tradeId];
    if e.kind.Entry? then
      var delta := need.delta - t.capitalRequired;
      HeldNeed(delta, if delta < need.minimum then delta else need.minimum, need.held + {t.shadowId})
    else if e.kind.Exit? && Usable(e.bid) && t.shadowId in need.held then
      need.(delta := need.delta + Proceeds(e.bid.value, t.quantity), held := need.held - {t.shadowId})
    else need
  }

  /** Its deepest deficit. */
  function HeldMinimum(trades: seq<Trade>): real
    requires Known(Events(trades), ById(trades))
  {
    var minimum := HeldCash(Events(trades), ById(trades)).minimum;
    if -minimum > 0.0 then -minimum else 0.0
  }

  lemma {:induction false} TillMeetsNeed(balance: real, events: seq<Event>, byId: map<int, Trade>)
    requires Known(events, byId) && balance >= 0.0
    ensures var till, need := TillRun(balance, events, byId), HeldCash(events, byId);
      && (till.blocked == {} <==> balance + need.minimum >= 0.0)
      && (till.blocked == {} ==> till.cash == balance + need.delta && till.held == need.held)
  {
    hide Proceeds;
    if events != [] {
      TillMeetsNeed(balance, events[..|events| - 1], byId);
    }
  }

  ghost predicate Enters(events: seq<Event>, byId: map<int, Trade>, id: int)
    requires Known(events, byId)
  {
    exists e :: e in events && e.kind.Entry? && byId[e.tradeId].shadowId == id
  }

  lemma EntersSnoc(events: seq<Event>, byId: map<int, Trade>, id: int)
    requires Known(events, byId) && events != []
    ensures var n := |events| - 1;
      Enters(events, byId, id) <==>
      Enters(events[..n], byId, id) || (events[n].kind.Entry? && byId[events[n].tradeId].shadowId == id)
  {
    var n := |events| - 1;
    assert forall e :: e in events <==> e in events[..n] || e == events[n] by {
      assert events == events[..n] + [events[n]];
    }
  }

  lemma {:induction false} UnblockedFundsAll(balance: real, events: seq<Event>, byId: map<int, Trade>)
    requires Known(events, byId) && TillRun(balance, events, byId).blocked == {}
    ensures forall id :: id in TillRun(balance, events, byId).funded <==> Enters(events, byId, id)
  {
    hide Proceeds;
    if events != [] {
      var n := |events| - 1;
      UnblockedFundsAll(balance, events[..n], byId);
      assert events == events[..n] + [events[n]];
      forall id
        ensures Enters(events, byId, id) <==>
                Enters(events[..n], byId, id) || (events[n].kind.Entry? && byId[events[n].tradeId].shadowId == id)
      {
        EntersSnoc(events, byId, id);
      }
    }
  }

  /** For any trades: a balance blocks nothing, if and only if it meets the deepest deficit of the cash flow
      that counts an exit only while its id is held, and then it funds every trade. */
  lemma HeldThreshold(trades: seq<Trade>, balance: real)
    requires balance > 0.0
    ensures Known(Events(trades), ById(trades))
    ensures var a := Run(balance, Events(trades), ById(trades));
      && (balance >= HeldMinimum(trades) <==> a.blocked == {})
      && (a.blocked == {} ==> forall t :: t in trades ==> t.shadowId in a.funded)
  {
    hide Events, ById, Run, TillRun, HeldCash, Enters;
    EventsKnown(trades);
    var events, byId := Events(trades), ById(trades);
    TillOfRun(balance, events, byId);
    TillMeetsNeed(balance, events, byId);
    if TillRun(balance, events, byId).blocked == {} {
      UnblockedFundsAll(balance, events, byId);
      forall t | t in trades ensures Enters(events, byId, t.shadowId) {
        TradeEnters(trades, t);
      }
    }
  }

  lemma TradeEnters(trades: seq<Trade>, t: Trade)
    requires t in trades && Known(Events(trades), ById(trades))
    ensures Enters(Events(trades), ById(trades), t.shadowId)
  {
    hide Events, ById;
    EntryInStream(trades, t);
    assert EntryEvent(t).kind.Entry? && EntryEvent(t).tradeId == t.shadowId;
  }

  /** The reported minimum is the funding threshold of the replay at this balance. */
  ghost predicate ThresholdAt(trades: seq<Trade>, balance: real)
    requires Known(Events(trades), ById(trades))
  {
    balance >= MinimumCash(trades) <==> Run(balance, Events(trades), ById(trades)).blocked == {}
  }

  /** For any trades: the reported minimum is the funding threshold for every balance, if and only if counting
      the exits of ids that are not held leaves it as it is. */
  lemma ThresholdExactlyWhen(trades: seq<Trade>)
    ensures Known(Events(trades), ById(trades))
    ensures (forall balance: real :: balance > 0.0 ==> ThresholdAt(trades, balance)) <==>
            MinimumCash(trades) == HeldMinimum(trades)
  {
    hide Events, ById, Run, CashNeed, HeldCash;
    EventsKnown(trades);
    forall balance: real | balance > 0.0
      ensures ThresholdAt(trades, balance) <==> (balance >= MinimumCash(trades) <==> balance >= HeldMinimum(trades))
    {
      HeldThreshold(trades, balance);
    }
    var m, n := MinimumCash(trades), HeldMinimum(trades);
    var between := (m + n) / 2.0;
    if m != n {
      assert between > 0.0 && !ThresholdAt(trades, between);
    }
  }

  /** From the threshold on, more cash changes nothing: every balance funds every entry and blocks none. */
  lemma EnoughIsEnough(trades: seq<Trade>, less: real, more: real)
    requires 0.0 < less <= more
    ensures Known(Events(trades), ById(trades))
    ensures less >= HeldMinimum(trades) ==>
              var a, b := Run(less, Events(trades), ById(trades)), Run(more, Events(trades), ById(trades));
              a.funded == b.funded && a.blocked == b.blocked == {}
  {
    hide Events, ById, Run, TillRun, HeldMinimum, Enters;
    HeldThreshold(trades, less);
    HeldThreshold(trades, more);
    var events, byId := Events(trades), ById(trades);
    TillOfRun(less, events, byId);
    TillOfRun(more, events, byId);
    if less >= HeldMinimum(trades) {
      assert more >= HeldMinimum(trades);
      UnblockedFundsAll(less, events, byId);
      UnblockedFundsAll(more, events, byId);
      var a, b := Run(less, events, byId), Run(more, events, byId);
      assert forall id :: id in a.funded <==> id in b.funded;
    }
  }
}
