/** Capturing the selector's inputs and replaying its decision from them
    (alert_ranker/options_selector_evidence.py and options_production_selector_replay.py).
    Hashes and JSON text are not modelled. */
module SelectorReplay {
  import opened Conventions
  import opened Sorting
  import opened PaperPolicy

  datatype Supplement = Supplement(
    contractId: string, expiration: int, right: Right, strike: Option<real>, bid: Option<real>, ask: Option<real>,
    mid: Option<real>, last: Option<real>, volume: Option<real>, openInterest: Option<real>, delta: Option<real>,
    impliedVolatility: Option<real>, quoteTimestamp: Option<string>, bidTimestamp: Option<string>,
    askTimestamp: Option<string>, source: Option<string>)

  function QuoteSupplement(q: Quote, expiration: int): Supplement {
    Supplement(q.symbol, expiration, q.right, q.strike, q.bid, q.ask, q.mid, q.last, q.volume, q.openInterest, q.delta,
               q.impliedVolatility, q.quoteTimestamp, q.bidTimestamp, q.askTimestamp, q.source)
  }

  function QuoteFromSupplement(s: Supplement): Quote {
    Quote(s.contractId, s.right, s.strike, s.bid, s.ask, s.mid, s.last, s.volume, s.openInterest, s.delta,
          s.impliedVolatility, s.quoteTimestamp, s.bidTimestamp, s.askTimestamp, s.source)
  }

  datatype TradeDirection = GoLong | GoShort | Neither

  datatype Chain = Chain(expiration: Option<int>, calls: seq<Quote>, puts: seq<Quote>, failed: bool)

  datatype Underlying = Underlying(price: Option<real>)

  datatype Evidence = Evidence(
    captured: bool, direction: TradeDirection, decisionDate: Option<int>, expirations: seq<Option<int>>,
    chosen: int, supplement: seq<Supplement>, underlying: Option<Underlying>)

  function SideOf(d: TradeDirection): Right {
    if d.GoLong? then Call else Put
  }

  function Supplements(quotes: seq<Quote>, expiration: int): seq<Supplement> {
    if quotes == [] then [] else [QuoteSupplement(quotes[0], expiration)] + Supplements(quotes[1..], expiration)
  }

  function Quotes(rows: seq<Supplement>): seq<Quote> {
    if rows == [] then [] else [QuoteFromSupplement(rows[0])] + Quotes(rows[1..])
  }

  /** The place of the right's name in string order; other names are not told apart. */
  function RightRank(r: Right): int {
    match r
    case Call => 0
    case Put => 1
    case OtherRight => 2
  }

  /** The sort key of the retained rows: expiration, right, the text of the strike, contract id. */
  predicate KeyLe(a: Supplement, b: Supplement, repr: Option<real> -> string) {
    if a.expiration != b.expiration then a.expiration < b.expiration
    else if a.right != b.right then RightRank(a.right) < RightRank(b.right)
    else if repr(a.strike) != repr(b.strike) then StringLe(repr(a.strike), repr(b.strike))
    else StringLe(a.contractId, b.contractId)
  }

  function KeyOrder(repr: Option<real> -> string): (Supplement, Supplement) -> bool {
    (a: Supplement, b: Supplement) => KeyLe(a, b, repr)
  }

  lemma KeyTransitive(a: Supplement, b: Supplement, c: Supplement, repr: Option<real> -> string)
    requires KeyLe(a, b, repr) && KeyLe(b, c, repr)
    ensures KeyLe(a, c, repr)
  {
    hide StringLe;
    if a.expiration == b.expiration == c.expiration && a.right == b.right == c.right {
      var x, y, z := repr(a.strike), repr(b.strike), repr(c.strike);
      StringTotal(x, y);
      StringTotal(y, z);
      if x == y == z {
        StringTransitive(a.contractId, b.contractId, c.contractId);
      } else if x != y && y != z {
        StringTransitive(x, y, z);
      }
    }
  }

  lemma KeyOrderIsOrder(repr: Option<real> -> string)
    ensures TotalPreorder(KeyOrder(repr))
  {
    hide StringLe, KeyLe;
    var le := KeyOrder(repr);
    forall a: Supplement, b: Supplement ensures le(a, b) || le(b, a) {
      KeyTotal(a, b, repr);
    }
    forall a: Supplement, b: Supplement, c: Supplement | le(a, b) && le(b, c) ensures le(a, c) {
      KeyTransitive(a, b, c, repr);
    }
  }

  lemma KeyTotal(a: Supplement, b: Supplement, repr: Option<real> -> string)
    ensures KeyLe(a, b, repr) || KeyLe(b, a, repr)
  {
    hide StringLe;
    StringTotal(repr(a.strike), repr(b.strike));
    StringTotal(a.contractId, b.contractId);
  }

  /** build_selector_evidence_capture: None stands for its ValueErrors; repr is the text of a number. */
  method BuildCapture(direction: TradeDirection, expirations: seq<Option<int>>, chosen: int, chain: Chain,
                      decisionDate: Option<int>, price: Option<real>, repr: Option<real> -> string)
      returns (r: Option<Evidence>)
    ensures r == Capture(direction, expirations, chosen, chain, decisionDate, price, KeyOrder(repr))
  {
    if direction.Neither? || chain.failed || chain.expiration != Some(chosen) || decisionDate.None? {
      return None;
    }
    var rows := [];
    var quotes := chain.calls + chain.puts;
    assert quotes[0..] == quotes;
    for i := 0 to |quotes|
      invariant rows + Supplements(quotes[i..], chosen) == Supplements(quotes, chosen)
    {
      assert quotes[i..][1..] == quotes[i + 1..];
      rows := rows + [QuoteSupplement(quotes[i], chosen)];
    }
    assert quotes[|quotes|..] == [] && rows + [] == rows;
    rows := StableSort(rows, KeyOrder(repr));
    r := Some(Evidence(true, direction, decisionDate, expirations, chosen, rows, Some(Underlying(price))));
  }

  /** What a capture retains when its rows are sorted by a given order. */
  function Capture(direction: TradeDirection, expirations: seq<Option<int>>, chosen: int, chain: Chain,
                   decisionDate: Option<int>, price: Option<real>, byKey: (Supplement, Supplement) -> bool)
      : Option<Evidence>
  {
    if direction.Neither? || chain.failed || chain.expiration != Some(chosen) || decisionDate.None? then None
    else Some(Evidence(true, direction, decisionDate, expirations, chosen,
                       StableSort(Supplements(chain.calls + chain.puts, chosen), byKey), Some(Underlying(price))))
  }

  function IsSide(chosen: int, side: Right): Supplement -> bool {
    (s: Supplement) => s.expiration == chosen && s.right == side
  }

  datatype Blocked = DirectionInvalid | TimestampInvalid | ExpirationsMissing | ExpirationMismatch
                   | SupplementMissing | SideMissing | UnderlyingMissing | NoExpirationInRange

  datatype Replay = Refusal(why: Blocked) | Replayed(expiry: ExpiryChoice, decision: Decision)

  /** The contracts a replay hands to the selector. */
  function ReplayContracts(e: Evidence): seq<Quote> {
    Quotes(Filter(e.supplement, IsSide(e.chosen, SideOf(e.direction))))
  }

  /** What a replay that gets past its guards may answer. */
  ghost predicate ReplayDecides(e: Evidence, d: Decision) {
    && !e.direction.Neither? && e.decisionDate.Some?
    && (exists x :: BestExpiration(e.expirations, e.decisionDate.value, x) && x.expiration == e.chosen)
    && ReplayContracts(e) != [] && e.underlying.Some?
    && Decides(d, ReplayContracts(e), SideOf(e.direction), e.underlying.value.price)
  }

  ghost predicate Passes(e: Evidence, guard: Blocked) {
    match guard
    case DirectionInvalid => !e.direction.Neither?
    case TimestampInvalid => e.decisionDate.Some?
    case ExpirationsMissing => e.expirations != []
    case NoExpirationInRange =>
      e.decisionDate.Some? && exists x :: x in e.expirations && InBand(e.decisionDate.value, x)
    case ExpirationMismatch =>
      && e.decisionDate.Some?
      && exists x :: BestExpiration(e.expirations, e.decisionDate.value, x) && x.expiration == e.chosen
    case SupplementMissing => e.supplement != []
    case SideMissing => ReplayContracts(e) != []
    case UnderlyingMissing => e.underlying.Some?
  }

  /** The place of a guard in the order the replay asks them. */
  function GuardRank(guard: Blocked): int {
    match guard
    case DirectionInvalid => 0
    case TimestampInvalid => 1
    case ExpirationsMissing => 2
    case NoExpirationInRange => 3
    case ExpirationMismatch => 4
    case SupplementMissing => 5
    case SideMissing => 6
    case UnderlyingMissing => 7
  }

  /** The guard fails and every guard asked before it passes. */
  ghost predicate FirstFailing(e: Evidence, why: Blocked) {
    !Passes(e, why) && forall g: Blocked :: GuardRank(g) < GuardRank(why) ==> Passes(e, g)
  }

  lemma FailsFirst(e: Evidence, why: Blocked)
    requires FirstFailing(e, why)
    ensures forall other :: FirstFailing(e, other) <==> other == why
  {
    hide Passes;
    forall other | FirstFailing(e, other) ensures other == why {
      assert GuardRank(other) < GuardRank(why) ==> Passes(e, other);
      assert GuardRank(why) < GuardRank(other) ==> Passes(e, why);
    }
  }

  /** replay_production_selector: its guards in order, then the same selector calls. */
  method ReplaySelector(e: Evidence) returns (r: Replay)
    ensures forall why :: r == Refusal(why) <==> FirstFailing(e, why)
    ensures r.Replayed? ==>
              && ReplayDecides(e, r.decision) && r.expiry.expiration == e.chosen
              && BestExpiration(e.expirations, e.decisionDate.value, r.expiry)
    ensures r.Refusal? ==> forall d :: !ReplayDecides(e, d)
  {
    hide Decides, BestExpiration, ReplayContracts;
    if e.direction.Neither? {
      FailsFirst(e, DirectionInvalid);
      return Refusal(DirectionInvalid);
    }
    if e.decisionDate.None? {
      FailsFirst(e, TimestampInvalid);
      return Refusal(TimestampInvalid);
    }
    ReplayGuards(e);
    if e.expirations == [] {
      FailsFirst(e, ExpirationsMissing);
      return Refusal(ExpirationsMissing);
    }
    var expiry := ChooseExpiration(e.expirations, e.decisionDate.value);
    if expiry.None? {
      FailsFirst(e, NoExpirationInRange);
      return Refusal(NoExpirationInRange);
    }
    SomeInBand(e, expiry.value);
    if expiry.value.expiration != e.chosen {
      FailsFirst(e, ExpirationMismatch);
      return Refusal(ExpirationMismatch);
    }
    assert Passes(e, ExpirationMismatch);
    if e.supplement == [] {
      FailsFirst(e, SupplementMissing);
      return Refusal(SupplementMissing);
    }
    var rows := Filter(e.supplement, IsSide(e.chosen, SideOf(e.direction)));
    ContractsAre(e);
    if rows == [] {
      FailsFirst(e, SideMissing);
      return Refusal(SideMissing);
    }
    if e.underlying.None? {
      FailsFirst(e, UnderlyingMissing);
      return Refusal(UnderlyingMissing);
    }
    var decision := ChooseContract(Quotes(rows), SideOf(e.direction), e.underlying.value.price);
    r := Replayed(expiry.value, decision);
  }

  lemma SomeInBand(e: Evidence, expiry: ExpiryChoice)
    requires e.decisionDate.Some? && BestExpiration(e.expirations, e.decisionDate.value, expiry)
    ensures exists x :: x in e.expirations && InBand(e.decisionDate.value, x)
    ensures forall x :: BestExpiration(e.expirations, e.decisionDate.value, x) ==> x == expiry
  {
    assert Some(expiry.expiration) in e.expirations && InBand(e.decisionDate.value, Some(expiry.expiration));
    hide BestExpiration;
    forall x | BestExpiration(e.expirations, e.decisionDate.value, x) ensures x == expiry {
      BestExpirationUnique(e.expirations, e.expirations, e.decisionDate.value, x, expiry);
    }
  }

  lemma ContractsAre(e: Evidence)
    ensures ReplayContracts(e) == Quotes(Filter(e.supplement, IsSide(e.chosen, SideOf(e.direction))))
  {
  }

  /** finalize_selector_evidence: whether the record stays CAPTURED beside the live decision. */
  method FinalizeSelectorEvidence(e: Evidence, live: Decision) returns (captured: bool)
    ensures captured <==> e.captured && ReplayDecides(e, live)
  {
    hide Decides;
    captured := e.captured;
    if captured {
      var replay := ReplaySelector(e);
      if replay.Replayed? && ReplayDecides(e, live) {
        DecidesOnce(replay.decision, live, ReplayContracts(e), SideOf(e.direction), e.underlying.value.price);
      }
      captured := replay.Replayed? && replay.decision == live;
    }
  }

  lemma ReplayGuards(e: Evidence)
    ensures e.supplement == [] ==> ReplayContracts(e) == []
    ensures ReplayContracts(e) == [] <==> Filter(e.supplement, IsSide(e.chosen, SideOf(e.direction))) == []
    ensures e.decisionDate.Some? && (forall x :: x in e.expirations ==> !InBand(e.decisionDate.value, x)) ==>
              !exists x :: BestExpiration(e.expirations, e.decisionDate.value, x)
  {
  }

  // ----- the round trip -----

  lemma QuoteRoundTrip(q: Quote, expiration: int)
    ensures QuoteFromSupplement(QuoteSupplement(q, expiration)) == q
  {
  }

  /** The order the supplement sort induces on quotes. */
  function Induced(byKey: (Supplement, Supplement) -> bool, expiration: int): (Quote, Quote) -> bool {
    (p: Quote, q: Quote) => byKey(QuoteSupplement(p, expiration), QuoteSupplement(q, expiration))
  }

  lemma {:induction false} InsertSupplement(q: Quote, quotes: seq<Quote>, expiration: int,
                                            byKey: (Supplement, Supplement) -> bool)
    ensures Insert(QuoteSupplement(q, expiration), Supplements(quotes, expiration), byKey) ==
            Supplements(Insert(q, quotes, Induced(byKey, expiration)), expiration)
  {
    hide QuoteSupplement;
    var le := Induced(byKey, expiration);
    if quotes != [] {
      var s := Supplements(quotes, expiration);
      assert s[0] == QuoteSupplement(quotes[0], expiration) && s[1..] == Supplements(quotes[1..], expiration);
      if le(q, quotes[0]) {
        assert ([q] + quotes)[1..] == quotes;
      } else {
        InsertSupplement(q, quotes[1..], expiration, byKey);
        var t := Insert(q, quotes[1..], le);
        assert ([quotes[0]] + t)[1..] == t;
      }
    } else {
      assert [q][1..] == [];
    }
  }

  lemma {:induction false} SortSupplements(quotes: seq<Quote>, expiration: int, byKey: (Supplement, Supplement) -> bool)
    ensures StableSort(Supplements(quotes, expiration), byKey) ==
            Supplements(StableSort(quotes, Induced(byKey, expiration)), expiration)
  {
    if quotes != [] {
      var s := Supplements(quotes, expiration);
      assert s[0] == QuoteSupplement(quotes[0], expiration) && s[1..] == Supplements(quotes[1..], expiration);
      SortSupplements(quotes[1..], expiration, byKey);
      InsertSupplement(quotes[0], StableSort(quotes[1..], Induced(byKey, expiration)), expiration, byKey);
    }
  }

  lemma {:induction false} FilterSupplements(quotes: seq<Quote>, expiration: int, side: Right)
    ensures Quotes(Filter(Supplements(quotes, expiration), IsSide(expiration, side))) == Filter(quotes, OnSide(side))
  {
    if quotes != [] {
      var s := Supplements(quotes, expiration);
      assert s[0] == QuoteSupplement(quotes[0], expiration) && s[1..] == Supplements(quotes[1..], expiration);
      FilterSupplements(quotes[1..], expiration, side);
      var rest := Filter(s[1..], IsSide(expiration, side));
      QuoteRoundTrip(quotes[0], expiration);
      if quotes[0].right == side {
        assert ([s[0]] + rest)[1..] == rest;
      }
    }
  }

  /** A replay sees the wanted side of the chain, reordered by the retained sort. */
  lemma ReplayedContracts(direction: TradeDirection, expirations: seq<Option<int>>, chosen: int, chain: Chain,
                          decisionDate: Option<int>, price: Option<real>, byKey: (Supplement, Supplement) -> bool)
    requires TotalPreorder(byKey)
    ensures var e := Capture(direction, expirations, chosen, chain, decisionDate, price, byKey);
            e.Some? ==>
              ReplayContracts(e.value) ==
              StableSort(Filter(chain.calls + chain.puts, OnSide(SideOf(direction))), Induced(byKey, chosen))
  {
    var all := chain.calls + chain.puts;
    SortSupplements(all, chosen, byKey);
    FilterSupplements(StableSort(all, Induced(byKey, chosen)), chosen, SideOf(direction));
    InducedOrder(byKey, chosen);
    SortFilter(all, Induced(byKey, chosen), OnSide(SideOf(direction)));
  }

  lemma InducedOrder(byKey: (Supplement, Supplement) -> bool, expiration: int)
    requires TotalPreorder(byKey)
    ensures TotalPreorder(Induced(byKey, expiration))
  {
    hide QuoteSupplement;
    var le := Induced(byKey, expiration);
    forall x, y ensures le(x, y) || le(y, x) {
      assert byKey(QuoteSupplement(x, expiration), QuoteSupplement(y, expiration))
             || byKey(QuoteSupplement(y, expiration), QuoteSupplement(x, expiration));
    }
    forall x, y, z | le(x, y) && le(y, z) ensures le(x, z) {
      var a, b, c := QuoteSupplement(x, expiration), QuoteSupplement(y, expiration), QuoteSupplement(z, expiration);
      assert byKey(a, b) && byKey(b, c);
    }
  }

  // ----- the selector forgets list order -----

  lemma RankTotal(a: Rank, b: Rank)
    ensures RankLess(a, b) || RankLess(b, a) || a == b
  {
  }

  lemma {:induction false} ChoicesMembers(contracts: seq<Quote>, side: Right)
    ensures forall c :: c in Choices(contracts, side) <==>
              exists q :: q in contracts && Acceptable(side)(q) && QualityOf(q).choice == c
  {
    hide QualityOf;
    if contracts != [] {
      var n := |contracts| - 1;
      ChoicesMembers(contracts[..n], side);
      assert contracts == contracts[..n] + [contracts[n]];
    }
  }

  lemma BestIsLeast(c: ContractChoice, valid: seq<ContractChoice>, side: Right, spot: Option<real>, d: ContractChoice)
    requires FirstBest(c, valid, side, spot) && d in valid
    ensures c in valid && !RankLess(RankOf(d, side, spot), RankOf(c, side, spot))
  {
    hide RankOf;
    var i :| 0 <= i < |valid| && valid[i] == c && BestAt(valid, i, side, spot);
    var j :| 0 <= j < |valid| && valid[j] == d;
  }

  lemma FirstBestOnce(c: ContractChoice, d: ContractChoice, valid: seq<ContractChoice>, side: Right, spot: Option<real>)
    requires FirstBest(c, valid, side, spot) && FirstBest(d, valid, side, spot)
    ensures c == d
  {
    hide RankOf;
    var i :| 0 <= i < |valid| && valid[i] == c && BestAt(valid, i, side, spot);
    var j :| 0 <= j < |valid| && valid[j] == d && BestAt(valid, j, side, spot);
    RankTotal(RankOf(c, side, spot), RankOf(d, side, spot));
  }

  lemma SameCounts(counts: map<Refusal, nat>, again: map<Refusal, nat>, s: seq<Quote>, t: seq<Quote>, side: Right)
    requires CountsRefusals(counts, s, side) && CountsRefusals(again, t, side)
    requires forall why :: |Filter(s, RefusedFor(side, why))| == |Filter(t, RefusedFor(side, why))|
    ensures counts == again
  {
    hide Filter;
    forall why: Refusal ensures why in counts <==> why in again {
      assert |Filter(s, RefusedFor(side, why))| == |Filter(t, RefusedFor(side, why))|;
    }
    forall why: Refusal | why in counts ensures counts[why] == again[why] {
      assert |Filter(s, RefusedFor(side, why))| == |Filter(t, RefusedFor(side, why))|;
    }
  }

  /** On one list the decision is determined. */
  lemma DecidesOnce(r: Decision, again: Decision, contracts: seq<Quote>, side: Right, spot: Option<real>)
    requires Decides(r, contracts, side, spot) && Decides(again, contracts, side, spot)
    ensures r == again
  {
    hide CountsRefusals, FirstBest, Choices;
    if r.contract.Some? {
      FirstBestOnce(r.contract.value, again.contract.value, Choices(contracts, side), side, spot);
    } else if r.reason.NoLiquidContract? {
      SameCounts(r.reason.counts, again.reason.counts, contracts, contracts, side);
    }
  }

  lemma BestSnoc(valid: seq<ContractChoice>, i: nat, side: Right, spot: Option<real>)
    requires i + 1 < |valid| && BestAt(valid[..|valid| - 1], i, side, spot)
    ensures var n := |valid| - 1;
            if RankLess(RankOf(valid[n], side, spot), RankOf(valid[i], side, spot)) then BestAt(valid, n, side, spot)
            else BestAt(valid, i, side, spot)
  {
    hide RankOf;
    var n := |valid| - 1;
    forall j | 0 <= j < n
      ensures valid[..n][j] == valid[j] && !RankLess(RankOf(valid[j], side, spot), RankOf(valid[i], side, spot))
    {
      assert j != i ==> !RankLess(RankOf(valid[..n][j], side, spot), RankOf(valid[..n][i], side, spot));
    }
  }

  lemma {:induction false} FirstMinimumExists(valid: seq<ContractChoice>, side: Right, spot: Option<real>)
    returns (best: ContractChoice)
    requires valid != []
    ensures FirstBest(best, valid, side, spot) && best in valid
  {
    hide RankOf, RankLess;
    var n := |valid| - 1;
    if n == 0 {
      best := valid[0];
      assert BestAt(valid, 0, side, spot);
    } else {
      hide BestAt;
      best := FirstMinimumExists(valid[..n], side, spot);
      var i :| 0 <= i < n && valid[..n][i] == best && BestAt(valid[..n], i, side, spot);
      BestSnoc(valid, i, side, spot);
      if RankLess(RankOf(valid[n], side, spot), RankOf(valid[i], side, spot)) {
        best := valid[n];
      }
    }
  }

  /** The list the live scan hands to the selector. */
  function LiveContracts(direction: TradeDirection, chain: Chain): seq<Quote> {
    if direction.GoLong? then chain.calls else chain.puts
  }

  // ----- the least-ranked quotes -----

  /** An acceptable quote of the side that no other beats. */
  ghost predicate LeastRanked(contracts: seq<Quote>, side: Right, spot: Option<real>, q: Quote) {
    Acceptable(side)(q) && forall p :: p in contracts && Acceptable(side)(p) ==> !Beats(p, q, side, spot)
  }

  predicate Beats(p: Quote, q: Quote, side: Right, spot: Option<real>)
    requires Acceptable(side)(p) && Acceptable(side)(q)
  {
    RankLess(RankOf(QualityOf(p).choice, side, spot), RankOf(QualityOf(q).choice, side, spot))
  }

  ghost function IsBest(contracts: seq<Quote>, side: Right, spot: Option<real>): Quote -> bool {
    (q: Quote) => LeastRanked(contracts, side, spot, q)
  }

  /** The least-ranked quotes in list order. */
  ghost function Best(contracts: seq<Quote>, side: Right, spot: Option<real>): seq<Quote> {
    Filter(contracts, IsBest(contracts, side, spot))
  }

  lemma BestAreAcceptable(contracts: seq<Quote>, side: Right, spot: Option<real>)
    ensures forall q :: q in Best(contracts, side, spot) ==> q in contracts && Acceptable(side)(q)
  {
    hide QualityOf, RankOf;
    FilterMembers(contracts, IsBest(contracts, side, spot));
    forall q | q in Best(contracts, side, spot) ensures q in contracts && Acceptable(side)(q) {
      assert IsBest(contracts, side, spot)(q);
    }
  }

  lemma {:induction false} ChoicesAppend(s: seq<Quote>, t: seq<Quote>, side: Right)
    ensures Choices(s + t, side) == Choices(s, side) + Choices(t, side)
  {
    hide QualityOf;
    if t == [] {
      assert s + t == s;
    } else {
      var n := |t| - 1;
      assert (s + t)[..|s + t| - 1] == s + t[..n];
      ChoicesAppend(s, t[..n], side);
    }
  }

  lemma Unbeaten(a: Rank, b: Rank, c: Rank)
    requires !RankLess(b, a) && RankLess(c, b)
    ensures !RankLess(c, a) ==> RankLess(a, b)
  {
  }

  function ChoiceOf(q: Quote): Option<ContractChoice> {
    if QualityOf(q).Accepted? then Some(QualityOf(q).choice) else None
  }

  lemma BeatsEarlier(contracts: seq<Quote>, side: Right, spot: Option<real>, m: nat, c: ContractChoice)
    requires m < |contracts| && LeastRanked(contracts, side, spot, contracts[m])
    requires forall i :: 0 <= i < m ==> !LeastRanked(contracts, side, spot, contracts[i])
    requires c in Choices(contracts[..m], side)
    ensures RankLess(RankOf(QualityOf(contracts[m]).choice, side, spot), RankOf(c, side, spot))
  {
    hide QualityOf, RankOf, RankLess;
    ChoicesMembers(contracts[..m], side);
    var q := contracts[m];
    var p :| p in contracts[..m] && Acceptable(side)(p) && QualityOf(p).choice == c;
    var i :| 0 <= i < m && contracts[i] == p;
    assert !LeastRanked(contracts, side, spot, contracts[i]) && !Beats(p, q, side, spot);
    var r :| r in contracts && Acceptable(side)(r) && Beats(r, p, side, spot);
    assert !Beats(r, q, side, spot);
    Unbeaten(RankOf(QualityOf(q).choice, side, spot), RankOf(c, side, spot), RankOf(QualityOf(r).choice, side, spot));
  }

  lemma NotBeatenLater(contracts: seq<Quote>, side: Right, spot: Option<real>, m: nat, c: ContractChoice)
    requires m < |contracts| && LeastRanked(contracts, side, spot, contracts[m])
    requires c in Choices(contracts[m + 1..], side)
    ensures !RankLess(RankOf(c, side, spot), RankOf(QualityOf(contracts[m]).choice, side, spot))
  {
    hide QualityOf, RankOf, RankLess;
    ChoicesMembers(contracts[m + 1..], side);
    var p :| p in contracts[m + 1..] && Acceptable(side)(p) && QualityOf(p).choice == c;
    assert p in contracts && !Beats(p, contracts[m], side, spot);
  }

  lemma ChoicesAround(contracts: seq<Quote>, side: Right, m: nat)
    requires m < |contracts| && Acceptable(side)(contracts[m])
    ensures Choices(contracts, side) ==
            Choices(contracts[..m], side) + [QualityOf(contracts[m]).choice] + Choices(contracts[m + 1..], side)
  {
    hide QualityOf;
    var early, q, late := contracts[..m], contracts[m], contracts[m + 1..];
    assert contracts == early + [q] + late;
    ChoicesAppend(early + [q], late, side);
    ChoicesAppend(early, [q], side);
    assert [q][..0] == [];
    assert Choices([q], side) == [QualityOf(q).choice];
  }

  /** The first least-ranked quote of the list is the selector's choice. */
  lemma FirstLeastRankedWins(contracts: seq<Quote>, side: Right, spot: Option<real>, m: nat)
    requires m < |contracts| && LeastRanked(contracts, side, spot, contracts[m])
    requires forall i :: 0 <= i < m ==> !LeastRanked(contracts, side, spot, contracts[i])
    ensures FirstBest(QualityOf(contracts[m]).choice, Choices(contracts, side), side, spot)
  {
    hide QualityOf, RankOf, RankLess, Choices;
    ChoicesAround(contracts, side, m);
    var before, after := Choices(contracts[..m], side), Choices(contracts[m + 1..], side);
    var valid, k := Choices(contracts, side), |before|;
    hide LeastRanked;
    forall j | 0 <= j < k ensures RankLess(RankOf(valid[k], side, spot), RankOf(valid[j], side, spot)) {
      assert valid[j] == before[j] && before[j] in before;
      BeatsEarlier(contracts, side, spot, m, before[j]);
    }
    forall j | k < j < |valid| ensures !RankLess(RankOf(valid[j], side, spot), RankOf(valid[k], side, spot)) {
      assert valid[j] == after[j - k - 1] && after[j - k - 1] in after;
      NotBeatenLater(contracts, side, spot, m, after[j - k - 1]);
    }
    assert BestAt(valid, k, side, spot);
  }

  lemma SomeLeastRanked(contracts: seq<Quote>, side: Right, spot: Option<real>)
    ensures Best(contracts, side, spot) == [] <==> Choices(contracts, side) == []
  {
    hide QualityOf, RankOf, RankLess;
    ChoicesMembers(contracts, side);
    FilterMembers(contracts, IsBest(contracts, side, spot));
    if Choices(contracts, side) != [] {
      var c := FirstMinimumExists(Choices(contracts, side), side, spot);
      var q :| q in contracts && Acceptable(side)(q) && QualityOf(q).choice == c;
      forall p | p in contracts && Acceptable(side)(p) ensures !Beats(p, q, side, spot) {
        assert QualityOf(p).choice in Choices(contracts, side);
        BestIsLeast(c, Choices(contracts, side), side, spot, QualityOf(p).choice);
      }
      assert IsBest(contracts, side, spot)(q);
      assert q in Best(contracts, side, spot);
    }
    if Best(contracts, side, spot) != [] {
      var q := Best(contracts, side, spot)[0];
      assert q in Best(contracts, side, spot) && IsBest(contracts, side, spot)(q);
      assert QualityOf(q).choice in Choices(contracts, side);
    }
  }

  /** A decision on a list with acceptable quotes is the head of its least-ranked quotes. */
  lemma DecidesHead(r: Decision, contracts: seq<Quote>, side: Right, spot: Option<real>)
    requires !side.OtherRight? && Best(contracts, side, spot) != []
    ensures Decides(r, contracts, side, spot) <==>
            r == Decision(Valid, NoReason, ChoiceOf(Best(contracts, side, spot)[0]))
  {
    hide QualityOf, RankOf, RankLess, CountsRefusals;
    SomeLeastRanked(contracts, side, spot);
    var p := IsBest(contracts, side, spot);
    FilterHead(contracts, p);
    var m := FirstIndex(contracts, p);
    assert p(contracts[m]);
    forall i | 0 <= i < m ensures !LeastRanked(contracts, side, spot, contracts[i]) {
      assert !p(contracts[i]);
    }
    FirstLeastRankedWins(contracts, side, spot, m);
    if Decides(r, contracts, side, spot) {
      FirstBestOnce(r.contract.value, QualityOf(contracts[m]).choice, Choices(contracts, side), side, spot);
    }
  }

  // ----- the selector and list order -----

  /** s holds the side's quotes among others; t holds just them, in another order. */
  ghost predicate SameSide(s: seq<Quote>, t: seq<Quote>, side: Right, le: (Quote, Quote) -> bool) {
    TotalPreorder(le) && t == StableSort(Filter(s, OnSide(side)), le)
  }

  lemma SameSideMembers(s: seq<Quote>, t: seq<Quote>, side: Right, le: (Quote, Quote) -> bool)
    requires SameSide(s, t, side, le)
    ensures forall q :: q in t <==> q in s && q.right == side
  {
    FilterMembers(s, OnSide(side));
    SortSorts(Filter(s, OnSide(side)), le);
    forall q ensures q in t <==> q in s && q.right == side {
      assert OnSide(side)(q) <==> q.right == side;
    }
  }

  /** Reordering the list reorders its least-ranked quotes. */
  lemma BestReordered(s: seq<Quote>, t: seq<Quote>, side: Right, spot: Option<real>, le: (Quote, Quote) -> bool)
    requires SameSide(s, t, side, le)
    ensures Best(t, side, spot) == StableSort(Best(s, side, spot), le)
  {
    hide QualityOf, RankOf, Filter, StableSort;
    var p := IsBest(s, side, spot);
    SameSideMembers(s, t, side, le);
    forall q | q in t ensures IsBest(t, side, spot)(q) == p(q) {
    }
    FilterAgrees(t, IsBest(t, side, spot), p);
    SortFilter(Filter(s, OnSide(side)), le, p);
    forall q | q in s && p(q) ensures OnSide(side)(q) {
    }
    FilterImplied(s, OnSide(side), p);
  }

  lemma SameSideCounts(s: seq<Quote>, t: seq<Quote>, side: Right, le: (Quote, Quote) -> bool, p: Quote -> bool)
    requires SameSide(s, t, side, le) && forall x :: p(x) ==> x.right == side
    ensures |Filter(t, p)| == |Filter(s, p)|
  {
    var kept := Filter(s, OnSide(side));
    SortFilter(kept, le, p);
    SortSorts(Filter(kept, p), le);
    FilterImplied(s, OnSide(side), p);
  }

  lemma RefusedOnSide(side: Right, why: Refusal)
    ensures forall x :: RefusedFor(side, why)(x) ==> x.right == side
  {
  }

  /** The first least-ranked quote and the first of them in the given order are chosen alike. */
  ghost predicate SameHead(best: seq<Quote>, le: (Quote, Quote) -> bool)
    requires TotalPreorder(le)
  {
    HeadExists(best, le);
    best == [] || QualityOf(best[0]) == QualityOf(StableSort(best, le)[0])
  }

  lemma HeadExists(best: seq<Quote>, le: (Quote, Quote) -> bool)
    requires TotalPreorder(le)
    ensures best != [] ==> StableSort(best, le) != []
  {
    SortSorts(best, le);
  }

  /** The selector answers the same on the reordered side, if and only if the order puts a quote of
      the same choice at the head of the least-ranked ones. */
  lemma SelectorAgreesExactlyWhen(live: Decision, s: seq<Quote>, t: seq<Quote>, side: Right, spot: Option<real>,
                                  le: (Quote, Quote) -> bool)
    requires !side.OtherRight? && SameSide(s, t, side, le) && Decides(live, s, side, spot)
    ensures Decides(live, t, side, spot) <==> SameHead(Best(s, side, spot), le)
  {
    hide QualityOf, RankOf, Best;
    BestReordered(s, t, side, spot, le);
    HeadExists(Best(s, side, spot), le);
    SortSorts(Best(s, side, spot), le);
    SomeLeastRanked(s, side, spot);
    SomeLeastRanked(t, side, spot);
    if Best(s, side, spot) == [] {
      forall why: Refusal ensures |Filter(t, RefusedFor(side, why))| == |Filter(s, RefusedFor(side, why))| {
        RefusedOnSide(side, why);
        SameSideCounts(s, t, side, le, RefusedFor(side, why));
      }
    } else {
      DecidesHead(live, s, side, spot);
      DecidesHead(live, t, side, spot);
      AcceptedAlike(s, side, spot, le);
    }
  }

  lemma AcceptedAlike(s: seq<Quote>, side: Right, spot: Option<real>, le: (Quote, Quote) -> bool)
    requires TotalPreorder(le) && Best(s, side, spot) != []
    ensures StableSort(Best(s, side, spot), le) != []
    ensures QualityOf(Best(s, side, spot)[0]).Accepted? && QualityOf(StableSort(Best(s, side, spot), le)[0]).Accepted?
  {
    hide QualityOf, RankOf, Best;
    var best := Best(s, side, spot);
    BestAreAcceptable(s, side, spot);
    SortSorts(best, le);
    assert best[0] in best && StableSort(best, le)[0] in best;
  }

  // ----- parity of the replay -----

  /** Every quote carries the right of the list it came in, as the data client stamps it. */
  predicate SidesStamped(chain: Chain) {
    (forall q :: q in chain.calls ==> q.right.Call?) && forall q :: q in chain.puts ==> q.right.Put?
  }

  /** A live scan of an error-free chain with some quote in the wanted list, and its decision. */
  ghost predicate LiveScan(direction: TradeDirection, expirations: seq<Option<int>>, today: int, expiry: ExpiryChoice,
                           chain: Chain, price: Option<real>, live: Decision) {
    && !direction.Neither? && !chain.failed && SidesStamped(chain) && LiveContracts(direction, chain) != []
    && BestExpiration(expirations, today, expiry) && chain.expiration == Some(expiry.expiration)
    && Decides(live, LiveContracts(direction, chain), SideOf(direction), price)
  }

  lemma OtherSideDrops(direction: TradeDirection, chain: Chain)
    requires SidesStamped(chain) && !direction.Neither?
    ensures Filter(chain.calls + chain.puts, OnSide(SideOf(direction))) ==
            Filter(LiveContracts(direction, chain), OnSide(SideOf(direction)))
  {
    var p := OnSide(SideOf(direction));
    FilterAppend(chain.calls, chain.puts, p);
    if direction.GoLong? {
      FilterNone(chain.puts, p);
    } else {
      FilterNone(chain.calls, p);
    }
  }

  /** With any retained order: the replay reproduces the live decision, so finalized evidence stays
      CAPTURED, if and only if the order keeps the head of the least-ranked quotes. */
  lemma ParityUnder(direction: TradeDirection, expirations: seq<Option<int>>, today: int, expiry: ExpiryChoice,
                    chain: Chain, price: Option<real>, byKey: (Supplement, Supplement) -> bool, live: Decision)
    requires TotalPreorder(byKey) && LiveScan(direction, expirations, today, expiry, chain, price, live)
    ensures TotalPreorder(Induced(byKey, expiry.expiration))
    ensures var e := Capture(direction, expirations, expiry.expiration, chain, Some(today), price, byKey);
      && e.Some? && e.value.captured
      && (ReplayDecides(e.value, live) <==>
          SameHead(Best(LiveContracts(direction, chain), SideOf(direction), price), Induced(byKey, expiry.expiration)))
  {
    hide Best, SameHead, Decides;
    var side, le := SideOf(direction), Induced(byKey, expiry.expiration);
    var wanted := LiveContracts(direction, chain);
    ReplayedContracts(direction, expirations, expiry.expiration, chain, Some(today), price, byKey);
    InducedOrder(byKey, expiry.expiration);
    OtherSideDrops(direction, chain);
    var t := StableSort(Filter(wanted, OnSide(side)), le);
    SelectorAgreesExactlyWhen(live, wanted, t, side, price, le);
    SameSideMembers(wanted, t, side, le);
    assert wanted[0] in t;
  }

  /** All least-ranked quotes are chosen alike. */
  ghost predicate OneBest(best: seq<Quote>) {
    forall p, q :: p in best && q in best ==> QualityOf(p) == QualityOf(q)
  }

  lemma SameHeadOfOne(best: seq<Quote>, le: (Quote, Quote) -> bool)
    requires TotalPreorder(le) && OneBest(best)
    ensures SameHead(best, le)
  {
    hide QualityOf;
    SortSorts(best, le);
    if best != [] {
      assert best[0] in best && StableSort(best, le)[0] in best;
    }
  }

  /** Ties below the least rank are harmless: when no two different choices share the least rank, the
      replay reproduces the live decision under every retained order. */
  lemma ReplayReproduces(direction: TradeDirection, expirations: seq<Option<int>>, today: int, expiry: ExpiryChoice,
                         chain: Chain, price: Option<real>, byKey: (Supplement, Supplement) -> bool, live: Decision)
    requires TotalPreorder(byKey) && LiveScan(direction, expirations, today, expiry, chain, price, live)
    requires OneBest(Best(LiveContracts(direction, chain), SideOf(direction), price))
    ensures var e := Capture(direction, expirations, expiry.expiration, chain, Some(today), price, byKey);
            e.Some? && e.value.captured && ReplayDecides(e.value, live)
  {
    ParityUnder(direction, expirations, today, expiry, chain, price, byKey, live);
    SameHeadOfOne(Best(LiveContracts(direction, chain), SideOf(direction), price), Induced(byKey, expiry.expiration));
  }

  /** One row first, all others tied behind it. */
  function Favouring(s: Supplement): (Supplement, Supplement) -> bool {
    (a: Supplement, b: Supplement) => a == s || b != s
  }

  ghost predicate Parity(direction: TradeDirection, expirations: seq<Option<int>>, today: int, expiry: ExpiryChoice,
                         chain: Chain, price: Option<real>, byKey: (Supplement, Supplement) -> bool, live: Decision) {
    var e := Capture(direction, expirations, expiry.expiration, chain, Some(today), price, byKey);
    e.Some? && ReplayDecides(e.value, live)
  }

  lemma FavouredHead(best: seq<Quote>, expiration: int, q: Quote)
    requires q in best
    ensures var byKey := Favouring(QuoteSupplement(q, expiration));
      && TotalPreorder(byKey) && TotalPreorder(Induced(byKey, expiration))
      && StableSort(best, Induced(byKey, expiration)) != []
      && StableSort(best, Induced(byKey, expiration))[0] == q
  {
    hide QuoteSupplement, QuoteFromSupplement;
    var byKey := Favouring(QuoteSupplement(q, expiration));
    InducedOrder(byKey, expiration);
    var le := Induced(byKey, expiration);
    SortSorts(best, le);
    var sorted := StableSort(best, le);
    var i :| 0 <= i < |sorted| && sorted[i] == q;
    assert le(sorted[0], sorted[i]) by {
      assert i == 0 || le(sorted[0], sorted[i]);
    }
    QuoteRoundTrip(sorted[0], expiration);
    QuoteRoundTrip(q, expiration);
  }

  /** Parity holds whatever order the rows are retained in, if and only if no two different choices
      share the least rank. */
  lemma ParityForEveryOrder(direction: TradeDirection, expirations: seq<Option<int>>, today: int, expiry: ExpiryChoice,
                            chain: Chain, price: Option<real>, live: Decision)
    requires LiveScan(direction, expirations, today, expiry, chain, price, live)
    ensures (forall byKey :: TotalPreorder(byKey) ==>
               Parity(direction, expirations, today, expiry, chain, price, byKey, live)) <==>
            OneBest(Best(LiveContracts(direction, chain), SideOf(direction), price))
  {
    hide Best, LiveScan, QualityOf, Favouring;
    var best := Best(LiveContracts(direction, chain), SideOf(direction), price);
    if OneBest(best) {
      forall byKey | TotalPreorder(byKey)
        ensures Parity(direction, expirations, today, expiry, chain, price, byKey, live)
      {
        ReplayReproduces(direction, expirations, today, expiry, chain, price, byKey, live);
      }
    } else {
      var p, q :| p in best && q in best && QualityOf(p) != QualityOf(q);
      var r := if QualityOf(p) != QualityOf(best[0]) then p else q;
      var byKey := Favouring(QuoteSupplement(r, expiry.expiration));
      FavouredHead(best, expiry.expiration, r);
      ParityUnder(direction, expirations, today, expiry, chain, price, byKey, live);
      assert !Parity(direction, expirations, today, expiry, chain, price, byKey, live);
    }
  }

  lemma SameChoiceSameKey(p: Quote, q: Quote, expiration: int, repr: Option<real> -> string)
    requires QualityOf(p).Accepted? && QualityOf(p) == QualityOf(q)
    ensures KeyLe(QuoteSupplement(p, expiration), QuoteSupplement(q, expiration), repr)
  {
    StringTotal(p.symbol, p.symbol);
  }

  /** The first quote has the least key of the list. */
  predicate KeyFirst(best: seq<Quote>, expiration: int, repr: Option<real> -> string) {
    forall q :: q in best ==> KeyLe(QuoteSupplement(best[0], expiration), QuoteSupplement(q, expiration), repr)
  }

  lemma KeyHead(best: seq<Quote>, expiration: int, repr: Option<real> -> string)
    requires TotalPreorder(Induced(KeyOrder(repr), expiration)) && forall q :: q in best ==> QualityOf(q).Accepted?
    ensures SameHead(best, Induced(KeyOrder(repr), expiration)) <==> KeyFirst(best, expiration, repr)
  {
    hide QualityOf, KeyLe;
    var le := Induced(KeyOrder(repr), expiration);
    if best != [] {
      SortSorts(best, le);
      if KeyFirst(best, expiration, repr) {
        forall q | q in best ensures le(best[0], q) {
        }
        SortedHead(best, le);
      }
      if SameHead(best, le) {
        var sorted := StableSort(best, le);
        assert best[0] in best && sorted[0] in best;
        SameChoiceSameKey(best[0], sorted[0], expiration, repr);
        forall q | q in best ensures KeyLe(QuoteSupplement(best[0], expiration), QuoteSupplement(q, expiration), repr) {
          assert q in sorted;
          var i :| 0 <= i < |sorted| && sorted[i] == q;
          assert i == 0 || le(sorted[0], sorted[i]);
          if i > 0 {
            KeyTransitive(QuoteSupplement(best[0], expiration), QuoteSupplement(sorted[0], expiration),
                          QuoteSupplement(q, expiration), repr);
          }
        }
      }
    }
  }

  /** With the key the rows are really sorted by: the replay reproduces the live decision, if and only
      if the first least-ranked quote in list order is the first of them in key order. */
  lemma ParityExactlyWhen(direction: TradeDirection, expirations: seq<Option<int>>, today: int, expiry: ExpiryChoice,
                          chain: Chain, price: Option<real>, repr: Option<real> -> string, live: Decision)
    requires LiveScan(direction, expirations, today, expiry, chain, price, live)
    ensures Parity(direction, expirations, today, expiry, chain, price, KeyOrder(repr), live) <==>
            KeyFirst(Best(LiveContracts(direction, chain), SideOf(direction), price), expiry.expiration, repr)
  {
    hide Best, LiveScan, QualityOf, KeyLe, KeyFirst, SameHead;
    var contracts, side := LiveContracts(direction, chain), SideOf(direction);
    KeyOrderIsOrder(repr);
    ParityUnder(direction, expirations, today, expiry, chain, price, KeyOrder(repr), live);
    BestAreAcceptable(contracts, side, price);
    KeyHead(Best(contracts, side, price), expiry.expiration, repr);
  }

  // ----- a rank tie breaks parity -----

  function Sample(symbol: string): Quote {
    Quote(symbol, Call, Some(100.0), Some(1.0), Some(1.08), Some(1.0), None, Some(500.0), Some(900.0), Some(0.4),
          None, None, None, None, None)
  }

  function SampleChoice(symbol: string): ContractChoice {
    ContractChoice(symbol, Call, 100.0, 1.0, 1.08, 1.0, 500.0, 900.0, 8.0, Some(0.4), None, None, None)
  }

  lemma SampleAccepted(symbol: string)
    requires symbol != ""
    ensures QualityOf(Sample(symbol)) == Accepted(SampleChoice(symbol))
  {
    assert SpreadPercent(1.0, 1.08, 1.0) == 8.0;
  }

  lemma SamplesTie(a: string, b: string)
    requires a != "" && b != ""
    ensures Best([Sample(a), Sample(b)], Call, None) == [Sample(a), Sample(b)]
  {
    SampleAccepted(a);
    SampleAccepted(b);
    hide QualityOf;
    var p := IsBest([Sample(a), Sample(b)], Call, None);
    assert p(Sample(a)) && p(Sample(b));
    FilterPair(Sample(a), Sample(b), p);
  }

  /** Two equally ranked contracts of one strike, listed against the order of their ids, lose parity
      under the real sort key: the live scan picks the first one listed, the replay the first id. */
  lemma TieBreaksParity(repr: Option<real> -> string) returns (chain: Chain, live: Decision)
    ensures LiveScan(GoLong, [Some(100)], 50, ExpiryChoice(100, 50, Preferred), chain, None, live)
    ensures !Parity(GoLong, [Some(100)], 50, ExpiryChoice(100, 50, Preferred), chain, None, KeyOrder(repr), live)
  {
    var x, y, expiry := Sample("B"), Sample("A"), ExpiryChoice(100, 50, Preferred);
    chain := Chain(Some(100), [x, y], [], false);
    live := Decision(Valid, NoReason, Some(SampleChoice("B")));
    SampleAccepted("B");
    SamplesTie("B", "A");
    hide QualityOf, Best, KeyFirst, Parity;
    DecidesHead(live, [x, y], Call, None);
    ParityExactlyWhen(GoLong, [Some(100)], 50, expiry, chain, None, repr, live);
    NotKeyFirst(x, y, repr);
  }

  lemma NotKeyFirst(x: Quote, y: Quote, repr: Option<real> -> string)
    requires x == Sample("B") && y == Sample("A")
    ensures !KeyFirst([x, y], 100, repr)
  {
    var best := [x, y];
    assert best[1] in best;
    assert !StringLe("B", "A");
  }
}
