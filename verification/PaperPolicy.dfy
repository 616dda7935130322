/** The frozen paper policy (alert_ranker/paper_v1.py:89-331): which expiration and contract it
    picks and what risk it books. Dates are day numbers; money is exact decimal, rounded as the
    policy rounds it, halves to even. */
module PaperPolicy {
  import opened Sorting

  const MIN_DTE := 14
  const PREFERRED_DTE := 45
  const MAX_SANITY_DTE := 730
  const MAX_TRADE_RISK := 300.0
  const MAX_AGGREGATE_RISK := 1000.0
  const MAX_SPREAD_PERCENT := 10.0
  const MIN_OPTION_VOLUME := 100.0
  const MIN_OPEN_INTEREST := 500.0
  const MIN_ABS_DELTA := 0.30
  const MAX_ABS_DELTA := 0.70
  const DELTA_TARGET := 0.40

  // ----- expiration -----

  datatype Bucket = Preferred | DteException

  datatype ExpiryChoice = ExpiryChoice(expiration: int, dte: int, bucket: Bucket)

  /** The parseable candidates inside the sanity band. */
  predicate InBand(today: int, raw: Option<int>) {
    raw.Some? && MIN_DTE <= raw.value - today <= MAX_SANITY_DTE
  }

  /** The nearest expiration at 45 days or more; failing that, the farthest one from 14 to 44. */
  ghost predicate BestExpiration(expirations: seq<Option<int>>, today: int, e: ExpiryChoice) {
    && Some(e.expiration) in expirations && InBand(today, Some(e.expiration)) && e.dte == e.expiration - today
    && (e.bucket.Preferred? <==> e.dte >= PREFERRED_DTE)
    && (forall x :: Some(x) in expirations && InBand(today, Some(x)) ==>
          if e.bucket.Preferred? then x - today < PREFERRED_DTE || e.expiration <= x else x <= e.expiration)
  }

  /** choose_expiration: None when nothing parses into the band. */
  method ChooseExpiration(expirations: seq<Option<int>>, today: int) returns (r: Option<ExpiryChoice>)
    ensures r.None? <==> forall x :: x in expirations ==> !InBand(today, x)
    ensures r.Some? ==> BestExpiration(expirations, today, r.value)
  {
    var parsed: seq<int> := [];
    for i := 0 to |expirations|
      invariant forall d :: d in parsed <==> Some(d) in expirations[..i] && InBand(today, Some(d))
    {
      assert expirations[..i + 1] == expirations[..i] + [expirations[i]];
      if InBand(today, expirations[i]) {
        parsed := parsed + [expirations[i].value];
      }
    }
    assert expirations[..|expirations|] == expirations;
    assert forall x :: x in expirations && InBand(today, x) ==> x.Some? && x.value in parsed;
    if parsed == [] {
      return None;
    }
    var best := parsed[0];
    assert best in parsed;
    for i := 1 to |parsed|
      invariant best in parsed
      invariant forall m :: 0 <= m < i ==>
        if best - today >= PREFERRED_DTE then parsed[m] - today < PREFERRED_DTE || best <= parsed[m]
        else parsed[m] <= best
    {
      var d := parsed[i];
      if d - today >= PREFERRED_DTE {
        if best - today < PREFERRED_DTE || d < best {
          best := d;
        }
      } else if best - today < PREFERRED_DTE && d > best {
        best := d;
      }
    }
    r := Some(ExpiryChoice(best, best - today, if best - today >= PREFERRED_DTE then Preferred else DteException));
  }

  /** The choice does not depend on the order or repetition of the candidates. */
  lemma BestExpirationUnique(expirations: seq<Option<int>>, again: seq<Option<int>>, today: int,
                             e: ExpiryChoice, f: ExpiryChoice)
    requires forall x :: x in expirations <==> x in again
    requires BestExpiration(expirations, today, e) && BestExpiration(again, today, f)
    ensures e == f
  {
    assert Some(e.expiration) in again && Some(f.expiration) in expirations;
  }

  // ----- contract quality -----

  datatype Right = Call | Put | OtherRight

  datatype Quote = Quote(
    symbol: string, right: Right, strike: Option<real>, bid: Option<real>, ask: Option<real>, mid: Option<real>,
    last: Option<real>, volume: Option<real>, openInterest: Option<real>, delta: Option<real>,
    impliedVolatility: Option<real>, quoteTimestamp: Option<string>, bidTimestamp: Option<string>,
    askTimestamp: Option<string>, source: Option<string>)

  datatype ContractChoice = ContractChoice(
    symbol: string, right: Right, strike: real, bid: real, ask: real, mid: real, volume: real, openInterest: real,
    spreadPercent: real, delta: Option<real>, impliedVolatility: Option<real>, quoteTimestamp: Option<string>,
    source: Option<string>)

  datatype Refusal =
    | MissingIdentity | InvalidBidAsk | SpreadTooWide | VolumeTooLow | OpenInterestTooLow | DeltaOutsideBand

  datatype Quality = Accepted(choice: ContractChoice) | Refused(why: Refusal)

  function Abs(x: real): real {
    if x < 0.0 then -x else x
  }

  function MidOf(q: Quote): real
    requires q.bid.Some? && q.ask.Some?
  {
    if q.mid.Some? && q.mid.value > 0.0 then q.mid.value else (q.bid.value + q.ask.value) / 2.0
  }

  function SpreadPercent(bid: real, ask: real, mid: real): real
    requires mid > 0.0
  {
    (ask - bid) / mid * 100.0
  }

  function QualityOf(q: Quote): Quality {
    if q.symbol == "" || q.right.OtherRight? || q.strike.None? || q.strike.value <= 0.0 then Refused(MissingIdentity)
    else if q.bid.None? || q.ask.None? || q.bid.value <= 0.0 || q.ask.value <= q.bid.value then Refused(InvalidBidAsk)
    else
      var mid := MidOf(q);
      var spread := SpreadPercent(q.bid.value, q.ask.value, mid);
      if spread > MAX_SPREAD_PERCENT then Refused(SpreadTooWide)
      else if q.volume.None? || q.volume.value < MIN_OPTION_VOLUME then Refused(VolumeTooLow)
      else if q.openInterest.None? || q.openInterest.value < MIN_OPEN_INTEREST then Refused(OpenInterestTooLow)
      else if q.delta.Some? && !(MIN_ABS_DELTA <= Abs(q.delta.value) <= MAX_ABS_DELTA) then Refused(DeltaOutsideBand)
      else Accepted(ContractChoice(q.symbol, q.right, q.strike.value, q.bid.value, q.ask.value, mid, q.volume.value,
                                   q.openInterest.value, spread, q.delta, q.impliedVolatility,
                                   q.quoteTimestamp, q.source))
  }

  // ----- contract choice -----

  datatype Rank = Rank(delta: real, spread: real, strike: real)

  function RankOf(c: ContractChoice, side: Right, spot: Option<real>): Rank {
    Rank(if c.delta.Some? then Abs(Abs(c.delta.value) - DELTA_TARGET) else 9.0,
         c.spreadPercent,
         if spot.None? then 0.0
         else Abs(c.strike - spot.value)
              + if (if side.Call? then c.strike >= spot.value else c.strike <= spot.value) then 0.0 else 10000.0)
  }

  /** Tuple comparison. */
  predicate RankLess(a: Rank, b: Rank) {
    a.delta < b.delta
    || (a.delta == b.delta && (a.spread < b.spread || (a.spread == b.spread && a.strike < b.strike)))
  }

  function OnSide(side: Right): Quote -> bool {
    (q: Quote) => q.right == side
  }

  function Acceptable(side: Right): Quote -> bool {
    (q: Quote) => q.right == side && QualityOf(q).Accepted?
  }

  function RefusedFor(side: Right, why: Refusal): Quote -> bool {
    (q: Quote) => q.right == side && QualityOf(q) == Refused(why)
  }

  datatype Reason = NoReason | InvalidOptionType | NoLiquidContract(counts: map<Refusal, nat>)

  datatype Status = Valid | DataInvalid | DataBlocked

  datatype Decision = Decision(status: Status, reason: Reason, contract: Option<ContractChoice>)

  /** How many quotes of the side were refused for each reason, reasons that never occur left out. */
  ghost predicate CountsRefusals(counts: map<Refusal, nat>, contracts: seq<Quote>, side: Right) {
    forall why: Refusal ::
      (why in counts <==> |Filter(contracts, RefusedFor(side, why))| > 0)
      && (why in counts ==> counts[why] == |Filter(contracts, RefusedFor(side, why))|)
  }

  /** The choices of the acceptable quotes of the side, in list order. */
  function Choices(contracts: seq<Quote>, side: Right): seq<ContractChoice> {
    if contracts == [] then [] else
    var last := contracts[|contracts| - 1];
    Choices(contracts[..|contracts| - 1], side)
    + if Acceptable(side)(last) then [QualityOf(last).choice] else []
  }

  /** c is the first of the best-ranked choices. */
  ghost predicate FirstBest(c: ContractChoice, valid: seq<ContractChoice>, side: Right, spot: Option<real>) {
    exists i :: 0 <= i < |valid| && valid[i] == c && BestAt(valid, i, side, spot)
  }

  ghost predicate BestAt(valid: seq<ContractChoice>, i: nat, side: Right, spot: Option<real>)
    requires i < |valid|
  {
    && (forall j :: 0 <= j < i ==> RankLess(RankOf(valid[i], side, spot), RankOf(valid[j], side, spot)))
    && (forall j :: i < j < |valid| ==> !RankLess(RankOf(valid[j], side, spot), RankOf(valid[i], side, spot)))
  }

  ghost predicate Decides(r: Decision, contracts: seq<Quote>, side: Right, spot: Option<real>) {
    if side.OtherRight? then r == Decision(DataInvalid, InvalidOptionType, None)
    else if Choices(contracts, side) == [] then
      r.status == DataInvalid && r.contract == None && r.reason.NoLiquidContract?
      && CountsRefusals(r.reason.counts, contracts, side)
    else
      r.status == Valid && r.reason == NoReason && r.contract.Some?
      && FirstBest(r.contract.value, Choices(contracts, side), side, spot)
  }

  lemma CountSnoc(counts: map<Refusal, nat>, seen: seq<Quote>, q: Quote, side: Right)
    requires CountsRefusals(counts, seen, side)
    ensures !(q.right == side && QualityOf(q).Refused?) ==> CountsRefusals(counts, seen + [q], side)
    ensures q.right == side && QualityOf(q).Refused? ==>
              var why := QualityOf(q).why;
              CountsRefusals(counts[why := (if why in counts then counts[why] else 0) + 1], seen + [q], side)
  {
    hide QualityOf;
    forall why: Refusal
      ensures |Filter(seen + [q], RefusedFor(side, why))| ==
              |Filter(seen, RefusedFor(side, why))| + if RefusedFor(side, why)(q) then 1 else 0
    {
      FilterSnoc(seen, q, RefusedFor(side, why));
    }
  }

  /** choose_contract: the filling loop with its rejection tally, then the first best rank. */
  method ChooseContract(contracts: seq<Quote>, side: Right, spot: Option<real>) returns (r: Decision)
    ensures Decides(r, contracts, side, spot)
  {
    hide QualityOf, RankOf, CountsRefusals;
    if side.OtherRight? {
      return Decision(DataInvalid, InvalidOptionType, None);
    }
    var valid: seq<ContractChoice>, counts: map<Refusal, nat> := [], map[];
    NoCounts(side);
    for i := 0 to |contracts|
      invariant valid == Choices(contracts[..i], side)
      invariant CountsRefusals(counts, contracts[..i], side)
    {
      var raw := contracts[i];
      assert contracts[..i + 1] == contracts[..i] + [raw];
      CountSnoc(counts, contracts[..i], raw, side);
      if raw.right != side {
        continue;
      }
      match QualityOf(raw) {
        case Refused(why) => counts := counts[why := (if why in counts then counts[why] else 0) + 1];
        case Accepted(choice) => valid := valid + [choice];
      }
    }
    assert contracts[..|contracts|] == contracts;
    if valid == [] {
      return Decision(DataInvalid, NoLiquidContract(counts), None);
    }
    var selected := FirstMinimum(valid, side, spot);
    r := Decision(Valid, NoReason, Some(selected));
  }

  lemma NoCounts(side: Right)
    ensures CountsRefusals(map[], [], side)
  {
  }

  /** min(valid, key=rank): the first of the least. */
  method FirstMinimum(valid: seq<ContractChoice>, side: Right, spot: Option<real>) returns (best: ContractChoice)
    requires valid != []
    ensures FirstBest(best, valid, side, spot)
  {
    hide RankOf;
    best := valid[0];
    ghost var at := 0;
    for i := 1 to |valid|
      invariant 0 <= at < i && best == valid[at]
      invariant forall j :: 0 <= j < at ==> RankLess(RankOf(best, side, spot), RankOf(valid[j], side, spot))
      invariant forall j :: at < j < i ==> !RankLess(RankOf(valid[j], side, spot), RankOf(best, side, spot))
    {
      if RankLess(RankOf(valid[i], side, spot), RankOf(best, side, spot)) {
        best, at := valid[i], i;
      }
    }
    assert BestAt(valid, at, side, spot);
  }

  // ----- risk booking -----

  /** Python's round to whole units: nearest, halves to even. */
  function RoundUnits(x: real): (n: int)
    ensures x - 0.5 <= n as real <= x + 0.5
  {
    var f, d := x.Floor, x - x.Floor as real;
    if d < 0.5 || (d == 0.5 && f % 2 == 0) then f else f + 1
  }

  /** round(x, 2) */
  function RoundCents(x: real): real {
    RoundUnits(x * 100.0) as real / 100.0
  }

  /** round(x, 4) */
  function RoundTicks(x: real): real {
    RoundUnits(x * 10000.0) as real / 10000.0
  }

  predicate WholeCents(x: real) {
    (x * 100.0).Floor as real == x * 100.0
  }

  lemma RoundWhole(x: real)
    requires WholeCents(x)
    ensures RoundCents(x) == x
  {
  }

  lemma RoundedIsWhole(x: real)
    ensures WholeCents(RoundCents(x))
    ensures x - 0.005 <= RoundCents(x) <= x + 0.005
  {
    assert RoundCents(x) * 100.0 == RoundUnits(x * 100.0) as real;
  }

  lemma WholeIs(x: real, n: int)
    requires x * 100.0 == n as real
    ensures WholeCents(x)
  {
  }

  lemma WholeSum(x: real, y: real)
    requires WholeCents(x) && WholeCents(y)
    ensures WholeCents(x + y) && WholeCents(x - y)
  {
    var a, b := (x * 100.0).Floor, (y * 100.0).Floor;
    assert a as real == x * 100.0 && b as real == y * 100.0;
    hide WholeCents;
    assert (a + b) as real == a as real + b as real && (a - b) as real == a as real - b as real;
    WholeIs(x + y, a + b);
    WholeIs(x - y, a - b);
  }

  function PremiumStop(ask: real): real {
    RoundTicks(ask * 0.75)
  }

  function PlannedRisk(ask: real): real {
    RoundCents((ask - PremiumStop(ask)) * 100.0)
  }

  /** The booked risk is a quarter of the premium, to within a cent. */
  lemma RiskIsQuarterPremium(ask: real)
    ensures 25.0 * ask - 0.01 <= PlannedRisk(ask) <= 25.0 * ask + 0.01
    ensures WholeCents(PlannedRisk(ask))
  {
    var n := RoundUnits(ask * 0.75 * 10000.0);
    assert ask * 7500.0 - 0.5 <= n as real <= ask * 7500.0 + 0.5;
    var spread := (ask - PremiumStop(ask)) * 100.0;
    assert spread == ask * 100.0 - n as real / 100.0;
    RoundedIsWhole(spread);
  }

  datatype OpenRisk = Unknown | Dollars(total: real)

  datatype Booking = Booked(plannedRisk: real, projected: real)
                   | InvalidationMissing | TargetMissing | OpenRiskInvalid | OutsideTradeCap | OverAggregateCap

  /** build_v1_contract_fields, as far as the caps go; Unknown is a total that is not finite. */
  function BookContract(ask: real, invalidation: Option<real>, target: Option<real>, openRisk: OpenRisk): Booking {
    if invalidation.None? then InvalidationMissing
    else if target.None? then TargetMissing
    else if openRisk.Unknown? || openRisk.total < 0.0 then OpenRiskInvalid
    else
      var planned := PlannedRisk(ask);
      if planned <= 0.0 || planned > MAX_TRADE_RISK then OutsideTradeCap
      else
        var projected := RoundCents(openRisk.total + planned);
        if projected > MAX_AGGREGATE_RISK then OverAggregateCap else Booked(planned, projected)
  }
}
