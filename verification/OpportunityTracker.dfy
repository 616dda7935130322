/** The counterfactual bracket resolver (adaptive/opportunity_tracker.py:136-291). Figures are
    unrounded. */
module OpportunityTracker {
  import opened Sorting

  datatype Direction = Long | Short | Unknown

  datatype Instrument = MES | ES | MNQ | NQ | MGC | MCL | Unlisted

  datatype Candidate = Candidate(instrument: Instrument, direction: Direction, entry: real, stop: real, target: real)

  datatype Bar = Bar(ts: int, high: real, low: real)

  datatype Result = StopHit | TargetHit | ExpiredOpen | EntryNotTouched

  datatype Reason = SameBarPessimistic | SameBarOptimistic | StopReached | TargetReached | NothingReached | NeverTraded

  datatype Outcome = Outcome(
    result: Result, reason: Reason, resolvedAt: Option<int>, pnlTicks: real, pnlDollars: real,
    mfeTicks: real, maeTicks: real, barsToResolution: nat,
    entryTouched: bool, stopTouched: bool, targetTouched: bool, pessimisticSameBar: bool)

  datatype Costs = Costs(slippageTicks: real, commission: real)

  function TickSize(i: Instrument): (t: real)
    ensures t > 0.0
  {
    match i
    case MGC => 0.10
    case MCL => 0.01
    case _ => 0.25
  }

  function TickValue(i: Instrument): real {
    match i
    case MES => 1.25
    case ES => 12.50
    case MNQ => 0.50
    case NQ => 5.00
    case MGC => 1.00
    case MCL => 1.00
    case Unlisted => 0.50
  }

  predicate HasValidBracket(c: Candidate) {
    match c.direction
    case Long => c.stop < c.entry < c.target
    case Short => c.target < c.entry < c.stop
    case Unknown => false
  }

  function EntryBar(c: Candidate): Bar -> bool {
    (b: Bar) => b.low <= c.entry <= b.high
  }

  predicate HitsTarget(c: Candidate, b: Bar) {
    if c.direction.Long? then b.high >= c.target else b.low <= c.target
  }

  predicate HitsStop(c: Candidate, b: Bar) {
    if c.direction.Long? then b.low <= c.stop else b.high >= c.stop
  }

  function DecidingBar(c: Candidate): Bar -> bool {
    (b: Bar) => HitsTarget(c, b) || HitsStop(c, b)
  }

  function Favorable(c: Candidate, b: Bar): real {
    if c.direction.Long? then b.high - c.entry else c.entry - b.low
  }

  function Adverse(c: Candidate, b: Bar): real {
    if c.direction.Long? then b.low - c.entry else c.entry - b.high
  }

  function Max(a: real, b: real): real {
    if b > a then b else a
  }

  function Min(a: real, b: real): real {
    if b < a then b else a
  }

  function MaxFavorable(c: Candidate, bars: seq<Bar>): real {
    if bars == [] then 0.0 else Max(MaxFavorable(c, bars[..|bars| - 1]), Favorable(c, bars[|bars| - 1]))
  }

  function MaxAdverse(c: Candidate, bars: seq<Bar>): real {
    if bars == [] then 0.0 else Min(MaxAdverse(c, bars[..|bars| - 1]), Adverse(c, bars[|bars| - 1]))
  }

  function Ticks(price: real, c: Candidate): real {
    price / TickSize(c.instrument)
  }

  /** Exit minus entry in the trade's favour, with slippage against both fills that pay it. */
  function PnlPrice(c: Candidate, costs: Costs, result: Result, exit: real): real {
    var slip := costs.slippageTicks * TickSize(c.instrument);
    var effEntry := if c.direction.Long? then c.entry + slip else c.entry - slip;
    var effExit := if result.StopHit? then (if c.direction.Long? then exit - slip else exit + slip) else exit;
    if c.direction.Long? then effExit - effEntry else effEntry - effExit
  }

  function Dollars(ticks: real, c: Candidate, costs: Costs): real {
    ticks * TickValue(c.instrument) - costs.commission
  }

  function Decided(c: Candidate, costs: Costs, result: Result, reason: Reason, b: Bar,
                   seen: seq<Bar>, idx: nat, sameBar: bool): Outcome {
    var pnl := Ticks(PnlPrice(c, costs, result, if result.StopHit? then c.stop else c.target), c);
    Outcome(result, reason, Some(b.ts), pnl, Dollars(pnl, c, costs),
            Ticks(MaxFavorable(c, seen), c), Ticks(MaxAdverse(c, seen), c), idx + 1,
            true, HitsStop(c, b), HitsTarget(c, b), sameBar)
  }

  function Open(c: Candidate, live: seq<Bar>, skipped: nat): Outcome {
    Outcome(if live != [] then ExpiredOpen else EntryNotTouched,
            if live != [] then NothingReached else NeverTraded, None, 0.0, 0.0,
            Ticks(MaxFavorable(c, live), c), Ticks(MaxAdverse(c, live), c), skipped + |live|,
            live != [], false, false, false)
  }

  /** The verdict of the bar that touches the stop or the target; a bar touching both is read as
      the stop when pessimistic, as the target otherwise. */
  function Verdict(c: Candidate, costs: Costs, pessimistic: bool, b: Bar, seen: seq<Bar>, idx: nat): Outcome {
    if HitsTarget(c, b) && HitsStop(c, b) then
      if pessimistic then Decided(c, costs, StopHit, SameBarPessimistic, b, seen, idx, true)
      else Decided(c, costs, TargetHit, SameBarOptimistic, b, seen, idx, false)
    else if HitsStop(c, b) then Decided(c, costs, StopHit, StopReached, b, seen, idx, false)
    else Decided(c, costs, TargetHit, TargetReached, b, seen, idx, false)
  }

  /** The bars from the entry on, the skipped ones counted. */
  function ResolveLive(c: Candidate, live: seq<Bar>, skipped: nat, costs: Costs, pessimistic: bool): Outcome {
    var k := FirstIndex(live, DecidingBar(c));
    if k == |live| then Open(c, live, skipped)
    else Verdict(c, costs, pessimistic, live[k], live[..k + 1], skipped + k)
  }

  /** First touch of stop or target, counted from the first bar that trades the entry. */
  function Resolve(c: Candidate, bars: seq<Bar>, costs: Costs, pessimistic: bool): Outcome {
    var e := FirstIndex(bars, EntryBar(c));
    ResolveLive(c, bars[e..], e, costs, pessimistic)
  }

  lemma DecidedLive(c: Candidate, bars: seq<Bar>, e: nat, i: nat, costs: Costs, pessimistic: bool)
    requires e <= i < |bars| && DecidingBar(c)(bars[i])
    requires forall m :: e <= m < i ==> !DecidingBar(c)(bars[m])
    ensures ResolveLive(c, bars[e..], e, costs, pessimistic) ==
            Verdict(c, costs, pessimistic, bars[i], bars[e..i + 1], i)
  {
    hide DecidingBar, Verdict;
    var live := bars[e..];
    assert forall m :: 0 <= m < i - e ==> live[m] == bars[e + m];
    FirstIndexIs(live, DecidingBar(c), i - e);
    assert live[..i - e + 1] == bars[e..i + 1];
  }

  lemma OpenLive(c: Candidate, bars: seq<Bar>, e: nat, costs: Costs, pessimistic: bool)
    requires e <= |bars| && forall m :: e <= m < |bars| ==> !DecidingBar(c)(bars[m])
    ensures ResolveLive(c, bars[e..], e, costs, pessimistic) == Open(c, bars[e..], e)
  {
    hide DecidingBar, Verdict, Open;
    var live := bars[e..];
    assert forall m :: 0 <= m < |live| ==> live[m] == bars[e + m];
    FirstIndexIs(live, DecidingBar(c), |live|);
  }

  lemma ExtremesSnoc(c: Candidate, bars: seq<Bar>, e: nat, i: nat)
    requires e <= i < |bars|
    ensures MaxFavorable(c, bars[e..i + 1]) == Max(MaxFavorable(c, bars[e..i]), Favorable(c, bars[i]))
    ensures MaxAdverse(c, bars[e..i + 1]) == Min(MaxAdverse(c, bars[e..i]), Adverse(c, bars[i]))
  {
    hide Favorable, Adverse;
    assert bars[e..i + 1][..i - e] == bars[e..i];
  }

  /** The loop of resolve_outcome with its early returns. */
  method ResolveOutcome(c: Candidate, bars: seq<Bar>, costs: Costs, pessimistic: bool) returns (r: Outcome)
    ensures r == Resolve(c, bars, costs, pessimistic)
  {
    hide Ticks, PnlPrice, Favorable, Adverse, HitsTarget, HitsStop, ResolveLive, MaxFavorable, MaxAdverse, Verdict;
    var mfe, mae, entryTouched := 0.0, 0.0, false;
    ghost var e := FirstIndex(bars, EntryBar(c));
    NothingSeen(c);
    var i := 0;
    while i < |bars|
      invariant i <= |bars|
      invariant entryTouched <==> e < i
      invariant !entryTouched ==> mfe == 0.0 && mae == 0.0
      invariant entryTouched ==> mfe == MaxFavorable(c, bars[e..i]) && mae == MaxAdverse(c, bars[e..i])
      invariant forall m :: e <= m < i ==> !DecidingBar(c)(bars[m])
    {
      var b := bars[i];
      if !entryTouched {
        entryTouched := b.low <= c.entry <= b.high;
        if !entryTouched {
          i := i + 1;
          continue;
        }
        assert e == i && bars[e..i] == [];
      }
      ExtremesSnoc(c, bars, e, i);
      mfe, mae := Max(mfe, Favorable(c, b)), Min(mae, Adverse(c, b));
      var hitTarget, hitStop := HitsTarget(c, b), HitsStop(c, b);
      if hitTarget || hitStop {
        DecidedLive(c, bars, e, i, costs, pessimistic);
        r := Finish(c, costs, pessimistic, b, i, mfe, mae, bars[e..i + 1]);
        return;
      }
      i := i + 1;
    }
    OpenLive(c, bars, e, costs, pessimistic);
    assert bars[e..|bars|] == bars[e..];
    r := Outcome(if entryTouched then ExpiredOpen else EntryNotTouched,
                 if entryTouched then NothingReached else NeverTraded, None, 0.0, 0.0,
                 Ticks(mfe, c), Ticks(mae, c), |bars|, entryTouched, false, false, false);
  }

  lemma NothingSeen(c: Candidate)
    ensures MaxFavorable(c, []) == 0.0 && MaxAdverse(c, []) == 0.0
  {
  }

  /** The branches behind the early returns. */
  method Finish(c: Candidate, costs: Costs, pessimistic: bool, b: Bar, i: nat, mfe: real, mae: real,
                ghost seen: seq<Bar>)
    returns (r: Outcome)
    requires DecidingBar(c)(b) && mfe == MaxFavorable(c, seen) && mae == MaxAdverse(c, seen)
    ensures r == Verdict(c, costs, pessimistic, b, seen, i)
  {
    hide Ticks, PnlPrice, MaxFavorable, MaxAdverse;
    var hitTarget, hitStop, sameBar := HitsTarget(c, b), HitsStop(c, b), false;
    var result, reason := TargetHit, TargetReached;
    if hitTarget && hitStop {
      sameBar := pessimistic;
      if pessimistic {
        result, reason := StopHit, SameBarPessimistic;
      } else {
        reason := SameBarOptimistic;
      }
    } else if hitStop {
      result, reason := StopHit, StopReached;
    }
    var pnl := Ticks(PnlPrice(c, costs, result, if result.StopHit? then c.stop else c.target), c);
    r := Outcome(result, reason, Some(b.ts), pnl, Dollars(pnl, c, costs),
                 Ticks(mfe, c), Ticks(mae, c), i + 1, true, hitStop, hitTarget, sameBar);
  }

  // ----- laws -----

  lemma SkippedOnlyCounts(c: Candidate, live: seq<Bar>, skipped: nat, more: nat, costs: Costs, pessimistic: bool)
    ensures var r := ResolveLive(c, live, skipped, costs, pessimistic);
            ResolveLive(c, live, skipped + more, costs, pessimistic) ==
            r.(barsToResolution := more + r.barsToResolution)
  {
    hide Ticks, PnlPrice, MaxFavorable, MaxAdverse;
  }

  /** Bars before the first one that trades the entry change nothing but the bar count. */
  lemma EarlierBarsOnlyCount(c: Candidate, early: seq<Bar>, bars: seq<Bar>, costs: Costs, pessimistic: bool)
    requires forall b :: b in early ==> !EntryBar(c)(b)
    ensures var r := Resolve(c, bars, costs, pessimistic);
            Resolve(c, early + bars, costs, pessimistic) == r.(barsToResolution := |early| + r.barsToResolution)
  {
    hide EntryBar, ResolveLive;
    var e := FirstIndex(bars, EntryBar(c));
    FirstIndexAfter(early, bars, EntryBar(c));
    SkippedOnlyCounts(c, bars[e..], e, |early|, costs, pessimistic);
  }

  lemma LiveFill(c: Candidate, live: seq<Bar>, skipped: nat, costs: Costs, pessimistic: bool)
    ensures var r := ResolveLive(c, live, skipped, costs, pessimistic);
      && (r.result.StopHit? ==> r.pnlTicks == Ticks(PnlPrice(c, costs, StopHit, c.stop), c))
      && (r.result.TargetHit? ==> r.pnlTicks == Ticks(PnlPrice(c, costs, TargetHit, c.target), c))
      && (r.result.StopHit? || r.result.TargetHit? ==> r.pnlDollars == Dollars(r.pnlTicks, c, costs))
      && (r.result.ExpiredOpen? || r.result.EntryNotTouched? ==> r.pnlTicks == 0.0 && r.pnlDollars == 0.0)
  {
    hide Ticks, PnlPrice, MaxFavorable, MaxAdverse, Dollars, HitsTarget, HitsStop;
  }

  /** What each fill is worth: a stop costs the risk and two slippages, a target earns the reward
      less one. */
  lemma FillValues(c: Candidate, bars: seq<Bar>, costs: Costs, pessimistic: bool)
    requires HasValidBracket(c)
    ensures var r := Resolve(c, bars, costs, pessimistic);
            && (r.result == StopHit ==> r.pnlTicks == -RiskTicks(c) - 2.0 * costs.slippageTicks)
            && (r.result == TargetHit ==> r.pnlTicks == RewardTicks(c) - costs.slippageTicks)
            && (r.result == StopHit || r.result == TargetHit ==>
                  r.pnlDollars == r.pnlTicks * TickValue(c.instrument) - costs.commission)
            && (r.result == ExpiredOpen || r.result == EntryNotTouched ==> r.pnlTicks == 0.0 && r.pnlDollars == 0.0)
  {
    hide PnlPrice, Ticks, EntryBar, RiskTicks, RewardTicks, ResolveLive;
    var e := FirstIndex(bars, EntryBar(c));
    LiveFill(c, bars[e..], e, costs, pessimistic);
    StopValue(c, costs);
    TargetValue(c, costs);
  }

  function RiskTicks(c: Candidate): real {
    Ticks(if c.direction.Long? then c.entry - c.stop else c.stop - c.entry, c)
  }

  function RewardTicks(c: Candidate): real {
    Ticks(if c.direction.Long? then c.target - c.entry else c.entry - c.target, c)
  }

  lemma StopValue(c: Candidate, costs: Costs)
    ensures Ticks(PnlPrice(c, costs, StopHit, c.stop), c) == -RiskTicks(c) - 2.0 * costs.slippageTicks
  {
    var size := TickSize(c.instrument);
    var risk := if c.direction.Long? then c.entry - c.stop else c.stop - c.entry;
    TickArithmetic(-risk, 2.0 * costs.slippageTicks, size);
    assert PnlPrice(c, costs, StopHit, c.stop) == -risk - 2.0 * costs.slippageTicks * size;
    assert Ticks(-risk, c) == -Ticks(risk, c);
  }

  lemma TargetValue(c: Candidate, costs: Costs)
    ensures Ticks(PnlPrice(c, costs, TargetHit, c.target), c) == RewardTicks(c) - costs.slippageTicks
  {
    var size := TickSize(c.instrument);
    var reward := if c.direction.Long? then c.target - c.entry else c.entry - c.target;
    TickArithmetic(reward, costs.slippageTicks, size);
    assert PnlPrice(c, costs, TargetHit, c.target) == reward - costs.slippageTicks * size;
  }

  lemma TickArithmetic(price: real, ticks: real, size: real)
    requires size > 0.0
    ensures (price - ticks * size) / size == price / size - ticks
  {
  }

  // ----- optimistic against pessimistic -----

  /** The walk ends on a bar that touches both levels. */
  predicate Straddles(c: Candidate, bars: seq<Bar>) {
    var live := bars[FirstIndex(bars, EntryBar(c))..];
    var k := FirstIndex(live, DecidingBar(c));
    k < |live| && HitsTarget(c, live[k]) && HitsStop(c, live[k])
  }

  /** The pessimistic reading never pays more than the optimistic one, exactly as long as the
      slippage charged is not a rebate larger than the whole bracket. */
  lemma PessimismNeverPays(c: Candidate, bars: seq<Bar>, costs: Costs)
    requires HasValidBracket(c)
    ensures Resolve(c, bars, costs, true).pnlTicks <= Resolve(c, bars, costs, false).pnlTicks <==>
            !Straddles(c, bars) || costs.slippageTicks >= -(RiskTicks(c) + RewardTicks(c))
    ensures costs.slippageTicks >= 0.0 ==>
              Resolve(c, bars, costs, true).pnlTicks <= Resolve(c, bars, costs, false).pnlTicks
  {
    hide Ticks, PnlPrice, MaxFavorable, MaxAdverse, EntryBar, DecidingBar, RiskTicks, RewardTicks, HitsTarget, HitsStop;
    StopValue(c, costs);
    TargetValue(c, costs);
    BracketPositive(c);
  }

  lemma BracketPositive(c: Candidate)
    requires HasValidBracket(c)
    ensures RiskTicks(c) > 0.0 && RewardTicks(c) > 0.0
  {
  }

  /** With such a rebate and such a bar it does pay more. */
  lemma RebateMakesPessimismPay() returns (c: Candidate, bars: seq<Bar>, costs: Costs)
    ensures HasValidBracket(c)
    ensures Resolve(c, bars, costs, true).pnlTicks > Resolve(c, bars, costs, false).pnlTicks
  {
    c, costs := Candidate(MES, Long, 10.0, 9.0, 11.0), Costs(-9.0, 0.0);
    var b := Bar(0, 12.0, 8.0);
    bars := [b];
    FirstIndexIs(bars, EntryBar(c), 0);
    FirstIndexIs(bars, DecidingBar(c), 0);
    assert bars[0..] == bars;
    assert Straddles(c, bars) && RiskTicks(c) == 4.0 && RewardTicks(c) == 4.0;
    hide Resolve;
    PessimismNeverPays(c, bars, costs);
  }

  // ----- mirrored prices -----

  function Flip(d: Direction): Direction {
    match d
    case Long => Short
    case Short => Long
    case Unknown => Unknown
  }

  function MirrorBar(b: Bar): Bar {
    Bar(b.ts, -b.low, -b.high)
  }

  function MirrorBars(bars: seq<Bar>): (r: seq<Bar>)
    ensures |r| == |bars| && forall i :: 0 <= i < |r| ==> r[i] == MirrorBar(bars[i])
  {
    seq(|bars|, i requires 0 <= i < |bars| => MirrorBar(bars[i]))
  }

  function Mirror(c: Candidate): Candidate {
    c.(direction := Flip(c.direction), entry := -c.entry, stop := -c.stop, target := -c.target)
  }

  lemma MirrorOneBar(c: Candidate, b: Bar)
    requires !c.direction.Unknown?
    ensures EntryBar(Mirror(c))(MirrorBar(b)) == EntryBar(c)(b)
    ensures DecidingBar(Mirror(c))(MirrorBar(b)) == DecidingBar(c)(b)
    ensures HitsTarget(Mirror(c), MirrorBar(b)) == HitsTarget(c, b)
    ensures HitsStop(Mirror(c), MirrorBar(b)) == HitsStop(c, b)
    ensures Favorable(Mirror(c), MirrorBar(b)) == Favorable(c, b) && Adverse(Mirror(c), MirrorBar(b)) == Adverse(c, b)
  {
  }

  lemma {:induction false} MirrorExtremes(c: Candidate, bars: seq<Bar>)
    requires !c.direction.Unknown?
    ensures MaxFavorable(Mirror(c), MirrorBars(bars)) == MaxFavorable(c, bars)
    ensures MaxAdverse(Mirror(c), MirrorBars(bars)) == MaxAdverse(c, bars)
  {
    hide Favorable, Adverse, Mirror, MirrorBar;
    if bars != [] {
      var n := |bars| - 1;
      assert MirrorBars(bars)[..n] == MirrorBars(bars[..n]);
      MirrorExtremes(c, bars[..n]);
      MirrorOneBar(c, bars[n]);
    }
  }

  lemma MirrorPnl(c: Candidate, costs: Costs, result: Result, exit: real)
    requires !c.direction.Unknown?
    ensures PnlPrice(Mirror(c), costs, result, -exit) == PnlPrice(c, costs, result, exit)
  {
  }

  lemma MirrorDecided(c: Candidate, costs: Costs, result: Result, reason: Reason, b: Bar, seen: seq<Bar>, idx: nat,
                      sameBar: bool)
    requires !c.direction.Unknown?
    ensures Decided(Mirror(c), costs, result, reason, MirrorBar(b), MirrorBars(seen), idx, sameBar) ==
            Decided(c, costs, result, reason, b, seen, idx, sameBar)
  {
    hide PnlPrice, MaxFavorable, MaxAdverse, HitsTarget, HitsStop, MirrorBars, Ticks, Dollars;
    MirrorOneBar(c, b);
    MirrorExtremes(c, seen);
    var exit := if result.StopHit? then c.stop else c.target;
    MirrorPnl(c, costs, result, exit);
    MirrorUnits(c, costs, PnlPrice(c, costs, result, exit));
    MirrorUnits(c, costs, MaxFavorable(c, seen));
    MirrorUnits(c, costs, MaxAdverse(c, seen));
  }

  lemma MirrorUnits(c: Candidate, costs: Costs, x: real)
    ensures Ticks(x, Mirror(c)) == Ticks(x, c)
    ensures Dollars(Ticks(x, c), Mirror(c), costs) == Dollars(Ticks(x, c), c, costs)
  {
  }

  lemma MirrorVerdict(c: Candidate, costs: Costs, pessimistic: bool, b: Bar, seen: seq<Bar>, idx: nat)
    requires !c.direction.Unknown?
    ensures Verdict(Mirror(c), costs, pessimistic, MirrorBar(b), MirrorBars(seen), idx) ==
            Verdict(c, costs, pessimistic, b, seen, idx)
  {
    hide Decided, HitsTarget, HitsStop, MirrorBars, Mirror, MirrorBar;
    MirrorOneBar(c, b);
    MirrorDecided(c, costs, StopHit, SameBarPessimistic, b, seen, idx, true);
    MirrorDecided(c, costs, TargetHit, SameBarOptimistic, b, seen, idx, false);
    MirrorDecided(c, costs, StopHit, StopReached, b, seen, idx, false);
    MirrorDecided(c, costs, TargetHit, TargetReached, b, seen, idx, false);
  }

  lemma MirrorLive(c: Candidate, live: seq<Bar>, skipped: nat, costs: Costs, pessimistic: bool)
    requires !c.direction.Unknown?
    ensures ResolveLive(Mirror(c), MirrorBars(live), skipped, costs, pessimistic) ==
            ResolveLive(c, live, skipped, costs, pessimistic)
  {
    hide Verdict, DecidingBar, MaxFavorable, MaxAdverse, MirrorBar;
    var k := FirstIndex(live, DecidingBar(c));
    forall i | 0 <= i < |live| ensures DecidingBar(Mirror(c))(MirrorBar(live[i])) == DecidingBar(c)(live[i]) {
      MirrorOneBar(c, live[i]);
    }
    FirstIndexIs(MirrorBars(live), DecidingBar(Mirror(c)), k);
    MirrorExtremes(c, live);
    if k < |live| {
      assert MirrorBars(live)[..k + 1] == MirrorBars(live[..k + 1]);
      MirrorVerdict(c, costs, pessimistic, live[k], live[..k + 1], skipped + k);
    } else {
      assert Mirror(c).instrument == c.instrument;
    }
  }

  /** Negating every price and swapping LONG for SHORT changes nothing about the outcome. */
  lemma MirrorSymmetry(c: Candidate, bars: seq<Bar>, costs: Costs, pessimistic: bool)
    requires !c.direction.Unknown?
    ensures Resolve(Mirror(c), MirrorBars(bars), costs, pessimistic) == Resolve(c, bars, costs, pessimistic)
    ensures HasValidBracket(Mirror(c)) == HasValidBracket(c)
  {
    hide ResolveLive, EntryBar, MirrorBar;
    var e := FirstIndex(bars, EntryBar(c));
    forall i | 0 <= i < |bars| ensures EntryBar(Mirror(c))(MirrorBar(bars[i])) == EntryBar(c)(bars[i]) {
      MirrorOneBar(c, bars[i]);
    }
    FirstIndexIs(MirrorBars(bars), EntryBar(Mirror(c)), e);
    assert MirrorBars(bars)[e..] == MirrorBars(bars[e..]);
    MirrorLive(c, bars[e..], e, costs, pessimistic);
  }
}
