/** LONG and SHORT level interactions are mirror images: negating every price exchanges them. Only
    the reclaim and the failed reclaim of the running average have no counterpart. */
module LevelMirror {
  import opened Sorting
  import Bars = CausalBars
  import opened LevelEvents
  import opened LevelObserver

  function MirrorBar(b: Bar): Bar {
    Bars.Bar(b.start, -b.open, -b.low, -b.high, -b.close, b.volume, Negated(b.vwap))
  }

  function Negated(x: Option<real>): Option<real> {
    if x.None? then None else Some(-x.value)
  }

  function MirrorBars(bars: seq<Bar>): (r: seq<Bar>)
    ensures |r| == |bars|
  {
    seq(|bars|, i requires 0 <= i < |bars| => MirrorBar(bars[i]))
  }

  function MirrorFold(f: Bars.Fold): Bars.Fold {
    Bars.Fold(-f.open, -f.low, -f.high, -f.close, f.volume, Negated(f.turnover))
  }

  function MirrorWatch(w: Watch): Watch {
    match w
    case PdhLong => PdlShort
    case PdlShort => PdhLong
    case OrbLong => OrbShort
    case OrbShort => OrbLong
  }

  predicate HasMirror(f: Family) {
    !f.VwapReclaimLong? && !f.VwapFailedReclaimShort?
  }

  function MirrorFamily(f: Family): Family {
    match f
    case VwapTestHoldLong => VwapTestHoldShort
    case VwapTestHoldShort => VwapTestHoldLong
    case PdhReclaimLong => PdlReclaimShort
    case PdlReclaimShort => PdhReclaimLong
    case PdhRejectionShort => PdlRejectionLong
    case PdlRejectionLong => PdhRejectionShort
    case PdhBreakRetestLong => PdlBreakRetestShort
    case PdlBreakRetestShort => PdhBreakRetestLong
    case OrbBreakoutLong => OrbBreakoutShort
    case OrbBreakoutShort => OrbBreakoutLong
    case OrbRejectionShort => OrbRejectionLong
    case OrbRejectionLong => OrbRejectionShort
    case OrbBreakRetestLong => OrbBreakRetestShort
    case OrbBreakRetestShort => OrbBreakRetestLong
    case VwapReclaimLong => VwapReclaimLong
    case VwapFailedReclaimShort => VwapFailedReclaimShort
  }

  lemma NegatedTurnover(price: real, volume: real)
    ensures Bars.Turnover(-price, volume) == -Bars.Turnover(price, volume)
  {
  }

  lemma NegatedAverage(turnover: real, volume: real)
    requires volume > 0.0
    ensures Bars.AveragePrice(-turnover, volume) == -Bars.AveragePrice(turnover, volume)
  {
  }

  lemma MirrorPrefix(bars: seq<Bar>, k: nat)
    requires k <= |bars|
    ensures MirrorBars(bars)[..k] == MirrorBars(bars[..k])
  {
  }

  lemma MirrorOne(b: Bar)
    ensures Bars.One(MirrorBar(b)) == MirrorFold(Bars.One(b))
  {
    hide Bars.Turnover;
    if b.vwap.Some? {
      NegatedTurnover(b.vwap.value, b.volume);
    }
  }

  lemma {:induction false} FoldMirrors(bars: seq<Bar>)
    requires bars != []
    ensures Bars.FoldAll(MirrorBars(bars)) == MirrorFold(Bars.FoldAll(bars))
  {
    hide Bars.One;
    var n := |bars| - 1;
    MirrorOne(bars[n]);
    MirrorPrefix(bars, n);
    if n > 0 {
      FoldMirrors(bars[..n]);
    }
  }

  lemma VwapMirrors(bars: seq<Bar>)
    ensures Bars.SessionVwap(MirrorBars(bars)) == Negated(Bars.SessionVwap(bars))
  {
    hide Bars.AveragePrice, Bars.FoldAll;
    if bars != [] {
      FoldMirrors(bars);
      var f := Bars.FoldAll(bars);
      if f.volume > 0.0 && f.turnover.Some? {
        NegatedAverage(f.turnover.value, f.volume);
      }
    }
  }

  lemma WatchedMirrors(w: Watch, prior: seq<Bar>, bars: seq<Bar>)
    requires prior != [] && bars != []
    ensures Watched(MirrorWatch(w), MirrorBars(prior), MirrorBars(bars)) == -Watched(w, prior, bars)
  {
    hide Bars.FoldAll;
    FoldMirrors(prior);
    FoldMirrors(Opening(bars));
    if |bars| >= OPENING_BARS {
      MirrorPrefix(bars, OPENING_BARS);
    }
  }

  lemma BreaksMirror(w: Watch, prior: seq<Bar>, bars: seq<Bar>, i: nat)
    requires prior != [] && 0 < i < |bars|
    ensures Breaks(MirrorWatch(w), MirrorBars(prior), MirrorBars(bars), i) == Breaks(w, prior, bars, i)
    ensures Touches(MirrorWatch(w), MirrorBars(prior), MirrorBars(bars), i) == Touches(w, prior, bars, i)
    ensures Rejects(MirrorWatch(w), MirrorBars(prior), MirrorBars(bars), i) == Rejects(w, prior, bars, i)
  {
    hide Watched;
    WatchedMirrors(w, prior, bars);
  }

  lemma RetestsMirror(w: Watch, prior: seq<Bar>, bars: seq<Bar>, i: nat)
    requires prior != [] && 0 < i < |bars|
    ensures Retests(MirrorWatch(w), MirrorBars(prior), MirrorBars(bars), i) == Retests(w, prior, bars, i)
  {
    hide Breaks, Touches, Rejects;
    forall m | 0 < m <= i
      ensures Breaks(MirrorWatch(w), MirrorBars(prior), MirrorBars(bars), m) == Breaks(w, prior, bars, m)
      ensures Touches(MirrorWatch(w), MirrorBars(prior), MirrorBars(bars), m) == Touches(w, prior, bars, m)
    {
      BreaksMirror(w, prior, bars, m);
    }
    forall j | 0 < j < i
      ensures OpenBreak(MirrorWatch(w), MirrorBars(prior), MirrorBars(bars), j, i) == OpenBreak(w, prior, bars, j, i)
    {
    }
  }

  lemma HoldsMirror(bars: seq<Bar>, i: nat)
    requires 0 < i < |bars|
    ensures HoldsBelow(MirrorBars(bars), i) == HoldsAbove(bars, i)
    ensures HoldsAbove(MirrorBars(bars), i) == HoldsBelow(bars, i)
  {
    hide Bars.SessionVwap;
    MirrorPrefix(bars, i);
    MirrorPrefix(bars, i + 1);
    VwapMirrors(bars[..i]);
    VwapMirrors(bars[..i + 1]);
  }

  function WatchOf(f: Family): Watch {
    match f
    case PdhReclaimLong | PdhRejectionShort | PdhBreakRetestLong => PdhLong
    case PdlReclaimShort | PdlRejectionLong | PdlBreakRetestShort => PdlShort
    case OrbBreakoutLong | OrbRejectionShort | OrbBreakRetestLong => OrbLong
    case _ => OrbShort
  }

  /** Negating every price turns each long interaction into its short counterpart and back, breaks,
      retests with their arming, rejections, opening range and average-price holds alike. */
  lemma LongAndShortMirror(f: Family, prior: seq<Bar>, bars: seq<Bar>, i: nat)
    requires HasMirror(f) && prior != [] && 0 < i < |bars|
    ensures Fires(MirrorFamily(f), MirrorBars(prior), MirrorBars(bars), i) == Fires(f, prior, bars, i)
    ensures DirectionOf(MirrorFamily(f)) != DirectionOf(f)
  {
    hide Breaks, Retests, Rejects, HoldsAbove, HoldsBelow;
    HoldsMirror(bars, i);
    BreaksMirror(WatchOf(f), prior, bars, i);
    RetestsMirror(WatchOf(f), prior, bars, i);
  }

  // ----- the families without a counterpart -----

  /** A bar of a quiet day: the average price stays at base and prices stay within one of it. */
  function Quiet(base: real, start: int, move: real): Bar {
    Bars.Bar(start, base + move, base + 1.0, base - 1.0, base + move, 1.0, Some(base))
  }

  function QuietDay(base: real, moves: seq<real>): (bars: seq<Bar>)
    ensures |bars| == |moves| && forall i :: 0 <= i < |bars| ==> bars[i] == Quiet(base, i, moves[i])
  {
    seq(|moves|, i requires 0 <= i < |moves| => Quiet(base, i, moves[i]))
  }

  function Yesterday(base: real): seq<Bar> {
    [Bars.Bar(0, base, base + 100.0, base - 100.0, base, 1.0, Some(base))]
  }

  function Times(base: real, n: nat): real {
    base * n as real
  }

  lemma TimesStep(base: real, n: nat)
    ensures Times(base, 0) == 0.0 && Times(base, n + 1) == Times(base, n) + base
    ensures Bars.Turnover(base, 1.0) == base
  {
    assert (n + 1) as real == n as real + 1.0;
    Distributes(base, n as real);
  }

  lemma Distributes(base: real, m: real)
    ensures base * (m + 1.0) == base * m + base
  {
  }

  lemma TimesAverage(base: real, n: nat)
    requires n > 0
    ensures Bars.AveragePrice(Times(base, n), n as real) == base
  {
    Cancels(base, n as real);
  }

  lemma Cancels(base: real, m: real)
    requires m > 0.0
    ensures base * m / m == base
  {
  }

  lemma {:induction false} QuietFold(base: real, moves: seq<real>)
    requires moves != []
    ensures var f := Bars.FoldAll(QuietDay(base, moves));
      f.volume == |moves| as real && f.turnover == Some(Times(base, |moves|))
  {
    hide Times, Bars.Turnover;
    var n := |moves| - 1;
    assert QuietDay(base, moves)[..n] == QuietDay(base, moves[..n]);
    TimesStep(base, n);
    if n > 0 {
      QuietFold(base, moves[..n]);
    }
  }

  lemma QuietVwapAt(base: real, moves: seq<real>, k: nat)
    requires 0 < k <= |moves|
    ensures Bars.SessionVwap(QuietDay(base, moves)[..k]) == Some(base)
  {
    hide Times, Bars.FoldAll, Bars.AveragePrice;
    assert QuietDay(base, moves)[..k] == QuietDay(base, moves[..k]);
    QuietFold(base, moves[..k]);
    TimesAverage(base, k);
  }

  /** On a quiet morning only the average price is touched. */
  lemma QuietFires(g: Family, base: real, moves: seq<real>, i: nat)
    requires 0 < i < |moves| && i < OPENING_BARS && forall k :: 0 <= k < |moves| ==> -1.0 <= moves[k] <= 1.0
    ensures Fires(g, Yesterday(base), QuietDay(base, moves), i) <==>
            match g
            case VwapReclaimLong => moves[i - 1] <= 0.0 < moves[i]
            case VwapFailedReclaimShort => i >= 2 && moves[i - 2] <= 0.0 < moves[i - 1] && moves[i] < 0.0
            case VwapTestHoldLong => moves[i - 1] > 0.0 && moves[i] > 0.0
            case VwapTestHoldShort => moves[i - 1] < 0.0 && moves[i] < 0.0
            case _ => false
  {
    hide Bars.SessionVwap;
    QuietVwapAt(base, moves, i);
    QuietVwapAt(base, moves, i + 1);
    if i >= 2 {
      QuietVwapAt(base, moves, i - 1);
    }
  }

  lemma QuietMirrors(base: real, moves: seq<real>, negated: seq<real>)
    requires |negated| == |moves| && forall i :: 0 <= i < |moves| ==> negated[i] == -moves[i]
    ensures MirrorBars(QuietDay(base, moves)) == QuietDay(-base, negated)
    ensures MirrorBars(Yesterday(base)) == Yesterday(-base)
  {
  }

  ghost predicate FiresMirrored(f: Family, g: Family, prior: seq<Bar>, bars: seq<Bar>, i: nat)
    requires prior != [] && 0 < i < |bars|
  {
    Fires(g, MirrorBars(prior), MirrorBars(bars), i) == Fires(f, prior, bars, i)
  }

  /** On negated prices g happens exactly where f happened. */
  ghost predicate Counterpart(f: Family, g: Family) {
    forall prior, bars, i | prior != [] && 0 < i < |bars| :: FiresMirrored(f, g, prior, bars, i)
  }

  /** Neither the reclaim nor the failed reclaim of the average price has any counterpart. */
  lemma ReclaimsHaveNone(f: Family, g: Family)
    requires !HasMirror(f)
    ensures !Counterpart(f, g)
  {
    hide Fires;
    var base, up, down, upDown, downUp := 500.0, [-1.0, 1.0], [1.0, -1.0], [-1.0, 1.0, -1.0], [1.0, -1.0, 1.0];
    QuietMirrors(base, up, down);
    QuietMirrors(base, down, up);
    QuietMirrors(base, upDown, downUp);
    if f.VwapReclaimLong? {
      QuietFires(f, base, up, 1);
      QuietFires(g, -base, down, 1);
      assert !FiresMirrored(f, g, Yesterday(base), QuietDay(base, up), 1);
    } else if g.VwapReclaimLong? {
      QuietFires(f, base, down, 1);
      QuietFires(g, -base, up, 1);
      assert !FiresMirrored(f, g, Yesterday(base), QuietDay(base, down), 1);
    } else {
      QuietFires(f, base, upDown, 2);
      QuietFires(g, -base, downUp, 2);
      assert !FiresMirrored(f, g, Yesterday(base), QuietDay(base, upDown), 2);
    }
  }

  /** A family has a counterpart on negated prices if and only if it is not one of those two. */
  lemma CounterpartExactlyWhen(f: Family)
    ensures (exists g :: Counterpart(f, g)) <==> HasMirror(f)
    ensures HasMirror(f) ==> Counterpart(f, MirrorFamily(f))
  {
    hide Fires;
    if HasMirror(f) {
      forall prior, bars, i | prior != [] && 0 < i < |bars| ensures FiresMirrored(f, MirrorFamily(f), prior, bars, i) {
        LongAndShortMirror(f, prior, bars, i);
      }
      assert Counterpart(f, MirrorFamily(f));
    } else {
      forall g ensures !Counterpart(f, g) {
        ReclaimsHaveNone(f, g);
      }
    }
  }
}
