/** Relational laws of the forward walk: what decides it, how its figures hang together, and how
    they move when prices are mirrored or a target is moved. */
module WalkLaws {
  import opened Conventions
  import opened Sorting
  import opened CausalBars
  import opened CoverageOutcomes

  // ----- first touch -----

  /** The first bar to touch the target or the stop decides the walk: ambiguous when it touches
      both, or when it is the crossing bar and touches the stop; otherwise whichever it touched. */
  lemma FirstTouchDecides(w: Setup, bars: seq<Bar>, k: nat)
    requires k < |bars| && TouchBar(w)(bars[k])
    requires forall i :: 0 <= i < k ==> !StopBar(w)(bars[i]) && !TargetBar(w, w.target1)(bars[i])
    ensures var stop, target := StopBar(w)(bars[k]), TargetBar(w, w.target1)(bars[k]);
            && (OutcomeOf(w, bars) == Ambiguous <==> stop && (target || (k == 0 && w.crossFirst)))
            && (OutcomeOf(w, bars) == InvalidationFirst <==> stop && !target && !(k == 0 && w.crossFirst))
            && (OutcomeOf(w, bars) == TargetFirst <==> target && !stop)
  {
    forall i | 0 <= i < k ensures !TouchBar(w)(bars[i]) {
    }
    FirstIndexIs(bars, TouchBar(w), k);
  }

  lemma NoTouchUnresolved(w: Setup, bars: seq<Bar>)
    ensures OutcomeOf(w, bars) == Unresolved <==>
            forall i :: 0 <= i < |bars| ==> !StopBar(w)(bars[i]) && !TargetBar(w, w.target1)(bars[i])
  {
    var k := FirstIndex(bars, TouchBar(w));
    if k == |bars| {
      forall i | 0 <= i < |bars| ensures !StopBar(w)(bars[i]) && !TargetBar(w, w.target1)(bars[i]) {
        assert !TouchBar(w)(bars[i]);
      }
    }
  }

  // ----- thresholds and MFE -----

  /** An R threshold is hit exactly when the maximum favourable excursion reaches it. */
  lemma HitIffReached(w: Setup, bars: seq<Bar>, q: nat)
    requires w.risk > 0.0 && q < 4
    ensures ScoresOf(w, bars).hits[q].Some? <==> ScoresOf(w, bars).mfeR >= THRESHOLDS_R[q]
  {
    hide FavR, AtLeast, Scored, OutcomeOf, Mae, FlagsOf, AmbiguousOf, CleanStop;
    var s := Scored(w, bars);
    var k := FirstIndex(s, AtLeast(w, THRESHOLDS_R[q]));
    AtLeastIs(w, THRESHOLDS_R[q]);
    if k == |s| && MaxFavorable(w, s) != 0.0 {
      var i :| 0 <= i < |s| && FavR(w, s[i]) == MaxFavorable(w, s);
      assert !AtLeast(w, THRESHOLDS_R[q])(s[i]);
    }
  }

  lemma AtLeastIs(w: Setup, t: real)
    requires w.risk > 0.0
    ensures forall b :: AtLeast(w, t)(b) <==> FavR(w, b) >= t
  {
  }

  /** The hit times are ordered: a higher threshold is never hit before a lower one. */
  lemma HitsOrdered(w: Setup, bars: seq<Bar>, q: nat, r: nat)
    requires w.risk > 0.0 && q < r < 4 && SortedBy(bars, ByStart)
    requires ScoresOf(w, bars).hits[r].Some?
    ensures ScoresOf(w, bars).hits[q].Some? && ScoresOf(w, bars).hits[q].value <= ScoresOf(w, bars).hits[r].value
  {
    hide FavR, AtLeast, StopBar, OutcomeOf, FlagsOf, AmbiguousOf, CleanStop, Mae, MaxFavorable;
    AtLeastIs(w, THRESHOLDS_R[q]);
    AtLeastIs(w, THRESHOLDS_R[r]);
    var s := Scored(w, bars);
    var k, m := FirstIndex(s, AtLeast(w, THRESHOLDS_R[q])), FirstIndex(s, AtLeast(w, THRESHOLDS_R[r]));
    assert AtLeast(w, THRESHOLDS_R[q])(s[m]);
    assert k <= m;
    assert k < m ==> ByStart(bars[k], bars[m]);
  }

  // ----- mirrored prices -----

  function Flip(d: Direction): Direction {
    if d.Long? then Short else Long
  }

  function MirrorBar(b: Bar): Bar {
    b.(open := -b.open, high := -b.low, low := -b.high, close := -b.close,
       vwap := if b.vwap.Some? then Some(-b.vwap.value) else None)
  }

  function MirrorBars(bars: seq<Bar>): (r: seq<Bar>)
    ensures |r| == |bars| && forall i :: 0 <= i < |r| ==> r[i] == MirrorBar(bars[i])
  {
    seq(|bars|, i requires 0 <= i < |bars| => MirrorBar(bars[i]))
  }

  function MirrorLevel(x: Option<real>): Option<real> {
    if x.Some? then Some(-x.value) else None
  }

  function MirrorLevels(l: Levels): Levels {
    match l
    case TargetAndStop(target, stop) => TargetAndStop(-target, -stop)
    case TriggerAndStop(trigger, stop) => TriggerAndStop(-trigger, -stop)
  }

  function MirrorSnapshot(s: Option<Snapshot>): Option<Snapshot> {
    if s.None? then None else
    var x := s.value;
    Some(Snapshot(x.start, -x.open, -x.low, -x.high, -x.close, MirrorLevels(x.levels)))
  }

  function Mirror(w: Setup): Setup {
    w.(direction := Flip(w.direction), entry := -w.entry, target1 := MirrorLevel(w.target1),
       target2 := MirrorLevel(w.target2), invalidation := -w.invalidation)
  }

  lemma MirrorR(d: Direction, price: real, entry: real, risk: real)
    requires risk > 0.0
    ensures R(Flip(d), -price, -entry, risk) == R(d, price, entry, risk)
  {
    assert Sign(Flip(d)) * (-price - -entry) == Sign(d) * (price - entry);
  }

  lemma MirrorOneBar(w: Setup, b: Bar)
    requires w.risk > 0.0
    ensures FavR(Mirror(w), MirrorBar(b)) == FavR(w, b) && AdvR(Mirror(w), MirrorBar(b)) == AdvR(w, b)
    ensures StopBar(Mirror(w))(MirrorBar(b)) == StopBar(w)(b)
    ensures TargetBar(Mirror(w), MirrorLevel(w.target1))(MirrorBar(b)) == TargetBar(w, w.target1)(b)
    ensures TargetBar(Mirror(w), MirrorLevel(w.target2))(MirrorBar(b)) == TargetBar(w, w.target2)(b)
    ensures TouchBar(Mirror(w))(MirrorBar(b)) == TouchBar(w)(b)
  {
    hide R;
    MirrorR(w.direction, Fav(b, w.direction), w.entry, w.risk);
    MirrorR(w.direction, Adv(b, w.direction), w.entry, w.risk);
  }

  lemma MirrorIndex(bars: seq<Bar>, p: Bar -> bool, q: Bar -> bool)
    requires forall i :: 0 <= i < |bars| ==> q(MirrorBar(bars[i])) == p(bars[i])
    ensures FirstIndex(MirrorBars(bars), q) == FirstIndex(bars, p)
    ensures HitAt(MirrorBars(bars), q) == HitAt(bars, p)
  {
    hide MirrorBars;
    FirstIndexIs(MirrorBars(bars), q, FirstIndex(bars, p));
  }

  lemma MirrorPrefix(bars: seq<Bar>, k: nat)
    requires k <= |bars|
    ensures MirrorBars(bars)[..k] == MirrorBars(bars[..k])
  {
  }

  lemma {:induction false} MirrorExtremes(w: Setup, bars: seq<Bar>)
    requires w.risk > 0.0
    ensures MaxFavorable(Mirror(w), MirrorBars(bars)) == MaxFavorable(w, bars)
    ensures MaxAdverse(Mirror(w), MirrorBars(bars)) == MaxAdverse(w, bars)
  {
    hide FavR, AdvR, Mirror, MirrorBar;
    if bars != [] {
      var n := |bars| - 1;
      MirrorPrefix(bars, n);
      MirrorExtremes(w, bars[..n]);
      MirrorOneBar(w, bars[n]);
      MirrorRisk(w);
    }
  }

  lemma MirrorRisk(w: Setup)
    ensures Mirror(w).risk == w.risk && Mirror(w).crossFirst == w.crossFirst
    ensures Mirror(w).target1 == MirrorLevel(w.target1) && Mirror(w).target2 == MirrorLevel(w.target2)
  {
  }

  lemma MirrorSnap(w: Setup, b: Bar)
    requires w.risk > 0.0
    ensures Some(SnapshotOf(Mirror(w), MirrorBar(b))) == MirrorSnapshot(Some(SnapshotOf(w, b)))
  {
    hide FavR, AdvR, TargetBar;
    MirrorOneBar(w, b);
    assert TargetBar(w, w.target1)(b) ==> w.target1.Some? by {
      TargetNeedsLevel(w, b);
    }
  }

  lemma TargetNeedsLevel(w: Setup, b: Bar)
    ensures TargetBar(w, w.target1)(b) ==> w.target1.Some?
  {
  }

  lemma MirrorOutcome(w: Setup, bars: seq<Bar>)
    requires w.risk > 0.0
    ensures OutcomeOf(Mirror(w), MirrorBars(bars)) == OutcomeOf(w, bars)
    ensures FlagsOf(Mirror(w), MirrorBars(bars)) == FlagsOf(w, bars)
    ensures AmbiguousOf(Mirror(w), MirrorBars(bars)) == MirrorSnapshot(AmbiguousOf(w, bars))
    ensures Untouched(Mirror(w), MirrorBars(bars)) == MirrorBars(Untouched(w, bars))
  {
    hide FavR, AdvR, Mirror, MirrorBar, StopBar, TargetBar, TouchBar, HitAt, SnapshotOf;
    MirrorRisk(w);
    forall i | 0 <= i < |bars| ensures TouchBar(Mirror(w))(MirrorBar(bars[i])) == TouchBar(w)(bars[i]) {
      MirrorOneBar(w, bars[i]);
    }
    MirrorIndex(bars, TouchBar(w), TouchBar(Mirror(w)));
    var k := FirstIndex(bars, TouchBar(w));
    MirrorPrefix(bars, k);
    if k < |bars| {
      MirrorOneBar(w, bars[k]);
      MirrorSnap(w, bars[k]);
    }
  }

  lemma MirrorScored(w: Setup, bars: seq<Bar>)
    requires w.risk > 0.0
    ensures Scored(Mirror(w), MirrorBars(bars)) == MirrorBars(Scored(w, bars))
    ensures Mae(Mirror(w), MirrorBars(bars)) == Mae(w, bars)
    ensures var stop := CleanStop(w, bars);
            CleanStop(Mirror(w), MirrorBars(bars)) == if stop.Some? then Some(MirrorBar(stop.value)) else None
  {
    hide FavR, AdvR, Mirror, MirrorBar, StopBar, TargetBar, TouchBar, OutcomeOf, MaxAdverse;
    MirrorRisk(w);
    MirrorOutcome(w, bars);
    forall i | 0 <= i < |bars| ensures StopBar(Mirror(w))(MirrorBar(bars[i])) == StopBar(w)(bars[i]) {
      MirrorOneBar(w, bars[i]);
    }
    MirrorIndex(bars, StopBar(w), StopBar(Mirror(w)));
    var s := FirstIndex(bars, StopBar(w));
    MirrorPrefix(bars, s);
    MirrorExtremes(w, bars[..s]);
    if s < |bars| {
      MirrorOneBar(w, bars[s]);
    }
  }

  lemma MirrorHits(w: Setup, bars: seq<Bar>)
    requires w.risk > 0.0
    ensures Hits(Mirror(w), MirrorBars(bars)) == Hits(w, bars)
  {
    hide FavR, Mirror, MirrorBar, Scored, HitAt, AtLeast;
    MirrorRisk(w);
    MirrorScored(w, bars);
    var s := Scored(w, bars);
    forall q | 0 <= q < 4 ensures Hits(Mirror(w), MirrorBars(bars))[q] == Hits(w, bars)[q] {
      AtLeastIs(w, THRESHOLDS_R[q]);
      AtLeastIs(Mirror(w), THRESHOLDS_R[q]);
      forall i | 0 <= i < |s|
        ensures AtLeast(Mirror(w), THRESHOLDS_R[q])(MirrorBar(s[i])) == AtLeast(w, THRESHOLDS_R[q])(s[i])
      {
        MirrorOneBar(w, s[i]);
      }
      MirrorIndex(s, AtLeast(w, THRESHOLDS_R[q]), AtLeast(Mirror(w), THRESHOLDS_R[q]));
    }
  }

  lemma MirrorTargets(w: Setup, bars: seq<Bar>)
    requires w.risk > 0.0
    ensures HitAt(MirrorBars(bars), TargetBar(Mirror(w), Mirror(w).target1)) == HitAt(bars, TargetBar(w, w.target1))
    ensures HitAt(MirrorBars(bars), TargetBar(Mirror(w), Mirror(w).target2)) == HitAt(bars, TargetBar(w, w.target2))
  {
    hide Mirror, MirrorBar, HitAt, TargetBar;
    MirrorRisk(w);
    forall i | 0 <= i < |bars|
      ensures TargetBar(Mirror(w), Mirror(w).target1)(MirrorBar(bars[i])) == TargetBar(w, w.target1)(bars[i])
      ensures TargetBar(Mirror(w), Mirror(w).target2)(MirrorBar(bars[i])) == TargetBar(w, w.target2)(bars[i])
    {
      MirrorOneBar(w, bars[i]);
    }
    MirrorIndex(bars, TargetBar(w, w.target1), TargetBar(Mirror(w), Mirror(w).target1));
    MirrorIndex(bars, TargetBar(w, w.target2), TargetBar(Mirror(w), Mirror(w).target2));
  }

  lemma MirrorFigures(w: Setup, bars: seq<Bar>)
    requires w.risk > 0.0
    ensures var s, m := ScoresOf(w, bars), ScoresOf(Mirror(w), MirrorBars(bars));
      && m.mfeR == s.mfeR && m.maeR == s.maeR && m.adverseBeforeTarget == s.adverseBeforeTarget && m.hits == s.hits
  {
    hide OutcomeOf, FlagsOf, AmbiguousOf, Untouched, Scored, Mae, CleanStop, MaxFavorable, MaxAdverse, Hits, HitAt,
         Mirror, MirrorBars, TargetBar;
    MirrorRisk(w);
    MirrorOutcome(w, bars);
    MirrorScored(w, bars);
    MirrorHits(w, bars);
    MirrorExtremes(w, Scored(w, bars));
    MirrorExtremes(w, Untouched(w, bars));
  }

  lemma MirrorEvents(w: Setup, bars: seq<Bar>)
    requires w.risk > 0.0
    ensures var s, m := ScoresOf(w, bars), ScoresOf(Mirror(w), MirrorBars(bars));
      && m.outcome == s.outcome && m.decisive == s.decisive && m.flags == s.flags
      && m.invalidationAt == s.invalidationAt && m.target1At == s.target1At && m.target2At == s.target2At
      && m.ambiguousBar == MirrorSnapshot(s.ambiguousBar)
  {
    hide OutcomeOf, FlagsOf, AmbiguousOf, Untouched, Scored, Mae, CleanStop, MaxFavorable, MaxAdverse, Hits, HitAt,
         Mirror, MirrorBars, TargetBar, MirrorSnapshot;
    MirrorRisk(w);
    MirrorOutcome(w, bars);
    MirrorScored(w, bars);
    MirrorTargets(w, Scored(w, bars));
  }

  lemma MirrorPrices(w: Setup)
    requires w.risk > 0.0
    ensures forall price :: R(Flip(w.direction), -price, -w.entry, w.risk) == R(w.direction, price, w.entry, w.risk)
  {
    hide R, Flip;
    forall price ensures R(Flip(w.direction), -price, -w.entry, w.risk) == R(w.direction, price, w.entry, w.risk) {
      MirrorR(w.direction, price, w.entry, w.risk);
    }
  }

  /** Negating every price and swapping LONG for SHORT changes nothing a walk reports but the prices of
      an ambiguous bar, which are negated. */
  lemma MirrorSymmetry(w: Setup, bars: seq<Bar>)
    requires w.risk > 0.0
    ensures var s := ScoresOf(w, bars);
      ScoresOf(Mirror(w), MirrorBars(bars)) == s.(ambiguousBar := MirrorSnapshot(s.ambiguousBar))
    ensures forall price :: R(Flip(w.direction), -price, -w.entry, w.risk) == R(w.direction, price, w.entry, w.risk)
  {
    hide ScoresOf, Mirror, MirrorBars, MirrorSnapshot, R, Flip;
    MirrorRisk(w);
    MirrorFigures(w, bars);
    MirrorEvents(w, bars);
    MirrorPrices(w);
  }

  // ----- moving the target -----

  /** near lies between the entry side and far, or far does not exist. */
  predicate Nearer(d: Direction, near: real, far: Option<real>) {
    far.None? || Reached(d, far.value, near)
  }

  lemma NearerReached(w: Setup, near: real, b: Bar)
    requires Nearer(w.direction, near, w.target1) && TargetBar(w, w.target1)(b)
    ensures TargetBar(w, Some(near))(b)
  {
  }

  /** A winner stays a winner for a nearer target, and a loser stays a loser for a farther one. */
  lemma TargetMonotone(w: Setup, near: real, bars: seq<Bar>)
    requires Nearer(w.direction, near, w.target1)
    ensures OutcomeOf(w, bars) == TargetFirst ==> OutcomeOf(w.(target1 := Some(near)), bars) == TargetFirst
    ensures OutcomeOf(w.(target1 := Some(near)), bars) == InvalidationFirst ==> OutcomeOf(w, bars) == InvalidationFirst
  {
    var v := w.(target1 := Some(near));
    var k, m := FirstIndex(bars, TouchBar(w)), FirstIndex(bars, TouchBar(v));
    forall i | 0 <= i < |bars| && TargetBar(w, w.target1)(bars[i]) ensures TargetBar(v, v.target1)(bars[i]) {
      NearerReached(w, near, bars[i]);
    }
    assert forall i :: 0 <= i < |bars| ==> StopBar(v)(bars[i]) == StopBar(w)(bars[i]);
    assert k < |bars| ==> TouchBar(v)(bars[k]);
    assert m < |bars| && OutcomeOf(v, bars) == InvalidationFirst ==> TouchBar(w)(bars[m]);
    assert m < k ==> !TouchBar(w)(bars[m]);
  }
}
