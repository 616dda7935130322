/** The walk as the loop it is: PathView filled in place, proved against the declarative scores,
    and the laws those scores obey. */
module PathWalk {
  import opened Conventions
  import opened Sorting
  import opened CausalBars
  import opened CoverageOutcomes

  function Lower(x: real, m: real): real {
    if x < m then x else m
  }

  function Higher(x: real, m: real): real {
    if x > m then x else m
  }

  lemma HitSnoc(s: seq<Bar>, b: Bar, p: Bar -> bool)
    ensures HitAt(s + [b], p) == if HitAt(s, p).Some? then HitAt(s, p) else if p(b) then Some(b.start) else None
    ensures HitAt(s, p).Some? <==> FirstIndex(s, p) < |s|
  {
    FirstIndexSnoc(s, b, p);
  }

  /** No stop so far: every touch was a target touch. */
  lemma TouchIsTarget(w: Setup, p: seq<Bar>)
    requires FirstIndex(p, StopBar(w)) == |p|
    ensures FirstIndex(p, TouchBar(w)) == FirstIndex(p, TargetBar(w, w.target1))
    ensures Scored(w, p) == p
    ensures OutcomeOf(w, p) == if FirstIndex(p, TargetBar(w, w.target1)) < |p| then TargetFirst else Unresolved
    ensures CleanStop(w, p) == None
  {
    var k, t := FirstIndex(p, TouchBar(w)), FirstIndex(p, TargetBar(w, w.target1));
    assert k < |p| ==> !StopBar(w)(p[k]);
    assert t < |p| ==> TouchBar(w)(p[t]);
  }

  lemma TouchSnoc(w: Setup, p: seq<Bar>, b: Bar)
    ensures var k := FirstIndex(p, TouchBar(w));
            && FirstIndex(p + [b], TouchBar(w)) == (if k < |p| then k else if TouchBar(w)(b) then |p| else |p| + 1)
            && (k < |p| || TouchBar(w)(b) ==> Untouched(w, p + [b]) == Untouched(w, p))
            && (k == |p| ==> Untouched(w, p) == p)
            && (!TouchBar(w)(b) && k == |p| ==> Untouched(w, p + [b]) == p + [b])
  {
    hide TouchBar, FirstIndex;
    FirstIndexSnoc(p, b, TouchBar(w));
    var k := FirstIndex(p, TouchBar(w));
    assert (p + [b])[..k] == p[..k];
    assert (p + [b])[..|p| + 1] == p + [b];
  }

  lemma OutcomeSnoc(w: Setup, p: seq<Bar>, b: Bar)
    ensures FirstIndex(p, TouchBar(w)) < |p| ==> OutcomeOf(w, p + [b]) == OutcomeOf(w, p)
    ensures FirstIndex(p, TouchBar(w)) == |p| ==>
              OutcomeOf(w, p) == Unresolved
              && OutcomeOf(w, p + [b]) ==
                 if !TouchBar(w)(b) then Unresolved
                 else if StopBar(w)(b) && (TargetBar(w, w.target1)(b) || (p == [] && w.crossFirst)) then Ambiguous
                 else if StopBar(w)(b) then InvalidationFirst
                 else TargetFirst
  {
    hide TouchBar, FirstIndex, StopBar, TargetBar;
    FirstIndexSnoc(p, b, TouchBar(w));
    var k := FirstIndex(p, TouchBar(w));
    assert k < |p| ==> (p + [b])[k] == p[k];
    assert (p + [b])[|p|] == b;
  }

  lemma ScoredKept(w: Setup, p: seq<Bar>, b: Bar)
    requires FirstIndex(p, StopBar(w)) < |p| && OutcomeOf(w, p + [b]) == OutcomeOf(w, p)
    ensures Scored(w, p + [b]) == Scored(w, p) && CleanStop(w, p + [b]) == CleanStop(w, p)
  {
    hide OutcomeOf, StopBar, FirstIndex;
    FirstIndexSnoc(p, b, StopBar(w));
    var s := FirstIndex(p, StopBar(w));
    assert (p + [b])[..s] == p[..s] && (p + [b])[s] == p[s];
  }

  /** After the stop, or an ambiguous bar, later bars change no score. */
  lemma StepAfterStop(w: Setup, p: seq<Bar>, b: Bar)
    requires w.risk > 0.0 && FirstIndex(p, StopBar(w)) < |p|
    ensures ScoresOf(w, p + [b]) == ScoresOf(w, p)
  {
    hide OutcomeOf, MaxFavorable, MaxAdverse, HitAt, Untouched, Scored, CleanStop, FlagsOf, AmbiguousOf, Hits;
    TouchBeforeStop(w, p);
    TouchSnoc(w, p, b);
    OutcomeSnoc(w, p, b);
    ScoredKept(w, p, b);
    FlagsKept(w, p, b);
    HitsOfSameBars(w, p, p + [b]);
  }

  lemma TouchBeforeStop(w: Setup, p: seq<Bar>)
    ensures FirstIndex(p, TouchBar(w)) <= FirstIndex(p, StopBar(w))
  {
    var k, s := FirstIndex(p, TouchBar(w)), FirstIndex(p, StopBar(w));
    assert s < |p| ==> TouchBar(w)(p[s]);
  }

  lemma FlagsKept(w: Setup, p: seq<Bar>, b: Bar)
    requires FirstIndex(p, TouchBar(w)) < |p|
    ensures FlagsOf(w, p + [b]) == FlagsOf(w, p) && AmbiguousOf(w, p + [b]) == AmbiguousOf(w, p)
  {
    hide OutcomeOf;
    TouchSnoc(w, p, b);
    OutcomeSnoc(w, p, b);
    HitSnoc(p, b, TouchBar(w));
    var k := FirstIndex(p, TouchBar(w));
    assert (p + [b])[k] == p[k];
  }

  function RaiseHits(w: Setup, hits: seq<Option<int>>, b: Bar): seq<Option<int>>
    requires w.risk > 0.0 && |hits| == 4
  {
    seq(4, q requires 0 <= q < 4 =>
      if hits[q].None? && FavR(w, b) >= THRESHOLDS_R[q] then Some(b.start) else hits[q])
  }

  lemma HitsSnoc(w: Setup, p: seq<Bar>, b: Bar)
    requires w.risk > 0.0 && Scored(w, p) == p && Scored(w, p + [b]) == p + [b]
    ensures Hits(w, p + [b]) == RaiseHits(w, Hits(w, p), b)
  {
    hide HitAt, Scored, FavR;
    forall q | 0 <= q < 4 ensures Hits(w, p + [b])[q] == RaiseHits(w, Hits(w, p), b)[q] {
      HitSnoc(p, b, AtLeast(w, THRESHOLDS_R[q]));
    }
  }

  lemma ExtremesSnoc(w: Setup, p: seq<Bar>, b: Bar)
    requires w.risk > 0.0
    ensures MaxFavorable(w, p + [b]) == Higher(FavR(w, b), MaxFavorable(w, p))
    ensures MaxAdverse(w, p + [b]) == Lower(AdvR(w, b), MaxAdverse(w, p))
  {
    hide FavR, AdvR;
    assert (p + [b])[..|p + [b]| - 1] == p;
  }

  /** A bar before the stop that does not touch the stop. */
  lemma StepScored(w: Setup, p: seq<Bar>, b: Bar)
    requires w.risk > 0.0 && FirstIndex(p, StopBar(w)) == |p| && !StopBar(w)(b)
    ensures var was := ScoresOf(w, p);
            var hit1 := was.target1At.None? && TargetBar(w, w.target1)(b);
            ScoresOf(w, p + [b]) == was.(
              mfeR := Higher(FavR(w, b), was.mfeR), maeR := Lower(AdvR(w, b), was.maeR),
              hits := RaiseHits(w, was.hits, b),
              adverseBeforeTarget := if was.target1At.None? && !hit1 then Lower(AdvR(w, b), was.adverseBeforeTarget)
                                     else was.adverseBeforeTarget,
              target1At := if hit1 then Some(b.start) else was.target1At,
              target2At := if was.target2At.None? && TargetBar(w, w.target2)(b) then Some(b.start) else was.target2At,
              outcome := if hit1 then TargetFirst else was.outcome,
              decisive := if hit1 then Target1 else was.decisive)
  {
    hide ScoresOf, OutcomeOf, MaxFavorable, MaxAdverse, HitAt, Untouched, Scored, FavR, AdvR, Hits, RaiseHits;
    hide StopBar, TargetBar, TouchBar, FirstIndex;
    FirstIndexSnoc(p, b, StopBar(w));
    StopFree(w, p);
    StopFree(w, p + [b]);
    TouchOrStop(w, b);
    TouchSnoc(w, p, b);
    HitSnoc(p, b, TargetBar(w, w.target1));
    HitSnoc(p, b, TargetBar(w, w.target2));
    HitsSnoc(w, p, b);
    ExtremesSnoc(w, p, b);
  }

  /** The scores while no bar has touched the stop. */
  lemma StopFree(w: Setup, p: seq<Bar>)
    requires w.risk > 0.0 && FirstIndex(p, StopBar(w)) == |p|
    ensures Scored(w, p) == p && FirstIndex(p, TouchBar(w)) == FirstIndex(p, TargetBar(w, w.target1))
    ensures var hit := HitAt(p, TargetBar(w, w.target1));
            && (hit.Some? <==> FirstIndex(p, TouchBar(w)) < |p|)
            && ScoresOf(w, p) ==
               Scores(if hit.Some? then TargetFirst else Unresolved, if hit.Some? then Target1 else SessionEnd,
                      MaxFavorable(w, p), MaxAdverse(w, p), MaxAdverse(w, Untouched(w, p)),
                      Hits(w, p), None, hit, HitAt(p, TargetBar(w, w.target2)), None, [])
  {
    hide MaxFavorable, MaxAdverse, Untouched, Hits, OutcomeOf, StopBar, TargetBar, TouchBar;
    TouchIsTarget(w, p);
    NotAmbiguous(w, p);
  }

  lemma TouchOrStop(w: Setup, b: Bar)
    ensures TouchBar(w)(b) <==> StopBar(w)(b) || TargetBar(w, w.target1)(b)
  {
  }

  lemma NotAmbiguous(w: Setup, p: seq<Bar>)
    requires OutcomeOf(w, p) != Ambiguous
    ensures FlagsOf(w, p) == [] && AmbiguousOf(w, p) == None
  {
  }

  /** A stop bar that cannot be ordered ends the walk. */
  lemma StepAmbiguous(w: Setup, p: seq<Bar>, b: Bar)
    requires w.risk > 0.0 && FirstIndex(p, StopBar(w)) == |p| && StopBar(w)(b)
    requires ScoresOf(w, p).target1At.None?
    requires TargetBar(w, w.target1)(b) || (p == [] && w.crossFirst)
    ensures ScoresOf(w, p + [b]) == ScoresOf(w, p).(
              outcome := Ambiguous, decisive := AmbiguousBar, ambiguousBar := Some(SnapshotOf(w, b)),
              flags := if TargetBar(w, w.target1)(b) then [SameBarTargetStop] else [TriggerPathAmbiguous])
  {
    hide MaxFavorable, MaxAdverse, FavR, AdvR, Hits, HitAt, Scored, Untouched;
    TouchIsTarget(w, p);
    HitSnoc(p, b, TargetBar(w, w.target1));
    HitSnoc(p, b, TouchBar(w));
    TouchSnoc(w, p, b);
    OutcomeSnoc(w, p, b);
    StopSnoc(w, p, b);
    assert (p + [b])[|p|] == b;
    HitsOfSameBars(w, p, p + [b]);
  }

  lemma StopSnoc(w: Setup, p: seq<Bar>, b: Bar)
    requires FirstIndex(p, StopBar(w)) == |p| && StopBar(w)(b)
    ensures FirstIndex(p + [b], StopBar(w)) == |p| && Scored(w, p + [b]) == p == Scored(w, p)
  {
    FirstIndexSnoc(p, b, StopBar(w));
    assert (p + [b])[..|p|] == p;
  }

  lemma HitsOfSameBars(w: Setup, p: seq<Bar>, q: seq<Bar>)
    requires w.risk > 0.0 && Scored(w, p) == Scored(w, q)
    ensures Hits(w, p) == Hits(w, q)
  {
  }

  /** A stop bar that can be ordered. */
  lemma StepCleanStop(w: Setup, p: seq<Bar>, b: Bar)
    requires w.risk > 0.0 && FirstIndex(p, StopBar(w)) == |p| && StopBar(w)(b)
    requires ScoresOf(w, p).target1At.Some? || !(TargetBar(w, w.target1)(b) || (p == [] && w.crossFirst))
    ensures var was := ScoresOf(w, p);
            ScoresOf(w, p + [b]) == was.(
              maeR := Lower(AdvR(w, b), was.maeR), invalidationAt := Some(b.start),
              outcome := if was.outcome.Unresolved? then InvalidationFirst else was.outcome,
              decisive := if was.outcome.Unresolved? then Invalidation else was.decisive)
  {
    hide MaxFavorable, MaxAdverse, FavR, AdvR, Hits, HitAt, Scored, Untouched;
    TouchIsTarget(w, p);
    HitSnoc(p, b, TargetBar(w, w.target1));
    TouchSnoc(w, p, b);
    OutcomeSnoc(w, p, b);
    StopSnoc(w, p, b);
    assert (p + [b])[|p|] == b;
    HitsOfSameBars(w, p, p + [b]);
  }

  /** Once the stop, or an ambiguous bar, has been seen, appending bars changes no score. */
  lemma {:induction false} StoppedIsFinal(w: Setup, seen: seq<Bar>, later: seq<Bar>)
    requires w.risk > 0.0 && FirstIndex(seen, StopBar(w)) < |seen|
    ensures ScoresOf(w, seen + later) == ScoresOf(w, seen)
    decreases |later|
  {
    hide ScoresOf;
    if later == [] {
      assert seen + later == seen;
    } else {
      StepAfterStop(w, seen, later[0]);
      FirstIndexSnoc(seen, later[0], StopBar(w));
      StoppedIsFinal(w, seen + [later[0]], later[1..]);
      assert seen + later == seen + [later[0]] + later[1..];
    }
  }

  // ----- the loop -----

  class PathView {
    const entryReference: Option<real>
    const entryAt: Option<int>
    const structuralRisk: real
    const target1: Option<real>
    const target2: Option<real>
    var mfe: Option<real>
    var mfeR: Option<real>
    var mae: Option<real>
    var maeR: Option<real>
    var closeR: Option<real>
    var adverseBeforeTarget: Option<real>
    var hits: seq<Option<int>>
    var invalidationHitAt: Option<int>
    var target1HitAt: Option<int>
    var target2HitAt: Option<int>
    var firstDecisive: Option<Decisive>
    var minutesTo1R: Option<real>
    var minutesToTarget1: Option<real>
    var minutesToInvalidation: Option<real>
    var outcome: Outcome
    var ambiguousBar: Option<Snapshot>
    var forwardBars: nat
    var flags: seq<Flag>

    constructor (entry: Option<real>, entryAt: Option<int>, risk: real, target1: Option<real>, target2: Option<real>)
      ensures Blank() && entryReference == entry && this.entryAt == entryAt && structuralRisk == risk
      ensures this.target1 == target1 && this.target2 == target2
    {
      entryReference, this.entryAt, structuralRisk := entry, entryAt, risk;
      this.target1, this.target2 := target1, target2;
      mfe, mfeR, mae, maeR, closeR, adverseBeforeTarget := None, None, None, None, None, None;
      hits := [None, None, None, None];
      invalidationHitAt, target1HitAt, target2HitAt, firstDecisive := None, None, None, None;
      minutesTo1R, minutesToTarget1, minutesToInvalidation := None, None, None;
      outcome, ambiguousBar, forwardBars, flags := DataInvalid, None, 0, [];
    }

    /** The view as it is built: nothing scored yet. */
    predicate Blank()
      reads this
    {
      && mfe == mfeR == mae == maeR == closeR == adverseBeforeTarget == None
      && hits == [None, None, None, None]
      && invalidationHitAt == target1HitAt == target2HitAt == None && firstDecisive == None
      && minutesTo1R == minutesToTarget1 == minutesToInvalidation == None
      && outcome == DataInvalid && ambiguousBar == None && forwardBars == 0 && flags == []
    }

    /** The view reports exactly the given scores, in R and in price. */
    ghost predicate Reports(s: Scores)
      reads this
    {
      Figures(s) && Events(s) && outcome == s.outcome && firstDecisive == Some(s.decisive)
    }

    ghost predicate Figures(s: Scores)
      reads this
    {
      && mfeR == Some(s.mfeR) && mfe == Some(InPrice(s.mfeR, structuralRisk))
      && maeR == Some(s.maeR) && mae == Some(InPrice(s.maeR, structuralRisk))
      && adverseBeforeTarget == Some(s.adverseBeforeTarget) && hits == s.hits
      && (|s.hits| > 1 ==> minutesTo1R == MinutesTo(entryAt, s.hits[1]))
    }

    ghost predicate Events(s: Scores)
      reads this
    {
      && invalidationHitAt == s.invalidationAt && target1HitAt == s.target1At && target2HitAt == s.target2At
      && ambiguousBar == s.ambiguousBar && flags == s.flags
      && minutesToTarget1 == MinutesTo(entryAt, s.target1At)
      && minutesToInvalidation == MinutesTo(entryAt, s.invalidationAt)
    }

    /** What the loop has written into the view after scoring s, before the closing lines. */
    ghost predicate Written(s: Scores)
      reads this
    {
      && outcome == (if s.outcome.Unresolved? then DataInvalid else s.outcome)
      && firstDecisive == (if s.outcome.Unresolved? then None else Some(s.decisive))
      && Events(s)
    }
  }

  /** Minutes from the entry to the end of the bar starting at the given time. */
  function MinutesTo(entryAt: Option<int>, barStart: Option<int>): Option<real> {
    if entryAt.Some? && barStart.Some? then Some((barStart.value + FIVE - entryAt.value) as real / 60.0) else None
  }

  lemma MinutesToNone(entryAt: Option<int>)
    ensures MinutesTo(entryAt, None) == None
  {
  }

  /** An excursion in R as a price distance. */
  function InPrice(r: real, risk: real): real {
    r * risk
  }

  datatype Tally = Tally(mfe: real, mae: real, adverse: real, thresholds: seq<Option<int>>)

  ghost predicate Tallied(t: Tally, s: Scores) {
    t.mfe == s.mfeR && t.mae == s.maeR && t.adverse == s.adverseBeforeTarget && t.thresholds == s.hits
  }

  method RaiseThresholds(w: Setup, hits: seq<Option<int>>, b: Bar) returns (r: seq<Option<int>>)
    requires w.risk > 0.0 && |hits| == 4
    ensures r == RaiseHits(w, hits, b)
  {
    r := hits;
    for q := 0 to 4
      invariant |r| == 4
      invariant forall m :: 0 <= m < q ==> r[m] == RaiseHits(w, hits, b)[m]
      invariant forall m :: q <= m < 4 ==> r[m] == hits[m]
    {
      if r[q].None? && FavR(w, b) >= THRESHOLDS_R[q] {
        r := r[q := Some(b.start)];
      }
    }
  }

  lemma NothingSeen(w: Setup)
    requires w.risk > 0.0
    ensures ScoresOf(w, []) ==
            Scores(Unresolved, SessionEnd, 0.0, 0.0, 0.0, [None, None, None, None], None, None, None, None, [])
    ensures FirstIndex([], StopBar(w)) == 0
  {
  }

  lemma UnresolvedIsUndecided(w: Setup, p: seq<Bar>)
    requires w.risk > 0.0 && FirstIndex(p, StopBar(w)) == |p|
    ensures var s := ScoresOf(w, p);
            && (s.target1At.None? <==> s.outcome.Unresolved?)
            && s.decisive == DecisiveOf(s.outcome) && s.invalidationAt == None && |s.hits| == 4
            && s.outcome != Ambiguous && s.ambiguousBar == None && s.flags == []
  {
    hide MaxFavorable, MaxAdverse;
    TouchIsTarget(w, p);
  }

  /** The loop body for one bar that ends the walk or is scored by it; stop is whether the loop
      breaks here, inv whether the stop has been seen after it. */
  method WalkBar(view: PathView, w: Setup, t: Tally, b: Bar, index: nat, ghost p: seq<Bar>)
    returns (next: Tally, inv: bool, stop: bool)
    requires w.risk > 0.0 && index == |p| && FirstIndex(p, StopBar(w)) == |p|
    requires view.Written(ScoresOf(w, p)) && Tallied(t, ScoresOf(w, p))
    modifies view`outcome, view`firstDecisive, view`ambiguousBar, view`flags, view`invalidationHitAt
    modifies view`target1HitAt, view`target2HitAt, view`minutesToTarget1, view`minutesToInvalidation
    ensures view.Written(ScoresOf(w, p + [b])) && Tallied(next, ScoresOf(w, p + [b]))
    ensures inv || stop <==> StopBar(w)(b)
  {
    hide ScoresOf, FavR, AdvR, FirstIndex, MinutesTo;
    MinutesToNone(view.entryAt);
    UnresolvedIsUndecided(w, p);
    var touchedInv, reached1, reached2 := StopBar(w)(b), TargetBar(w, w.target1)(b), TargetBar(w, w.target2)(b);
    var touched1, touched2 := view.target1HitAt.None? && reached1, view.target2HitAt.None? && reached2;
    next, inv, stop := t, false, false;
    if touchedInv && touched1 {
      StepAmbiguous(w, p, b);
      view.outcome := Ambiguous;
      view.ambiguousBar := Some(Snapshot(b.start, b.open, b.high, b.low, b.close,
                                         TargetAndStop(w.target1.value, w.invalidation)));
      view.flags := view.flags + [SameBarTargetStop];
      view.firstDecisive := Some(AmbiguousBar);
      stop := true;
      return;
    }
    if index == 0 && w.crossFirst && touchedInv {
      NothingSeen(w);
      StepAmbiguous(w, p, b);
      view.outcome := Ambiguous;
      view.ambiguousBar := Some(Snapshot(b.start, b.open, b.high, b.low, b.close,
                                         TriggerAndStop(w.entry, w.invalidation)));
      view.flags := view.flags + [TriggerPathAmbiguous];
      view.firstDecisive := Some(AmbiguousBar);
      stop := true;
      return;
    }
    if touchedInv {
      StepCleanStop(w, p, b);
      inv := true;
      next := next.(mae := Lower(AdvR(w, b), t.mae));
      view.invalidationHitAt := Some(b.start);
      view.minutesToInvalidation := MinutesTo(view.entryAt, Some(b.start));
      if view.firstDecisive.None? {
        view.firstDecisive := Some(Invalidation);
        view.outcome := InvalidationFirst;
      }
      return;
    }
    StepScored(w, p, b);
    var thresholds := RaiseThresholds(w, t.thresholds, b);
    next := next.(mfe := Higher(FavR(w, b), t.mfe), mae := Lower(AdvR(w, b), t.mae), thresholds := thresholds);
    if view.target1HitAt.None? && !touched1 {
      next := next.(adverse := Lower(AdvR(w, b), t.adverse));
    }
    if touched1 {
      view.target1HitAt := Some(b.start);
      view.minutesToTarget1 := MinutesTo(view.entryAt, Some(b.start));
      if view.firstDecisive.None? {
        view.firstDecisive := Some(Target1);
        view.outcome := TargetFirst;
      }
    }
    if touched2 {
      view.target2HitAt := Some(b.start);
    }
  }

  predicate Walkable(view: PathView, bars: seq<Bar>) {
    view.entryReference.Some? && bars != [] && view.structuralRisk > 0.0
  }

  function SetupOf(view: PathView, d: Direction, invalidation: real, crossFirst: bool): Setup
    requires view.entryReference.Some?
  {
    Setup(d, view.entryReference.value, view.structuralRisk, view.target1, view.target2, invalidation, crossFirst)
  }

  /** The loop over the bars, left at the first ambiguous one. */
  method WalkBars(view: PathView, w: Setup, bars: seq<Bar>) returns (t: Tally)
    requires view.Blank() && w.risk > 0.0
    modifies view`outcome, view`firstDecisive, view`ambiguousBar, view`flags, view`invalidationHitAt
    modifies view`target1HitAt, view`target2HitAt, view`minutesToTarget1, view`minutesToInvalidation
    ensures view.Written(ScoresOf(w, bars)) && Tallied(t, ScoresOf(w, bars))
  {
    hide ScoresOf, FirstIndex, MinutesTo, Tallied;
    MinutesToNone(view.entryAt);
    t := Tally(0.0, 0.0, 0.0, [None, None, None, None]);
    var invHit := false;
    StartTally(w, t);
    NothingSeen(w);
    var n := 0;
    while n < |bars|
      invariant n <= |bars|
      invariant view.Written(ScoresOf(w, bars[..n])) && Tallied(t, ScoresOf(w, bars[..n]))
      invariant invHit <==> FirstIndex(bars[..n], StopBar(w)) < n
    {
      var b := bars[n];
      assert bars[..n + 1] == bars[..n] + [b];
      FirstIndexSnoc(bars[..n], b, StopBar(w));
      if invHit {
        StepAfterStop(w, bars[..n], b);
        n := n + 1;
        continue;
      }
      var stop;
      t, invHit, stop := WalkBar(view, w, t, b, n, bars[..n]);
      if stop {
        StoppedIsFinal(w, bars[..n + 1], bars[n + 1..]);
        assert bars == bars[..n + 1] + bars[n + 1..];
        return;
      }
      n := n + 1;
    }
    assert bars[..n] == bars;
  }

  lemma StartTally(w: Setup, t: Tally)
    requires w.risk > 0.0 && t == Tally(0.0, 0.0, 0.0, [None, None, None, None])
    ensures Tallied(t, ScoresOf(w, []))
  {
    NothingSeen(w);
  }

  /** The tallies go into the view, ... */
  method CloseFigures(view: PathView, t: Tally, ghost s: Scores)
    requires Tallied(t, s) && |s.hits| == 4
    modifies view`mfe, view`mfeR, view`mae, view`maeR, view`adverseBeforeTarget, view`hits, view`minutesTo1R
    ensures view.Figures(s)
  {
    hide InPrice, MinutesTo;
    view.mfeR, view.maeR := Some(t.mfe), Some(t.mae);
    view.mfe, view.mae := Some(InPrice(t.mfe, view.structuralRisk)), Some(InPrice(t.mae, view.structuralRisk));
    view.adverseBeforeTarget, view.hits := Some(t.adverse), t.thresholds;
    view.minutesTo1R := MinutesTo(view.entryAt, t.thresholds[1]);
  }

  /** ... and an untouched path is unresolved. */
  method CloseOutcome(view: PathView, ghost s: Scores)
    requires view.Written(s) && view.Figures(s)
    requires s.outcome != DataInvalid && (s.outcome.Unresolved? ==> s.decisive == SessionEnd)
    modifies view`outcome, view`firstDecisive
    ensures view.Reports(s)
  {
    hide InPrice, MinutesTo;
    if view.outcome == DataInvalid {
      view.outcome := Unresolved;
      view.firstDecisive := Some(SessionEnd);
    }
  }

  lemma ScoresShape(w: Setup, bars: seq<Bar>)
    requires w.risk > 0.0
    ensures var s := ScoresOf(w, bars);
            |s.hits| == 4 && s.outcome != DataInvalid && (s.outcome.Unresolved? ==> s.decisive == SessionEnd)
  {
  }

  /** The lines after the loop. */
  method Close(view: PathView, t: Tally, ghost w: Setup, ghost bars: seq<Bar>)
    requires w.risk > 0.0 && Tallied(t, ScoresOf(w, bars)) && view.Written(ScoresOf(w, bars))
    modifies view`mfe, view`mfeR, view`mae, view`maeR, view`adverseBeforeTarget, view`hits, view`minutesTo1R
    modifies view`outcome, view`firstDecisive
    ensures view.Reports(ScoresOf(w, bars))
  {
    hide ScoresOf, InPrice, MinutesTo, Tallied;
    ScoresShape(w, bars);
    CloseFigures(view, t, ScoresOf(w, bars));
    CloseOutcome(view, ScoresOf(w, bars));
  }

  /** Walk the bars forward and fill the view. */
  method Walk(view: PathView, d: Direction, bars: seq<Bar>, invalidation: real, crossFirst: bool)
    requires view.Blank()
    modifies view
    ensures !Walkable(view, bars) ==> view.Blank()
    ensures Walkable(view, bars) ==>
              var w := SetupOf(view, d, invalidation, crossFirst);
              && view.Reports(ScoresOf(w, bars))
              && view.closeR == Some(R(d, bars[|bars| - 1].close, w.entry, w.risk))
              && view.forwardBars == |bars|
  {
    hide ScoresOf, R, FirstIndex, InPrice, MinutesTo, Tallied;
    if !Walkable(view, bars) {
      view.outcome := DataInvalid;
      return;
    }
    var w := SetupOf(view, d, invalidation, crossFirst);
    var t := WalkBars(view, w, bars);
    Close(view, t, w, bars);
    view.forwardBars := |bars|;
    view.closeR := Some(R(d, bars[|bars| - 1].close, w.entry, w.risk));
  }
}
