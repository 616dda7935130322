/** The forward walk of one entry reference over 5-minute bars
    (alert_ranker/coverage_outcomes.py:187-351). Rounding of the reported figures is not modelled. */
module CoverageOutcomes {
  import opened Conventions
  import opened Sorting
  import opened CausalBars

  const FIVE := 300
  const THRESHOLDS_R := [0.5, 1.0, 1.5, 2.0]

  datatype Outcome = DataInvalid | Ambiguous | InvalidationFirst | TargetFirst | Unresolved

  datatype Decisive = AmbiguousBar | Invalidation | Target1 | SessionEnd

  datatype Flag = SameBarTargetStop | TriggerPathAmbiguous

  /** The two levels an ambiguous bar touched. */
  datatype Levels = TargetAndStop(target: real, stop: real) | TriggerAndStop(trigger: real, stop: real)

  /** What is kept of an ambiguous bar. */
  datatype Snapshot = Snapshot(start: int, open: real, high: real, low: real, close: real, levels: Levels)

  function Sign(d: Direction): real {
    if d.Long? then 1.0 else -1.0
  }

  function Fav(b: Bar, d: Direction): real {
    if d.Long? then b.high else b.low
  }

  function Adv(b: Bar, d: Direction): real {
    if d.Long? then b.low else b.high
  }

  predicate Reached(d: Direction, extreme: real, level: real) {
    if d.Long? then extreme >= level else extreme <= level
  }

  predicate Stopped(d: Direction, extreme: real, level: real) {
    if d.Long? then extreme <= level else extreme >= level
  }

  function R(d: Direction, price: real, entry: real, risk: real): real
    requires risk != 0.0
  {
    Sign(d) * (price - entry) / risk
  }

  /** What one walk is asked about. */
  datatype Setup = Setup(direction: Direction, entry: real, risk: real, target1: Option<real>,
                         target2: Option<real>, invalidation: real, crossFirst: bool)

  // ----- the declarative reading of a walk -----

  function StopBar(w: Setup): Bar -> bool {
    (b: Bar) => Stopped(w.direction, Adv(b, w.direction), w.invalidation)
  }

  function TargetBar(w: Setup, level: Option<real>): Bar -> bool {
    (b: Bar) => level.Some? && Reached(w.direction, Fav(b, w.direction), level.value)
  }

  function TouchBar(w: Setup): Bar -> bool {
    (b: Bar) => StopBar(w)(b) || TargetBar(w, w.target1)(b)
  }

  function FavR(w: Setup, b: Bar): real
    requires w.risk > 0.0
  {
    R(w.direction, Fav(b, w.direction), w.entry, w.risk)
  }

  function AdvR(w: Setup, b: Bar): real
    requires w.risk > 0.0
  {
    R(w.direction, Adv(b, w.direction), w.entry, w.risk)
  }

  function AtLeast(w: Setup, t: real): Bar -> bool
    requires w.risk > 0.0
  {
    (b: Bar) => FavR(w, b) >= t
  }

  /** The bars strictly before the first one that touches the stop: what MFE, thresholds and
      target hits are scored on. */
  function Scored(w: Setup, bars: seq<Bar>): seq<Bar> {
    bars[..FirstIndex(bars, StopBar(w))]
  }

  /** The bars strictly before the first one that touches either level. */
  function Untouched(w: Setup, bars: seq<Bar>): seq<Bar> {
    bars[..FirstIndex(bars, TouchBar(w))]
  }

  /** The stop bar cannot be ordered against the target, or against the entry it contains. */
  predicate UnprovableStop(w: Setup, bars: seq<Bar>, k: nat)
    requires k < |bars|
  {
    StopBar(w)(bars[k]) && (TargetBar(w, w.target1)(bars[k]) || (k == 0 && w.crossFirst))
  }

  /** First touch decides: the stop alone, the target alone, or both at once. */
  function OutcomeOf(w: Setup, bars: seq<Bar>): Outcome {
    var k := FirstIndex(bars, TouchBar(w));
    if k == |bars| then Unresolved
    else if UnprovableStop(w, bars, k) then Ambiguous
    else if StopBar(w)(bars[k]) then InvalidationFirst
    else TargetFirst
  }

  function MaxFavorable(w: Setup, bars: seq<Bar>): (m: real)
    requires w.risk > 0.0
    ensures m >= 0.0 && forall i :: 0 <= i < |bars| ==> FavR(w, bars[i]) <= m
    ensures m == 0.0 || exists i :: 0 <= i < |bars| && FavR(w, bars[i]) == m
  {
    if bars == [] then 0.0 else
    var before, last := MaxFavorable(w, bars[..|bars| - 1]), FavR(w, bars[|bars| - 1]);
    if last > before then last else before
  }

  function MaxAdverse(w: Setup, bars: seq<Bar>): (m: real)
    requires w.risk > 0.0
    ensures m <= 0.0 && forall i :: 0 <= i < |bars| ==> m <= AdvR(w, bars[i])
    ensures m == 0.0 || exists i :: 0 <= i < |bars| && AdvR(w, bars[i]) == m
  {
    if bars == [] then 0.0 else
    var before, last := MaxAdverse(w, bars[..|bars| - 1]), AdvR(w, bars[|bars| - 1]);
    if last < before then last else before
  }

  function HitAt(bars: seq<Bar>, p: Bar -> bool): Option<int> {
    var k := FirstIndex(bars, p);
    if k < |bars| then Some(bars[k].start) else None
  }

  /** The stop bar, when the walk reaches it and can order it. */
  function CleanStop(w: Setup, bars: seq<Bar>): Option<Bar> {
    var s := FirstIndex(bars, StopBar(w));
    if s < |bars| && OutcomeOf(w, bars) != Ambiguous then Some(bars[s]) else None
  }

  function Mae(w: Setup, bars: seq<Bar>): real
    requires w.risk > 0.0
  {
    var before, stop := MaxAdverse(w, Scored(w, bars)), CleanStop(w, bars);
    if stop.Some? && AdvR(w, stop.value) < before then AdvR(w, stop.value) else before
  }

  datatype Scores = Scores(
    outcome: Outcome, decisive: Decisive, mfeR: real, maeR: real, adverseBeforeTarget: real,
    hits: seq<Option<int>>, invalidationAt: Option<int>, target1At: Option<int>, target2At: Option<int>,
    ambiguousBar: Option<Snapshot>, flags: seq<Flag>)

  function DecisiveOf(o: Outcome): Decisive {
    match o
    case Ambiguous => AmbiguousBar
    case InvalidationFirst => Invalidation
    case TargetFirst => Target1
    case _ => SessionEnd
  }

  function FlagsOf(w: Setup, bars: seq<Bar>): seq<Flag> {
    if OutcomeOf(w, bars) != Ambiguous then []
    else if TargetBar(w, w.target1)(bars[FirstIndex(bars, TouchBar(w))]) then [SameBarTargetStop]
    else [TriggerPathAmbiguous]
  }

  function SnapshotOf(w: Setup, b: Bar): Snapshot {
    Snapshot(b.start, b.open, b.high, b.low, b.close,
             if TargetBar(w, w.target1)(b) then TargetAndStop(w.target1.value, w.invalidation)
             else TriggerAndStop(w.entry, w.invalidation))
  }

  function AmbiguousOf(w: Setup, bars: seq<Bar>): Option<Snapshot> {
    if OutcomeOf(w, bars) == Ambiguous then Some(SnapshotOf(w, bars[FirstIndex(bars, TouchBar(w))])) else None
  }

  function Hits(w: Setup, bars: seq<Bar>): seq<Option<int>>
    requires w.risk > 0.0
  {
    seq(4, q requires 0 <= q < 4 => HitAt(Scored(w, bars), AtLeast(w, THRESHOLDS_R[q])))
  }

  /** Everything a walk reports, read off the bars. */
  function ScoresOf(w: Setup, bars: seq<Bar>): Scores
    requires w.risk > 0.0
  {
    Scores(OutcomeOf(w, bars), DecisiveOf(OutcomeOf(w, bars)),
           MaxFavorable(w, Scored(w, bars)), Mae(w, bars), MaxAdverse(w, Untouched(w, bars)),
           Hits(w, bars), if CleanStop(w, bars).Some? then Some(CleanStop(w, bars).value.start) else None,
           HitAt(Scored(w, bars), TargetBar(w, w.target1)), HitAt(Scored(w, bars), TargetBar(w, w.target2)),
           AmbiguousOf(w, bars), FlagsOf(w, bars))
  }
}
