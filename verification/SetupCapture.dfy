/** Break resolution of armed structures (alert_ranker/setup_capture.py:617-943). Instants are
    whole microseconds; a print also carries its nanosecond stamp. */
module SetupCapture {
  import opened Conventions
  import opened Sorting

  const SECOND := 1000000
  const MAX_CAPTURE_LAG := 120 * SECOND
  const SPX_MAX_BAR_AGE := 120 * SECOND
  const MINUTE := 60 * SECOND

  // ----- which prints may set a price -----

  function Green(tape: string): set<string> {
    match tape
    case "C" => {"@", "A", "B", "D", "F", "K", "L", "O", "T", "X", "Y", "5", "6"}
    case "O" => {"@", "T"}
    case _ => {" ", "E", "F", "K", "L", "O", "T", "X", "5", "6"}
  }

  function Red(tape: string): set<string> {
    match tape
    case "C" => {"C", "G", "H", "I", "M", "N", "P", "Q", "R", "U", "V", "W", "Z", "4", "7", "9"}
    case "O" => {"C", "I", "N", "P", "R", "U", "W"}
    case _ => {"B", "C", "H", "I", "M", "N", "P", "Q", "R", "U", "V", "Z", "4", "7", "9"}
  }

  datatype Eligibility = Eligible | Ineligible | UnknownTape | EmptyConditions | UnknownCondition(c: string)

  datatype TapePrint = TapePrint(timestamp: int, timestampNs: int, price: real, tradeId: string,
                                 conditions: seq<string>, tape: string)

  function UnknownTo(tape: string): string -> bool {
    (c: string) => c !in Green(tape) && c !in Red(tape)
  }

  function MinutePriceEligible(tape: string, conditions: seq<string>): Eligibility {
    if tape !in {"A", "B", "C", "O"} then UnknownTape
    else if conditions == [] then (if tape in {"A", "B"} then Eligible else EmptyConditions)
    else
      var k := FirstIndex(conditions, UnknownTo(tape));
      if k < |conditions| then UnknownCondition(conditions[k])
      else if exists i :: 0 <= i < |conditions| && conditions[i] in Red(tape) then Ineligible
      else Eligible
  }

  lemma GreenNotRed(tape: string, c: string)
    ensures !(c in Green(tape) && c in Red(tape))
  {
    if tape == "C" {
    } else if tape == "O" {
    }
  }

  /** A print sets prices exactly when its tape is known and its conditions are all green, at least
      one of them unless the tape may omit them. */
  lemma EligibleIffGreen(tape: string, conditions: seq<string>)
    ensures MinutePriceEligible(tape, conditions) == Eligible <==>
            && tape in {"A", "B", "C", "O"}
            && (conditions == [] ==> tape in {"A", "B"})
            && (forall i :: 0 <= i < |conditions| ==> conditions[i] in Green(tape))
  {
    hide Green, Red;
    var k := FirstIndex(conditions, UnknownTo(tape));
    forall i | 0 <= i < |conditions| && k == |conditions|
      ensures conditions[i] in Green(tape) <==> conditions[i] !in Red(tape)
    {
      assert !UnknownTo(tape)(conditions[i]);
      GreenNotRed(tape, conditions[i]);
    }
  }

  // ----- the first break on the tape -----

  predicate PrintLe(a: TapePrint, b: TapePrint) {
    a.timestampNs < b.timestampNs || (a.timestampNs == b.timestampNs && StringLe(a.tradeId, b.tradeId))
  }

  lemma PrintOrder()
    ensures TotalPreorder(PrintLe)
  {
    hide StringLe;
    forall x: TapePrint, y: TapePrint ensures PrintLe(x, y) || PrintLe(y, x) {
      StringTotal(x.tradeId, y.tradeId);
    }
    forall x: TapePrint, y: TapePrint, z: TapePrint | PrintLe(x, y) && PrintLe(y, z) ensures PrintLe(x, z) {
      if x.timestampNs == y.timestampNs && y.timestampNs == z.timestampNs {
        StringTransitive(x.tradeId, y.tradeId, z.tradeId);
      }
    }
  }

  datatype Armed = Armed(high: real, low: real, watchStart: int, watchUntil: int)

  datatype Window = Window(start: int, end: int)

  predicate InWatch(t: int, w: Window) {
    w.start <= t < w.end
  }

  function Unreadable(w: Window): TapePrint -> bool {
    (p: TapePrint) => InWatch(p.timestamp, w) && !MinutePriceEligible(p.tape, p.conditions).Eligible?
                      && !MinutePriceEligible(p.tape, p.conditions).Ineligible?
  }

  function Counts(w: Window): TapePrint -> bool {
    (p: TapePrint) => InWatch(p.timestamp, w) && MinutePriceEligible(p.tape, p.conditions).Eligible?
  }

  function Above(a: Armed): TapePrint -> bool {
    (p: TapePrint) => p.price > a.high
  }

  function Below(a: Armed): TapePrint -> bool {
    (p: TapePrint) => p.price < a.low
  }

  datatype PrintBreak =
    | Blocked(why: Eligibility)
    | AmbiguousBreak
    | NoBreak(eligible: nat)
    | Proven(direction: Direction, trade: TapePrint, gapThrough: bool, firstPrice: real)

  /** Opening gap: the break is the first eligible print, within a second of the watch start. */
  predicate GapThrough(first: TapePrint, trade: TapePrint, a: Armed) {
    && first.tradeId == trade.tradeId && first.timestampNs == trade.timestampNs
    && -SECOND < trade.timestamp - a.watchStart < SECOND
  }

  function BreakOf(eligible: seq<TapePrint>, a: Armed): PrintBreak {
    var h, l, n := FirstIndex(eligible, Above(a)), FirstIndex(eligible, Below(a)), |eligible|;
    if h == n && l == n then NoBreak(n)
    else if h < n && l < n && eligible[h].timestampNs == eligible[l].timestampNs then AmbiguousBreak
    else
      var high := h < n && (l == n || eligible[h].timestampNs <= eligible[l].timestampNs);
      var trade := if high then eligible[h] else eligible[l];
      Proven(if high then Long else Short, trade, GapThrough(eligible[0], trade, a), eligible[0].price)
  }

  /** What the tape proves about the window. */
  function FirstBoundary(prints: seq<TapePrint>, a: Armed, w: Window): PrintBreak {
    var k := FirstIndex(prints, Unreadable(w));
    if k < |prints| then Blocked(MinutePriceEligible(prints[k].tape, prints[k].conditions))
    else BreakOf(StableSort(Filter(prints, Counts(w)), PrintLe), a)
  }

  method FirstBoundaryFromPrints(prints: seq<TapePrint>, a: Armed, w: Window) returns (r: PrintBreak)
    ensures r == FirstBoundary(prints, a, w)
  {
    hide MinutePriceEligible, StableSort, PrintLe;
    var eligible: seq<TapePrint> := [];
    for i := 0 to |prints|
      invariant eligible == Filter(prints[..i], Counts(w))
      invariant forall j :: 0 <= j < i ==> !Unreadable(w)(prints[j])
    {
      var item := prints[i];
      assert prints[..i + 1] == prints[..i] + [item];
      FilterSnoc(prints[..i], item, Counts(w));
      assert eligible + [] == eligible;
      if !InWatch(item.timestamp, w) {
        continue;
      }
      var verdict := MinutePriceEligible(item.tape, item.conditions);
      if verdict.Ineligible? {
        continue;
      }
      if !verdict.Eligible? {
        FirstIndexIs(prints, Unreadable(w), i);
        return Blocked(verdict);
      }
      eligible := eligible + [item];
    }
    assert prints[..|prints|] == prints;
    FirstIndexIs(prints, Unreadable(w), |prints|);
    eligible := StableSort(eligible, PrintLe);
    var h, l := FirstIndex(eligible, Above(a)), FirstIndex(eligible, Below(a));
    if h < |eligible| && l < |eligible| && eligible[h].timestampNs == eligible[l].timestampNs {
      return AmbiguousBreak;
    }
    if h == |eligible| && l == |eligible| {
      return NoBreak(|eligible|);
    }
    var direction, trade := Short, eligible[if l < |eligible| then l else h];
    if h < |eligible| && (l == |eligible| || eligible[h].timestampNs < eligible[l].timestampNs) {
      direction, trade := Long, eligible[h];
    }
    r := Proven(direction, trade, GapThrough(eligible[0], trade, a), eligible[0].price);
  }

  /** An eligible print inside the window and outside the boundaries. */
  predicate Breaks(p: TapePrint, a: Armed, w: Window) {
    Counts(w)(p) && (Above(a)(p) || Below(a)(p))
  }

  /** A proven break is the earliest eligible print of the window outside the boundaries, and no
      other side was crossed at the same instant. */
  lemma ProvenIsEarliest(prints: seq<TapePrint>, a: Armed, w: Window)
    ensures var r := FirstBoundary(prints, a, w);
            r.Proven? ==>
              && r.trade in prints && Breaks(r.trade, a, w)
              && (if r.direction.Long? then Above(a)(r.trade) else Below(a)(r.trade))
              && forall q :: q in prints && Breaks(q, a, w) ==>
                   PrintLe(r.trade, q)
                   && (q.timestampNs == r.trade.timestampNs ==>
                         if r.direction.Long? then !Below(a)(q) else !Above(a)(q))
  {
    hide MinutePriceEligible, StableSort;
    var r := FirstBoundary(prints, a, w);
    if r.Proven? {
      var kept := Filter(prints, Counts(w));
      var eligible := StableSort(kept, PrintLe);
      PrintOrder();
      SortSorts(kept, PrintLe);
      FilterMembers(prints, Counts(w));
      var h, l := FirstIndex(eligible, Above(a)), FirstIndex(eligible, Below(a));
      assert r.trade in eligible;
      forall q | q in prints && Breaks(q, a, w)
        ensures PrintLe(r.trade, q)
        ensures q.timestampNs == r.trade.timestampNs ==> if r.direction.Long? then !Below(a)(q) else !Above(a)(q)
      {
        assert q in eligible;
        var i :| 0 <= i < |eligible| && eligible[i] == q;
        EarliestAt(eligible, a, i);
      }
    }
  }

  lemma EarliestAt(eligible: seq<TapePrint>, a: Armed, i: nat)
    requires SortedBy(eligible, PrintLe) && TotalPreorder(PrintLe) && i < |eligible| && BreakOf(eligible, a).Proven?
    requires Above(a)(eligible[i]) || Below(a)(eligible[i])
    ensures var r := BreakOf(eligible, a);
            && PrintLe(r.trade, eligible[i])
            && (eligible[i].timestampNs == r.trade.timestampNs ==>
                  if r.direction.Long? then !Below(a)(eligible[i]) else !Above(a)(eligible[i]))
  {
    hide StringLe;
    var h, l, n := FirstIndex(eligible, Above(a)), FirstIndex(eligible, Below(a)), |eligible|;
    assert Above(a)(eligible[i]) ==> h <= i && (h == i || PrintLe(eligible[h], eligible[i]));
    assert Below(a)(eligible[i]) ==> l <= i && (l == i || PrintLe(eligible[l], eligible[i]));
    assert PrintLe(eligible[i], eligible[i]);
  }

  /** The answer on a readable tape does not depend on the order the prints arrive in, as long as
      no two different eligible prints share stamp and trade id. */
  lemma BreakIgnoresOrder(prints: seq<TapePrint>, again: seq<TapePrint>, a: Armed, w: Window)
    requires multiset(prints) == multiset(again)
    requires NoTies(Filter(prints, Counts(w)), PrintLe)
    requires forall p :: p in prints ==> !Unreadable(w)(p)
    ensures FirstBoundary(prints, a, w) == FirstBoundary(again, a, w)
  {
    hide MinutePriceEligible, StableSort, PrintLe, BreakOf, Unreadable;
    SameMembers(prints, again);
    FirstIndexIs(prints, Unreadable(w), |prints|);
    FirstIndexIs(again, Unreadable(w), |again|);
    FilterSameBag(prints, again, Counts(w));
    PrintOrder();
    SortPermutation(Filter(prints, Counts(w)), Filter(again, Counts(w)), PrintLe);
  }

  // ----- the first break on index minute bars -----

  datatype MinuteBar = MinuteBar(start: int, open: real, high: real, low: real)

  function Admitted(w: Window, now: int): MinuteBar -> bool {
    (b: MinuteBar) => InWatch(b.start, w) && b.start + MINUTE <= now
  }

  function BarAbove(a: Armed): MinuteBar -> bool {
    (b: MinuteBar) => b.high > a.high
  }

  function BarBelow(a: Armed): MinuteBar -> bool {
    (b: MinuteBar) => b.low < a.low
  }

  datatype BarBreak =
    | BarAmbiguous(delayed: bool)
    | BarNoBreak(delayed: bool, newestAge: Option<int>)
    | BarProven(direction: Direction, bar: MinuteBar, gapThrough: bool, firstOpen: real, delayed: bool,
                newestAge: Option<int>)

  function NewestStart(bars: seq<MinuteBar>): int
    requires bars != []
  {
    var last := bars[|bars| - 1].start;
    if |bars| == 1 then last else
    var before := NewestStart(bars[..|bars| - 1]);
    if last > before then last else before
  }

  /** How long ago the newest admitted bar ended. */
  function NewestAge(admitted: seq<MinuteBar>, now: int): Option<int> {
    if admitted == [] then None else Some(now - (NewestStart(admitted) + MINUTE))
  }

  /** The feed is late when its newest admitted bar ended more than two minutes ago. */
  predicate Delayed(admitted: seq<MinuteBar>, now: int) {
    NewestAge(admitted, now).None? || NewestAge(admitted, now).value > SPX_MAX_BAR_AGE
  }

  /** first_boundary_from_index_minutes: the first admitted bars, in list order, through either
      boundary. */
  function FirstIndexBoundary(bars: seq<MinuteBar>, a: Armed, w: Window, now: int): BarBreak {
    BarBreakOf(Filter(bars, Admitted(w, now)), a, now)
  }

  function BarBreakOf(admitted: seq<MinuteBar>, a: Armed, now: int): BarBreak {
    var h, l, n := FirstIndex(admitted, BarAbove(a)), FirstIndex(admitted, BarBelow(a)), |admitted|;
    var delayed, age := Delayed(admitted, now), NewestAge(admitted, now);
    if h < n && l < n && admitted[h].start == admitted[l].start then BarAmbiguous(delayed)
    else if h == n && l == n then BarNoBreak(delayed, age)
    else
      var high := h < n && (l == n || admitted[h].start <= admitted[l].start);
      var hit := if high then admitted[h] else admitted[l];
      var gap := hit.start == admitted[0].start
                 && if high then admitted[0].open > a.high else admitted[0].open < a.low;
      BarProven(if high then Long else Short, hit, gap, admitted[0].open, delayed, age)
  }

  /** The method answers what FirstIndexBoundary says. */
  method FirstBoundaryFromIndexMinutes(bars: seq<MinuteBar>, a: Armed, w: Window, now: int) returns (r: BarBreak)
    ensures r == FirstIndexBoundary(bars, a, w, now)
  {
    hide Filter, NewestStart;
    var admitted: seq<MinuteBar> := [];
    FilterNone<MinuteBar>([], Admitted(w, now));
    for i := 0 to |bars|
      invariant admitted == Filter(bars[..i], Admitted(w, now))
    {
      assert bars[..i + 1] == bars[..i] + [bars[i]];
      FilterSnoc(bars[..i], bars[i], Admitted(w, now));
      if !InWatch(bars[i].start, w) {
        continue;
      }
      if bars[i].start + MINUTE > now {
        continue;
      }
      admitted := admitted + [bars[i]];
    }
    assert bars[..|bars|] == bars;
    var delayed, age: Option<int> := true, None;
    if admitted != [] {
      age := Some(now - (NewestStart(admitted) + MINUTE));
      delayed := age.value > SPX_MAX_BAR_AGE;
    }
    var h, l, n := FirstIndex(admitted, BarAbove(a)), FirstIndex(admitted, BarBelow(a)), |admitted|;
    if h < n && l < n && admitted[h].start == admitted[l].start {
      return BarAmbiguous(delayed);
    }
    if h == n && l == n {
      return BarNoBreak(delayed, age);
    }
    var direction, hit := Short, admitted[if l < n then l else h];
    if h < n && (l == n || admitted[h].start <= admitted[l].start) {
      direction, hit := Long, admitted[h];
    }
    var first := admitted[0];
    var gap := hit.start == first.start
               && ((direction.Long? && first.open > a.high) || (direction.Short? && first.open < a.low));
    r := BarProven(direction, hit, gap, first.open, delayed, age);
  }

  predicate BarNotAfter(x: MinuteBar, y: MinuteBar) {
    x.start <= y.start
  }

  /** An admitted bar through either boundary. */
  predicate BarBreaks(b: MinuteBar, a: Armed, w: Window, now: int) {
    Admitted(w, now)(b) && (BarAbove(a)(b) || BarBelow(a)(b))
  }

  /** If the index feed proves a break, it is the earliest admitted bar through either boundary. */
  ghost predicate ReportsEarliest(bars: seq<MinuteBar>, a: Armed, w: Window, now: int) {
    var r := FirstIndexBoundary(bars, a, w, now);
    r.BarProven? ==>
      && r.bar in bars && BarBreaks(r.bar, a, w, now)
      && forall b :: b in bars && BarBreaks(b, a, w, now) ==> r.bar.start <= b.start
  }

  /** On bars in time order, a proven break is the earliest admitted bar outside the boundaries. */
  lemma BarProvenIsEarliest(bars: seq<MinuteBar>, a: Armed, w: Window, now: int)
    requires SortedBy(bars, BarNotAfter)
    ensures ReportsEarliest(bars, a, w, now)
  {
    hide Filter, Admitted, BarAbove, BarBelow, BarBreakOf;
    var admitted := Filter(bars, Admitted(w, now));
    FilterMembers(bars, Admitted(w, now));
    FilterSorted(bars, BarNotAfter, Admitted(w, now));
    var r := BarBreakOf(admitted, a, now);
    if r.BarProven? {
      EarliestBar(admitted, a, now);
      forall b | b in bars && BarBreaks(b, a, w, now) ensures r.bar.start <= b.start {
        assert b in admitted;
      }
    }
  }

  lemma EarliestBar(admitted: seq<MinuteBar>, a: Armed, now: int)
    requires SortedBy(admitted, BarNotAfter)
    requires BarBreakOf(admitted, a, now).BarProven?
    ensures var r := BarBreakOf(admitted, a, now);
            && r.bar in admitted && (BarAbove(a)(r.bar) || BarBelow(a)(r.bar))
            && forall b :: b in admitted && (BarAbove(a)(b) || BarBelow(a)(b)) ==> r.bar.start <= b.start
  {
    hide BarAbove, BarBelow, Delayed;
    var h, l := FirstIndex(admitted, BarAbove(a)), FirstIndex(admitted, BarBelow(a));
    forall b | b in admitted && (BarAbove(a)(b) || BarBelow(a)(b))
      ensures BarBreakOf(admitted, a, now).bar.start <= b.start
    {
      var i :| 0 <= i < |admitted| && admitted[i] == b;
      assert BarAbove(a)(b) ==> h == i || (h < i && BarNotAfter(admitted[h], admitted[i]));
      assert BarBelow(a)(b) ==> l == i || (l < i && BarNotAfter(admitted[l], admitted[i]));
    }
  }

  function LowPrice(bars: seq<MinuteBar>): (p: real)
    ensures forall i :: 0 <= i < |bars| ==> p < bars[i].high && p < bars[i].low
  {
    if bars == [] then 0.0 else
    var n := |bars| - 1;
    var p, b := LowPrice(bars[..n]), bars[n];
    var q := if b.high < b.low then b.high else b.low;
    assert forall i :: 0 <= i < n ==> bars[i] == bars[..n][i];
    (if p < q then p else q) - 1.0
  }

  /** A window that opens with the later-listed bar of an inverted pair misses that bar. */
  lemma InversionIsMissed(bars: seq<MinuteBar>, i: nat, j: nat, a: Armed)
    requires i < j < |bars| && bars[i].start > bars[j].start
    requires forall m, n :: 0 <= m < n < |bars| ==> bars[m].start != bars[n].start
    requires forall m :: 0 <= m < |bars| ==> BarAbove(a)(bars[m]) && !BarBelow(a)(bars[m])
    ensures !ReportsEarliest(bars, a, Window(bars[j].start, bars[i].start + 1), bars[i].start + MINUTE)
  {
    hide Filter, BarAbove, BarBelow, Delayed;
    var w, now := Window(bars[j].start, bars[i].start + 1), bars[i].start + MINUTE;
    var p := Admitted(w, now);
    var k := FirstIndex(bars, p);
    assert p(bars[i]) && p(bars[j]) && k <= i;
    FilterHead(bars, p);
    FilterMembers(bars, p);
    var admitted := Filter(bars, p);
    assert bars[k] in bars && admitted[0] == bars[k];
    FirstIndexIs(admitted, BarAbove(a), 0);
    forall m | 0 <= m < |admitted| ensures !BarBelow(a)(admitted[m]) {
      assert admitted[m] in bars;
    }
    FirstIndexIs(admitted, BarBelow(a), |admitted|);
    assert bars[k].start != bars[j].start;
    assert bars[j] in bars && BarBreaks(bars[j], a, w, now);
  }

  /** The reported break is the earliest for every structure, window and instant, if and only if the
      bars, of distinct starts, come in time order. */
  lemma EarliestExactlyWhenInOrder(bars: seq<MinuteBar>)
    requires forall m, n :: 0 <= m < n < |bars| ==> bars[m].start != bars[n].start
    ensures (forall a, w, now :: ReportsEarliest(bars, a, w, now)) <==> SortedBy(bars, BarNotAfter)
  {
    hide ReportsEarliest;
    if SortedBy(bars, BarNotAfter) {
      forall a, w, now ensures ReportsEarliest(bars, a, w, now) {
        BarProvenIsEarliest(bars, a, w, now);
      }
    } else {
      var i, j :| 0 <= i < j < |bars| && !BarNotAfter(bars[i], bars[j]);
      var p := LowPrice(bars);
      InversionIsMissed(bars, i, j, Armed(p, p - 1.0, 0, 0));
    }
  }

  /** Unlike the tape, minute bars are not sorted first: out of order, the reported break need not
      be the earliest. */
  lemma UnsortedBarsCanMissTheFirst() returns (bars: seq<MinuteBar>, a: Armed, w: Window)
    ensures !ReportsEarliest(bars, a, w, 10 * MINUTE)
  {
    var early, late := MinuteBar(0, 1.0, 9.0, 1.0), MinuteBar(MINUTE, 1.0, 9.0, 1.0);
    a, w := Armed(5.0, 0.0, 0, 100 * MINUTE), Window(0, 100 * MINUTE);
    bars := [late, early];
    FilterPair(late, early, Admitted(w, 10 * MINUTE));
    assert early in bars;
  }

  // ----- resolving a watched structure -----

  datatype Status = Watching | Triggered | Expired | MissedLate | GapThroughOpen | DataBlocked | AmbiguousStatus

  datatype Resolution = NoResolution | Trade | Bar

  datatype Source = Print(trade: TapePrint) | IndexBar(bar: MinuteBar)

  /** What a break result amounts to for the resolver. */
  datatype Break =
    | Unusable
    | Simultaneous
    | Nothing
    | Through(source: Source, direction: Direction, gapThrough: bool, delayed: bool)

  datatype Record = Record(
    status: Status, persistedAt: int, prospectiveCatch: bool, captureLate: bool, gapThrough: bool, dataDelayed: bool,
    direction: Option<Direction>, crossedAt: Option<int>, triggerPrice: Option<real>, resolution: Resolution,
    publicIndexFeed: bool, detectedAt: Option<int>, sipCrossedAt: Option<int>, trueLag: Option<int>)

  function CrossedAt(s: Source): int {
    match s
    case Print(trade) => trade.timestamp
    case IndexBar(bar) => bar.start
  }

  function TriggerPrice(s: Source, d: Direction): real {
    match s
    case Print(trade) => trade.price
    case IndexBar(bar) => if d.Long? then bar.high else bar.low
  }

  /** The SIP cross when there is one, else the cross that was seen. */
  function TrueCross(s: Source, sip: Option<TapePrint>): int {
    if sip.Some? then sip.value.timestamp else CrossedAt(s)
  }

  function ResolveBreak(watching: Record, a: Armed, b: Break, now: int, detected: int,
                        sip: Option<TapePrint>, hadPreCross: bool): Record {
    match b
    case Unusable =>
      watching.(status := DataBlocked, detectedAt := Some(detected), persistedAt := now, prospectiveCatch := false)
    case Simultaneous =>
      watching.(status := AmbiguousStatus, detectedAt := Some(detected), persistedAt := now, prospectiveCatch := false)
    case Nothing =>
      if now >= a.watchUntil
      then watching.(status := Expired, detectedAt := Some(detected), persistedAt := now, prospectiveCatch := false)
      else watching
    case Through(source, direction, gap, delayed) =>
      var lag := detected - TrueCross(source, sip);
      var preArmed := hadPreCross && watching.persistedAt < TrueCross(source, sip);
      var late := !preArmed || lag > MAX_CAPTURE_LAG || delayed;
      var status := if !preArmed then MissedLate else if gap then GapThroughOpen else Triggered;
      var provisional := source.Print? && sip.None? && status.Triggered?;
      watching.(
        status := status, direction := Some(direction),
        prospectiveCatch := preArmed && !late && !gap && !provisional,
        captureLate := late, gapThrough := gap, dataDelayed := delayed,
        crossedAt := Some(CrossedAt(source)), triggerPrice := Some(TriggerPrice(source, direction)),
        resolution := if source.Print? then Trade else Bar, publicIndexFeed := source.IndexBar?,
        detectedAt := Some(detected), persistedAt := now,
        sipCrossedAt := if sip.Some? then Some(sip.value.timestamp) else None, trueLag := Some(lag))
  }

  predicate IsProspectiveCatch(r: Record) {
    && r.prospectiveCatch && r.status.Triggered? && !r.captureLate && !r.gapThrough
    && (r.resolution.Bar? || r.publicIndexFeed || r.sipCrossedAt.Some?)
  }

  /** A record counts as a prospective catch after its break is resolved exactly when the break is
      proven, the structure was persisted as WATCHING before the true cross, detection came within
      120 seconds of it, the feed was not delayed, the open did not gap through, and the cross is
      confirmed on the SIP or seen at bar resolution. */
  lemma CatchIsSound(watching: Record, a: Armed, b: Break, now: int, detected: int,
                     sip: Option<TapePrint>, hadPreCross: bool)
    requires watching.status.Watching?
    ensures IsProspectiveCatch(ResolveBreak(watching, a, b, now, detected, sip, hadPreCross)) <==>
            && b.Through? && hadPreCross && watching.persistedAt < TrueCross(b.source, sip)
            && detected - TrueCross(b.source, sip) <= MAX_CAPTURE_LAG
            && !b.delayed && !b.gapThrough && (b.source.IndexBar? || sip.Some?)
  {
    hide TriggerPrice;
    if b.Through? {
      var r := ResolveBreak(watching, a, b, now, detected, sip, hadPreCross);
      assert r.resolution.Bar? <==> b.source.IndexBar?;
    }
  }

  /** A caught record carries the evidence: its own lag and cross fields say so. */
  lemma CatchFields(watching: Record, a: Armed, b: Break, now: int, detected: int,
                    sip: Option<TapePrint>, hadPreCross: bool)
    requires watching.status.Watching?
    ensures var r := ResolveBreak(watching, a, b, now, detected, sip, hadPreCross);
            IsProspectiveCatch(r) ==>
              && r.trueLag.Some? && r.trueLag.value <= MAX_CAPTURE_LAG && !r.dataDelayed
              && r.detectedAt == Some(detected) && watching.persistedAt < detected - r.trueLag.value
              && (r.resolution.Trade? ==> r.sipCrossedAt == Some(detected - r.trueLag.value))
  {
    CatchIsSound(watching, a, b, now, detected, sip, hadPreCross);
  }

  /** The resolver's view of a tape result, ... */
  function TapeBreak(r: PrintBreak): Break {
    match r
    case Blocked(_) => Unusable
    case AmbiguousBreak => Simultaneous
    case NoBreak(_) => Nothing
    case Proven(direction, trade, gap, _) => Through(Print(trade), direction, gap, false)
  }

  /** ... of an index result, ... */
  function MinuteBreak(r: BarBreak): Break {
    match r
    case BarAmbiguous(_) => Simultaneous
    case BarNoBreak(_, _) => Nothing
    case BarProven(direction, bar, gap, _, delayed, _) => Through(IndexBar(bar), direction, gap, delayed)
  }

  /** ... and of the confirming SIP tape. */
  function SipPrint(r: PrintBreak): Option<TapePrint> {
    if r.Proven? then Some(r.trade) else None
  }

  /** End to end on the tape: a prospective catch was persisted before the earliest eligible SIP
      print outside the boundaries, and detected within 120 seconds of it. */
  lemma TapeCatch(watching: Record, a: Armed, w: Window, prints: seq<TapePrint>, sip: seq<TapePrint>,
                  now: int, detected: int, hadPreCross: bool)
    requires watching.status.Watching?
    ensures var r := ResolveBreak(watching, a, TapeBreak(FirstBoundary(prints, a, w)), now, detected,
                                  SipPrint(FirstBoundary(sip, a, w)), hadPreCross);
            IsProspectiveCatch(r) ==>
              exists p :: p in sip && Breaks(p, a, w) && watching.persistedAt < p.timestamp
                && detected - p.timestamp <= MAX_CAPTURE_LAG
                && forall q :: q in sip && Breaks(q, a, w) ==> PrintLe(p, q)
  {
    hide FirstBoundary, Breaks, PrintLe, ResolveBreak, IsProspectiveCatch;
    CatchIsSound(watching, a, TapeBreak(FirstBoundary(prints, a, w)), now, detected,
                 SipPrint(FirstBoundary(sip, a, w)), hadPreCross);
    ProvenIsEarliest(sip, a, w);
  }

  /** End to end on the index feed: a prospective catch was persisted before the earliest admitted bar
      through either boundary began, on a feed at most two minutes old, and detected within 120
      seconds of that start. */
  lemma IndexCatch(watching: Record, a: Armed, w: Window, bars: seq<MinuteBar>, now: int, detected: int,
                   hadPreCross: bool)
    requires watching.status.Watching? && SortedBy(bars, BarNotAfter)
    ensures var r := ResolveBreak(watching, a, MinuteBreak(FirstIndexBoundary(bars, a, w, now)), now, detected,
                                  None, hadPreCross);
            IsProspectiveCatch(r) ==>
              && !Delayed(Filter(bars, Admitted(w, now)), now)
              && exists b :: b in bars && BarBreaks(b, a, w, now) && watching.persistedAt < b.start
                   && detected - b.start <= MAX_CAPTURE_LAG
                   && forall c :: c in bars && BarBreaks(c, a, w, now) ==> b.start <= c.start
  {
    hide Filter, BarBreaks, ResolveBreak, IsProspectiveCatch, Delayed;
    CatchIsSound(watching, a, MinuteBreak(FirstIndexBoundary(bars, a, w, now)), now, detected, None, hadPreCross);
    BarProvenIsEarliest(bars, a, w, now);
  }

  /** The instant of a print is its nanosecond stamp to the microsecond. */
  predicate Stamped(p: TapePrint) {
    p.timestamp == p.timestampNs / 1000
  }

  lemma OnePrintBreaks(p: TapePrint, a: Armed, w: Window)
    requires Counts(w)(p) && p.price > a.high > a.low
    ensures FirstBoundary([p], a, w) ==
            Proven(Long, p, -SECOND < p.timestamp - a.watchStart < SECOND, p.price)
  {
    hide MinutePriceEligible;
    FirstIndexIs([p], Unreadable(w), 1);
    FilterCons(p, [], Counts(w));
    assert [p] + [] == [p];
    assert StableSort([p], PrintLe) == [p];
    FirstIndexIs([p], Above(a), 0);
    FirstIndexIs([p], Below(a), 1);
  }

  /** The lag is bounded on one side only: when the quick tape crosses before the SIP tape does, a
      detection stamped before the SIP cross still counts. */
  lemma CatchMayPrecedeSipCross() returns (a: Armed, w: Window, seen: seq<TapePrint>, sip: seq<TapePrint>, r: Record)
    ensures forall p :: p in seen + sip ==> Stamped(p)
    ensures exists watching: Record, now, detected ::
              && watching.status.Watching?
              && r == ResolveBreak(watching, a, TapeBreak(FirstBoundary(seen, a, w)), now, detected,
                                   SipPrint(FirstBoundary(sip, a, w)), true)
    ensures IsProspectiveCatch(r) && r.trueLag.Some? && r.trueLag.value < 0
  {
    var first := TapePrint(10 * SECOND, 10000 * SECOND, 9.0, "1", [], "A");
    var later := TapePrint(30 * SECOND, 30000 * SECOND, 9.0, "2", [], "A");
    seen, sip := [first], [later];
    a, w := Armed(5.0, 1.0, 0, 100 * SECOND), Window(0, 100 * SECOND);
    OnePrintBreaks(first, a, w);
    OnePrintBreaks(later, a, w);
    var watching :=
      Record(Watching, 0, false, false, false, false, None, None, None, NoResolution, false, None, None, None);
    r := ResolveBreak(watching, a, TapeBreak(FirstBoundary(seen, a, w)), 12 * SECOND, 12 * SECOND,
                      SipPrint(FirstBoundary(sip, a, w)), true);
  }
}
