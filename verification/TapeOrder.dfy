/** Exactly when the answer of the tape does not depend on the order its prints arrive in
    (alert_ranker/setup_capture.py:639-685). */
module TapeOrder {
  import opened Conventions
  import opened Sorting
  import opened SetupCapture

  // ----- the answer read off three heads -----

  function Head(s: seq<TapePrint>): Option<TapePrint> {
    if s == [] then None else Some(s[0])
  }

  /** The first of the prints once sorted. */
  function Earliest(s: seq<TapePrint>): Option<TapePrint> {
    Head(StableSort(s, PrintLe))
  }

  function FromHeads(n: nat, first: Option<TapePrint>, high: Option<TapePrint>, low: Option<TapePrint>, a: Armed)
      : PrintBreak
    requires high.Some? || low.Some? ==> first.Some?
  {
    if high.None? && low.None? then NoBreak(n)
    else if high.Some? && low.Some? && high.value.timestampNs == low.value.timestampNs then AmbiguousBreak
    else
      var up := high.Some? && (low.None? || high.value.timestampNs <= low.value.timestampNs);
      var trade := if up then high.value else low.value;
      Proven(if up then Long else Short, trade, GapThrough(first.value, trade, a), first.value.price)
  }

  lemma FirstOfSide(kept: seq<TapePrint>, p: TapePrint -> bool)
    ensures var eligible := StableSort(kept, PrintLe);
      var k := FirstIndex(eligible, p);
      Earliest(Filter(kept, p)) == if k < |eligible| then Some(eligible[k]) else None
  {
    hide Filter, StableSort, PrintLe;
    PrintOrder();
    SortFilter(kept, PrintLe, p);
    FilterHead(StableSort(kept, PrintLe), p);
  }

  lemma SortedSize(s: seq<TapePrint>)
    ensures |StableSort(s, PrintLe)| == |s|
  {
    hide PrintLe;
    PrintOrder();
    SortSorts(s, PrintLe);
  }

  lemma AnswerFromHeads(kept: seq<TapePrint>, a: Armed)
    ensures var high, low := Earliest(Filter(kept, Above(a))), Earliest(Filter(kept, Below(a)));
      && (high.Some? || low.Some? ==> Earliest(kept).Some?)
      && BreakOf(StableSort(kept, PrintLe), a) == FromHeads(|kept|, Earliest(kept), high, low, a)
  {
    hide Filter, StableSort, PrintLe, Above, Below;
    SortedSize(kept);
    FirstOfSide(kept, Above(a));
    FirstOfSide(kept, Below(a));
  }

  // ----- what a permutation can change -----

  /** No print of s comes before p. */
  ghost predicate Leads(p: TapePrint, s: seq<TapePrint>) {
    p in s && forall q :: q in s ==> PrintLe(p, q)
  }

  predicate SameKey(p: TapePrint, q: TapePrint) {
    p.timestampNs == q.timestampNs && p.tradeId == q.tradeId
  }

  lemma TiedKeys(p: TapePrint, q: TapePrint)
    requires PrintLe(p, q) && PrintLe(q, p)
    ensures SameKey(p, q)
  {
    hide StringLe;
    StringTotal(p.tradeId, q.tradeId);
  }

  lemma EarliestLeads(s: seq<TapePrint>)
    ensures Earliest(s).None? <==> s == []
    ensures Earliest(s).Some? ==> Leads(Earliest(s).value, s)
  {
    hide PrintLe;
    PrintOrder();
    SortSorts(s, PrintLe);
    var sorted := StableSort(s, PrintLe);
    if s != [] {
      assert sorted[0] in sorted;
      forall q | q in s ensures PrintLe(sorted[0], q) {
        assert q in sorted;
        var i :| 0 <= i < |sorted| && sorted[i] == q;
        assert PrintLe(sorted[0], sorted[0]) || i > 0;
      }
    }
  }

  lemma EarliestTies(s: seq<TapePrint>, t: seq<TapePrint>)
    requires multiset(s) == multiset(t)
    ensures Earliest(s).Some? <==> Earliest(t).Some?
    ensures Earliest(s).Some? ==>
              && SameKey(Earliest(s).value, Earliest(t).value)
              && Leads(Earliest(s).value, s) && Leads(Earliest(t).value, s)
  {
    hide PrintLe, Earliest;
    SameMembers(s, t);
    EarliestLeads(s);
    EarliestLeads(t);
    if s != [] {
      TiedKeys(Earliest(s).value, Earliest(t).value);
    }
  }

  predicate Readable(prints: seq<TapePrint>, w: Window) {
    forall i :: 0 <= i < |prints| ==> !Unreadable(w)(prints[i])
  }

  function Side(d: Direction, a: Armed): TapePrint -> bool {
    if d.Long? then Above(a) else Below(a)
  }

  lemma ReadableAnswer(prints: seq<TapePrint>, a: Armed, w: Window)
    requires Readable(prints, w)
    ensures var kept := Filter(prints, Counts(w));
      var high, low := Earliest(Filter(kept, Above(a))), Earliest(Filter(kept, Below(a)));
      && (high.Some? || low.Some? ==> Earliest(kept).Some?)
      && FirstBoundary(prints, a, w) == FromHeads(|kept|, Earliest(kept), high, low, a)
      && (FirstBoundary(prints, a, w).Proven? ==>
            var r := FirstBoundary(prints, a, w);
            && Earliest(Filter(kept, Side(r.direction, a))) == Some(r.trade)
            && Earliest(kept).Some? && r.firstPrice == Earliest(kept).value.price)
  {
    hide Filter, Earliest, MinutePriceEligible, Above, Below;
    FirstIndexIs(prints, Unreadable(w), |prints|);
    AnswerFromHeads(Filter(prints, Counts(w)), a);
  }

  /** The prints that lead the proven side are one and the same, and the prints that lead the window have
      one price. */
  ghost predicate OneAnswer(prints: seq<TapePrint>, a: Armed, w: Window) {
    var r, kept := FirstBoundary(prints, a, w), Filter(prints, Counts(w));
    r.Proven? ==>
      && var side := Filter(kept, Side(r.direction, a));
      && (forall p, q :: Leads(p, side) && Leads(q, side) ==> p == q)
      && (forall p, q :: Leads(p, kept) && Leads(q, kept) ==> p.price == q.price)
  }

  /** All prints that cannot be read are refused alike. */
  ghost predicate OneRefusal(prints: seq<TapePrint>, w: Window) {
    forall p, q :: p in prints && q in prints && Unreadable(w)(p) && Unreadable(w)(q) ==>
      MinutePriceEligible(p.tape, p.conditions) == MinutePriceEligible(q.tape, q.conditions)
  }

  lemma OneAnswerSuffices(prints: seq<TapePrint>, again: seq<TapePrint>, a: Armed, w: Window)
    requires multiset(prints) == multiset(again) && Readable(prints, w) && OneAnswer(prints, a, w)
    ensures Readable(again, w) && FirstBoundary(again, a, w) == FirstBoundary(prints, a, w)
  {
    hide Filter, Earliest, MinutePriceEligible, Above, Below, FirstBoundary, PrintLe, Leads;
    SameMembers(prints, again);
    forall i | 0 <= i < |again| ensures !Unreadable(w)(again[i]) {
      var j :| 0 <= j < |prints| && prints[j] == again[i];
    }
    var kept, other := Filter(prints, Counts(w)), Filter(again, Counts(w));
    FilterSameBag(prints, again, Counts(w));
    SameMembers(kept, other);
    FilterSameBag(kept, other, Above(a));
    FilterSameBag(kept, other, Below(a));
    EarliestTies(kept, other);
    EarliestTies(Filter(kept, Above(a)), Filter(other, Above(a)));
    EarliestTies(Filter(kept, Below(a)), Filter(other, Below(a)));
    ReadableAnswer(prints, a, w);
    ReadableAnswer(again, a, w);
  }

  lemma MovedFirst(prints: seq<TapePrint>, x: TapePrint) returns (again: seq<TapePrint>)
    requires x in prints
    ensures multiset(again) == multiset(prints) && again != [] && again[0] == x
  {
    var i :| 0 <= i < |prints| && prints[i] == x;
    BagWithout(prints, i);
    again := [x] + Without(prints, i);
  }

  lemma FilterFirst(s: seq<TapePrint>, p: TapePrint -> bool)
    requires s != [] && p(s[0])
    ensures Filter(s, p) != [] && Filter(s, p)[0] == s[0]
  {
  }

  lemma FirstLeads(s: seq<TapePrint>)
    requires s != [] && Leads(s[0], s)
    ensures Earliest(s) == Some(s[0])
  {
    hide PrintLe, StableSort;
    PrintOrder();
    SortedHead(s, PrintLe);
  }

  lemma LeadsBag(p: TapePrint, s: seq<TapePrint>, t: seq<TapePrint>)
    requires multiset(s) == multiset(t) && Leads(p, s)
    ensures Leads(p, t)
  {
    hide PrintLe;
    SameMembers(s, t);
  }

  /** The arrival order that puts x first. */
  lemma XFirst(prints: seq<TapePrint>, x: TapePrint, w: Window) returns (again: seq<TapePrint>)
    requires x in prints && Counts(w)(x) && Readable(prints, w)
    ensures multiset(again) == multiset(prints) && Readable(again, w)
    ensures var kept := Filter(again, Counts(w));
      && multiset(kept) == multiset(Filter(prints, Counts(w))) && kept != [] && kept[0] == x
  {
    hide Filter, MinutePriceEligible;
    again := MovedFirst(prints, x);
    SameMembers(prints, again);
    forall i | 0 <= i < |again| ensures !Unreadable(w)(again[i]) {
      var j :| 0 <= j < |prints| && prints[j] == again[i];
    }
    FilterSameBag(prints, again, Counts(w));
    FilterFirst(again, Counts(w));
  }

  /** Any print that leads the proven side is the trade under some arrival order. */
  lemma LeaderCanTrade(prints: seq<TapePrint>, a: Armed, w: Window, x: TapePrint) returns (again: seq<TapePrint>)
    requires Readable(prints, w) && FirstBoundary(prints, a, w).Proven?
    requires Leads(x, Filter(Filter(prints, Counts(w)), Side(FirstBoundary(prints, a, w).direction, a)))
    ensures multiset(again) == multiset(prints)
    ensures var r := FirstBoundary(again, a, w);
      r.Proven? && r.direction == FirstBoundary(prints, a, w).direction ==> r.trade == x
  {
    hide Filter, Earliest, MinutePriceEligible, Above, Below, FirstBoundary, PrintLe;
    var kept, p := Filter(prints, Counts(w)), Side(FirstBoundary(prints, a, w).direction, a);
    FilterMembers(prints, Counts(w));
    FilterMembers(kept, p);
    assert x in Filter(kept, p) && p(x) && x in kept && Counts(w)(x);
    again := XFirst(prints, x, w);
    var other := Filter(again, Counts(w));
    FilterSameBag(kept, other, p);
    FilterFirst(other, p);
    LeadsBag(x, Filter(kept, p), Filter(other, p));
    FirstLeads(Filter(other, p));
    ReadableAnswer(again, a, w);
  }

  /** Any print that leads the window gives the first price under some arrival order. */
  lemma LeaderCanPrice(prints: seq<TapePrint>, a: Armed, w: Window, x: TapePrint) returns (again: seq<TapePrint>)
    requires Readable(prints, w) && Leads(x, Filter(prints, Counts(w)))
    ensures multiset(again) == multiset(prints)
    ensures FirstBoundary(again, a, w).Proven? ==> FirstBoundary(again, a, w).firstPrice == x.price
  {
    hide Filter, Earliest, MinutePriceEligible, FirstBoundary, PrintLe;
    FilterMembers(prints, Counts(w));
    assert x in Filter(prints, Counts(w)) && Counts(w)(x);
    again := XFirst(prints, x, w);
    LeadsBag(x, Filter(prints, Counts(w)), Filter(again, Counts(w)));
    FirstLeads(Filter(again, Counts(w)));
    ReadableAnswer(again, a, w);
  }

  ghost predicate SameAnswer(prints: seq<TapePrint>, a: Armed, w: Window) {
    forall again :: multiset(again) == multiset(prints) ==> FirstBoundary(again, a, w) == FirstBoundary(prints, a, w)
  }

  lemma OneAnswerIsNeeded(prints: seq<TapePrint>, a: Armed, w: Window)
    requires Readable(prints, w) && SameAnswer(prints, a, w)
    ensures OneAnswer(prints, a, w)
  {
    hide Filter, FirstBoundary, Leads, Readable, Side;
    var r, kept := FirstBoundary(prints, a, w), Filter(prints, Counts(w));
    if r.Proven? {
      forall p | Leads(p, Filter(kept, Side(r.direction, a))) ensures p == r.trade {
        var again := LeaderCanTrade(prints, a, w, p);
      }
      forall p | Leads(p, kept) ensures p.price == r.firstPrice {
        var again := LeaderCanPrice(prints, a, w, p);
      }
    }
  }

  /** A tape that cannot be read is refused for its first unreadable print. */
  lemma RefusedAlike(prints: seq<TapePrint>, a: Armed, w: Window)
    requires !Readable(prints, w)
    ensures SameAnswer(prints, a, w) <==> OneRefusal(prints, w)
  {
    hide MinutePriceEligible, StableSort;
    var k := FirstIndex(prints, Unreadable(w));
    assert prints[k] in prints;
    if OneRefusal(prints, w) {
      forall again | multiset(again) == multiset(prints)
        ensures FirstBoundary(again, a, w) == FirstBoundary(prints, a, w)
      {
        SameMembers(again, prints);
        var m := FirstIndex(again, Unreadable(w));
        assert prints[k] in again;
        assert m < |again| && again[m] in prints;
      }
    }
    if SameAnswer(prints, a, w) {
      forall p | p in prints && Unreadable(w)(p)
        ensures FirstBoundary(prints, a, w) == Blocked(MinutePriceEligible(p.tape, p.conditions))
      {
        var again := MovedFirst(prints, p);
        FirstIndexIs(again, Unreadable(w), 0);
        assert FirstBoundary(again, a, w) == Blocked(MinutePriceEligible(p.tape, p.conditions));
      }
    }
  }

  /** For every structure and window: the tape's answer is the same for every arrival order, if and only if
      the prints that lead the proven side are one and the same and those that lead the window have one
      price; or, on a tape that cannot be read, if all its unreadable prints are refused alike. */
  lemma SameAnswerExactlyWhen(prints: seq<TapePrint>, a: Armed, w: Window)
    ensures SameAnswer(prints, a, w) <==> if Readable(prints, w) then OneAnswer(prints, a, w) else OneRefusal(prints, w)
  {
    hide FirstBoundary, OneAnswer, OneRefusal, Readable;
    if Readable(prints, w) {
      if OneAnswer(prints, a, w) {
        forall again | multiset(again) == multiset(prints)
          ensures FirstBoundary(again, a, w) == FirstBoundary(prints, a, w)
        {
          OneAnswerSuffices(prints, again, a, w);
        }
      }
      if SameAnswer(prints, a, w) {
        OneAnswerIsNeeded(prints, a, w);
      }
    } else {
      RefusedAlike(prints, a, w);
    }
  }
}
