/** Laws of the aggregator: cutting off at a moment commutes with it, and two steps compose. */
module BarAggregation {
  import opened Sorting
  import opened CausalBars

  /** A group of the grid anchored at open, all of whose members are present. */
  predicate IsGroup(bars: seq<Bar>, source: int, target: int, open: int, t: int)
    requires Divides(source, target)
  {
    t >= open && (t - open) % target == 0 && Whole(bars, t, source, target / source)
  }

  function GroupCandle(bars: seq<Bar>, source: int, target: int, open: int, t: int): Bar
    requires Divides(source, target) && IsGroup(bars, source, target, open, t)
  {
    FactorPositive(source, target);
    Candle(t, Members(bars, t, source, target / source))
  }

  lemma WholeReachesLast(bars: seq<Bar>, t: int, step: int, n: nat)
    requires n > 0 && Whole(bars, t, step, n)
    ensures bars != [] && t <= LastStart(bars)
  {
    assert Lookup(bars, t + 0 * step).Some?;
    LastStartIs(bars);
  }

  lemma MulSign(d: int, k: int)
    requires d > 0
    ensures k >= 1 ==> d * k >= d
    ensures k <= -1 ==> d * k <= -d
  {
  }

  lemma Distribute(a: int, b: int, c: int)
    ensures a * (b + c) == a * b + a * c
  {
  }

  lemma ModUnique(n: int, d: int, q: int, r: int)
    requires d > 0 && 0 <= r < d && n == d * q + r
    ensures n % d == r && n / d == q
  {
    assert d * (n / d - q) == r - n % d;
    MulSign(d, n / d - q);
  }

  lemma NextOnGrid(t: int, cursor: int, target: int)
    requires target > 0 && t >= cursor
    ensures (t - cursor) % target == 0 <==>
            t == cursor || (t >= cursor + target && (t - (cursor + target)) % target == 0)
  {
    var q, r := (t - cursor) / target, (t - cursor) % target;
    assert t - cursor == target * q + r;
    ModUnique(t - (cursor + target), target, q - 1, r);
    MulSign(target, q);
  }

  lemma {:induction false} GroupsMembers(bars: seq<Bar>, step: int, factor: nat, cursor: int, last: int, b: Bar)
    requires step > 0 && factor > 0
    ensures b in GroupsFrom(bars, step, factor, cursor, last) <==>
            && cursor <= b.start <= last && (b.start - cursor) % (step * factor) == 0
            && Whole(bars, b.start, step, factor) && b == Candle(b.start, Members(bars, b.start, step, factor))
    decreases last - cursor
  {
    hide Whole, Members, Candle;
    var target := step * factor;
    assert target > 0;
    if cursor <= last {
      GroupsMembers(bars, step, factor, cursor + target, last, b);
      if b.start >= cursor {
        NextOnGrid(b.start, cursor, target);
      }
    }
  }

  lemma {:induction false} GroupsAscend(bars: seq<Bar>, step: int, factor: nat, cursor: int, last: int)
    requires step > 0 && factor > 0
    ensures Ascending(GroupsFrom(bars, step, factor, cursor, last))
    decreases last - cursor
  {
    assert step * factor > 0;
    if cursor <= last {
      var rest := GroupsFrom(bars, step, factor, cursor + step * factor, last);
      GroupsAscend(bars, step, factor, cursor + step * factor, last);
      forall i | 0 <= i < |rest| ensures cursor < rest[i].start {
        GroupsMembers(bars, step, factor, cursor + step * factor, last, rest[i]);
      }
    }
  }

  /** The built series is exactly the candles of the complete groups, in order. */
  lemma BuildIs(bars: seq<Bar>, source: int, target: int, open: int)
    requires Divides(source, target)
    ensures Ascending(Build(bars, source, target, open))
    ensures forall b :: b in Build(bars, source, target, open) <==>
              IsGroup(bars, source, target, open, b.start) && b == GroupCandle(bars, source, target, open, b.start)
  {
    hide Whole, Members, Candle;
    FactorPositive(source, target);
    var n := target / source;
    if bars != [] {
      GroupsAscend(bars, source, n, open, LastStart(bars));
    }
    forall b ensures b in Build(bars, source, target, open) <==>
        IsGroup(bars, source, target, open, b.start) && b == GroupCandle(bars, source, target, open, b.start)
    {
      if Whole(bars, b.start, source, n) {
        WholeReachesLast(bars, b.start, source, n);
      }
      if bars != [] {
        GroupsMembers(bars, source, n, open, LastStart(bars), b);
      }
    }
  }

  // ----- causality -----

  lemma MemberEnds(source: int, n: int, i: int)
    requires source > 0 && 0 <= i < n
    ensures i * source + source <= source * n
    ensures i == n - 1 ==> i * source + source == source * n
  {
    Distribute(source, i + 1, n - (i + 1));
    Distribute(source, i, 1);
    MulSign(source, n - (i + 1));
  }

  lemma WholeCutoff(bars: seq<Bar>, source: int, n: nat, cutoff: int, t: int)
    requires source > 0 && n > 0
    ensures var done := Completed(bars, source, cutoff);
            && (Whole(done, t, source, n) <==> Whole(bars, t, source, n) && t + source * n <= cutoff)
            && (Whole(done, t, source, n) ==> Members(done, t, source, n) == Members(bars, t, source, n))
  {
    hide Lookup, Completed;
    var done := Completed(bars, source, cutoff);
    forall i | 0 <= i < n
      ensures t + source * n <= cutoff ==> Lookup(done, t + i * source) == Lookup(bars, t + i * source)
      ensures Lookup(done, t + i * source).Some? ==> Lookup(done, t + i * source) == Lookup(bars, t + i * source)
    {
      LookupCompleted(bars, source, cutoff, t + i * source);
      MemberEnds(source, n, i);
    }
    MemberEnds(source, n, n - 1);
    LookupCompleted(bars, source, cutoff, t + (n - 1) * source);
    assert Whole(done, t, source, n) ==> Lookup(done, t + (n - 1) * source).Some?;
  }

  lemma GroupCutoff(bars: seq<Bar>, source: int, target: int, open: int, cutoff: int, t: int)
    requires Divides(source, target)
    ensures IsGroup(Completed(bars, source, cutoff), source, target, open, t) <==>
            IsGroup(bars, source, target, open, t) && t + target <= cutoff
    ensures IsGroup(Completed(bars, source, cutoff), source, target, open, t) ==>
              GroupCandle(Completed(bars, source, cutoff), source, target, open, t) ==
              GroupCandle(bars, source, target, open, t)
  {
    hide Completed, FoldAll, Whole, Members;
    FactorPositive(source, target);
    WholeCutoff(bars, source, target / source, cutoff, t);
  }

  /** No future leakage through aggregation: building from the bars completed by a moment gives
      exactly the built candles completed by that moment. */
  lemma CutoffCommutes(bars: seq<Bar>, source: int, target: int, open: int, cutoff: int)
    requires Divides(source, target)
    ensures Build(Completed(bars, source, cutoff), source, target, open) ==
            Completed(Build(bars, source, target, open), target, cutoff)
  {
    var early, all := Build(Completed(bars, source, cutoff), source, target, open), Build(bars, source, target, open);
    BuildIs(bars, source, target, open);
    BuildIs(Completed(bars, source, cutoff), source, target, open);
    hide Build, Completed, IsGroup, GroupCandle;
    var kept := Filter(all, ClosedBy(target, cutoff));
    FilterMembers(all, ClosedBy(target, cutoff));
    FilterAscending(all, ClosedBy(target, cutoff));
    AscendingCompleted(all, target, cutoff);
    forall b ensures b in early <==> b in kept {
      GroupCutoff(bars, source, target, open, cutoff, b.start);
    }
    AscendingSame(early, kept);
  }

  predicate Before(a: Bar, b: Bar) {
    a.start < b.start
  }

  lemma FilterAscending(s: seq<Bar>, p: Bar -> bool)
    requires Ascending(s)
    ensures Ascending(Filter(s, p))
  {
    hide Filter;
    FilterSorted(s, Before, p);
    assert forall i, j :: 0 <= i < j < |Filter(s, p)| ==> Before(Filter(s, p)[i], Filter(s, p)[j]);
  }

  lemma AscendingCompleted(s: seq<Bar>, timeframe: int, cutoff: int)
    requires Ascending(s)
    ensures Completed(s, timeframe, cutoff) == Filter(s, ClosedBy(timeframe, cutoff))
  {
    FilterAscending(s, ClosedBy(timeframe, cutoff));
    SortOfSorted(Filter(s, ClosedBy(timeframe, cutoff)), ByStart);
  }

  // ----- two steps compose -----

  /** The two-step volume-weighted price of a group survives exactly when no inner group lacks
      volume, or there was no price to lose. */
  predicate VwapSafe(bars: seq<Bar>, source: int, inner: nat, outer: nat, t: int)
    requires inner > 0 && outer > 0 && Whole(bars, t, source, inner * outer)
  {
    || WeightedVwap(FoldAll(Members(bars, t, source, inner * outer))).None?
    || forall j :: 0 <= j < outer ==> InnerVolume(bars, source, inner, outer, t, j) > 0.0
  }

  function InnerVolume(bars: seq<Bar>, source: int, inner: nat, outer: nat, t: int, j: nat): real
    requires inner > 0 && j < outer && Whole(bars, t, source, inner * outer)
  {
    InnerWhole(bars, source, inner, outer, t, j);
    FoldAll(Members(bars, t + j * (source * inner), source, inner)).volume
  }

  lemma InnerIndex(source: int, inner: int, outer: int, t: int, j: int, i: int)
    requires 0 <= j < outer && 0 <= i < inner
    ensures t + j * (source * inner) + i * source == t + (j * inner + i) * source
    ensures 0 <= j * inner + i < inner * outer
  {
    assert j * (source * inner) == (j * inner) * source;
    assert (j * inner + i) * source == (j * inner) * source + i * source;
    assert j * inner + i < (j + 1) * inner <= outer * inner;
  }

  lemma InnerWhole(bars: seq<Bar>, source: int, inner: nat, outer: nat, t: int, j: nat)
    requires inner > 0 && j < outer && Whole(bars, t, source, inner * outer)
    ensures Whole(bars, t + j * (source * inner), source, inner)
  {
    hide Lookup;
    forall i | 0 <= i < inner ensures Lookup(bars, t + j * (source * inner) + i * source).Some? {
      InnerIndex(source, inner, outer, t, j, i);
      assert Lookup(bars, t + (j * inner + i) * source).Some?;
    }
  }

  lemma OuterWhole(bars: seq<Bar>, source: int, inner: nat, outer: nat, t: int)
    requires inner > 0 && (forall j :: 0 <= j < outer ==> Whole(bars, t + j * (source * inner), source, inner))
    ensures Whole(bars, t, source, inner * outer)
  {
    hide Lookup;
    forall m | 0 <= m < inner * outer ensures Lookup(bars, t + m * source).Some? {
      var j, i := m / inner, m % inner;
      assert m == j * inner + i;
      assert 0 <= j < outer by {
        assert inner * (outer - j) == inner * outer - m + i;
        MulSign(inner, outer - j);
      }
      InnerIndex(source, inner, outer, t, j, i);
      assert Whole(bars, t + j * (source * inner), source, inner);
      assert Lookup(bars, t + j * (source * inner) + i * source).Some?;
    }
  }

  lemma FactorChain(a: int, b: int, c: int)
    requires Divides(a, b) && Divides(b, c)
    ensures Divides(a, c) && c / a == (b / a) * (c / b) && b / a > 0 && c / b > 0
  {
    FactorPositive(a, b);
    FactorPositive(b, c);
    var p, q := b / a, c / b;
    assert c == a * (p * q) + 0 by {
      assert c == (a * p) * q;
    }
    ModUnique(c, a, p * q, 0);
  }

  lemma LookupBuilt(bars: seq<Bar>, source: int, target: int, open: int, t: int)
    requires Divides(source, target)
    ensures Lookup(Build(bars, source, target, open), t) ==
            if IsGroup(bars, source, target, open, t) then Some(GroupCandle(bars, source, target, open, t)) else None
  {
    BuildIs(bars, source, target, open);
    hide IsGroup, Candle, Members, Whole, Build;
    var built := Build(bars, source, target, open);
    if IsGroup(bars, source, target, open, t) {
      LookupAscending(built, GroupCandle(bars, source, target, open, t));
    }
  }

  lemma InnerOnGrid(open: int, t: int, b: int, c: int, j: int)
    requires Divides(b, c) && t >= open && (t - open) % c == 0 && j >= 0
    ensures t + j * b >= open && (t + j * b - open) % b == 0
  {
    FactorPositive(b, c);
    var k, q := (t - open) / c, c / b;
    assert t - open == c * k == b * (q * k) by {
      assert c * k == (b * q) * k;
    }
    assert t + j * b - open == b * (q * k + j);
    ModUnique(t + j * b - open, b, q * k + j, 0);
    MulSign(b, j);
  }

  /** What the middle step holds at a point of the outer grid. */
  lemma MiddleLookup(bars: seq<Bar>, a: int, b: int, c: int, open: int, t: int, j: int)
    requires Divides(a, b) && Divides(b, c) && t >= open && (t - open) % c == 0 && j >= 0
    ensures b / a > 0
    ensures Lookup(Build(bars, a, b, open), t + j * b) ==
            if Whole(bars, t + j * b, a, b / a)
            then Some(Candle(t + j * b, Members(bars, t + j * b, a, b / a))) else None
  {
    hide Lookup, Candle, Members, Whole, Build;
    FactorPositive(a, b);
    InnerOnGrid(open, t, b, c, j);
    LookupBuilt(bars, a, b, open, t + j * b);
  }

  lemma MiddleWhole(bars: seq<Bar>, a: int, b: int, c: int, open: int, t: int)
    requires Divides(a, b) && Divides(b, c) && t >= open && (t - open) % c == 0
    ensures b / a > 0 && c / b > 0
    ensures Whole(Build(bars, a, b, open), t, b, c / b) <==> Whole(bars, t, a, (b / a) * (c / b))
  {
    hide Lookup, Candle, Members, Build;
    FactorPositive(a, b);
    FactorPositive(b, c);
    var inner, outer, mid := b / a, c / b, Build(bars, a, b, open);
    forall j | 0 <= j < outer ensures Lookup(mid, t + j * b).Some? <==> Whole(bars, t + j * (a * inner), a, inner) {
      MiddleLookup(bars, a, b, c, open, t, j);
    }
    if Whole(bars, t, a, inner * outer) {
      forall j | 0 <= j < outer ensures Lookup(mid, t + j * b).Some? {
        InnerWhole(bars, a, inner, outer, t, j);
      }
    }
    if Whole(mid, t, b, outer) {
      assert forall j :: 0 <= j < outer ==> Lookup(mid, t + j * b).Some?;
      OuterWhole(bars, a, inner, outer, t);
    }
  }

  function Core(f: Fold): Fold {
    f.(turnover := None)
  }

  lemma OneOfCandle(t: int, members: seq<Bar>)
    requires members != []
    ensures Core(One(Candle(t, members))) == Core(FoldAll(members))
    ensures FoldAll(members).volume > 0.0 ==> One(Candle(t, members)) == FoldAll(members)
    ensures FoldAll(members).volume <= 0.0 ==> One(Candle(t, members)).turnover.None?
  {
    hide FoldAll, Turnover, AveragePrice;
    var f := FoldAll(members);
    if f.volume > 0.0 && f.turnover.Some? {
      AverageTimesVolume(f.turnover.value, f.volume);
    }
  }

  lemma MembersSplit(bars: seq<Bar>, t: int, step: int, m: nat, n: nat)
    requires Whole(bars, t, step, m + n)
    ensures Whole(bars, t, step, m) && Whole(bars, t + m * step, step, n)
    ensures Members(bars, t, step, m + n) == Members(bars, t, step, m) + Members(bars, t + m * step, step, n)
  {
    hide Lookup;
    forall i | 0 <= i < m + n
      ensures Lookup(bars, t + i * step).Some? && (i >= m ==> t + i * step == t + m * step + (i - m) * step)
    {
      if i >= m {
        Distribute(step, m, i - m);
      }
    }
    forall i | 0 <= i < n
      ensures t + m * step + i * step == t + (m + i) * step && Lookup(bars, t + m * step + i * step).Some?
    {
      Distribute(step, m, i);
    }
    MembersSplitAt(bars, t, step, m, n);
  }

  lemma MembersSplitAt(bars: seq<Bar>, t: int, step: int, m: nat, n: nat)
    requires Whole(bars, t, step, m + n) && Whole(bars, t, step, m) && Whole(bars, t + m * step, step, n)
    requires forall i :: 0 <= i < n ==> t + m * step + i * step == t + (m + i) * step
    ensures Members(bars, t, step, m + n) == Members(bars, t, step, m) + Members(bars, t + m * step, step, n)
  {
    hide Lookup, Whole;
    var all, first := Members(bars, t, step, m + n), Members(bars, t, step, m);
    var second := Members(bars, t + m * step, step, n);
    forall i | 0 <= i < n ensures all[m + i] == second[i] {
    }
  }

  ghost predicate AllTraded(bars: seq<Bar>, source: int, inner: nat, outer: nat, t: int, q: nat)
    requires inner > 0 && q <= outer && Whole(bars, t, source, inner * outer)
  {
    forall j :: 0 <= j < q ==> InnerVolume(bars, source, inner, outer, t, j) > 0.0
  }

  lemma WholePrefix(bars: seq<Bar>, t: int, step: int, m: nat, n: nat)
    requires m <= n && Whole(bars, t, step, n)
    ensures Whole(bars, t, step, m)
  {
  }

  lemma InnerSteps(inner: int, outer: int, q: int)
    requires inner > 0 && 0 < q <= outer
    ensures 0 <= inner * (q - 1) && inner * q == inner * (q - 1) + inner && inner * q <= inner * outer
  {
    Distribute(inner, q, outer - q);
    Distribute(inner, q - 1, 1);
    MulSign(inner, q - 1);
    MulSign(inner, outer - q);
  }

  lemma InnerMembers(bars: seq<Bar>, a: int, b: int, inner: nat, outer: nat, t: int, q: nat)
    requires inner > 0 && a * inner == b && 0 < q <= outer && Whole(bars, t, a, inner * outer)
    ensures var s := t + (q - 1) * b;
            && inner * (q - 1) >= 0 && inner * q > 0
            && Whole(bars, t, a, inner * q) && Whole(bars, t, a, inner * (q - 1)) && Whole(bars, s, a, inner)
            && Members(bars, t, a, inner * q) == Members(bars, t, a, inner * (q - 1)) + Members(bars, s, a, inner)
  {
    hide Lookup, Whole, Members;
    InnerSteps(inner, outer, q);
    WholePrefix(bars, t, a, inner * q, inner * outer);
    MembersSplit(bars, t, a, inner * (q - 1), inner);
    LastInner(inner, a, b, t, q);
  }

  /** The q-th middle bar is the candle of the q-th run of inner bars. */
  lemma MiddleMembers(bars: seq<Bar>, a: int, b: int, c: int, open: int, t: int, q: nat)
    requires Divides(a, b) && Divides(b, c) && t >= open && (t - open) % c == 0
    requires b / a > 0 && 0 < q <= c / b && Whole(bars, t, a, (b / a) * (c / b))
    requires Whole(bars, t + (q - 1) * b, a, b / a)
    ensures var mid, s := Build(bars, a, b, open), t + (q - 1) * b;
            && Whole(mid, t, b, q) && Whole(mid, t, b, q - 1)
            && Members(mid, t, b, q) == Members(mid, t, b, q - 1) + [Candle(s, Members(bars, s, a, b / a))]
  {
    hide Lookup, Build, Candle, Whole, Members;
    var mid := Build(bars, a, b, open);
    MiddleWhole(bars, a, b, c, open, t);
    WholePrefix(mid, t, b, q, c / b);
    MiddleLookup(bars, a, b, c, open, t, q - 1);
    MembersSplit(mid, t, b, q - 1, 1);
    LastMiddle(mid, t, b, q, Candle(t + (q - 1) * b, Members(bars, t + (q - 1) * b, a, b / a)));
  }

  /** Folding the middle candles is folding their members, up to a lost average price. */
  lemma {:induction false} FoldTwoStep(bars: seq<Bar>, a: int, b: int, c: int, open: int, t: int, q: nat)
    requires Divides(a, b) && Divides(b, c) && t >= open && (t - open) % c == 0
    requires b / a > 0 && 0 < q <= c / b && Whole(bars, t, a, (b / a) * (c / b))
    ensures (b / a) * q > 0
    ensures Whole(Build(bars, a, b, open), t, b, q) && Whole(bars, t, a, (b / a) * q)
    ensures var two := FoldAll(Members(Build(bars, a, b, open), t, b, q));
            var one := FoldAll(Members(bars, t, a, (b / a) * q));
            && Core(two) == Core(one)
            && (AllTraded(bars, a, b / a, c / b, t, q) ==> two == one)
            && (!AllTraded(bars, a, b / a, c / b, t, q) ==> two.turnover.None?)
  {
    hide Lookup, Build, FoldAll, One, Candle, Whole, Members;
    var inner, mid, s := b / a, Build(bars, a, b, open), t + (q - 1) * b;
    FactorPositive(a, b);
    InnerMembers(bars, a, b, inner, c / b, t, q);
    MiddleMembers(bars, a, b, c, open, t, q);
    var last := Members(bars, s, a, inner);
    OneOfCandle(s, last);
    FoldOne(Candle(s, last));
    assert InnerVolume(bars, a, inner, c / b, t, q - 1) == FoldAll(last).volume;
    if q > 1 {
      InnerSteps(inner, c / b, q - 1);
      FoldTwoStep(bars, a, b, c, open, t, q - 1);
      FoldAppend(Members(mid, t, b, q - 1), [Candle(s, last)]);
      FoldAppend(Members(bars, t, a, inner * (q - 1)), last);
    } else {
      assert Members(mid, t, b, q - 1) + [Candle(s, last)] == [Candle(s, last)];
      assert Members(bars, t, a, inner * (q - 1)) + last == last;
    }
  }

  lemma FoldOne(b: Bar)
    ensures FoldAll([b]) == One(b)
  {
  }

  lemma LastInner(inner: int, a: int, b: int, t: int, q: int)
    requires a * inner == b
    ensures t + (inner * (q - 1)) * a == t + (q - 1) * b
  {
    assert (inner * (q - 1)) * a == (q - 1) * (a * inner);
  }

  lemma LastMiddle(mid: seq<Bar>, t: int, b: int, q: nat, candle: Bar)
    requires q > 0 && Whole(mid, t + (q - 1) * b, b, 1) && Lookup(mid, t + (q - 1) * b) == Some(candle)
    ensures Members(mid, t + (q - 1) * b, b, 1) == [candle]
  {
    hide Lookup;
  }

  /** A candle without its volume-weighted price. */
  function Plain(b: Bar): Bar {
    b.(vwap := None)
  }

  function Plains(bars: seq<Bar>): (r: seq<Bar>)
    ensures |r| == |bars| && forall i :: 0 <= i < |r| ==> r[i] == Plain(bars[i])
  {
    seq(|bars|, i requires 0 <= i < |bars| => Plain(bars[i]))
  }

  lemma PlainIn(bars: seq<Bar>, b: Bar)
    requires b in bars
    ensures Plain(b) in Plains(bars)
  {
    var i :| 0 <= i < |bars| && bars[i] == b;
    assert Plains(bars)[i] == Plain(b);
  }

  lemma FromPlain(bars: seq<Bar>, x: Bar) returns (b: Bar)
    requires x in Plains(bars)
    ensures b in bars && Plain(b) == x && b.start == x.start
  {
    var i :| 0 <= i < |bars| && Plains(bars)[i] == x;
    b := bars[i];
  }

  lemma PlainsAscend(bars: seq<Bar>)
    requires Ascending(bars)
    ensures Ascending(Plains(bars))
  {
  }

  lemma GroupsAgree(bars: seq<Bar>, a: int, b: int, c: int, open: int, t: int)
    requires Divides(a, b) && Divides(b, c) && Divides(a, c)
    ensures IsGroup(Build(bars, a, b, open), b, c, open, t) <==> IsGroup(bars, a, c, open, t)
    ensures IsGroup(bars, a, c, open, t) ==>
              && b / a > 0 && c / b > 0 && Whole(bars, t, a, (b / a) * (c / b))
              && var two, one := GroupCandle(Build(bars, a, b, open), b, c, open, t), GroupCandle(bars, a, c, open, t);
                 && Plain(two) == Plain(one)
                 && (two == one <==> VwapSafe(bars, a, b / a, c / b, t))
  {
    hide Lookup, Build, FoldAll, Whole, Members, AveragePrice;
    FactorChain(a, b, c);
    FactorPositive(b, c);
    if t >= open && (t - open) % c == 0 {
      MiddleWhole(bars, a, b, c, open, t);
      if Whole(bars, t, a, (b / a) * (c / b)) {
        FoldTwoStep(bars, a, b, c, open, t, c / b);
      }
    }
  }

  lemma GroupInBuild(bars: seq<Bar>, source: int, target: int, open: int, t: int)
    requires Divides(source, target) && IsGroup(bars, source, target, open, t)
    ensures GroupCandle(bars, source, target, open, t) in Build(bars, source, target, open)
  {
    BuildIs(bars, source, target, open);
  }

  lemma BuiltIsGroup(bars: seq<Bar>, source: int, target: int, open: int, b: Bar)
    requires Divides(source, target) && b in Build(bars, source, target, open)
    ensures IsGroup(bars, source, target, open, b.start) && b == GroupCandle(bars, source, target, open, b.start)
  {
    BuildIs(bars, source, target, open);
  }

  /** Aggregating in two steps gives the candles of aggregating in one, over any gaps: same
      starts, open, high, low, close and volume. */
  lemma TwoStepPlain(bars: seq<Bar>, a: int, b: int, c: int, open: int)
    requires Divides(a, b) && Divides(b, c)
    ensures Divides(a, c)
    ensures Plains(Build(Build(bars, a, b, open), b, c, open)) == Plains(Build(bars, a, c, open))
  {
    FactorChain(a, b, c);
    var mid := Build(bars, a, b, open);
    var one, two := Build(bars, a, c, open), Build(mid, b, c, open);
    BuildIs(bars, a, c, open);
    BuildIs(mid, b, c, open);
    hide Build, IsGroup, GroupCandle, VwapSafe, Whole, Plains, Plain;
    forall x ensures x in Plains(two) <==> x in Plains(one) {
      GroupsAgree(bars, a, b, c, open, x.start);
      if x in Plains(two) {
        var d := FromPlain(two, x);
        GroupInBuild(bars, a, c, open, x.start);
        PlainIn(one, GroupCandle(bars, a, c, open, x.start));
      }
      if x in Plains(one) {
        var d := FromPlain(one, x);
        GroupInBuild(mid, b, c, open, x.start);
        PlainIn(two, GroupCandle(mid, b, c, open, x.start));
      }
    }
    PlainsAscend(one);
    PlainsAscend(two);
    AscendingSame(Plains(two), Plains(one));
  }

  /** The volume-weighted price of a twice-aggregated candle agrees if and only if the candle is
      VwapSafe. */
  lemma TwoStepVwap(bars: seq<Bar>, a: int, b: int, c: int, open: int, i: nat)
    requires Divides(a, b) && Divides(b, c) && Divides(a, c) && i < |Build(bars, a, c, open)|
    ensures b / a > 0 && c / b > 0
    ensures i < |Build(Build(bars, a, b, open), b, c, open)|
    ensures var one, two := Build(bars, a, c, open)[i], Build(Build(bars, a, b, open), b, c, open)[i];
            && Whole(bars, one.start, a, (b / a) * (c / b))
            && (two == one <==> VwapSafe(bars, a, b / a, c / b, one.start))
  {
    hide Build, IsGroup, GroupCandle, VwapSafe, Whole;
    TwoStepPlain(bars, a, b, c, open);
    var mid := Build(bars, a, b, open);
    var one, two := Build(bars, a, c, open), Build(mid, b, c, open);
    assert |Plains(one)| == |Plains(two)| && Plains(one)[i] == Plains(two)[i];
    assert one[i] in one && two[i] in two;
    assert Plain(one[i]).start == Plain(two[i]).start;
    BuiltIsGroup(bars, a, c, open, one[i]);
    BuiltIsGroup(mid, b, c, open, two[i]);
    GroupsAgree(bars, a, b, c, open, one[i].start);
  }

  // ----- a lost price -----

  /** Four bars in a row, the last two without volume. */
  function FadingBars(open: int): (bars: seq<Bar>)
    ensures |bars| == 4
  {
    [Bar(open, 1.0, 1.0, 1.0, 1.0, 1.0, Some(1.0)), Bar(open + 300, 1.0, 1.0, 1.0, 1.0, 1.0, Some(1.0)),
     Bar(open + 600, 1.0, 1.0, 1.0, 1.0, 0.0, Some(1.0)), Bar(open + 900, 1.0, 1.0, 1.0, 1.0, 0.0, Some(1.0))]
  }

  lemma FadingLookup(open: int, k: nat)
    requires k < 4
    ensures Lookup(FadingBars(open), open + k * 300) == Some(FadingBars(open)[k])
  {
    LookupAscending(FadingBars(open), FadingBars(open)[k]);
  }

  lemma MembersAre(bars: seq<Bar>, t: int, step: int, part: seq<Bar>)
    requires forall i :: 0 <= i < |part| ==> Lookup(bars, t + i * step) == Some(part[i])
    ensures Whole(bars, t, step, |part|) && Members(bars, t, step, |part|) == part
  {
    hide Lookup;
    forall i | 0 <= i < |part| ensures Lookup(bars, t + i * step).Some? {
      assert Lookup(bars, t + i * step) == Some(part[i]);
    }
  }

  lemma FadingGroups(open: int)
    ensures var bars := FadingBars(open);
      && Whole(bars, open, 300, 4) && Members(bars, open, 300, 4) == bars
      && Whole(bars, open + 600, 300, 2) && Members(bars, open + 600, 300, 2) == bars[2..]
  {
    hide Lookup, FadingBars, Whole, Members;
    var bars := FadingBars(open);
    forall k | 0 <= k < 4 ensures Lookup(bars, open + k * 300) == Some(bars[k]) {
      FadingLookup(open, k);
    }
    MembersAre(bars, open, 300, bars);
    forall k | 0 <= k < 2 ensures Lookup(bars, open + 600 + k * 300) == Some(bars[2..][k]) {
      assert open + 600 + k * 300 == open + (k + 2) * 300;
      FadingLookup(open, k + 2);
    }
    MembersAre(bars, open + 600, 300, bars[2..]);
  }

  lemma FoldTwo(b: Bar, d: Bar)
    ensures FoldAll([b]) == One(b) && FoldAll([b, d]) == Join(One(b), One(d))
  {
    hide One, Join;
    assert [b, d][..1] == [b];
  }

  lemma FadingFolds(open: int)
    ensures var bars := FadingBars(open);
      WeightedVwap(FoldAll(bars)).Some? && FoldAll(bars[2..]).volume == 0.0
  {
    hide FoldAll, One;
    var bars := FadingBars(open);
    assert bars == [bars[0], bars[1]] + [bars[2], bars[3]] && bars[2..] == [bars[2], bars[3]];
    FoldTwo(bars[0], bars[1]);
    FoldTwo(bars[2], bars[3]);
    FoldAppend([bars[0], bars[1]], [bars[2], bars[3]]);
    FadingOnes(open);
  }

  lemma FadingOnes(open: int)
    ensures var bars := FadingBars(open);
      && (forall i :: 0 <= i < 4 ==> One(bars[i]).turnover.Some?)
      && One(bars[0]).volume == One(bars[1]).volume == 1.0 && One(bars[2]).volume == One(bars[3]).volume == 0.0
  {
    hide Turnover;
  }

  /** Building twice over a stretch without volume loses the volume-weighted price that building once keeps. */
  lemma FadingVolumeLosesThePrice(open: int) returns (i: nat)
    ensures var bars := FadingBars(open);
      var one, two := Build(bars, 300, 1200, open), Build(Build(bars, 300, 600, open), 600, 1200, open);
      i < |one| && i < |two| && two[i] != one[i]
  {
    hide Build, Whole, Members, FoldAll, FadingBars;
    var bars := FadingBars(open);
    FadingGroups(open);
    FadingFolds(open);
    BuildIs(bars, 300, 1200, open);
    var candle := GroupCandle(bars, 300, 1200, open, open);
    assert candle in Build(bars, 300, 1200, open);
    i :| 0 <= i < |Build(bars, 300, 1200, open)| && Build(bars, 300, 1200, open)[i] == candle;
    TwoStepVwap(bars, 300, 600, 1200, open, i);
    assert InnerVolume(bars, 300, 2, 2, open, 1) == 0.0;
  }
}
