/** Rows of one bar and family that point both ways, and when their order cannot show in the reducer's run
    labels (alert_ranker/coverage_episodes.py:252-273). */
module LabelTies {
  import opened Conventions
  import opened Sorting
  import opened CoverageEpisodes
  import opened EpisodeReducer

  // ----- rows that tie -----

  predicate SameTie(x: Row, y: Row) {
    x.start == y.start && x.family == y.family
  }

  predicate Sooner(x: Row, y: Row) {
    ByStartFamily(x, y) && !SameTie(x, y)
  }

  /** y is of the tie that comes right after the one of x. */
  ghost predicate NextTo(s: seq<Row>, x: Row, y: Row) {
    x in s && y in s && Sooner(x, y) && forall r :: r in s ==> !(Sooner(x, r) && Sooner(r, y))
  }

  function Dissents(x: Row, d: Direction): Row -> bool {
    (r: Row) => SameTie(x, r) && r.direction != d
  }

  /** The bar starts with the other one or 30 minutes after it. */
  predicate WithinReach(a: Row, b: Row) {
    b.start - a.start == 0 || b.start - a.start == BAR_DELTA
  }

  /** A single row of the tie dissents from a direction that all rows of the tie before it and of the tie
      after it on the same bar have, the former on this bar or the one before. */
  ghost predicate HarmlessFor(s: seq<Row>, x: Row, d: Direction) {
    && (exists p :: NextTo(s, p, x) && WithinReach(p, x)) && (forall p :: NextTo(s, p, x) ==> p.direction == d)
    && (exists q :: NextTo(s, x, q) && q.start == x.start) && (forall q :: NextTo(s, x, q) ==> q.direction == d)
    && |Filter(s, Dissents(x, d))| == 1
  }

  ghost predicate Mixed(s: seq<Row>, x: Row) {
    x in s && exists y :: y in s && SameTie(x, y) && x.direction != y.direction
  }

  /** Every tie that points both ways is harmless. */
  ghost predicate TiesHarmless(s: seq<Row>) {
    forall x :: Mixed(s, x) ==> HarmlessFor(s, x, Long) || HarmlessFor(s, x, Short)
  }

  ghost predicate OneSession(s: seq<Row>) {
    forall x, y :: x in s && y in s ==> SessionOf(x) == SessionOf(y)
  }

  // ----- the run counter over a stretch of one start -----

  predicate OneStart(g: seq<Row>, start: int) {
    forall i :: 0 <= i < |g| ==> g[i].start == start
  }

  predicate OneWay(g: seq<Row>, d: Direction) {
    forall i :: 0 <= i < |g| ==> g[i].direction == d
  }

  /** A row of this start and direction would continue the run at the end of a. */
  predicate RunsOn(a: seq<Row>, start: int, d: Direction) {
    a != [] && (start - a[|a| - 1].start == 0 || start - a[|a| - 1].start == BAR_DELTA) && a[|a| - 1].direction == d
  }

  lemma {:induction false} IndexAfterStretch(a: seq<Row>, g: seq<Row>, start: int, d: Direction)
    requires g != [] && OneStart(g, start) && OneWay(g, d)
    ensures RunIndex(a + g) == RunIndex(a) + if RunsOn(a, start, d) then 0 else 1
    ensures RunsOn(a + g, start, d) && !RunsOn(a + g, start, Other(d))
  {
    var n := |g| - 1;
    assert (a + g)[..|a + g| - 1] == a + g[..n];
    if n > 0 {
      IndexAfterStretch(a, g[..n], start, d);
    } else {
      assert a + g[..0] == a;
    }
  }

  function Other(d: Direction): Direction {
    if d.Long? then Short else Long
  }

  lemma {:induction false} TableAfterStretch(a: seq<Row>, g: seq<Row>, start: int)
    requires g != [] && OneStart(g, start)
    ensures RunTable(a + g) == RunTable(a)[start := LabelOf(a + g)]
  {
    hide RunIndex;
    var n := |g| - 1;
    assert (a + g)[..|a + g| - 1] == a + g[..n];
    if n > 0 {
      TableAfterStretch(a, g[..n], start);
    } else {
      assert a + g[..0] == a;
    }
  }

  /** What later rows add depends on the last row before them only. */
  lemma {:induction false} IndexAfter(a: seq<Row>, b: seq<Row>, later: seq<Row>)
    requires a != [] && b != [] && a[|a| - 1] == b[|b| - 1]
    ensures RunIndex(a + later) - RunIndex(a) == RunIndex(b + later) - RunIndex(b)
  {
    if later == [] {
      assert a + later == a && b + later == b;
    } else {
      var n := |later| - 1;
      IndexAfter(a, b, later[..n]);
      assert (a + later)[..|a + later| - 1] == a + later[..n];
      assert (b + later)[..|b + later| - 1] == b + later[..n];
    }
  }

  /** Later bars do not touch the label of an earlier one. */
  lemma {:induction false} TableKeeps(a: seq<Row>, later: seq<Row>, start: int)
    requires a != [] && a[|a| - 1].start == start && forall r :: r in later ==> r.start != start
    ensures start in RunTable(a + later) && RunTable(a + later)[start] == LabelOf(a)
  {
    hide RunIndex;
    if later == [] {
      assert a + later == a;
    } else {
      var n := |later| - 1;
      TableKeeps(a, later[..n], start);
      assert later[n] in later;
      assert (a + later)[..|a + later| - 1] == a + later[..n];
    }
  }

  // ----- one dissenter between two ties of the other direction -----

  lemma NotBothWays(a: seq<Row>, start: int, d: Direction)
    ensures RunsOn(a, start, d) ==> !RunsOn(a, start, Other(d))
  {
  }

  /** Where the single dissenter stands. */
  lemma DissenterAt(g: seq<Row>, x: Row, d: Direction) returns (i: nat)
    requires (forall r :: r in g ==> SameTie(x, r)) && |Filter(g, Dissents(x, d))| == 1
    ensures i < |g| && g[i].direction == Other(d)
    ensures forall j :: 0 <= j < |g| ==> g[j].start == x.start && (j != i ==> g[j].direction == d)
  {
    hide Filter;
    var p := Dissents(x, d);
    FilterMembers(g, p);
    var o := Filter(g, p)[0];
    assert o in Filter(g, p);
    i :| 0 <= i < |g| && g[i] == o;
    forall j | 0 <= j < |g| ensures g[j].start == x.start && (j != i ==> g[j].direction == d) {
      assert g[j] in g;
      if i < j {
        FilterOnce(g, p, i, j);
      } else if j < i && p(g[j]) {
        FilterOnce(g, p, j, i);
      }
    }
  }

  lemma OneDissenter(a: seq<Row>, g: seq<Row>, q: seq<Row>, x: Row, d: Direction)
    requires RunsOn(a, x.start, d) && q != [] && OneStart(q, x.start) && OneWay(q, d)
    requires (forall r :: r in g ==> SameTie(x, r)) && |Filter(g, Dissents(x, d))| == 1
    ensures RunIndex(a + g + q) == RunIndex(a) + 2
  {
    hide Filter, RunIndex, RunsOn, Dissents;
    var i := DissenterAt(g, x, d);
    var early, late := g[..i], g[i + 1..] + q;
    ShortStretch(a, early, x.start, d);
    NotBothWays(a + early, x.start, d);
    IndexAfterStretch(a + early, [g[i]], x.start, Other(d));
    IndexAfterStretch(a + early + [g[i]], late, x.start, d);
    assert a + early + [g[i]] + late == a + g + q;
  }

  /** A stretch that runs on, if there is one. */
  lemma ShortStretch(a: seq<Row>, g: seq<Row>, start: int, d: Direction)
    requires RunsOn(a, start, d) && OneStart(g, start) && OneWay(g, d)
    ensures RunIndex(a + g) == RunIndex(a) && RunsOn(a + g, start, d)
  {
    hide RunIndex, RunsOn;
    if g == [] {
      assert a + g == a;
    } else {
      IndexAfterStretch(a, g, start, d);
    }
  }

  // ----- cutting a sorted list at a tie -----

  function Before(x: Row): Row -> bool {
    (r: Row) => Sooner(r, x)
  }

  function TieOf(x: Row): Row -> bool {
    (r: Row) => SameTie(x, r)
  }

  function After(x: Row): Row -> bool {
    (r: Row) => Sooner(x, r)
  }

  function UpTo(x: Row): Row -> bool {
    (r: Row) => ByStartFamily(r, x)
  }

  lemma OnePlace(x: Row, r: Row)
    ensures ByStartFamily(r, x) <==> Before(x)(r) || TieOf(x)(r)
    ensures After(x)(r) <==> !Before(x)(r) && !TieOf(x)(r)
    ensures !(Before(x)(r) && TieOf(x)(r))
  {
  }

  lemma Parts(a: seq<Row>, g: seq<Row>, b: seq<Row>, x: Row)
    requires (forall r :: r in a ==> Before(x)(r)) && (forall r :: r in g ==> TieOf(x)(r))
    requires forall r :: r in b ==> After(x)(r)
    ensures var s := a + g + b; Filter(s, TieOf(x)) == g && Filter(s, After(x)) == b
  {
    hide Filter, Before, TieOf, After;
    forall r ensures !(Before(x)(r) && TieOf(x)(r)) && (After(x)(r) <==> !Before(x)(r) && !TieOf(x)(r)) {
      OnePlace(x, r);
    }
    FilterAppend(a + g, b, TieOf(x));
    FilterAppend(a, g, TieOf(x));
    FilterNone(a, TieOf(x));
    FilterAll(g, TieOf(x));
    FilterNone(b, TieOf(x));
    FilterAppend(a + g, b, After(x));
    FilterNone(a + g, After(x));
    FilterAll(b, After(x));
    assert [] + g + [] == g && [] + b == b;
  }

  lemma CutAt(s: seq<Row>, x: Row)
    requires SortedBy(s, ByStartFamily) && x in s
    ensures s == Filter(s, Before(x)) + Filter(s, TieOf(x)) + Filter(s, After(x))
  {
    hide Filter, SortedBy;
    var k := SortedCut(s, ByStartFamily, Before(x));
    var m := SortedCut(s, ByStartFamily, UpTo(x));
    var i :| 0 <= i < |s| && s[i] == x;
    assert UpTo(x)(s[i]) && !Before(x)(s[i]);
    assert k <= i < m;
    hide Before, TieOf, After, UpTo, ByStartFamily;
    forall j | 0 <= j < |s|
      ensures (j < k <==> Before(x)(s[j])) && (k <= j < m <==> TieOf(x)(s[j])) && (m <= j <==> After(x)(s[j]))
    {
      OnePlace(x, s[j]);
      UpToIs(x, s[j]);
    }
    var a, g, b := s[..k], s[k..m], s[m..];
    assert s == a + g + b;
    Parts(a, g, b, x);
  }

  lemma UpToIs(x: Row, r: Row)
    ensures UpTo(x)(r) <==> ByStartFamily(r, x)
  {
  }

  lemma LastTie(s: seq<Row>, x: Row)
    requires SortedBy(s, ByStartFamily) && x in s && forall r :: r in s ==> ByStartFamily(r, x)
    ensures s == Filter(s, Before(x)) + Filter(s, TieOf(x)) && Filter(s, TieOf(x)) != []
    ensures forall r :: r in Filter(s, Before(x)) <==> r in s && Sooner(r, x)
    ensures forall r :: r in Filter(s, TieOf(x)) <==> r in s && SameTie(x, r)
    ensures SortedBy(Filter(s, Before(x)), ByStartFamily)
  {
    hide Filter;
    CutAt(s, x);
    FilterNone(s, After(x));
    FilterMembers(s, Before(x));
    FilterMembers(s, TieOf(x));
    FilterSorted(s, ByStartFamily, Before(x));
    assert Filter(s, Before(x)) + Filter(s, TieOf(x)) + [] == Filter(s, Before(x)) + Filter(s, TieOf(x));
    assert x in Filter(s, TieOf(x));
  }

  /** The harmless ties of a list stay harmless when it is cut after a tie that points one way. */
  lemma Restricted(s: seq<Row>, a: seq<Row>, r: seq<Row>)
    requires s == a + r && SortedBy(s, ByStartFamily) && a != [] && TiesHarmless(s)
    requires (forall u, v :: u in a && v in r ==> Sooner(u, v)) && !Mixed(s, a[|a| - 1])
    ensures TiesHarmless(a)
  {
    hide Filter, SortedBy;
    forall x | Mixed(a, x) ensures HarmlessFor(a, x, Long) || HarmlessFor(a, x, Short) {
      assert Mixed(s, x);
      var d := if HarmlessFor(s, x, Long) then Long else Short;
      RestrictedAt(s, a, r, x, d);
    }
  }

  lemma RestrictedAt(s: seq<Row>, a: seq<Row>, r: seq<Row>, x: Row, d: Direction)
    requires s == a + r && SortedBy(s, ByStartFamily) && a != [] && HarmlessFor(s, x, d) && Mixed(s, x) && x in a
    requires (forall u, v :: u in a && v in r ==> Sooner(u, v)) && !Mixed(s, a[|a| - 1])
    ensures HarmlessFor(a, x, d)
  {
    hide Filter, Mixed, Sooner;
    var l := a[|a| - 1];
    forall p ensures NextTo(s, p, x) <==> NextTo(a, p, x) {
      NextBefore(s, a, r, p, x);
    }
    forall q ensures NextTo(s, x, q) <==> NextTo(a, x, q) {
      if NextTo(s, x, q) && q in r {
        MixedAlike(s, a, r, x, q);
      }
      NextWithin(s, a, r, x, q);
    }
    FilterAppend(a, r, Dissents(x, d));
    forall v | v in r ensures !Dissents(x, d)(v) {
      assert Sooner(x, v);
      NotTied(x, v);
    }
    FilterNone(r, Dissents(x, d));
    assert Filter(a, Dissents(x, d)) + [] == Filter(a, Dissents(x, d));
  }

  lemma NotTied(x: Row, v: Row)
    requires Sooner(x, v)
    ensures !SameTie(x, v) && !Sooner(v, x)
  {
  }

  lemma NextBefore(s: seq<Row>, a: seq<Row>, r: seq<Row>, p: Row, x: Row)
    requires s == a + r && (forall u, v :: u in a && v in r ==> Sooner(u, v)) && x in a
    ensures NextTo(s, p, x) <==> NextTo(a, p, x)
  {
    forall v | v in r ensures !Sooner(v, x) {
      NotTied(x, v);
    }
    hide Sooner;
  }

  lemma NextWithin(s: seq<Row>, a: seq<Row>, r: seq<Row>, x: Row, q: Row)
    requires s == a + r && (forall u, v :: u in a && v in r ==> Sooner(u, v)) && x in a
    ensures NextTo(a, x, q) ==> NextTo(s, x, q)
    ensures NextTo(s, x, q) && q in a ==> NextTo(a, x, q)
  {
    forall v | v in r && q in a ensures !Sooner(v, q) {
      NotTied(q, v);
    }
    hide Sooner;
  }

  lemma MixedAlike(s: seq<Row>, a: seq<Row>, r: seq<Row>, x: Row, q: Row)
    requires s == a + r && SortedBy(s, ByStartFamily) && a != [] && Mixed(s, x) && x in a && q in r && NextTo(s, x, q)
    requires forall u, v :: u in a && v in r ==> Sooner(u, v)
    ensures Mixed(s, a[|a| - 1])
  {
    var l := a[|a| - 1];
    assert l in a && l in s;
    var i :| 0 <= i < |a| && a[i] == x;
    assert ByStartFamily(x, l) by {
      assert s[i] == x && s[|a| - 1] == l;
      assert i == |a| - 1 || ByStartFamily(s[i], s[|a| - 1]);
    }
    assert SameTie(x, l);
    var y :| y in s && SameTie(x, y) && x.direction != y.direction;
    assert SameTie(l, y) && SameTie(l, x);
  }

  // ----- harmless ties do not show -----

  /** Same labels, same counter, same end. */
  ghost predicate Alike(s: seq<Row>, t: seq<Row>) {
    && RunTable(s) == RunTable(t) && RunIndex(s) == RunIndex(t) && (s == [] <==> t == [])
    && (s != [] ==> s[|s| - 1].start == t[|t| - 1].start && s[|s| - 1].direction == t[|t| - 1].direction)
  }

  lemma AlikeRunsOn(s: seq<Row>, t: seq<Row>, start: int, d: Direction)
    requires Alike(s, t)
    ensures RunsOn(s, start, d) == RunsOn(t, start, d)
  {
  }

  lemma StretchEnd(a: seq<Row>, g: seq<Row>)
    requires g != []
    ensures a + g != [] && (a + g)[|a + g| - 1] == g[|g| - 1]
  {
  }

  /** A tie of one direction keeps two arrangements alike. */
  lemma ExtendAlike(a: seq<Row>, a': seq<Row>, g: seq<Row>, g': seq<Row>, start: int, d: Direction)
    requires Alike(a, a') && g != [] && g' != [] && SessionOf(g[|g| - 1]) == SessionOf(g'[|g'| - 1])
    requires OneStart(g, start) && OneWay(g, d) && OneStart(g', start) && OneWay(g', d)
    ensures Alike(a + g, a' + g')
  {
    hide RunTable, RunIndex;
    IndexAfterStretch(a, g, start, d);
    IndexAfterStretch(a', g', start, d);
    TableAfterStretch(a, g, start);
    TableAfterStretch(a', g', start);
    AlikeRunsOn(a, a', start, d);
    StretchEnd(a, g);
    StretchEnd(a', g');
  }

  /** So does a tie with one dissenter between two of the other direction. */
  lemma ExtendOverDissent(a: seq<Row>, a': seq<Row>, m: seq<Row>, m': seq<Row>, g: seq<Row>, g': seq<Row>,
                          x: Row, d: Direction)
    requires Alike(a, a') && RunsOn(a, x.start, d) && g != [] && g' != []
    requires SessionOf(g[|g| - 1]) == SessionOf(g'[|g'| - 1])
    requires OneStart(g, x.start) && OneWay(g, d) && OneStart(g', x.start) && OneWay(g', d)
    requires (forall r :: r in m ==> SameTie(x, r)) && |Filter(m, Dissents(x, d))| == 1
    requires (forall r :: r in m' ==> SameTie(x, r)) && |Filter(m', Dissents(x, d))| == 1
    ensures Alike(a + m + g, a' + m' + g')
  {
    hide RunTable, RunIndex, Filter;
    AlikeRunsOn(a, a', x.start, d);
    OneDissenter(a, m, g, x, d);
    OneDissenter(a', m', g', x, d);
    OverOneStart(a, m, g, x);
    OverOneStart(a', m', g', x);
    StretchEnd(a + m, g);
    StretchEnd(a' + m', g');
  }

  lemma OverOneStart(a: seq<Row>, m: seq<Row>, g: seq<Row>, x: Row)
    requires g != [] && OneStart(g, x.start) && forall r :: r in m ==> SameTie(x, r)
    ensures RunTable(a + m + g) == RunTable(a)[x.start := LabelOf(a + m + g)]
  {
    hide RunTable, RunIndex;
    assert a + (m + g) == a + m + g;
    assert forall i :: 0 <= i < |m| ==> m[i] in m;
    TableAfterStretch(a, m + g, x.start);
  }

  lemma EndsLast(s: seq<Row>) returns (x: Row)
    requires s != [] && SortedBy(s, ByStartFamily)
    ensures x == s[|s| - 1] && x in s && forall r :: r in s ==> ByStartFamily(r, x)
  {
    x := s[|s| - 1];
    forall r | r in s ensures ByStartFamily(r, x) {
      var i :| 0 <= i < |s| && s[i] == r;
    }
  }

  /** Nothing comes after the last tie, so it points one way. */
  lemma LastTieOneWay(s: seq<Row>, x: Row)
    requires TiesHarmless(s) && x in s && forall r :: r in s ==> ByStartFamily(r, x)
    ensures !Mixed(s, x)
  {
    hide Filter;
  }

  lemma TieOneWay(s: seq<Row>, g: seq<Row>, x: Row)
    requires !Mixed(s, x) && x in s && forall r :: r in g ==> r in s && SameTie(x, r)
    ensures OneStart(g, x.start) && OneWay(g, x.direction)
  {
    assert forall i :: 0 <= i < |g| ==> g[i] in g;
  }

  lemma SplitAlike(s: seq<Row>, t: seq<Row>, x: Row)
    requires multiset(s) == multiset(t) && SortedBy(s, ByStartFamily) && SortedBy(t, ByStartFamily)
    requires x in s && forall r :: r in s ==> ByStartFamily(r, x)
    ensures t == Filter(t, Before(x)) + Filter(t, TieOf(x)) && Filter(t, TieOf(x)) != []
    ensures multiset(Filter(s, Before(x))) == multiset(Filter(t, Before(x)))
    ensures multiset(Filter(s, TieOf(x))) == multiset(Filter(t, TieOf(x)))
    ensures SortedBy(Filter(t, Before(x)), ByStartFamily)
  {
    hide Filter, ByStartFamily, Before, TieOf;
    SameMembers(s, t);
    LastTie(t, x);
    FilterSameBag(s, t, Before(x));
    FilterSameBag(s, t, TieOf(x));
  }

  lemma SameBagSize<T>(s: seq<T>, t: seq<T>)
    requires multiset(s) == multiset(t)
    ensures |s| == |t|
  {
    SameMembers(s, t);
  }

  /** The last tie of a points both ways: it is a single dissent between the end of what comes before it and
      the last tie g. */
  lemma DissentFits(s: seq<Row>, a: seq<Row>, g: seq<Row>, x: Row, l: Row) returns (d: Direction)
    requires s == a + g && SortedBy(s, ByStartFamily) && TiesHarmless(s) && Mixed(s, l) && g != []
    requires SortedBy(a, ByStartFamily) && l in a && (forall r :: r in a ==> ByStartFamily(r, l))
    requires (forall r :: r in a ==> Sooner(r, x)) && (forall r :: r in g ==> SameTie(x, r)) && x in g
    ensures var b, m := Filter(a, Before(l)), Filter(a, TieOf(l));
      && a == b + m && SortedBy(b, ByStartFamily) && TiesHarmless(b) && RunsOn(b, l.start, d)
      && (forall r :: r in m ==> r in a && SameTie(l, r)) && |Filter(m, Dissents(l, d))| == 1
      && x.start == l.start && x.direction == d && |b| < |s|
  {
    hide Filter, SortedBy, TiesHarmless, HarmlessFor, NextTo, Mixed, Sooner, ByStartFamily, SameTie;
    d := if HarmlessFor(s, l, Long) then Long else Short;
    assert HarmlessFor(s, l, d) by {
      HarmlessIs(s, l);
    }
    LastTie(a, l);
    var b, m := Filter(a, Before(l)), Filter(a, TieOf(l));
    FollowsDissent(s, a, g, x, l, d);
    PrecedesDissent(s, a, g, b, m, x, l, d);
    var o := b[|b| - 1];
    assert s == b + (m + g);
    ApartFromBoth(b, m, g, l, x);
    Restricted(s, b, m + g);
    OneDissenterOf(s, b, m, g, l, x, d);
  }

  lemma HarmlessIs(s: seq<Row>, l: Row)
    requires TiesHarmless(s) && Mixed(s, l)
    ensures HarmlessFor(s, l, Long) || HarmlessFor(s, l, Short)
  {
  }

  /** The last tie comes next after l. */
  lemma FollowsDissent(s: seq<Row>, a: seq<Row>, g: seq<Row>, x: Row, l: Row, d: Direction)
    requires s == a + g && HarmlessFor(s, l, d) && l in a && (forall r :: r in a ==> ByStartFamily(r, l))
    requires (forall r :: r in a ==> Sooner(r, x)) && (forall r :: r in g ==> SameTie(x, r)) && x in g
    ensures x.start == l.start && x.direction == d
  {
    hide Filter;
    forall r | r in s ensures !(Sooner(l, r) && Sooner(r, x)) {
    }
    assert NextTo(s, l, x);
    var q :| NextTo(s, l, q) && q.start == l.start;
  }

  /** What comes before the dissent ends in the direction of the others, within reach. */
  lemma PrecedesDissent(s: seq<Row>, a: seq<Row>, g: seq<Row>, b: seq<Row>, m: seq<Row>, x: Row, l: Row, d: Direction)
    requires s == a + g && a == b + m && HarmlessFor(s, l, d) && SortedBy(b, ByStartFamily) && l in a
    requires (forall r :: r in b <==> r in a && Sooner(r, l)) && (forall r :: r in a ==> Sooner(r, x))
    requires forall r :: r in g ==> SameTie(x, r)
    ensures RunsOn(b, l.start, d) && !Mixed(s, b[|b| - 1])
  {
    hide Filter;
    var p :| NextTo(s, p, l) && WithinReach(p, l);
    assert Sooner(p, l) && Sooner(l, x) && !SameTie(x, p);
    assert p in a;
    var o := EndsLast(b);
    assert ByStartFamily(p, o) && Sooner(o, l);
    assert SameTie(p, o);
    forall y | y in s && SameTie(o, y) ensures y.direction == d {
      assert NextTo(s, y, l);
    }
  }

  lemma ApartFromBoth(b: seq<Row>, m: seq<Row>, g: seq<Row>, l: Row, x: Row)
    requires (forall r :: r in b ==> Sooner(r, l)) && (forall r :: r in m ==> SameTie(l, r))
    requires (forall r :: r in b ==> Sooner(r, x)) && (forall r :: r in g ==> SameTie(x, r))
    ensures forall u, v :: u in b && v in m + g ==> Sooner(u, v)
  {
    ApartFromTie(b, m, l);
    ApartFromTie(b, g, x);
  }

  lemma OneDissenterOf(s: seq<Row>, b: seq<Row>, m: seq<Row>, g: seq<Row>, l: Row, x: Row, d: Direction)
    requires s == b + (m + g) && HarmlessFor(s, l, d) && Sooner(l, x)
    requires (forall r :: r in b ==> Sooner(r, l)) && (forall r :: r in g ==> SameTie(x, r))
    ensures |Filter(m, Dissents(l, d))| == 1
  {
    hide Filter;
    var p := Dissents(l, d);
    FilterAppend(b, m + g, p);
    FilterAppend(m, g, p);
    FilterNone(b, p);
    FilterNone(g, p);
    assert [] + (Filter(m, p) + []) == Filter(m, p);
  }

  lemma {:induction false} HarmlessDoesNotShow(s: seq<Row>, t: seq<Row>)
    requires multiset(s) == multiset(t) && SortedBy(s, ByStartFamily) && SortedBy(t, ByStartFamily)
    requires OneSession(s) && TiesHarmless(s)
    ensures Alike(s, t)
    decreases |s|
  {
    hide Filter, SortedBy, RunTable, RunIndex, TiesHarmless, Mixed, Sooner, ByStartFamily;
    SameMembers(s, t);
    if s != [] {
      var x := EndsLast(s);
      LastTieOneWay(s, x);
      LastTie(s, x);
      SplitAlike(s, t, x);
      var a, g, a', g' := Filter(s, Before(x)), Filter(s, TieOf(x)), Filter(t, Before(x)), Filter(t, TieOf(x));
      SameMembers(g, g');
      SameMembers(a, a');
      TieOneWay(s, g, x);
      TieOneWay(s, g', x);
      assert g[|g| - 1] in g && g'[|g'| - 1] in g;
      if a == [] {
        NothingIsAlike();
        ExtendAlike(a, a', g, g', x.start, x.direction);
      } else {
        var l := EndsLast(a);
        if !Mixed(s, l) {
          ApartFromTie(a, g, x);
          Restricted(s, a, g);
          HarmlessDoesNotShow(a, a');
          ExtendAlike(a, a', g, g', x.start, x.direction);
        } else {
          var d := DissentFits(s, a, g, x, l);
          SplitAlike(a, a', l);
          var m, m' := Filter(a, TieOf(l)), Filter(a', TieOf(l));
          FilterSameBag(m, m', Dissents(l, d));
          SameMembers(m, m');
          SameBagSize(Filter(m, Dissents(l, d)), Filter(m', Dissents(l, d)));
          TieOneWay(s, g', x);
          HarmlessDoesNotShow(Filter(a, Before(l)), Filter(a', Before(l)));
          ExtendOverDissent(Filter(a, Before(l)), Filter(a', Before(l)), m, m', g, g', l, d);
        }
      }
    }
  }

  lemma NothingIsAlike()
    ensures Alike([], [])
  {
  }

  lemma ApartFromTie(a: seq<Row>, g: seq<Row>, x: Row)
    requires (forall r :: r in a ==> Sooner(r, x)) && forall r :: r in g ==> SameTie(x, r)
    ensures forall u, v :: u in a && v in g ==> Sooner(u, v)
  {
  }
}
