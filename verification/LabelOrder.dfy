/** Exactly when the reducer's run labels do not depend on the order of its input
    (alert_ranker/coverage_episodes.py:252-273). */
module LabelOrder {
  import opened Conventions
  import opened Grouping
  import opened Sorting
  import opened CoverageEpisodes
  import opened EpisodeReducer
  import opened LabelTies

  // ----- any other tie shows -----

  function Facing(d: Direction): Row -> bool {
    (r: Row) => r.direction == d
  }

  /** The rows of one direction, then those of the other. */
  function Sides(g: seq<Row>, d: Direction): seq<Row> {
    Filter(g, Facing(d)) + Filter(g, Facing(Other(d)))
  }

  lemma {:induction false} SidesBag(g: seq<Row>, d: Direction)
    ensures multiset(Filter(g, Facing(d))) + multiset(Filter(g, Facing(Other(d)))) == multiset(g)
    ensures multiset(Sides(g, d)) == multiset(g)
  {
    if g != [] {
      SidesBag(g[1..], d);
      assert g == [g[0]] + g[1..];
    }
  }

  lemma SideShape(g: seq<Row>, start: int, d: Direction)
    requires OneStart(g, start)
    ensures OneStart(Filter(g, Facing(d)), start) && OneWay(Filter(g, Facing(d)), d)
  {
    hide Filter;
    FilterMembers(g, Facing(d));
    var side := Filter(g, Facing(d));
    forall i | 0 <= i < |side| ensures side[i].start == start && side[i].direction == d {
      assert side[i] in side && Facing(d)(side[i]);
    }
  }

  /** The rows of one direction, with one row of the other first and the rest of them last. */
  function Spread(g: seq<Row>, d: Direction): seq<Row>
    requires Filter(g, Facing(Other(d))) != []
  {
    Filter(g, Facing(Other(d)))[..1] + Filter(g, Facing(d)) + Filter(g, Facing(Other(d)))[1..]
  }

  lemma SpreadBag(g: seq<Row>, d: Direction)
    requires Filter(g, Facing(Other(d))) != []
    ensures multiset(Spread(g, d)) == multiset(g)
  {
    hide Filter;
    SidesBag(g, d);
    var others := Filter(g, Facing(Other(d)));
    assert others == others[..1] + others[1..];
  }

  predicate BothWays(g: seq<Row>, start: int) {
    OneStart(g, start) && Filter(g, Facing(Long)) != [] && Filter(g, Facing(Short)) != []
  }

  lemma SidesIndex(a: seq<Row>, g: seq<Row>, q: Row, start: int, d: Direction)
    requires BothWays(g, start) && q.start == start
    ensures RunIndex(a + Sides(g, d) + [q]) ==
            RunIndex(a) + (if RunsOn(a, start, d) then 0 else 1) + 1 + (if q.direction == d then 1 else 0)
  {
    hide Filter, RunIndex, RunsOn;
    var first, last := Filter(g, Facing(d)), Filter(g, Facing(Other(d)));
    SideShape(g, start, d);
    SideShape(g, start, Other(d));
    IndexAfterStretch(a, first, start, d);
    IndexAfterStretch(a + first, last, start, Other(d));
    IndexAfterStretch(a + first + last, [q], start, q.direction);
    assert a + first + last == a + Sides(g, d);
  }

  lemma SpreadIndex(a: seq<Row>, g: seq<Row>, q: Row, start: int)
    requires BothWays(g, start) && q.start == start && RunsOn(a, start, q.direction)
    requires |Filter(g, Facing(Other(q.direction)))| >= 2
    ensures RunIndex(a + Spread(g, q.direction) + [q]) == RunIndex(a) + 4
  {
    hide Filter, RunIndex, RunsOn;
    var d := q.direction;
    var same, others := Filter(g, Facing(d)), Filter(g, Facing(Other(d)));
    SideShape(g, start, d);
    SideShape(g, start, Other(d));
    NotBothWays(a, start, d);
    IndexAfterStretch(a, others[..1], start, Other(d));
    IndexAfterStretch(a + others[..1], same, start, d);
    IndexAfterStretch(a + others[..1] + same, others[1..], start, Other(d));
    IndexAfterStretch(a + others[..1] + same + others[1..], [q], start, d);
    assert a + others[..1] + same + others[1..] == a + Spread(g, d);
  }

  /** Unless a tie is a single dissent between two rows of the other direction, two arrangements of it leave
      the counter at different values. */
  lemma TwoArrangements(a: seq<Row>, g: seq<Row>, q: Row, start: int) returns (one: seq<Row>, two: seq<Row>)
    requires BothWays(g, start) && q.start == start
    requires !(RunsOn(a, start, q.direction) && |Filter(g, Facing(Other(q.direction)))| == 1)
    ensures multiset(one) == multiset(g) == multiset(two)
    ensures RunIndex(a + one + [q]) != RunIndex(a + two + [q])
  {
    hide Filter, RunIndex, RunsOn, Sides, Spread;
    var d := q.direction;
    one := Sides(g, d);
    SidesBag(g, d);
    SidesIndex(a, g, q, start, d);
    if RunsOn(a, start, d) {
      two := Spread(g, d);
      SpreadBag(g, d);
      SpreadIndex(a, g, q, start);
    } else {
      two := Sides(g, Other(d));
      SidesBag(g, Other(d));
      SidesIndex(a, g, q, start, Other(d));
    }
  }

  // ----- a difference in the counter reaches a label -----

  function NotLater(start: int): Row -> bool {
    (r: Row) => r.start <= start
  }

  /** Two arrangements that part before the end of a bar give it two labels. */
  lemma BarEndsApart(u: seq<Row>, v: seq<Row>, q: Row, rest: seq<Row>)
    requires RunIndex(u + [q]) != RunIndex(v + [q])
    requires SortedBy(rest, ByStartFamily) && forall r :: r in rest ==> q.start <= r.start
    ensures RunTable(u + [q] + rest) != RunTable(v + [q] + rest)
  {
    hide RunTable, RunIndex, Filter;
    var k := SortedCut(rest, ByStartFamily, NotLater(q.start));
    var now, later := rest[..k], rest[k..];
    assert rest == now + later;
    forall r | r in later ensures r.start != q.start {
      var i :| 0 <= i < |later| && later[i] == r;
      assert !NotLater(q.start)(rest[k + i]);
    }
    forall r | r in now ensures r.start == q.start {
      var i :| 0 <= i < |now| && now[i] == r;
      assert NotLater(q.start)(rest[i]) && rest[i] in rest;
    }
    IndexAfter(u + [q], v + [q], now);
    BarEndLabel(u, q, now, later);
    BarEndLabel(v, q, now, later);
    assert u + [q] + now + later == u + [q] + rest && v + [q] + now + later == v + [q] + rest;
  }

  lemma BarEndLabel(u: seq<Row>, q: Row, now: seq<Row>, later: seq<Row>)
    requires (forall r :: r in now ==> r.start == q.start) && forall r :: r in later ==> r.start != q.start
    ensures var t := RunTable(u + [q] + now + later);
      q.start in t && t[q.start].index == RunIndex(u + [q] + now)
  {
    hide RunTable, RunIndex;
    var upto := u + [q] + now;
    assert now != [] ==> now[|now| - 1] in now;
    assert upto[|upto| - 1].start == q.start;
    TableKeeps(upto, later, q.start);
  }

  // ----- rearranging one tie of a sorted list -----

  lemma SwapTie(u: seq<Row>, g: seq<Row>, g': seq<Row>, v: seq<Row>, x: Row)
    requires SortedBy(u + g + v, ByStartFamily) && multiset(g) == multiset(g')
    requires forall r :: r in g ==> SameTie(x, r)
    ensures SortedBy(u + g' + v, ByStartFamily) && multiset(u + g' + v) == multiset(u + g + v)
  {
    SameMembers(g, g');
    var s, t := u + g + v, u + g' + v;
    forall i | 0 <= i < |t| ensures SameTie(s[i], t[i]) {
      if |u| <= i < |u| + |g| {
        assert g[i - |u|] in g && g'[i - |u|] in g;
      }
    }
    forall i, j | 0 <= i < j < |t| ensures ByStartFamily(t[i], t[j]) {
      assert ByStartFamily(s[i], s[j]) && SameTie(s[i], t[i]) && SameTie(s[j], t[j]);
    }
  }

  /** Two arrangements of one list with different labels. */
  ghost predicate Shows(s: seq<Row>) {
    exists t, u :: Arranged(s, t) && Arranged(s, u) && RunTable(t) != RunTable(u)
  }

  ghost predicate Arranged(s: seq<Row>, t: seq<Row>) {
    SortedBy(t, ByStartFamily) && multiset(t) == multiset(s)
  }

  /** A two-way tie that ends its bar shows in the direction of the label. */
  lemma EndOfBarShows(s: seq<Row>, a: seq<Row>, g: seq<Row>, b: seq<Row>, x: Row)
    requires s == a + g + b && SortedBy(s, ByStartFamily) && BothWays(g, x.start)
    requires forall r :: r in g ==> SameTie(x, r)
    requires forall r :: r in b ==> r.start != x.start
    ensures Shows(s)
  {
    hide RunTable, RunIndex, Filter, SortedBy;
    SidesBag(g, Long);
    SidesBag(g, Short);
    SwapTie(a, g, Sides(g, Long), b, x);
    SwapTie(a, g, Sides(g, Short), b, x);
    SidesEnd(a, g, b, x, Long);
    SidesEnd(a, g, b, x, Short);
    assert Arranged(s, a + Sides(g, Long) + b) && Arranged(s, a + Sides(g, Short) + b);
  }

  lemma SidesEnd(a: seq<Row>, g: seq<Row>, b: seq<Row>, x: Row, d: Direction)
    requires BothWays(g, x.start) && forall r :: r in b ==> r.start != x.start
    ensures var t := RunTable(a + Sides(g, d) + b);
      x.start in t && t[x.start].direction == Other(d)
  {
    hide RunTable, RunIndex, Filter;
    SideShape(g, x.start, Other(d));
    var upto, last := a + Sides(g, d), Filter(g, Facing(Other(d)));
    assert upto[|upto| - 1] == last[|last| - 1];
    TableKeeps(upto, b, x.start);
  }

  lemma RestIsLater(u: seq<Row>, q: Row, rest: seq<Row>)
    requires SortedBy(u + [q] + rest, ByStartFamily)
    ensures SortedBy(rest, ByStartFamily) && forall r :: r in rest ==> q.start <= r.start
  {
    var s, n := u + [q] + rest, |u| + 1;
    assert s[|u|] == q;
    forall i, j | 0 <= i < j < |rest| ensures ByStartFamily(rest[i], rest[j]) {
      assert ByStartFamily(s[n + i], s[n + j]);
    }
    forall r | r in rest ensures q.start <= r.start {
      var i :| 0 <= i < |rest| && rest[i] == r;
      assert ByStartFamily(s[|u|], s[n + i]);
    }
  }

  lemma SwapArranged(s: seq<Row>, u: seq<Row>, g: seq<Row>, g': seq<Row>, q: Row, rest: seq<Row>, x: Row)
    requires s == u + g + [q] + rest && SortedBy(s, ByStartFamily) && multiset(g) == multiset(g')
    requires forall r :: r in g ==> SameTie(x, r)
    ensures Arranged(s, u + g' + [q] + rest)
  {
    hide ByStartFamily, SameTie;
    assert u + g + ([q] + rest) == s;
    SwapTie(u, g, g', [q] + rest, x);
    assert u + g' + ([q] + rest) == u + g' + [q] + rest;
  }

  /** A two-way tie inside a bar shows unless it is a single dissent. */
  lemma InsideBarShows(s: seq<Row>, a: seq<Row>, g: seq<Row>, q: Row, rest: seq<Row>, x: Row)
    requires s == a + g + [q] + rest && SortedBy(s, ByStartFamily) && BothWays(g, x.start)
    requires (forall r :: r in g ==> SameTie(x, r)) && q.start == x.start
    requires !(RunsOn(a, x.start, q.direction) && |Filter(g, Facing(Other(q.direction)))| == 1)
    ensures Shows(s)
  {
    hide RunTable, RunIndex, Filter, RunsOn, BothWays, SortedBy, SameTie, Arranged;
    var one, two := TwoArrangements(a, g, q, x.start);
    RestIsLater(a + g, q, rest);
    SwapArranged(s, a, g, one, q, rest, x);
    SwapArranged(s, a, g, two, q, rest, x);
    BarEndsApart(a + one, a + two, q, rest);
  }

  lemma ShowsAlike(s: seq<Row>, t: seq<Row>)
    requires multiset(s) == multiset(t) && Shows(t)
    ensures Shows(s)
  {
    hide RunTable, SortedBy;
    var u, v :| Arranged(t, u) && Arranged(t, v) && RunTable(u) != RunTable(v);
    assert Arranged(s, u) && Arranged(s, v);
  }

  lemma PartsSorted(u: seq<Row>, v: seq<Row>)
    requires SortedBy(u + v, ByStartFamily)
    ensures SortedBy(u, ByStartFamily) && SortedBy(v, ByStartFamily)
  {
    var s := u + v;
    forall i, j | 0 <= i < j < |u| ensures ByStartFamily(u[i], u[j]) {
      assert ByStartFamily(s[i], s[j]);
    }
    forall i, j | 0 <= i < j < |v| ensures ByStartFamily(v[i], v[j]) {
      assert ByStartFamily(s[|u| + i], s[|u| + j]);
    }
  }

  lemma SidesEnds(g: seq<Row>, p: Row, x: Row)
    requires p in g && forall r :: r in g ==> SameTie(x, r)
    ensures var one, two := Sides(g, p.direction), Sides(g, Other(p.direction));
      && one != [] && one[0].direction == p.direction && one[0].start == x.start
      && two != [] && two[|two| - 1].direction == p.direction && two[|two| - 1].start == x.start
  {
    hide Filter;
    var d := p.direction;
    FilterMembers(g, Facing(d));
    var side := Filter(g, Facing(d));
    assert p in side && Other(Other(d)) == d;
    assert Sides(g, d)[0] == side[0] && side[0] in side && Facing(d)(side[0]);
    var two, last := Sides(g, Other(d)), side[|side| - 1];
    assert two[|two| - 1] == last && last in side && Facing(d)(last);
  }

  /** Rearrange the last tie of a so that it ends with the direction of p. */
  lemma EndWith(a: seq<Row>, v: seq<Row>, p: Row) returns (a': seq<Row>)
    requires SortedBy(a + v, ByStartFamily) && a != [] && p in a && SameTie(p, a[|a| - 1])
    ensures SortedBy(a' + v, ByStartFamily) && multiset(a' + v) == multiset(a + v)
    ensures a' != [] && a'[|a'| - 1].start == p.start && a'[|a'| - 1].direction == p.direction
  {
    hide Filter, SortedBy;
    PartsSorted(a, v);
    var l := EndsLast(a);
    LastTie(a, l);
    var early, g := Filter(a, Before(l)), Filter(a, TieOf(l));
    var swapped := Sides(g, Other(p.direction));
    SidesBag(g, Other(p.direction));
    SidesEnds(g, p, l);
    SwapTie(early, g, swapped, v, l);
    a' := early + swapped;
  }

  lemma FirstTie(b: seq<Row>)
    requires SortedBy(b, ByStartFamily) && b != []
    ensures b == Filter(b, TieOf(b[0])) + Filter(b, After(b[0]))
    ensures forall r :: r in Filter(b, TieOf(b[0])) <==> r in b && SameTie(b[0], r)
  {
    hide Filter;
    forall r | r in b ensures !Before(b[0])(r) {
      var i :| 0 <= i < |b| && b[i] == r;
      assert i == 0 || ByStartFamily(b[0], b[i]);
    }
    CutAt(b, b[0]);
    FilterNone(b, Before(b[0]));
    FilterMembers(b, TieOf(b[0]));
    assert [] + Filter(b, TieOf(b[0])) + Filter(b, After(b[0])) == Filter(b, TieOf(b[0])) + Filter(b, After(b[0]));
  }

  /** Rearrange the first tie of b so that it begins with the direction of q. */
  lemma StartWith(u: seq<Row>, b: seq<Row>, q: Row) returns (b': seq<Row>)
    requires SortedBy(u + b, ByStartFamily) && b != [] && q in b && SameTie(b[0], q)
    ensures SortedBy(u + b', ByStartFamily) && multiset(u + b') == multiset(u + b)
    ensures b' != [] && b'[0].start == q.start && b'[0].direction == q.direction
  {
    hide Filter, SortedBy;
    PartsSorted(u, b);
    FirstTie(b);
    var g, later := Filter(b, TieOf(b[0])), Filter(b, After(b[0]));
    var swapped := Sides(g, q.direction);
    SidesBag(g, q.direction);
    SidesEnds(g, q, b[0]);
    assert u + g + later == u + b;
    SwapTie(u, g, swapped, later, b[0]);
    b' := swapped + later;
    assert u + swapped + later == u + b';
  }

  lemma TieBothWays(s: seq<Row>, x: Row)
    requires Mixed(s, x)
    ensures BothWays(Filter(s, TieOf(x)), x.start)
  {
    hide Filter;
    var g := Filter(s, TieOf(x));
    FilterMembers(s, TieOf(x));
    forall i | 0 <= i < |g| ensures g[i].start == x.start {
      assert g[i] in g;
    }
    var y :| y in s && SameTie(x, y) && x.direction != y.direction;
    assert x in g && y in g;
    FilterMembers(g, Facing(Long));
    FilterMembers(g, Facing(Short));
    assert Facing(x.direction)(x) && Facing(y.direction)(y);
    assert x in Filter(g, Facing(x.direction)) && y in Filter(g, Facing(y.direction));
  }

  lemma DissentsOfTie(s: seq<Row>, x: Row, d: Direction)
    ensures Filter(s, Dissents(x, d)) == Filter(Filter(s, TieOf(x)), Facing(Other(d)))
  {
    hide Filter;
    var g := Filter(s, TieOf(x));
    FilterMembers(s, TieOf(x));
    FilterImplied(s, TieOf(x), Dissents(x, d));
    forall r | r in g ensures Dissents(x, d)(r) == Facing(Other(d))(r) {
      assert TieOf(x)(r);
    }
    FilterAgrees(g, Dissents(x, d), Facing(Other(d)));
  }

  /** What stands right before and right after a tie. */
  lemma Neighbours(s: seq<Row>, a: seq<Row>, g: seq<Row>, b: seq<Row>, x: Row)
    requires s == a + g + b && SortedBy(s, ByStartFamily) && x in g
    requires (forall r :: r in a ==> Sooner(r, x)) && (forall r :: r in g ==> SameTie(x, r))
    requires forall r :: r in b ==> Sooner(x, r)
    ensures a != [] ==> forall p :: NextTo(s, p, x) <==> p in a && SameTie(p, a[|a| - 1])
    ensures b != [] ==> forall q :: NextTo(s, x, q) <==> q in b && SameTie(b[0], q)
  {
    if a != [] {
      var l := a[|a| - 1];
      forall r | r in a ensures ByStartFamily(r, l) {
        var i :| 0 <= i < |a| && a[i] == r;
        assert s[i] == r && s[|a| - 1] == l;
      }
      assert l in a;
    }
    if b != [] {
      var f, n := b[0], |a + g|;
      forall r | r in b ensures ByStartFamily(f, r) {
        var i :| 0 <= i < |b| && b[i] == r;
        assert s[n + i] == r && s[n] == f;
      }
      assert f in b;
    }
  }

  /** The neighbours can be made to face different ways. */
  lemma PartedShows(s: seq<Row>, a: seq<Row>, g: seq<Row>, b: seq<Row>, x: Row, p: Row, q: Row)
    requires s == a + g + b && SortedBy(s, ByStartFamily) && BothWays(g, x.start)
    requires (forall r :: r in g ==> SameTie(x, r)) && a != [] && b != [] && b[0].start == x.start
    requires p in a && SameTie(p, a[|a| - 1]) && q in b && SameTie(b[0], q) && p.direction != q.direction
    ensures Shows(s)
  {
    hide Filter, SortedBy, BothWays, Shows, ByStartFamily;
    assert a + (g + b) == s;
    var a' := EndWith(a, g + b, p);
    assert a' + (g + b) == (a' + g) + b;
    var b' := StartWith(a' + g, b, q);
    var t, rest := a' + g + b', b'[1..];
    assert t == a' + g + [b'[0]] + rest;
    NotBothWays(a', x.start, p.direction);
    InsideBarShows(t, a', g, b'[0], rest, x);
    ShowsAlike(s, t);
  }

  lemma FitsHarmless(s: seq<Row>, a: seq<Row>, g: seq<Row>, b: seq<Row>, x: Row)
    requires s == a + g + b && SortedBy(s, ByStartFamily) && x in g && g == Filter(s, TieOf(x))
    requires (forall r :: r in a ==> Sooner(r, x)) && (forall r :: r in b ==> Sooner(x, r))
    requires a != [] && b != [] && b[0].start == x.start && WithinReach(a[|a| - 1], x)
    requires forall p, q :: p in a && SameTie(p, a[|a| - 1]) && q in b && SameTie(b[0], q) ==>
      p.direction == q.direction
    requires |Filter(g, Facing(Other(b[0].direction)))| == 1
    ensures HarmlessFor(s, x, b[0].direction)
  {
    hide Filter, SortedBy, NextTo;
    FilterMembers(s, TieOf(x));
    assert forall r :: r in g ==> TieOf(x)(r);
    Neighbours(s, a, g, b, x);
    DissentsOfTie(s, x, b[0].direction);
    var l, f := a[|a| - 1], b[0];
    assert l in a && f in b && SameTie(l, l) && SameTie(f, f);
    assert NextTo(s, l, x) && NextTo(s, x, f);
  }

  /** A two-way tie that is not harmless shows. */
  lemma HarmfulShows(s: seq<Row>, x: Row)
    requires SortedBy(s, ByStartFamily) && Mixed(s, x)
    requires !HarmlessFor(s, x, Long) && !HarmlessFor(s, x, Short)
    ensures Shows(s)
  {
    hide Filter, SortedBy, Shows, HarmlessFor, BothWays, Sides;
    CutAt(s, x);
    var a, g, b := Filter(s, Before(x)), Filter(s, TieOf(x)), Filter(s, After(x));
    FilterMembers(s, Before(x));
    FilterMembers(s, TieOf(x));
    FilterMembers(s, After(x));
    TieBothWays(s, x);
    assert (forall r :: r in a ==> Before(x)(r)) && (forall r :: r in g ==> TieOf(x)(r));
    assert (forall r :: r in b ==> After(x)(r)) && x in g;
    PartsSorted(a + g, b);
    if b == [] || b[0].start != x.start {
      LaterBars(b, x);
      EndOfBarShows(s, a, g, b, x);
    } else {
      assert b == [b[0]] + b[1..] && s == a + g + [b[0]] + b[1..];
      if a == [] || !WithinReach(a[|a| - 1], x) {
        InsideBarShows(s, a, g, b[0], b[1..], x);
      } else if p, q :| p in a && SameTie(p, a[|a| - 1]) && q in b && SameTie(b[0], q) && p.direction != q.direction {
        PartedShows(s, a, g, b, x, p, q);
      } else {
        if |Filter(g, Facing(Other(b[0].direction)))| == 1 {
          FitsHarmless(s, a, g, b, x);
        }
        InsideBarShows(s, a, g, b[0], b[1..], x);
      }
    }
  }

  lemma LaterBars(b: seq<Row>, x: Row)
    requires SortedBy(b, ByStartFamily) && (forall r :: r in b ==> Sooner(x, r)) && (b == [] || b[0].start != x.start)
    ensures forall r :: r in b ==> r.start != x.start
  {
    forall r | r in b ensures r.start != x.start {
      var i :| 0 <= i < |b| && b[i] == r;
      assert b[0] in b && (i == 0 || ByStartFamily(b[0], b[i]));
    }
  }

  // ----- the input -----

  function Elsewhere(symbol: int, session: int): Row -> bool {
    (r: Row) => r.symbol != symbol || r.session != session
  }

  lemma {:induction false} SplitBag(rows: seq<Row>, symbol: int, session: int)
    ensures multiset(Filter(rows, Keyed(SessionOf, SessionKey(symbol, session)))) +
            multiset(Filter(rows, Elsewhere(symbol, session))) == multiset(rows)
  {
    if rows != [] {
      SplitBag(rows[1..], symbol, session);
      assert rows == [rows[0]] + rows[1..];
      assert SessionOf(rows[0]) == SessionKey(rows[0].symbol, rows[0].session);
    }
  }

  /** Every arrangement of a session's rows comes from some order of the input. */
  lemma OrderFor(rows: seq<Row>, symbol: int, session: int, t: seq<Row>) returns (other: seq<Row>)
    requires Arranged(SessionRows(rows, symbol, session), t)
    ensures multiset(other) == multiset(rows) && SessionRows(other, symbol, session) == t
  {
    hide Filter, StableSort, SortedBy;
    var p, rest := Keyed(SessionOf, SessionKey(symbol, session)), Filter(rows, Elsewhere(symbol, session));
    Orders();
    SortSorts(Filter(rows, p), ByStartFamily);
    SplitBag(rows, symbol, session);
    other := t + rest;
    SameMembers(t, Filter(rows, p));
    FilterMembers(rows, p);
    FilterMembers(rows, Elsewhere(symbol, session));
    forall r | r in t ensures p(r) {
      assert r in Filter(rows, p);
    }
    forall r | r in rest ensures !p(r) {
      assert Elsewhere(symbol, session)(r);
    }
    FilterAppend(t, rest, p);
    FilterAll(t, p);
    FilterNone(rest, p);
    assert t + [] == t;
    SortOfSorted(t, ByStartFamily);
  }

  lemma OrderIsArranged(rows: seq<Row>, other: seq<Row>, symbol: int, session: int)
    requires multiset(other) == multiset(rows)
    ensures Arranged(SessionRows(rows, symbol, session), SessionRows(other, symbol, session))
    ensures OneSession(SessionRows(rows, symbol, session))
    ensures SortedBy(SessionRows(rows, symbol, session), ByStartFamily)
  {
    hide Filter, StableSort, SortedBy;
    var p := Keyed(SessionOf, SessionKey(symbol, session));
    Orders();
    FilterSameBag(rows, other, p);
    SortSorts(Filter(rows, p), ByStartFamily);
    SortSorts(Filter(other, p), ByStartFamily);
    SessionRowsMembers(rows, symbol, session);
  }

  /** The labels of a session are the same for every order of the input. */
  ghost predicate LabelsFixedIn(rows: seq<Row>, symbol: int, session: int) {
    forall other, start :: multiset(other) == multiset(rows) ==>
      RunAt(other, symbol, session, start) == RunAt(rows, symbol, session, start)
  }

  lemma TablesFromLabels(rows: seq<Row>, other: seq<Row>, symbol: int, session: int)
    requires LabelsFixedIn(rows, symbol, session) && multiset(other) == multiset(rows)
    ensures RunTable(SessionRows(other, symbol, session)) == RunTable(SessionRows(rows, symbol, session))
  {
    hide RunTable, SessionRows;
    var t, u := RunTable(SessionRows(other, symbol, session)), RunTable(SessionRows(rows, symbol, session));
    forall start ensures start in t <==> start in u
                 ensures start in t && start in u ==> t[start] == u[start] {
      assert RunAt(other, symbol, session, start) == RunAt(rows, symbol, session, start);
    }
  }

  /** For any input: the labels of a session are the same for every order of it, if and only if each bar and
      family whose rows point both ways holds a single dissent between two ties of the other direction. */
  lemma LabelsFixedExactlyWhen(rows: seq<Row>, symbol: int, session: int)
    ensures LabelsFixedIn(rows, symbol, session) <==> TiesHarmless(SessionRows(rows, symbol, session))
  {
    hide RunTable, SessionRows, TiesHarmless, HarmlessFor, Mixed, SortedBy, OneSession;
    var s := SessionRows(rows, symbol, session);
    OrderIsArranged(rows, rows, symbol, session);
    if TiesHarmless(s) {
      forall other, start | multiset(other) == multiset(rows)
        ensures RunAt(other, symbol, session, start) == RunAt(rows, symbol, session, start)
      {
        OrderIsArranged(rows, other, symbol, session);
        HarmlessDoesNotShow(s, SessionRows(other, symbol, session));
      }
    } else if LabelsFixedIn(rows, symbol, session) {
      var x := SomeHarmful(s);
      HarmfulShows(s, x);
      var t, u :| Arranged(s, t) && Arranged(s, u) && RunTable(t) != RunTable(u);
      var one := OrderFor(rows, symbol, session, t);
      var two := OrderFor(rows, symbol, session, u);
      TablesFromLabels(rows, one, symbol, session);
      TablesFromLabels(rows, two, symbol, session);
    }
  }

  lemma SomeHarmful(s: seq<Row>) returns (x: Row)
    requires !TiesHarmless(s)
    ensures Mixed(s, x) && !HarmlessFor(s, x, Long) && !HarmlessFor(s, x, Short)
  {
    hide HarmlessFor, Mixed;
    x :| Mixed(s, x) && !HarmlessFor(s, x, Long) && !HarmlessFor(s, x, Short);
  }

  /** In particular they are when no bar and family points both ways, ... */
  lemma LabelsFixed(rows: seq<Row>, symbol: int, session: int)
    requires forall x :: !Mixed(SessionRows(rows, symbol, session), x)
    ensures LabelsFixedIn(rows, symbol, session)
  {
    hide SessionRows;
    LabelsFixedExactlyWhen(rows, symbol, session);
  }

  /** ... and they are not when the last family of a bar does. */
  lemma TieAtEndOfBarShows(rows: seq<Row>, x: Row)
    requires var s := SessionRows(rows, x.symbol, x.session);
      Mixed(s, x) && forall r :: r in s && r.start == x.start ==> r.family <= x.family
    ensures !LabelsFixedIn(rows, x.symbol, x.session)
  {
    hide SessionRows, Filter;
    LabelsFixedExactlyWhen(rows, x.symbol, x.session);
  }
}
