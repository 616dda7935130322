/** Order-preserving list tools shared by the model: a stable sort (what the repository's
    sorted() calls and list.sort() calls do), a filter (its comprehensions), a first-match
    search, and the facts that make them usable: sorting commutes with filtering, and its result
    does not depend on input order when no two elements tie. */
module Sorting {

  datatype Option<+T> = None | Some(value: T)

  ghost predicate TotalPreorder<T(!new)>(le: (T, T) -> bool) {
    && (forall x, y :: le(x, y) || le(y, x))
    && (forall x, y, z :: le(x, y) && le(y, z) ==> le(x, z))
  }

  ghost predicate SortedBy<T>(s: seq<T>, le: (T, T) -> bool) {
    forall i, j :: 0 <= i < j < |s| ==> le(s[i], s[j])
  }

  /** No two different elements of s tie under le. */
  ghost predicate NoTies<T(!new)>(s: seq<T>, le: (T, T) -> bool) {
    forall x, y :: x in s && y in s && le(x, y) && le(y, x) ==> x == y
  }

  function Insert<T>(x: T, s: seq<T>, le: (T, T) -> bool): seq<T> {
    if s == [] || le(x, s[0]) then [x] + s else [s[0]] + Insert(x, s[1..], le)
  }

  function StableSort<T>(s: seq<T>, le: (T, T) -> bool): seq<T> {
    if s == [] then [] else Insert(s[0], StableSort(s[1..], le), le)
  }

  function Filter<T>(s: seq<T>, p: T -> bool): seq<T> {
    if s == [] then [] else if p(s[0]) then [s[0]] + Filter(s[1..], p) else Filter(s[1..], p)
  }

  lemma {:induction false} InsertBag<T>(x: T, s: seq<T>, le: (T, T) -> bool)
    ensures multiset(Insert(x, s, le)) == multiset{x} + multiset(s)
    ensures forall y :: y in Insert(x, s, le) <==> y == x || y in s
  {
    if s != [] && !le(x, s[0]) {
      InsertBag(x, s[1..], le);
      assert s == [s[0]] + s[1..];
    }
  }

  lemma BelowHead<T(!new)>(x: T, s: seq<T>, le: (T, T) -> bool)
    requires TotalPreorder(le) && SortedBy(s, le) && s != [] && le(x, s[0])
    ensures forall y :: y in s ==> le(x, y)
  {
    forall y | y in s ensures le(x, y) {
      var j :| 0 <= j < |s| && s[j] == y;
      assert j == 0 || le(s[0], s[j]);
    }
  }

  lemma ConsSorted<T(!new)>(x: T, s: seq<T>, le: (T, T) -> bool)
    requires SortedBy(s, le) && forall y :: y in s ==> le(x, y)
    ensures SortedBy([x] + s, le)
  {
    var r := [x] + s;
    forall i, j | 0 <= i < j < |r| ensures le(r[i], r[j]) {
      assert r[j] == s[j - 1] && r[j] in s;
    }
  }

  lemma {:induction false} InsertSorts<T(!new)>(x: T, s: seq<T>, le: (T, T) -> bool)
    requires TotalPreorder(le) && SortedBy(s, le)
    ensures SortedBy(Insert(x, s, le), le)
    ensures multiset(Insert(x, s, le)) == multiset{x} + multiset(s)
    ensures forall y :: y in Insert(x, s, le) <==> y == x || y in s
  {
    hide SortedBy, Insert;
    InsertBag(x, s, le);
    InsertIs(x, s, le);
    if s == [] {
      ConsSorted(x, s, le);
    } else if le(x, s[0]) {
      BelowHead(x, s, le);
      ConsSorted(x, s, le);
    } else {
      TailSorted(s, le);
      InsertSorts(x, s[1..], le);
      ConsSorted(s[0], Insert(x, s[1..], le), le);
    }
  }

  lemma InsertIs<T>(x: T, s: seq<T>, le: (T, T) -> bool)
    ensures Insert(x, s, le) == if s == [] || le(x, s[0]) then [x] + s else [s[0]] + Insert(x, s[1..], le)
  {
  }

  lemma TailSorted<T(!new)>(s: seq<T>, le: (T, T) -> bool)
    requires s != [] && SortedBy(s, le) && TotalPreorder(le)
    ensures SortedBy(s[1..], le) && forall y :: y in s[1..] ==> le(s[0], y)
  {
    forall y | y in s[1..] ensures le(s[0], y) {
      var m :| 0 <= m < |s[1..]| && s[1..][m] == y;
      assert le(s[0], s[m + 1]);
    }
  }

  /** sorted(...) returns the same elements in order. */
  lemma {:induction false} SortSorts<T(!new)>(s: seq<T>, le: (T, T) -> bool)
    requires TotalPreorder(le)
    ensures SortedBy(StableSort(s, le), le)
    ensures multiset(StableSort(s, le)) == multiset(s)
    ensures |StableSort(s, le)| == |s|
    ensures forall y :: y in StableSort(s, le) <==> y in s
  {
    if s != [] {
      SortSorts(s[1..], le);
      InsertSorts(s[0], StableSort(s[1..], le), le);
      assert s == [s[0]] + s[1..];
    }
    assert |StableSort(s, le)| == |multiset(StableSort(s, le))| == |multiset(s)|;
  }

  lemma {:induction false} FilterMembers<T(!new)>(s: seq<T>, p: T -> bool)
    ensures forall y :: y in Filter(s, p) <==> y in s && p(y)
    ensures |Filter(s, p)| <= |s|
  {
    if s != [] {
      FilterMembers(s[1..], p);
      assert s == [s[0]] + s[1..];
    }
  }

  lemma {:induction false} FilterAppend<T>(s: seq<T>, t: seq<T>, p: T -> bool)
    ensures Filter(s + t, p) == Filter(s, p) + Filter(t, p)
  {
    if s == [] {
      assert s + t == t;
    } else {
      FilterAppend(s[1..], t, p);
      assert (s + t)[1..] == s[1..] + t;
    }
  }

  lemma {:induction false} FilterNone<T>(s: seq<T>, p: T -> bool)
    requires forall x :: x in s ==> !p(x)
    ensures Filter(s, p) == []
  {
    if s != [] {
      FilterNone(s[1..], p);
    }
  }

  lemma {:induction false} FilterAll<T>(s: seq<T>, p: T -> bool)
    requires forall x :: x in s ==> p(x)
    ensures Filter(s, p) == s
  {
    if s != [] {
      FilterAll(s[1..], p);
    }
  }

  lemma {:induction false} FilterSorted<T(!new)>(s: seq<T>, le: (T, T) -> bool, p: T -> bool)
    requires SortedBy(s, le)
    ensures SortedBy(Filter(s, p), le)
  {
    if s != [] {
      FilterSorted(s[1..], le, p);
      FilterMembers(s[1..], p);
      forall y | y in s[1..] ensures le(s[0], y) {
        var m :| 0 <= m < |s[1..]| && s[1..][m] == y;
        assert s[m + 1] == y;
      }
      if p(s[0]) {
        ConsSorted(s[0], Filter(s[1..], p), le);
      }
    }
  }

  /** On a sorted list, filtering by a property that holds of all that comes before is taking a prefix. */
  lemma {:induction false} SortedCut<T(!new)>(s: seq<T>, le: (T, T) -> bool, p: T -> bool) returns (k: nat)
    requires SortedBy(s, le) && forall x, y :: le(x, y) && p(y) ==> p(x)
    ensures k <= |s| && Filter(s, p) == s[..k]
    ensures forall i :: 0 <= i < |s| ==> (p(s[i]) <==> i < k)
  {
    if s == [] || !p(s[0]) {
      k := 0;
      forall i | 0 <= i < |s| ensures !p(s[i]) {
        assert i == 0 || le(s[0], s[i]);
      }
      FilterNone(s, p);
    } else {
      var tail := SortedCut(s[1..], le, p);
      k := tail + 1;
      assert forall i :: 0 < i < |s| ==> s[i] == s[1..][i - 1];
    }
  }

  lemma FilterSnoc<T>(s: seq<T>, x: T, p: T -> bool)
    ensures Filter(s + [x], p) == Filter(s, p) + if p(x) then [x] else []
  {
    FilterAppend(s, [x], p);
    assert [x][1..] == [];
  }

  lemma FilterOnce<T(!new)>(s: seq<T>, p: T -> bool, i: nat, j: nat)
    requires |Filter(s, p)| <= 1 && i < j < |s| && p(s[i])
    ensures !p(s[j])
  {
    assert s == s[..i] + [s[i]] + s[i + 1..j] + [s[j]] + s[j + 1..];
    FilterAppend(s[..i] + [s[i]] + s[i + 1..j] + [s[j]], s[j + 1..], p);
    FilterAppend(s[..i] + [s[i]] + s[i + 1..j], [s[j]], p);
    FilterAppend(s[..i] + [s[i]], s[i + 1..j], p);
    FilterAppend(s[..i], [s[i]], p);
  }

  /** A filter that a second filter implies is lost in it. */
  lemma {:induction false} FilterImplied<T(!new)>(s: seq<T>, p: T -> bool, q: T -> bool)
    requires forall x :: x in s && q(x) ==> p(x)
    ensures Filter(Filter(s, p), q) == Filter(s, q)
  {
    if s != [] {
      FilterImplied(s[1..], p, q);
      if p(s[0]) {
        assert Filter(s, p)[1..] == Filter(s[1..], p);
      }
    }
  }

  lemma {:induction false} FilterSwap<T>(s: seq<T>, p: T -> bool, q: T -> bool)
    ensures Filter(Filter(s, p), q) == Filter(Filter(s, q), p)
  {
    if s != [] {
      FilterSwap(s[1..], p, q);
      FilterCons(s[0], Filter(s[1..], p), q);
      FilterCons(s[0], Filter(s[1..], q), p);
    }
  }

  lemma FilterCons<T>(x: T, s: seq<T>, p: T -> bool)
    ensures Filter([x] + s, p) == if p(x) then [x] + Filter(s, p) else Filter(s, p)
  {
    assert ([x] + s)[1..] == s;
  }

  lemma FilterPair<T>(x: T, y: T, p: T -> bool)
    ensures Filter([x, y], p) == (if p(x) then [x] else []) + if p(y) then [y] else []
  {
    assert [x, y][1..] == [y] && [y][1..] == [];
    assert Filter([y], p) == if p(y) then [y] else [];
  }

  lemma SameMembers<T>(s: seq<T>, t: seq<T>)
    requires multiset(s) == multiset(t)
    ensures forall x :: x in s <==> x in t
    ensures forall i :: 0 <= i < |t| ==> t[i] in s
    ensures forall i :: 0 <= i < |s| ==> s[i] in t
    ensures |s| == |t|
  {
    forall x ensures x in s <==> x in t {
      assert x in multiset(s) <==> x in multiset(t);
    }
    assert |multiset(s)| == |s| && |multiset(t)| == |t|;
  }

  function Without<T>(s: seq<T>, j: nat): seq<T>
    requires j < |s|
  {
    s[..j] + s[j + 1..]
  }

  lemma BagWithout<T>(s: seq<T>, j: nat)
    requires j < |s|
    ensures multiset(s) == multiset(Without(s, j)) + multiset{s[j]}
    ensures multiset(Without(s, j)) == multiset(s) - multiset{s[j]}
  {
    assert s == s[..j] + ([s[j]] + s[j + 1..]);
  }

  lemma FilterWithout<T>(s: seq<T>, j: nat, p: T -> bool)
    requires j < |s|
    ensures multiset(Filter(s, p)) ==
            multiset(Filter(Without(s, j), p)) + if p(s[j]) then multiset{s[j]} else multiset{}
  {
    hide Filter;
    assert s == s[..j] + [s[j]] + s[j + 1..];
    FilterAppend(s[..j] + [s[j]], s[j + 1..], p);
    FilterSnoc(s[..j], s[j], p);
    FilterAppend(s[..j], s[j + 1..], p);
  }

  /** Filtering keeps equal bags equal. */
  lemma {:induction false} FilterSameBag<T>(s: seq<T>, t: seq<T>, p: T -> bool)
    requires multiset(s) == multiset(t)
    ensures multiset(Filter(s, p)) == multiset(Filter(t, p))
    decreases |s|
  {
    hide Filter, Without;
    SameMembers(s, t);
    if s == [] {
      assert t == [];
    } else {
      assert s[0] in t;
      var j :| 0 <= j < |t| && t[j] == s[0];
      BagWithout(s, 0);
      BagWithout(t, j);
      FilterWithout(s, 0, p);
      FilterWithout(t, j, p);
      ShorterWithout(s, 0);
      FilterSameBag(Without(s, 0), Without(t, j), p);
    }
  }

  lemma ShorterWithout<T>(s: seq<T>, j: nat)
    requires j < |s|
    ensures |Without(s, j)| == |s| - 1
  {
  }

  lemma {:induction false} InsertFilter<T(!new)>(x: T, s: seq<T>, le: (T, T) -> bool, p: T -> bool)
    requires TotalPreorder(le) && SortedBy(s, le)
    ensures Filter(Insert(x, s, le), p) == if p(x) then Insert(x, Filter(s, p), le) else Filter(s, p)
  {
    if s == [] || le(x, s[0]) {
      assert ([x] + s)[1..] == s;
      FilterMembers(s, p);
      var f := Filter(s, p);
      if f != [] && s != [] {
        assert f[0] in s;
        var m :| 0 <= m < |s| && s[m] == f[0];
        assert m == 0 || le(s[0], s[m]);
        assert le(x, f[0]);
      }
    } else {
      InsertFilter(x, s[1..], le, p);
      var t := Insert(x, s[1..], le);
      assert ([s[0]] + t)[1..] == t;
      if p(s[0]) {
        assert Filter(s, p) == [s[0]] + Filter(s[1..], p);
        assert Filter(s, p)[1..] == Filter(s[1..], p);
      } else if p(x) {
        InsertSorts(x, s[1..], le);
      }
    }
  }

  /** Filtering a sorted list is sorting the filtered list. */
  lemma {:induction false} SortFilter<T(!new)>(s: seq<T>, le: (T, T) -> bool, p: T -> bool)
    requires TotalPreorder(le)
    ensures Filter(StableSort(s, le), p) == StableSort(Filter(s, p), le)
  {
    if s != [] {
      SortFilter(s[1..], le, p);
      SortSorts(s[1..], le);
      InsertFilter(s[0], StableSort(s[1..], le), le, p);
      if p(s[0]) {
        assert Filter(s, p)[1..] == Filter(s[1..], p);
      }
    }
  }

  /** A list already in order is left alone. */
  lemma {:induction false} SortOfSorted<T(!new)>(s: seq<T>, le: (T, T) -> bool)
    requires SortedBy(s, le)
    ensures StableSort(s, le) == s
  {
    if s != [] {
      SortOfSorted(s[1..], le);
      if |s| > 1 {
        assert le(s[0], s[1]);
      }
    }
  }

  lemma SortedSameHead<T(!new)>(s: seq<T>, t: seq<T>, le: (T, T) -> bool)
    requires s != [] && t != [] && SortedBy(s, le) && SortedBy(t, le)
    requires s[0] in t && t[0] in s && le(s[0], s[0]) && le(t[0], t[0])
    ensures le(s[0], t[0]) && le(t[0], s[0])
  {
    var i :| 0 <= i < |s| && s[i] == t[0];
    var j :| 0 <= j < |t| && t[j] == s[0];
    assert i == 0 || le(s[0], s[i]);
    assert j == 0 || le(t[0], t[j]);
  }

  lemma {:induction false} SortedSameBag<T(!new)>(s: seq<T>, t: seq<T>, le: (T, T) -> bool, all: seq<T>)
    requires SortedBy(s, le) && SortedBy(t, le) && multiset(s) == multiset(t)
    requires NoTies(all, le) && (forall x :: x in s ==> x in all && le(x, x))
    ensures s == t
  {
    assert |multiset(s)| == |s| && |multiset(t)| == |t|;
    if s != [] {
      var x, y := s[0], t[0];
      assert x in multiset(s) && y in multiset(t);
      assert x in t && y in s;
      assert x == y by {
        SortedSameHead(s, t, le);
      }
      SameBagTail(s, t);
      SortedSameBag(s[1..], t[1..], le, all);
    }
  }

  lemma SameBagTail<T>(s: seq<T>, t: seq<T>)
    requires s != [] && t != [] && s[0] == t[0] && multiset(s) == multiset(t)
    ensures multiset(s[1..]) == multiset(t[1..])
  {
    assert s == [s[0]] + s[1..] && t == [t[0]] + t[1..];
    assert multiset(s[1..]) == multiset(s) - multiset{s[0]};
    assert multiset(t[1..]) == multiset(t) - multiset{s[0]};
  }

  /** Without ties, sorted(...) forgets the input order. */
  lemma SortPermutation<T(!new)>(s: seq<T>, t: seq<T>, le: (T, T) -> bool)
    requires TotalPreorder(le) && multiset(s) == multiset(t) && NoTies(s, le)
    ensures StableSort(s, le) == StableSort(t, le)
  {
    SortSorts(s, le);
    SortSorts(t, le);
    SortedSameBag(StableSort(s, le), StableSort(t, le), le, s);
  }

  ghost predicate Distinct<T>(s: seq<T>) {
    forall i, j :: 0 <= i < j < |s| ==> s[i] != s[j]
  }

  lemma DistinctBag<T>(s: seq<T>, t: seq<T>)
    requires multiset(s) == multiset(t)
    requires Distinct(s)
    ensures Distinct(t)
  {
    forall i, j | 0 <= i < j < |t| ensures t[i] != t[j] {
      OnceEach(s, t[i]);
      TwiceMeansTwo(t, i, j);
    }
  }

  lemma TwiceMeansTwo<T>(t: seq<T>, i: nat, j: nat)
    requires i < j < |t|
    ensures t[i] == t[j] ==> multiset(t)[t[i]] >= 2
  {
    assert t == t[..i] + [t[i]] + t[i + 1..j] + [t[j]] + t[j + 1..];
  }

  lemma {:induction false} OnceEach<T>(s: seq<T>, k: T)
    requires Distinct(s)
    ensures multiset(s)[k] <= 1
  {
    if s != [] {
      assert s == [s[0]] + s[1..];
      OnceEach(s[1..], k);
      if k == s[0] {
        assert k !in s[1..];
      }
    }
  }

  /** The position of the first element satisfying p, or the length. */
  function FirstIndex<T>(s: seq<T>, p: T -> bool): (k: nat)
    ensures k <= |s|
    ensures k < |s| ==> p(s[k])
    ensures forall i :: 0 <= i < k ==> !p(s[i])
  {
    if s == [] || p(s[0]) then 0 else
    var rest := FirstIndex(s[1..], p);
    assert forall i :: 0 < i <= rest && i < |s| ==> s[i] == s[1..][i - 1];
    1 + rest
  }

  lemma {:induction false} FirstIndexSnoc<T>(s: seq<T>, x: T, p: T -> bool)
    ensures FirstIndex(s + [x], p) ==
            if FirstIndex(s, p) < |s| then FirstIndex(s, p) else if p(x) then |s| else |s| + 1
  {
    if s == [] {
      assert s + [x] == [x];
    } else {
      FirstIndexSnoc(s[1..], x, p);
      assert (s + [x])[1..] == s[1..] + [x];
    }
  }

  lemma {:induction false} FirstIndexIs<T>(s: seq<T>, p: T -> bool, k: nat)
    requires k <= |s| && (k < |s| ==> p(s[k])) && forall i :: 0 <= i < k ==> !p(s[i])
    ensures FirstIndex(s, p) == k
  {
    if k > 0 {
      FirstIndexIs(s[1..], p, k - 1);
    }
  }

  lemma FirstIndexAfter<T>(early: seq<T>, s: seq<T>, p: T -> bool)
    requires forall x :: x in early ==> !p(x)
    ensures FirstIndex(early + s, p) == |early| + FirstIndex(s, p)
    ensures (early + s)[|early| + FirstIndex(s, p)..] == s[FirstIndex(s, p)..]
  {
    var k := FirstIndex(s, p);
    var all := early + s;
    forall i | 0 <= i < |early| + k ensures !p(all[i]) {
      if i < |early| {
        assert all[i] == early[i] && early[i] in early;
      } else {
        assert all[i] == s[i - |early|];
      }
    }
    assert k < |s| ==> all[|early| + k] == s[k];
    FirstIndexIs(all, p, |early| + k);
  }

  lemma {:induction false} FilterHead<T>(s: seq<T>, p: T -> bool)
    ensures var k := FirstIndex(s, p);
      if k < |s| then Filter(s, p) != [] && Filter(s, p)[0] == s[k] else Filter(s, p) == []
  {
    if s != [] && !p(s[0]) {
      FilterHead(s[1..], p);
    }
  }

  lemma {:induction false} FilterAgrees<T(!new)>(s: seq<T>, p: T -> bool, q: T -> bool)
    requires forall x :: x in s ==> p(x) == q(x)
    ensures Filter(s, p) == Filter(s, q)
  {
    if s != [] {
      FilterAgrees(s[1..], p, q);
    }
  }

  /** A least first element stays first. */
  lemma SortedHead<T(!new)>(s: seq<T>, le: (T, T) -> bool)
    requires TotalPreorder(le) && s != [] && forall x :: x in s ==> le(s[0], x)
    ensures StableSort(s, le) != [] && StableSort(s, le)[0] == s[0]
  {
    SortSorts(s[1..], le);
    var rest := StableSort(s[1..], le);
    if rest != [] {
      assert rest[0] in rest && rest[0] in s[1..];
      assert rest[0] in s;
    }
  }
}
