/** What the reducer promises about its episodes: no row is lost or counted twice, the episodes are
    the maximal 30-minute runs, the order of the input does not matter, and direction runs are made
    of whole episodes. */
module ReducerLaws {
  import opened Conventions
  import opened Grouping
  import opened Sorting
  import opened CoverageEpisodes
  import opened EpisodeReducer

  function RunsOf(rows: seq<Row>): seq<seq<Row>> {
    AllRuns(rows, SortedKeys(rows))
  }

  // ----- every row is in exactly one run -----

  lemma {:induction false} FlattenAppend(a: seq<seq<Row>>, b: seq<seq<Row>>)
    ensures Flatten(a + b) == Flatten(a) + Flatten(b)
  {
    if b == [] {
      assert a + b == a;
    } else {
      var n := |b| - 1;
      FlattenAppend(a, b[..n]);
      assert (a + b)[..|a + b| - 1] == a + b[..n];
    }
  }

  function Among(keys: seq<Key>): Row -> bool {
    (r: Row) => KeyOf(r) in keys
  }

  lemma {:induction false} OneMoreKey(rows: seq<Row>, keys: seq<Key>, k: Key)
    requires k !in keys
    ensures multiset(Filter(rows, Among(keys + [k]))) ==
            multiset(Filter(rows, Among(keys))) + multiset(Filter(rows, Keyed(KeyOf, k)))
  {
    if rows != [] {
      OneMoreKey(rows[1..], keys, k);
    }
  }

  lemma {:induction false} RunsHoldKeys(rows: seq<Row>, keys: seq<Key>)
    requires Distinct(keys)
    ensures multiset(Flatten(AllRuns(rows, keys))) == multiset(Filter(rows, Among(keys)))
  {
    hide Filter, StableSort, Split, Flatten, Among;
    if keys == [] {
      NothingAmongNone(rows);
    } else {
      var n := |keys| - 1;
      RunsHoldKeys(rows, keys[..n]);
      FlattenAppend(AllRuns(rows, keys[..n]), Split(Group(rows, keys[n])));
      SplitFlattens(Group(rows, keys[n]));
      Orders();
      SortSorts(Filter(rows, Keyed(KeyOf, keys[n])), ByStart);
      OneMoreKey(rows, keys[..n], keys[n]);
      assert keys == keys[..n] + [keys[n]];
    }
  }

  lemma NothingAmongNone(rows: seq<Row>)
    ensures Filter(rows, Among([])) == [] && Flatten([]) == []
  {
    FilterNone(rows, Among([]));
  }

  lemma KeysAreDistinct(rows: seq<Row>)
    ensures Distinct(SortedKeys(rows))
    ensures forall r :: r in rows ==> KeyOf(r) in SortedKeys(rows)
  {
    hide FirstSeen, StableSort;
    var keys := FirstSeen(rows, KeyOf);
    Orders();
    SortSorts(keys, KeyLe);
    DistinctBag(keys, SortedKeys(rows));
  }

  /** The runs hold exactly the input rows, each as often as it came in. */
  lemma RunsPartitionRows(rows: seq<Row>)
    ensures multiset(Flatten(RunsOf(rows))) == multiset(rows)
  {
    var keys := SortedKeys(rows);
    KeysAreDistinct(rows);
    RunsHoldKeys(rows, keys);
    FilterAll(rows, Among(keys));
  }

  // ----- event counts -----

  function TotalEvents(es: seq<Episode>): nat {
    if es == [] then 0 else es[0].nEvents + TotalEvents(es[1..])
  }

  lemma {:induction false} TotalInsert(e: Episode, es: seq<Episode>)
    ensures TotalEvents(Insert(e, es, EpisodeLe)) == e.nEvents + TotalEvents(es)
    ensures |Insert(e, es, EpisodeLe)| == |es| + 1
  {
    if es == [] || EpisodeLe(e, es[0]) {
      assert ([e] + es)[1..] == es;
    } else {
      TotalInsert(e, es[1..]);
      var t := Insert(e, es[1..], EpisodeLe);
      assert ([es[0]] + t)[1..] == t;
    }
  }

  lemma {:induction false} TotalSorted(es: seq<Episode>)
    ensures TotalEvents(StableSort(es, EpisodeLe)) == TotalEvents(es)
    ensures |StableSort(es, EpisodeLe)| == |es|
  {
    if es != [] {
      TotalSorted(es[1..]);
      TotalInsert(es[0], StableSort(es[1..], EpisodeLe));
    }
  }

  lemma {:induction false} TotalOfRuns(runs: seq<seq<Row>>, es: seq<Episode>)
    requires |es| == |runs| && forall i :: 0 <= i < |runs| ==> es[i].nEvents == |runs[i]|
    ensures TotalEvents(es) == |Flatten(runs)|
  {
    if runs != [] {
      assert runs == [runs[0]] + runs[1..];
      FlattenAppend([runs[0]], runs[1..]);
      assert Flatten([runs[0]]) == runs[0];
      TotalOfRuns(runs[1..], es[1..]);
    }
  }

  /** n_events sums to the number of 30-minute rows, whatever the input. */
  lemma EventsConserved(events: seq<Row>)
    ensures TotalEvents(Reduced(events)) == |Filter(events, HalfHour())|
    ensures |Reduced(events)| == |RunsOf(Filter(events, HalfHour()))|
  {
    var rows := Filter(events, HalfHour());
    var runs := RunsOf(rows);
    RunsAreNonEmpty(rows, SortedKeys(rows));
    var es := LabelAll(EpisodesFrom(runs), rows);
    TotalSorted(es);
    TotalOfRuns(runs, es);
    RunsPartitionRows(rows);
    assert |multiset(Flatten(runs))| == |Flatten(runs)| && |multiset(rows)| == |rows|;
  }

  // ----- counting episodes -----

  /** No row of the same symbol, session, family and direction starts exactly one bar earlier. */
  ghost function StartsRun(rows: seq<Row>): Row -> bool {
    (r: Row) => !exists p :: p in rows && KeyOf(p) == KeyOf(r) && Follows(p, r)
  }

  lemma GroupMembers(rows: seq<Row>, k: Key)
    ensures forall r :: r in Group(rows, k) <==> r in rows && KeyOf(r) == k
    ensures SortedBy(Group(rows, k), ByStart)
  {
    Orders();
    FilterMembers(rows, Keyed(KeyOf, k));
    SortSorts(Filter(rows, Keyed(KeyOf, k)), ByStart);
  }

  lemma OpensMeansStartsRun(rows: seq<Row>, k: Key)
    ensures Filter(Group(rows, k), Opens(Group(rows, k))) == Filter(Group(rows, k), StartsRun(rows))
  {
    GroupMembers(rows, k);
    var group := Group(rows, k);
    forall r | r in group ensures Opens(group)(r) == StartsRun(rows)(r) {
    }
    FilterAgrees(group, Opens(group), StartsRun(rows));
  }

  lemma {:induction false} RunsAgainstStarts(rows: seq<Row>, keys: seq<Key>)
    ensures |AllRuns(rows, keys)| >= |Filter(Flatten(AllRuns(rows, keys)), StartsRun(rows))|
    ensures |AllRuns(rows, keys)| == |Filter(Flatten(AllRuns(rows, keys)), StartsRun(rows))| <==>
            forall k :: k in keys ==> NoInterloper(Group(rows, k))
  {
    hide Filter, Group, Split, Flatten, StartsRun, NoInterloper, Opens;
    if keys == [] {
      NothingAmongNone(rows);
      FilterMembers([], StartsRun(rows));
    } else {
      var n := |keys| - 1;
      var group := Group(rows, keys[n]);
      RunsAgainstStarts(rows, keys[..n]);
      FlattenAppend(AllRuns(rows, keys[..n]), Split(group));
      SplitFlattens(group);
      FilterAppend(Flatten(AllRuns(rows, keys[..n])), group, StartsRun(rows));
      OpensMeansStartsRun(rows, keys[n]);
      GroupMembers(rows, keys[n]);
      EpisodeCount(group);
      assert keys == keys[..n] + [keys[n]];
    }
  }

  /** The number of episodes is the number of rows that start a run, if and only if in no group a row
      slips in between a bar and the bar 30 minutes before it; there are never fewer episodes. */
  lemma EpisodesCountStarts(rows: seq<Row>)
    ensures |RunsOf(rows)| >= |Filter(rows, StartsRun(rows))|
    ensures |RunsOf(rows)| == |Filter(rows, StartsRun(rows))| <==>
            forall k :: k in SortedKeys(rows) ==> NoInterloper(Group(rows, k))
  {
    hide Filter, StartsRun, NoInterloper, Flatten, AllRuns, SortedKeys;
    RunsAgainstStarts(rows, SortedKeys(rows));
    RunsPartitionRows(rows);
    FilterSameBag(Flatten(RunsOf(rows)), rows, StartsRun(rows));
    SameMembers(Filter(Flatten(RunsOf(rows)), StartsRun(rows)), Filter(rows, StartsRun(rows)));
  }

  // ----- the runs are maximal -----

  ghost predicate DistinctStarts(group: seq<Row>) {
    forall i, j :: 0 <= i < j < |group| ==> group[i].start != group[j].start
  }

  /** Neither end of the run can be extended by a row of the group. */
  ghost predicate Maximal(run: seq<Row>, group: seq<Row>) {
    run != [] ==> forall r :: r in group ==> !Follows(r, run[0]) && !Follows(run[|run| - 1], r)
  }

  ghost predicate ClosedAtEnd(run: seq<Row>, group: seq<Row>) {
    run != [] ==> forall r :: r in group ==> !Follows(run[|run| - 1], r)
  }

  lemma LastHasNoSuccessor(group: seq<Row>, n: nat)
    requires SortedBy(group, ByStart) && DistinctStarts(group) && CleanUpTo(group, |group|)
    requires 0 < n <= |group| && (n < |group| ==> !Follows(group[n - 1], group[n]))
    ensures forall r :: r in group ==> !Follows(group[n - 1], r)
  {
    forall r | r in group ensures !Follows(group[n - 1], r) {
      var m :| 0 <= m < |group| && group[m] == r;
      assert CleanAt(group, m);
      StartsOrdered(group, m, n - 1);
      if m >= n {
        assert Follows(group[n - 1], r) ==> HasPredecessor(group, r);
        assert m > n ==> group[m - 1].start != group[n - 1].start;
      }
    }
  }

  /** No run can be extended backwards, and only the last may still grow. */
  ghost predicate Closing(runs: seq<seq<Row>>, group: seq<Row>) {
    && (forall i :: 0 <= i < |runs| ==> runs[i] != [] && !HasPredecessor(group, runs[i][0]))
    && (forall i :: 0 <= i < |runs| - 1 ==> ClosedAtEnd(runs[i], group))
  }

  lemma GrowLast(runs: seq<seq<Row>>, group: seq<Row>, row: Row)
    requires runs != [] && Closing(runs, group)
    ensures Closing(runs[|runs| - 1 := runs[|runs| - 1] + [row]], group)
  {
    hide HasPredecessor, ClosedAtEnd;
  }

  lemma OpenRun(runs: seq<seq<Row>>, group: seq<Row>, row: Row)
    requires Closing(runs, group) && !HasPredecessor(group, row)
    requires runs != [] ==> ClosedAtEnd(runs[|runs| - 1], group)
    ensures Closing(runs + [[row]], group)
  {
    hide HasPredecessor, ClosedAtEnd;
  }

  lemma {:induction false} RunsClosed(group: seq<Row>, n: nat)
    requires SortedBy(group, ByStart) && DistinctStarts(group) && CleanUpTo(group, |group|) && n <= |group|
    ensures Closing(Split(group[..n]), group)
  {
    hide HasPredecessor, CleanUpTo, DistinctStarts, SortedBy, Closing, Split;
    if n == 0 {
      NothingCloses(group);
    } else {
      RunsClosed(group, n - 1);
      SplitStep(group, n - 1);
      CleanHere(group, n - 1);
      var runs := Split(group[..n - 1]);
      if n > 1 && Follows(group[n - 2], group[n - 1]) {
        GrowLast(runs, group, group[n - 1]);
      } else {
        if n > 1 {
          LastHasNoSuccessor(group, n - 1);
          assert group[..n - 1][n - 2] == group[n - 2];
        }
        OpenRun(runs, group, group[n - 1]);
      }
    }
  }

  lemma NothingCloses(group: seq<Row>)
    ensures Closing(Split(group[..0]), group)
  {
  }

  lemma CleanHere(group: seq<Row>, i: nat)
    requires CleanUpTo(group, |group|) && i < |group|
    ensures CleanAt(group, i)
  {
  }

  /** With one row per start and no interloper, no run of the group can be extended at either end. */
  lemma RunsAreMaximal(group: seq<Row>)
    requires SortedBy(group, ByStart) && DistinctStarts(group) && NoInterloper(group)
    ensures forall run :: run in Split(group) ==> Contiguous(run) && Maximal(run, group)
  {
    hide SortedBy, NoInterloper, Split, HasPredecessor;
    SplitContiguous(group);
    if group != [] {
      NoInterloperMeansClean(group);
      RunsClosed(group, |group|);
      assert group[..|group|] == group;
      LastHasNoSuccessor(group, |group|);
      forall run | run in Split(group) ensures Maximal(run, group) {
        MaximalBothEnds(run, group);
      }
    }
  }

  lemma MaximalBothEnds(run: seq<Row>, group: seq<Row>)
    requires run != [] && !HasPredecessor(group, run[0]) && ClosedAtEnd(run, group)
    ensures Maximal(run, group)
  {
  }

  // ----- the input order does not matter -----

  lemma FirstSeenSameBag(rows: seq<Row>, other: seq<Row>)
    requires multiset(rows) == multiset(other)
    ensures SortedKeys(rows) == SortedKeys(other)
  {
    var a, b := FirstSeen(rows, KeyOf), FirstSeen(other, KeyOf);
    SameMembers(rows, other);
    forall k: Key ensures multiset(a)[k] == multiset(b)[k] {
      OnceEach(a, k);
      OnceEach(b, k);
      assert k in a <==> k in b;
      assert k in multiset(a) <==> k in a;
      assert k in multiset(b) <==> k in b;
    }
    assert multiset(a) == multiset(b);
    Orders();
    SortPermutation(a, b, KeyLe);
  }

  lemma {:induction false} SameGroupsSameRuns(rows: seq<Row>, other: seq<Row>, keys: seq<Key>)
    requires forall k :: k in keys ==> Group(rows, k) == Group(other, k)
    ensures AllRuns(rows, keys) == AllRuns(other, keys)
  {
    hide Group, Split;
    if keys != [] {
      SameGroupsSameRuns(rows, other, keys[..|keys| - 1]);
    }
  }

  /** No two different rows of one group share a start. */
  ghost predicate OneRowPerStart(rows: seq<Row>) {
    forall k :: NoTies(Filter(rows, Keyed(KeyOf, k)), ByStart)
  }

  /** The runs, hence everything in the episodes but the run label, do not depend on the order of
      the input. */
  lemma RunsIgnoreOrder(rows: seq<Row>, other: seq<Row>)
    requires multiset(rows) == multiset(other) && OneRowPerStart(rows)
    ensures RunsOf(rows) == RunsOf(other)
  {
    hide Filter, NoTies, StableSort;
    Orders();
    FirstSeenSameBag(rows, other);
    forall k ensures Group(rows, k) == Group(other, k) {
      FilterSameBag(rows, other, Keyed(KeyOf, k));
      SortPermutation(Filter(rows, Keyed(KeyOf, k)), Filter(other, Keyed(KeyOf, k)), ByStart);
    }
    SameGroupsSameRuns(rows, other, SortedKeys(rows));
  }

  /** No two different rows of one symbol and session share both start and family. */
  ghost predicate OneRowPerFamilyAndStart(rows: seq<Row>) {
    forall pair :: NoTies(Filter(rows, Keyed(SessionOf, pair)), ByStartFamily)
  }

  lemma FamilyStartsAreStarts(rows: seq<Row>)
    requires OneRowPerFamilyAndStart(rows)
    ensures OneRowPerStart(rows)
  {
    forall k ensures NoTies(Filter(rows, Keyed(KeyOf, k)), ByStart) {
      var pair := SessionKey(k.symbol, k.session);
      FilterMembers(rows, Keyed(KeyOf, k));
      FilterMembers(rows, Keyed(SessionOf, pair));
      assert NoTies(Filter(rows, Keyed(SessionOf, pair)), ByStartFamily);
      var group := Filter(rows, Keyed(KeyOf, k));
      forall x, y | x in group && y in group && ByStart(x, y) && ByStart(y, x) ensures x == y {
        assert KeyOf(x) == k && KeyOf(y) == k;
        assert SessionOf(x) == pair && SessionOf(y) == pair;
        assert ByStartFamily(x, y) && ByStartFamily(y, x);
      }
    }
  }

  lemma LabelsIgnoreOrder(rows: seq<Row>, other: seq<Row>, symbol: int, session: int)
    requires multiset(rows) == multiset(other) && OneRowPerFamilyAndStart(rows)
    ensures SessionRows(rows, symbol, session) == SessionRows(other, symbol, session)
  {
    hide Filter, StableSort;
    Orders();
    FilterSameBag(rows, other, Keyed(SessionOf, SessionKey(symbol, session)));
    SortPermutation(Filter(rows, Keyed(SessionOf, SessionKey(symbol, session))),
                    Filter(other, Keyed(SessionOf, SessionKey(symbol, session))), ByStartFamily);
  }

  /** The whole result is independent of the input order when a bar carries at most one row per
      family. */
  lemma ReducedIgnoresOrder(events: seq<Row>, other: seq<Row>)
    requires multiset(events) == multiset(other)
    requires OneRowPerFamilyAndStart(Filter(events, HalfHour()))
    ensures Reduced(events) == Reduced(other)
  {
    hide OneRowPerFamilyAndStart, OneRowPerStart, Filter, StableSort, AllRuns, SortedKeys, SessionRows;
    var rows, rows' := Filter(events, HalfHour()), Filter(other, HalfHour());
    FilterSameBag(events, other, HalfHour());
    FamilyStartsAreStarts(rows);
    RunsIgnoreOrder(rows, rows');
    RunsAreNonEmpty(rows, SortedKeys(rows));
    RunsAreNonEmpty(rows', SortedKeys(rows'));
    var es := EpisodesFrom(RunsOf(rows));
    assert LabelAll(es, rows) == LabelAll(es, rows') by {
      forall i | 0 <= i < |es| ensures Labelled(es[i], rows) == Labelled(es[i], rows') {
        LabelsIgnoreOrder(rows, rows', es[i].first.symbol, es[i].first.session);
      }
    }
  }

  const LONG_ROW := Row(true, 1, 1, 1, Long, 0, 0)
  const SHORT_ROW := Row(true, 1, 1, 1, Short, 0, 0)

  /** Distinct starts within each group are not enough for the labels: with a LONG and a SHORT row of
      one family on one bar, the run label of that bar is whichever row came in last. */
  lemma LabelDependsOnOrder()
    ensures OneRowPerStart([LONG_ROW, SHORT_ROW])
    ensures RunAt([LONG_ROW, SHORT_ROW], 1, 1, 0) == Some(RunId(1, 1, Short, 2))
    ensures RunAt([SHORT_ROW, LONG_ROW], 1, 1, 0) == Some(RunId(1, 1, Long, 2))
  {
    TwoRows(LONG_ROW, SHORT_ROW);
    TwoRows(SHORT_ROW, LONG_ROW);
    forall k ensures NoTies(Filter([LONG_ROW, SHORT_ROW], Keyed(KeyOf, k)), ByStart) {
      FilterMembers([LONG_ROW, SHORT_ROW], Keyed(KeyOf, k));
      var group := Filter([LONG_ROW, SHORT_ROW], Keyed(KeyOf, k));
      forall x, y | x in group && y in group ensures x == y {
        assert KeyOf(x) == k && KeyOf(y) == k;
        assert x in {LONG_ROW, SHORT_ROW} && y in {LONG_ROW, SHORT_ROW};
      }
    }
  }

  lemma TwoRows(a: Row, b: Row)
    requires a.symbol == b.symbol && a.session == b.session && a.start == b.start && a.family == b.family
    requires a.direction != b.direction
    ensures RunAt([a, b], a.symbol, a.session, a.start) == Some(RunId(a.symbol, a.session, b.direction, 2))
  {
    var pair := SessionKey(a.symbol, a.session);
    FilterPair(a, b, Keyed(SessionOf, pair));
    var ordered := [a, b];
    assert SessionOf(a) == pair && SessionOf(b) == pair;
    assert Filter([a, b], Keyed(SessionOf, pair)) == ordered;
    SortOfSorted(ordered, ByStartFamily);
    assert SessionRows([a, b], a.symbol, a.session) == ordered;
    assert ordered[..1] == [a] && [a][..0] == [];
    assert RunIndex([a]) == 1 && RunIndex(ordered) == 2;
    assert RunTable(ordered)[a.start] == LabelOf(ordered);
  }
}
