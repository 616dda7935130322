/** Exactly when the reducer's runs do not depend on the order of its input, and what its episodes are on
    half-hour rows (alert_ranker/coverage_episodes.py:226-249). */
module InputOrder {
  import opened Grouping
  import opened Sorting
  import opened CoverageEpisodes
  import opened EpisodeReducer
  import opened ReducerLaws

  // ----- runs -----

  /** Rows of one group and one start. */
  function AtBar(k: Key, start: int): Row -> bool {
    (r: Row) => KeyOf(r) == k && r.start == start
  }

  lemma GroupKeepsTies(rows: seq<Row>, k: Key, start: int)
    ensures Filter(Group(rows, k), AtBar(k, start)) == Filter(rows, AtBar(k, start))
  {
    hide Filter, StableSort;
    var own, p := Keyed(KeyOf, k), AtBar(k, start);
    Orders();
    SortFilter(Filter(rows, own), ByStart, p);
    FilterImplied(rows, own, p);
    var tied := Filter(rows, p);
    FilterMembers(rows, p);
    forall i, j | 0 <= i < j < |tied| ensures ByStart(tied[i], tied[j]) {
      assert p(tied[i]) && p(tied[j]);
    }
    SortOfSorted(tied, ByStart);
  }

  lemma {:induction false} RunsKeepTiesAmong(rows: seq<Row>, keys: seq<Key>, k: Key, start: int)
    requires Distinct(keys)
    ensures Filter(Flatten(AllRuns(rows, keys)), AtBar(k, start)) ==
            if k in keys then Filter(rows, AtBar(k, start)) else []
  {
    hide Filter, Group, Split, Flatten;
    var p := AtBar(k, start);
    if keys == [] {
      NothingAmongNone(rows);
      FilterNone<Row>([], p);
    } else {
      var n := |keys| - 1;
      var group := Group(rows, keys[n]);
      RunsKeepTiesAmong(rows, keys[..n], k, start);
      FlattenAppend(AllRuns(rows, keys[..n]), Split(group));
      SplitFlattens(group);
      FilterAppend(Flatten(AllRuns(rows, keys[..n])), group, p);
      if keys[n] == k {
        GroupKeepsTies(rows, k, start);
      } else {
        GroupMembers(rows, keys[n]);
        FilterNone(group, p);
      }
    }
  }

  /** The runs hold the rows of one group and start in input order. */
  lemma RunsKeepTies(rows: seq<Row>, k: Key, start: int)
    ensures Filter(Flatten(RunsOf(rows)), AtBar(k, start)) == Filter(rows, AtBar(k, start))
  {
    hide Filter, SortedKeys, AllRuns;
    var p := AtBar(k, start);
    KeysAreDistinct(rows);
    RunsKeepTiesAmong(rows, SortedKeys(rows), k, start);
    if k !in SortedKeys(rows) {
      forall r | r in rows ensures !p(r) {
        assert KeyOf(r) in SortedKeys(rows);
      }
      FilterNone(rows, p);
    }
  }

  function Swapped(rows: seq<Row>, i: nat, j: nat): seq<Row>
    requires i < j < |rows|
  {
    rows[i := rows[j]][j := rows[i]]
  }

  lemma SwapIsPermutation(rows: seq<Row>, i: nat, j: nat)
    requires i < j < |rows|
    ensures multiset(Swapped(rows, i, j)) == multiset(rows)
  {
    var a, b, c := rows[..i], rows[i + 1..j], rows[j + 1..];
    assert rows == a + [rows[i]] + b + [rows[j]] + c;
    assert Swapped(rows, i, j) == a + [rows[j]] + b + [rows[i]] + c;
  }

  lemma FilterAround(rows: seq<Row>, i: nat, p: Row -> bool)
    requires i < |rows| && p(rows[i])
    ensures |Filter(rows[..i], p)| < |Filter(rows, p)| && Filter(rows, p)[|Filter(rows[..i], p)|] == rows[i]
  {
    hide Filter;
    assert rows == rows[..i] + [rows[i]] + rows[i + 1..];
    FilterAppend(rows[..i] + [rows[i]], rows[i + 1..], p);
    FilterSnoc(rows[..i], rows[i], p);
  }

  lemma SwapShows(rows: seq<Row>, i: nat, j: nat, p: Row -> bool)
    requires i < j < |rows| && rows[i] != rows[j] && p(rows[i]) && p(rows[j])
    ensures Filter(Swapped(rows, i, j), p) != Filter(rows, p)
  {
    hide Filter;
    assert Swapped(rows, i, j)[..i] == rows[..i];
    FilterAround(rows, i, p);
    FilterAround(Swapped(rows, i, j), i, p);
  }

  lemma TieShows(rows: seq<Row>, x: Row, y: Row)
    requires x in rows && y in rows && x != y && KeyOf(x) == KeyOf(y) && x.start == y.start
    ensures exists other :: multiset(other) == multiset(rows) && RunsOf(other) != RunsOf(rows)
  {
    hide Filter, RunsOf, Flatten;
    var a :| 0 <= a < |rows| && rows[a] == x;
    var b :| 0 <= b < |rows| && rows[b] == y;
    var i, j := if a < b then a else b, if a < b then b else a;
    var p, other := AtBar(KeyOf(x), x.start), Swapped(rows, i, j);
    SwapIsPermutation(rows, i, j);
    SwapShows(rows, i, j, p);
    RunsKeepTies(rows, KeyOf(x), x.start);
    RunsKeepTies(other, KeyOf(x), x.start);
    assert RunsOf(other) != RunsOf(rows);
  }

  /** The runs, hence everything in the episodes but the labels, are the same for every order of the
      input, if and only if no two different rows of one group share a start. */
  lemma RunsFixedExactlyWhen(rows: seq<Row>)
    ensures (forall other :: multiset(other) == multiset(rows) ==> RunsOf(other) == RunsOf(rows)) <==>
            OneRowPerStart(rows)
  {
    hide RunsOf, Filter, KeyOf;
    if OneRowPerStart(rows) {
      forall other | multiset(other) == multiset(rows) ensures RunsOf(other) == RunsOf(rows) {
        RunsIgnoreOrder(rows, other);
      }
    } else {
      var k :| !NoTies(Filter(rows, Keyed(KeyOf, k)), ByStart);
      var group := Filter(rows, Keyed(KeyOf, k));
      var x, y :| x in group && y in group && ByStart(x, y) && ByStart(y, x) && x != y;
      FilterMembers(rows, Keyed(KeyOf, k));
      assert KeyOf(x) == k && KeyOf(y) == k;
      TieShows(rows, x, y);
    }
  }

  // ----- half-hour rows -----

  /** Within a group, one row to a bar and all bars on one 30-minute grid. */
  ghost predicate OnGrid(rows: seq<Row>) {
    && (forall x, y :: x in rows && y in rows && KeyOf(x) == KeyOf(y) ==> (x.start - y.start) % BAR_DELTA == 0)
    && (forall k, start :: |Filter(rows, AtBar(k, start))| <= 1)
  }

  lemma GridGroup(rows: seq<Row>, k: Key)
    requires OnGrid(rows)
    ensures DistinctStarts(Group(rows, k)) && NoInterloper(Group(rows, k))
  {
    hide Filter, Group, KeyOf;
    GroupMembers(rows, k);
    var group := Group(rows, k);
    forall i, j | 0 <= i < j < |group| ensures group[i].start != group[j].start {
      GroupKeepsTies(rows, k, group[i].start);
      assert group[i] in group && group[j] in group;
      FilterOnce(group, AtBar(k, group[i].start), i, j);
    }
    if group != [] {
      forall i | 0 <= i < |group| ensures (group[i].start - group[0].start) % BAR_DELTA == 0 {
        assert group[i] in group && group[0] in group;
        assert KeyOf(group[i]) == KeyOf(group[0]);
      }
      GridHasNoInterloper(group, group[0].start);
    }
  }

  /** On half-hour rows, one to a bar, there are exactly as many episodes as rows with no row 30 minutes
      earlier, and no episode can be extended. */
  lemma HalfHourEpisodes(rows: seq<Row>)
    requires OnGrid(rows)
    ensures |RunsOf(rows)| == |Filter(rows, StartsRun(rows))|
    ensures forall k, run :: run in Split(Group(rows, k)) ==> Contiguous(run) && Maximal(run, Group(rows, k))
  {
    hide Filter, StartsRun, RunsOf, Group, Split, OnGrid, NoInterloper;
    forall k ensures NoInterloper(Group(rows, k)) {
      GridGroup(rows, k);
    }
    EpisodesCountStarts(rows);
    forall k, run | run in Split(Group(rows, k)) ensures Contiguous(run) && Maximal(run, Group(rows, k)) {
      GridGroup(rows, k);
      GroupMembers(rows, k);
      RunsAreMaximal(Group(rows, k));
    }
  }
}
