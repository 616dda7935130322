/** When a direction run is made of whole episodes (alert_ranker/coverage_episodes.py:252-273). */
module DirectionRuns {
  import opened Conventions
  import opened Grouping
  import opened Sorting
  import opened CoverageEpisodes
  import opened EpisodeReducer
  import opened ReducerLaws

  /** Two neighbouring rows carry the same label exactly when the second continues the first. */
  lemma NeighboursShareLabel(ordered: seq<Row>, i: nat)
    requires 0 < i < |ordered| && SessionOf(ordered[i - 1]) == SessionOf(ordered[i])
    ensures LabelOf(ordered[..i]) == LabelOf(ordered[..i + 1]) <==> Continues(ordered[i - 1], ordered[i])
  {
    assert ordered[..i + 1][..i] == ordered[..i];
  }

  lemma {:induction false} TableAt(ordered: seq<Row>, n: nat, i: nat)
    requires DistinctStarts(ordered) && i < n <= |ordered|
    ensures ordered[i].start in RunTable(ordered[..n])
    ensures RunTable(ordered[..n])[ordered[i].start] == LabelOf(ordered[..i + 1])
  {
    hide LabelOf;
    assert ordered[..n][..n - 1] == ordered[..n - 1];
    if i < n - 1 {
      TableAt(ordered, n - 1, i);
    }
  }

  lemma SessionStartsOrdered(rows: seq<Row>, symbol: int, session: int)
    ensures SortedBy(SessionRows(rows, symbol, session), ByStart)
  {
    hide Filter, StableSort;
    Orders();
    var group := Filter(rows, Keyed(SessionOf, SessionKey(symbol, session)));
    SortSorts(group, ByStartFamily);
    var s := SessionRows(rows, symbol, session);
    forall i, j | 0 <= i < j < |s| ensures ByStart(s[i], s[j]) {
      assert ByStartFamily(s[i], s[j]);
    }
  }

  lemma {:induction false} RunMembers(ordered: seq<Row>)
    ensures forall run, r :: run in Split(ordered) && r in run ==> r in ordered
  {
    if ordered != [] {
      var n := |ordered| - 1;
      RunMembers(ordered[..n]);
      assert ordered == ordered[..n] + [ordered[n]];
    }
  }

  lemma {:induction false} RunIndexGrows(ordered: seq<Row>, i: nat, j: nat)
    requires i <= j <= |ordered|
    ensures RunIndex(ordered[..i]) <= RunIndex(ordered[..j])
  {
    if i < j {
      RunIndexGrows(ordered, i, j - 1);
      assert ordered[..j][..j - 1] == ordered[..j - 1];
    }
  }

  /** Some row of the list starts strictly between the two. */
  ghost predicate Parted(ordered: seq<Row>, a: Row, b: Row) {
    exists q :: q in ordered && a.start < q.start < b.start
  }

  lemma SuccessorPosition(ordered: seq<Row>, j: nat, i: nat)
    requires SortedBy(ordered, ByStart) && DistinctStarts(ordered) && j < |ordered| && i < |ordered|
    requires ordered[j].start < ordered[i].start
    ensures j < i && (Parted(ordered, ordered[j], ordered[i]) <==> j + 1 < i)
  {
    if i <= j {
      StartsOrdered(ordered, i, j);
    }
    if j + 1 < i {
      StartsOrdered(ordered, j, j + 1);
      StartsOrdered(ordered, j + 1, i);
      assert ordered[j + 1] in ordered;
    }
    if Parted(ordered, ordered[j], ordered[i]) {
      var q :| q in ordered && ordered[j].start < q.start < ordered[i].start;
      var m :| 0 <= m < |ordered| && ordered[m] == q;
      StartsOrdered(ordered, m, j);
      StartsOrdered(ordered, i, m);
    }
  }

  lemma LabelsAcross(ordered: seq<Row>, j: nat, i: nat)
    requires SortedBy(ordered, ByStart) && DistinctStarts(ordered) && j < i < |ordered|
    requires Follows(ordered[j], ordered[i]) && SessionOf(ordered[j]) == SessionOf(ordered[i])
    requires ordered[j].direction == ordered[i].direction
    ensures LabelOf(ordered[..j + 1]) == LabelOf(ordered[..i + 1]) <==> j + 1 == i
  {
    hide RunIndex;
    if j + 1 == i {
      NeighboursShareLabel(ordered, i);
    } else {
      StartsOrdered(ordered, j + 1, i);
      IndexJumps(ordered, j + 1);
      RunIndexGrows(ordered, j + 2, i + 1);
    }
  }

  lemma IndexJumps(ordered: seq<Row>, m: nat)
    requires 0 < m < |ordered| && SortedBy(ordered, ByStart) && DistinctStarts(ordered)
    requires ordered[m].start - ordered[m - 1].start < BAR_DELTA
    ensures RunIndex(ordered[..m + 1]) == RunIndex(ordered[..m]) + 1
  {
    assert ordered[..m + 1][..m] == ordered[..m];
    StartsOrdered(ordered, m - 1, m);
  }

  function LabelAt(rows: seq<Row>, r: Row): Option<RunId> {
    RunAt(rows, r.symbol, r.session, r.start)
  }

  /** Two rows a bar apart and of one direction carry one label exactly when no row of the session
      parts them. */
  lemma SuccessorKeepsLabel(rows: seq<Row>, a: Row, b: Row)
    requires a in rows && b in rows && SessionOf(a) == SessionOf(b)
    requires DistinctStarts(SessionRows(rows, a.symbol, a.session)) && Follows(a, b) && a.direction == b.direction
    ensures LabelAt(rows, a) == LabelAt(rows, b) <==> !Parted(SessionRows(rows, a.symbol, a.session), a, b)
  {
    hide RunTable, LabelOf, SessionRows, Parted;
    var s := SessionRows(rows, a.symbol, a.session);
    SessionRowsMembers(rows, a.symbol, a.session);
    SessionStartsOrdered(rows, a.symbol, a.session);
    var i :| 0 <= i < |s| && s[i] == b;
    var j :| 0 <= j < |s| && s[j] == a;
    SuccessorPosition(s, j, i);
    LabelsAcross(s, j, i);
    TableAt(s, |s|, i);
    TableAt(s, |s|, j);
    assert s[..|s|] == s;
  }

  ghost predicate Unparted(rows: seq<Row>, run: seq<Row>) {
    forall i :: 0 < i < |run| ==> !Parted(SessionRows(rows, run[0].symbol, run[0].session), run[i - 1], run[i])
  }

  ghost predicate OneLabel(rows: seq<Row>, run: seq<Row>) {
    forall r :: r in run ==> LabelAt(rows, r) == LabelAt(rows, run[0])
  }

  lemma {:induction false} LabelsCarry(rows: seq<Row>, run: seq<Row>, i: nat)
    requires i < |run| && forall m :: 0 < m < |run| ==> LabelAt(rows, run[m - 1]) == LabelAt(rows, run[m])
    ensures LabelAt(rows, run[i]) == LabelAt(rows, run[0])
  {
    hide LabelAt;
    if i > 0 {
      LabelsCarry(rows, run, i - 1);
    }
  }

  /** With one row per start in the session: the rows of an episode carry one label, if and only if no
      row of that symbol and session starts strictly between two neighbouring rows of it. */
  lemma OneRunExactlyWhen(rows: seq<Row>, k: Key, run: seq<Row>)
    requires run in Split(Group(rows, k)) && run != [] && DistinctStarts(SessionRows(rows, k.symbol, k.session))
    ensures OneLabel(rows, run) <==> Unparted(rows, run)
  {
    hide LabelAt, Split, Group, SessionRows, Parted, DistinctStarts;
    GroupMembers(rows, k);
    RunMembers(Group(rows, k));
    SplitContiguous(Group(rows, k));
    forall r | r in run ensures r in rows && KeyOf(r) == k {
      assert r in Group(rows, k);
    }
    forall i | 0 < i < |run|
      ensures LabelAt(rows, run[i - 1]) == LabelAt(rows, run[i]) <==>
              !Parted(SessionRows(rows, k.symbol, k.session), run[i - 1], run[i])
    {
      assert run[i - 1] in run && run[i] in run;
      assert KeyOf(run[i - 1]) == k == KeyOf(run[i]);
      SuccessorKeepsLabel(rows, run[i - 1], run[i]);
    }
    assert run[0] in run && KeyOf(run[0]) == k;
    if Unparted(rows, run) {
      forall r | r in run ensures LabelAt(rows, r) == LabelAt(rows, run[0]) {
        var i :| 0 <= i < |run| && run[i] == r;
        LabelsCarry(rows, run, i);
      }
    }
    if OneLabel(rows, run) {
      forall i | 0 < i < |run| ensures !Parted(SessionRows(rows, k.symbol, k.session), run[i - 1], run[i]) {
        assert run[i - 1] in run && run[i] in run;
      }
    }
  }

  /** The session's rows lie on one 30-minute grid, one to a bar. */
  ghost predicate OneRowPerBar(rows: seq<Row>, symbol: int, session: int) {
    var s := SessionRows(rows, symbol, session);
    DistinctStarts(s) && forall i, j :: 0 <= i < |s| && 0 <= j < |s| ==> (s[i].start - s[j].start) % BAR_DELTA == 0
  }

  lemma GridUnparted(s: seq<Row>, a: Row, b: Row)
    requires forall i, j :: 0 <= i < |s| && 0 <= j < |s| ==> (s[i].start - s[j].start) % BAR_DELTA == 0
    requires a in s && Follows(a, b)
    ensures !Parted(s, a, b)
  {
    var j :| 0 <= j < |s| && s[j] == a;
    forall q | q in s ensures !(a.start < q.start < b.start) {
      var i :| 0 <= i < |s| && s[i] == q;
      assert (s[i].start - s[j].start) % BAR_DELTA == 0;
    }
  }

  /** On the grid every direction run is a union of whole episodes. */
  lemma EpisodesLieInOneDirectionRun(rows: seq<Row>, k: Key, run: seq<Row>)
    requires run in Split(Group(rows, k)) && run != [] && OneRowPerBar(rows, k.symbol, k.session)
    ensures OneLabel(rows, run)
  {
    hide OneLabel, Split, Group, SessionRows;
    OneRunExactlyWhen(rows, k, run);
    GroupMembers(rows, k);
    RunMembers(Group(rows, k));
    SplitContiguous(Group(rows, k));
    SessionRowsMembers(rows, k.symbol, k.session);
    var s := SessionRows(rows, k.symbol, k.session);
    assert run[0] in run && run[0] in Group(rows, k);
    forall i | 0 < i < |run| ensures !Parted(s, run[i - 1], run[i]) {
      assert run[i - 1] in run && run[i - 1] in Group(rows, k) && run[i - 1] in s;
      GridUnparted(s, run[i - 1], run[i]);
    }
  }

  const OFF_GRID := [Row(true, 1, 1, 1, Long, 0, 0),
                     Row(true, 1, 1, 1, Short, 900, 0),
                     Row(true, 1, 1, 1, Long, 1800, 0)]

  lemma OffGridGroups()
    ensures Group(OFF_GRID, Key(1, 1, 1, Long)) == [OFF_GRID[0], OFF_GRID[2]]
    ensures SessionRows(OFF_GRID, 1, 1) == OFF_GRID
  {
    hide Filter, StableSort;
    var s := OFF_GRID;
    var k, pair := Key(1, 1, 1, Long), SessionKey(1, 1);
    assert s == [s[0], s[1]] + [s[2]];
    FilterPair(s[0], s[1], Keyed(SessionOf, pair));
    FilterSnoc([s[0], s[1]], s[2], Keyed(SessionOf, pair));
    FilterPair(s[0], s[1], Keyed(KeyOf, k));
    FilterSnoc([s[0], s[1]], s[2], Keyed(KeyOf, k));
    assert SessionOf(s[0]) == SessionOf(s[1]) == SessionOf(s[2]) == pair;
    assert KeyOf(s[0]) == KeyOf(s[2]) == k != KeyOf(s[1]);
    assert Filter(s, Keyed(SessionOf, pair)) == s;
    assert Filter(s, Keyed(KeyOf, k)) == [s[0], s[2]];
    SortOfSorted(s, ByStartFamily);
    SortOfSorted([s[0], s[2]], ByStart);
  }

  lemma OffGridLabels()
    ensures LabelOf(OFF_GRID[..1]) == RunId(1, 1, Long, 1)
    ensures LabelOf(OFF_GRID[..3]) == RunId(1, 1, Long, 3)
  {
    var s := OFF_GRID;
    assert s[..3][..2] == s[..2] && s[..2][..1] == s[..1] && s[..1][..0] == [];
    assert RunIndex(s[..1]) == 1;
    assert RunIndex(s[..2]) == 2;
    assert RunIndex(s[..3]) == 3;
  }

  /** Off the grid that fails: a SHORT row between two LONG rows 30 minutes apart leaves them in one
      episode and in two direction runs. */
  lemma OffGridSplitsAnEpisode()
    ensures Split(Group(OFF_GRID, Key(1, 1, 1, Long))) == [[OFF_GRID[0], OFF_GRID[2]]]
    ensures RunAt(OFF_GRID, 1, 1, 0) == Some(RunId(1, 1, Long, 1))
    ensures RunAt(OFF_GRID, 1, 1, 1800) == Some(RunId(1, 1, Long, 3))
  {
    hide RunTable, LabelOf, SessionRows, Group;
    var s := OFF_GRID;
    OffGridGroups();
    assert [s[0]][..0] == [];
    assert Split([s[0]]) == [[s[0]]];
    var group := [s[0], s[2]];
    SplitStep(group, 1);
    assert group[..1] == [s[0]] && group[..2] == group && Follows(s[0], s[2]);
    assert [s[0]] + [s[2]] == group && [[s[0]]][0 := group] == [group];
    OffGridLabels();
    TableAt(s, 3, 0);
    TableAt(s, 3, 2);
    assert s[..3] == s && s[..0 + 1] == s[..1];
  }
}
