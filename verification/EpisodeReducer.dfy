/** The whole reducer (alert_ranker/coverage_episodes.py:226-275): rows are grouped, each group is
    split into runs, the runs become episodes, episodes get their direction-run label, and the list
    is sorted. The dictionaries are modelled in insertion order. */
module EpisodeReducer {
  import opened Conventions
  import opened Grouping
  import opened Sorting
  import opened CoverageEpisodes

  function SortedKeys(rows: seq<Row>): seq<Key> {
    StableSort(FirstSeen(rows, KeyOf), KeyLe)
  }

  function Group(rows: seq<Row>, k: Key): seq<Row> {
    StableSort(Filter(rows, Keyed(KeyOf, k)), ByStart)
  }

  function AllRuns(rows: seq<Row>, keys: seq<Key>): seq<seq<Row>> {
    if keys == [] then [] else
    AllRuns(rows, keys[..|keys| - 1]) + Split(Group(rows, keys[|keys| - 1]))
  }

  function EpisodeFrom(run: seq<Row>): Episode
    requires run != []
  {
    Episode(run[0], |run|, run[|run| - 1].start, None)
  }

  ghost predicate RunsNonEmpty(runs: seq<seq<Row>>) {
    forall i :: 0 <= i < |runs| ==> runs[i] != []
  }

  function EpisodesFrom(runs: seq<seq<Row>>): (es: seq<Episode>)
    requires RunsNonEmpty(runs)
  {
    seq(|runs|, i requires 0 <= i < |runs| => EpisodeFrom(runs[i]))
  }

  lemma {:induction false} RunsAreNonEmpty(rows: seq<Row>, keys: seq<Key>)
    ensures RunsNonEmpty(AllRuns(rows, keys))
  {
    hide Group;
    if keys != [] {
      RunsAreNonEmpty(rows, keys[..|keys| - 1]);
    }
  }

  lemma SplitStep(ordered: seq<Row>, i: nat)
    requires i < |ordered|
    ensures var before := Split(ordered[..i]);
      Split(ordered[..i + 1]) ==
      if i > 0 && Follows(ordered[i - 1], ordered[i])
      then before[|before| - 1 := before[|before| - 1] + [ordered[i]]]
      else before + [[ordered[i]]]
  {
    assert ordered[..i + 1][..i] == ordered[..i];
  }

  lemma EpisodesFromSnoc(runs: seq<seq<Row>>, run: seq<Row>)
    requires run != [] && RunsNonEmpty(runs)
    ensures RunsNonEmpty(runs + [run])
    ensures EpisodesFrom(runs + [run]) == EpisodesFrom(runs) + [EpisodeFrom(run)]
  {
  }

  lemma EpisodesFromAppend(a: seq<seq<Row>>, b: seq<seq<Row>>)
    requires RunsNonEmpty(a) && RunsNonEmpty(b)
    ensures EpisodesFrom(a + b) == EpisodesFrom(a) + EpisodesFrom(b)
  {
  }

  lemma NoRuns()
    ensures RunsNonEmpty([])
  {
  }

  /** The next row grows the current run or closes it. */
  lemma RunStep(ordered: seq<Row>, i: nat, closed: seq<seq<Row>>, current: seq<Row>)
    requires 0 < i < |ordered| && Split(ordered[..i]) == closed + [current]
    ensures Split(ordered[..i + 1]) ==
            if Follows(ordered[i - 1], ordered[i]) then closed + [current + [ordered[i]]]
            else closed + [current] + [[ordered[i]]]
  {
    hide Split;
    SplitStep(ordered, i);
    assert (closed + [current])[|closed| := current + [ordered[i]]] == closed + [current + [ordered[i]]];
  }

  /** The run loop of one group. */
  method CloseRuns(ordered: seq<Row>, episodes: seq<Episode>) returns (result: seq<Episode>)
    ensures result == episodes + EpisodesFrom(Split(ordered))
  {
    hide Split, EpisodesFrom, EpisodeFrom, RunsNonEmpty;
    result := episodes;
    NoRuns();
    var current: seq<Row> := [];
    ghost var closed: seq<seq<Row>> := [];
    SplitOfNothing(ordered);
    for i := 0 to |ordered|
      invariant i == 0 <==> current == []
      invariant i > 0 ==> current[|current| - 1] == ordered[i - 1]
      invariant RunsNonEmpty(closed)
      invariant Split(ordered[..i]) == if i == 0 then [] else closed + [current]
      invariant i == 0 ==> closed == []
      invariant result == episodes + EpisodesFrom(closed)
    {
      var row := ordered[i];
      if current != [] && row.start - current[|current| - 1].start == BAR_DELTA {
        RunStep(ordered, i, closed, current);
        current := current + [row];
      } else {
        if current != [] {
          RunStep(ordered, i, closed, current);
          result := result + [EpisodeFrom(current)];
          EpisodesFromSnoc(closed, current);
          closed := closed + [current];
        } else {
          SplitStep(ordered, i);
        }
        current := [row];
      }
    }
    assert ordered[..|ordered|] == ordered;
    if current != [] {
      result := result + [EpisodeFrom(current)];
      EpisodesFromSnoc(closed, current);
    }
  }

  lemma SplitOfNothing(ordered: seq<Row>)
    ensures Split(ordered[..0]) == [] && EpisodesFrom([]) == []
  {
  }

  // ----- run labels -----

  /** The row continues the direction run of the row before it. */
  predicate Continues(a: Row, b: Row) {
    (b.start - a.start == 0 || b.start - a.start == BAR_DELTA) && b.direction == a.direction
  }

  /** The value of run_index after these rows. */
  function RunIndex(ordered: seq<Row>): nat {
    if ordered == [] then 0 else
    var n := |ordered| - 1;
    RunIndex(ordered[..n]) + if n > 0 && Continues(ordered[n - 1], ordered[n]) then 0 else 1
  }

  function LabelOf(ordered: seq<Row>): RunId
    requires ordered != []
  {
    var r := ordered[|ordered| - 1];
    RunId(r.symbol, r.session, r.direction, RunIndex(ordered))
  }

  /** run_of_bar for one symbol and session: the last row written for a bar wins. */
  function RunTable(ordered: seq<Row>): map<int, RunId> {
    if ordered == [] then map[] else
    var n := |ordered| - 1;
    RunTable(ordered[..n])[ordered[n].start := LabelOf(ordered)]
  }

  function SessionRows(rows: seq<Row>, symbol: int, session: int): seq<Row> {
    StableSort(Filter(rows, Keyed(SessionOf, SessionKey(symbol, session))), ByStartFamily)
  }

  function RunAt(rows: seq<Row>, symbol: int, session: int, start: int): Option<RunId> {
    var table := RunTable(SessionRows(rows, symbol, session));
    if start in table then Some(table[start]) else None
  }

  function Labelled(e: Episode, rows: seq<Row>): Episode {
    e.(runId := RunAt(rows, e.first.symbol, e.first.session, e.first.start))
  }

  function LabelAll(es: seq<Episode>, rows: seq<Row>): seq<Episode> {
    seq(|es|, i requires 0 <= i < |es| => Labelled(es[i], rows))
  }

  lemma SessionRowsMembers(rows: seq<Row>, symbol: int, session: int)
    ensures forall r :: r in SessionRows(rows, symbol, session) <==>
                        r in rows && r.symbol == symbol && r.session == session
  {
    var own := Keyed(SessionOf, SessionKey(symbol, session));
    Orders();
    FilterMembers(rows, own);
    SortSorts(Filter(rows, own), ByStartFamily);
    forall r: Row ensures own(r) <==> r.symbol == symbol && r.session == session {
      assert SessionOf(r) == SessionKey(r.symbol, r.session);
    }
  }

  datatype BarKey = BarKey(symbol: int, session: int, start: int)

  method LabelSession(symbol: int, session: int, ordered: seq<Row>, table: map<BarKey, RunId>)
      returns (result: map<BarKey, RunId>)
    requires forall r :: r in ordered ==> r.symbol == symbol && r.session == session
    requires forall b :: b in table ==> b.symbol != symbol || b.session != session
    ensures forall b: BarKey :: b.symbol != symbol || b.session != session ==>
              (b in result <==> b in table) && (b in result ==> result[b] == table[b])
    ensures forall start: int ::
              (BarKey(symbol, session, start) in result <==> start in RunTable(ordered)) &&
              (start in RunTable(ordered) ==> result[BarKey(symbol, session, start)] == RunTable(ordered)[start])
  {
    result := table;
    var lastBar: Option<int>, lastDirection: Option<Direction> := None, None;
    var runIndex: nat := 0;
    for i := 0 to |ordered|
      invariant lastBar == if i == 0 then None else Some(ordered[i - 1].start)
      invariant lastDirection == if i == 0 then None else Some(ordered[i - 1].direction)
      invariant runIndex == RunIndex(ordered[..i])
      invariant forall b: BarKey :: b.symbol != symbol || b.session != session ==>
                  (b in result <==> b in table) && (b in result ==> result[b] == table[b])
      invariant forall start: int ::
                  (BarKey(symbol, session, start) in result <==> start in RunTable(ordered[..i])) &&
                  (start in RunTable(ordered[..i]) ==>
                     result[BarKey(symbol, session, start)] == RunTable(ordered[..i])[start])
    {
      var row := ordered[i];
      assert ordered[..i + 1][..i] == ordered[..i];
      var contiguous := lastBar.Some? &&
                        (row.start - lastBar.value == 0 || row.start - lastBar.value == BAR_DELTA);
      if !(contiguous && lastDirection == Some(row.direction)) {
        runIndex := runIndex + 1;
      }
      assert row in ordered;
      result := result[BarKey(symbol, session, row.start) := RunId(symbol, session, row.direction, runIndex)];
      lastBar, lastDirection := Some(row.start), Some(row.direction);
    }
    assert ordered[..|ordered|] == ordered;
  }

  ghost predicate LabelsFor(table: map<BarKey, RunId>, rows: seq<Row>, symbol: int, session: int) {
    forall start: int ::
      RunAt(rows, symbol, session, start) ==
      if BarKey(symbol, session, start) in table then Some(table[BarKey(symbol, session, start)]) else None
  }

  lemma NoRowsNoLabels(table: map<BarKey, RunId>, rows: seq<Row>, symbol: int, session: int)
    requires SessionKey(symbol, session) !in FirstSeen(rows, SessionOf)
    requires forall start :: BarKey(symbol, session, start) !in table
    ensures LabelsFor(table, rows, symbol, session)
  {
    forall r | r in rows ensures !Keyed(SessionOf, SessionKey(symbol, session))(r) {
      assert SessionOf(r) in FirstSeen(rows, SessionOf);
    }
    FilterNone(rows, Keyed(SessionOf, SessionKey(symbol, session)));
  }

  lemma TableLabels(table: map<BarKey, RunId>, rows: seq<Row>, symbol: int, session: int)
    requires var own := RunTable(SessionRows(rows, symbol, session));
      forall start: int :: (BarKey(symbol, session, start) in table <==> start in own) &&
                           (start in own ==> table[BarKey(symbol, session, start)] == own[start])
    ensures LabelsFor(table, rows, symbol, session)
  {
  }

  lemma LabelsKept(table: map<BarKey, RunId>, result: map<BarKey, RunId>, rows: seq<Row>, symbol: int, session: int)
    requires LabelsFor(table, rows, symbol, session)
    requires forall start: int :: var b := BarKey(symbol, session, start);
      (b in result <==> b in table) && (b in result ==> result[b] == table[b])
    ensures LabelsFor(result, rows, symbol, session)
  {
  }

  /** run_of_bar for every symbol and session. */
  method LabelBars(rows: seq<Row>) returns (table: map<BarKey, RunId>)
    ensures forall symbol, session :: LabelsFor(table, rows, symbol, session)
  {
    hide RunTable, RunAt, LabelsFor, Filter, Grouped, StableSort;
    table := map[];
    var groups, pairs := GroupRows(rows, SessionOf);
    for i := 0 to |pairs|
      invariant forall b :: b in table ==> SessionKey(b.symbol, b.session) in pairs[..i]
      invariant forall symbol, session :: SessionKey(symbol, session) in pairs[..i] ==>
                  LabelsFor(table, rows, symbol, session)
    {
      var SessionKey(symbol, session) := pairs[i];
      GroupsOf(groups, rows, SessionOf, pairs[i]);
      var ordered := StableSort(groups[pairs[i]], ByStartFamily);
      SessionRowsMembers(rows, symbol, session);
      var before := table;
      table := LabelSession(symbol, session, ordered, before);
      TableLabels(table, rows, symbol, session);
      forall sy, se | SessionKey(sy, se) in pairs[..i + 1] ensures LabelsFor(table, rows, sy, se) {
        if SessionKey(sy, se) != pairs[i] {
          LabelsKept(before, table, rows, sy, se);
        }
      }
    }
    forall symbol, session ensures LabelsFor(table, rows, symbol, session) {
      if SessionKey(symbol, session) !in pairs {
        NoRowsNoLabels(table, rows, symbol, session);
      }
    }
  }

  // ----- the reducer -----

  function Reduced(events: seq<Row>): seq<Episode> {
    var rows := Filter(events, HalfHour());
    RunsAreNonEmpty(rows, SortedKeys(rows));
    StableSort(LabelAll(EpisodesFrom(AllRuns(rows, SortedKeys(rows))), rows), EpisodeLe)
  }

  lemma LabelFound(table: map<BarKey, RunId>, rows: seq<Row>, symbol: int, session: int, start: int)
    requires LabelsFor(table, rows, symbol, session)
    ensures var b := BarKey(symbol, session, start);
      RunAt(rows, symbol, session, start) == if b in table then Some(table[b]) else None
  {
    hide RunAt;
  }

  method AssignRuns(episodes: seq<Episode>, rows: seq<Row>) returns (result: seq<Episode>)
    ensures result == LabelAll(episodes, rows)
  {
    hide RunAt, LabelsFor;
    var table := LabelBars(rows);
    result := [];
    for i := 0 to |episodes|
      invariant |result| == i && forall j :: 0 <= j < i ==> result[j] == Labelled(episodes[j], rows)
    {
      var first := episodes[i].first;
      var bar := BarKey(first.symbol, first.session, first.start);
      LabelFound(table, rows, first.symbol, first.session, first.start);
      result := result + [episodes[i].(runId := if bar in table then Some(table[bar]) else None)];
    }
  }

  method ReduceEvents(events: seq<Row>) returns (episodes: seq<Episode>)
    ensures episodes == Reduced(events)
  {
    hide Filter, StableSort, Split, LabelAll, EpisodesFrom, HoldsKeys, HoldsRows, FirstSeen;
    var rows := Filter(events, HalfHour());
    var groups, order := GroupRows(rows, KeyOf);
    var keys := StableSort(order, KeyLe);
    Orders();
    SortSorts(order, KeyLe);
    episodes := [];
    RunsAreNonEmpty(rows, []);
    EpisodesFromNothing();
    for i := 0 to |keys|
      invariant RunsNonEmpty(AllRuns(rows, keys[..i])) && episodes == EpisodesFrom(AllRuns(rows, keys[..i]))
    {
      assert keys[i] in order;
      GroupsOf(groups, rows, KeyOf, keys[i]);
      var ordered := StableSort(groups[keys[i]], ByStart);
      EpisodesFromAppend(AllRuns(rows, keys[..i]), Split(ordered));
      assert keys[..i + 1][..i] == keys[..i];
      RunsAreNonEmpty(rows, keys[..i + 1]);
      episodes := CloseRuns(ordered, episodes);
    }
    assert keys[..|keys|] == keys;
    episodes := AssignRuns(episodes, rows);
    episodes := StableSort(episodes, EpisodeLe);
  }

  lemma EpisodesFromNothing()
    ensures EpisodesFrom([]) == []
  {
  }
}
