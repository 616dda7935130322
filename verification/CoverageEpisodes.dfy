/** The episode reducer (alert_ranker/coverage_episodes.py:226-275). Symbols, families and dates
    are numbers in their string order; the gate fields copied from an episode's first event are
    that event's row. */
module CoverageEpisodes {
  import opened Conventions
  import opened Sorting

  const BAR_DELTA := 1800

  datatype Row = Row(halfHour: bool, symbol: int, session: int, family: int, direction: Direction, start: int,
                     details: int)

  datatype Key = Key(symbol: int, session: int, family: int, direction: Direction)

  datatype SessionKey = SessionKey(symbol: int, session: int)

  datatype RunId = RunId(symbol: int, session: int, direction: Direction, index: nat)

  datatype Episode = Episode(first: Row, nEvents: nat, lastStart: int, runId: Option<RunId>)

  function KeyOf(r: Row): Key {
    Key(r.symbol, r.session, r.family, r.direction)
  }

  predicate DirectionLe(a: Direction, b: Direction) {
    a.Long? || b.Short?
  }

  predicate KeyLe(a: Key, b: Key) {
    if a.symbol != b.symbol then a.symbol < b.symbol
    else if a.session != b.session then a.session < b.session
    else if a.family != b.family then a.family < b.family
    else DirectionLe(a.direction, b.direction)
  }

  predicate ByStart(a: Row, b: Row) {
    a.start <= b.start
  }

  predicate ByStartFamily(a: Row, b: Row) {
    a.start < b.start || (a.start == b.start && a.family <= b.family)
  }

  predicate EpisodeLe(a: Episode, b: Episode) {
    if a.first.session != b.first.session then a.first.session < b.first.session
    else if a.first.symbol != b.first.symbol then a.first.symbol < b.first.symbol
    else if a.first.start != b.first.start then a.first.start < b.first.start
    else a.first.family <= b.first.family
  }

  function HalfHour(): Row -> bool {
    (r: Row) => r.halfHour
  }

  function SessionOf(r: Row): SessionKey {
    SessionKey(r.symbol, r.session)
  }

  lemma Orders()
    ensures TotalPreorder(KeyLe) && TotalPreorder(ByStart) && TotalPreorder(ByStartFamily) && TotalPreorder(EpisodeLe)
    ensures forall a, b :: KeyLe(a, b) && KeyLe(b, a) ==> a == b
  {
  }

  // ----- splitting one ordered group into runs -----

  predicate Follows(a: Row, b: Row) {
    b.start - a.start == BAR_DELTA
  }

  /** The runs the reducer closes and the one it is still growing. */
  function Split(ordered: seq<Row>): (runs: seq<seq<Row>>)
    ensures runs == [] <==> ordered == []
    ensures forall i :: 0 <= i < |runs| ==> runs[i] != []
    ensures ordered != [] ==> var last := runs[|runs| - 1]; last[|last| - 1] == ordered[|ordered| - 1]
  {
    if ordered == [] then [] else
    var n := |ordered| - 1;
    var before, r := Split(ordered[..n]), ordered[n];
    if n > 0 && Follows(ordered[n - 1], r)
    then before[|before| - 1 := before[|before| - 1] + [r]]
    else before + [[r]]
  }

  function Flatten(runs: seq<seq<Row>>): seq<Row> {
    if runs == [] then [] else Flatten(runs[..|runs| - 1]) + runs[|runs| - 1]
  }

  ghost predicate Contiguous(run: seq<Row>) {
    forall i :: 0 < i < |run| ==> Follows(run[i - 1], run[i])
  }

  /** The runs hold every row of the group once, in order. */
  lemma {:induction false} SplitFlattens(ordered: seq<Row>)
    ensures Flatten(Split(ordered)) == ordered
  {
    if ordered != [] {
      var n := |ordered| - 1;
      SplitFlattens(ordered[..n]);
      var before, runs := Split(ordered[..n]), Split(ordered);
      if n > 0 && Follows(ordered[n - 1], ordered[n]) {
        assert runs[..|runs| - 1] == before[..|before| - 1];
      } else {
        assert runs[..|runs| - 1] == before;
      }
    }
  }

  /** Each run is contiguous, and two neighbouring runs are not. */
  lemma {:induction false} SplitContiguous(ordered: seq<Row>)
    ensures forall i :: 0 <= i < |Split(ordered)| ==> Contiguous(Split(ordered)[i])
    ensures forall i :: 0 < i < |Split(ordered)| ==>
              var a, b := Split(ordered)[i - 1], Split(ordered)[i]; !Follows(a[|a| - 1], b[0])
  {
    if ordered != [] {
      SplitContiguous(ordered[..|ordered| - 1]);
    }
  }

  // ----- counting runs -----

  /** Some row of the group starts exactly one bar earlier. */
  ghost predicate HasPredecessor(group: seq<Row>, r: Row) {
    exists p :: p in group && Follows(p, r)
  }

  ghost function Opens(group: seq<Row>): Row -> bool {
    (r: Row) => !HasPredecessor(group, r)
  }

  /** No row with a predecessor has another row after that predecessor and up to itself. */
  ghost predicate NoInterloper(group: seq<Row>) {
    forall i, j :: 0 <= i < |group| && 0 <= j < |group| && i != j && HasPredecessor(group, group[i]) ==>
      !(group[i].start - BAR_DELTA < group[j].start <= group[i].start)
  }

  ghost predicate CleanAt(group: seq<Row>, i: nat)
    requires i < |group|
  {
    HasPredecessor(group, group[i]) <==> i > 0 && Follows(group[i - 1], group[i])
  }

  ghost predicate CleanUpTo(group: seq<Row>, n: nat)
    requires n <= |group|
  {
    forall i :: 0 <= i < n ==> CleanAt(group, i)
  }

  lemma CleanStep(group: seq<Row>, n: nat)
    requires n <= |group|
    ensures CleanUpTo(group, n) <==> n == 0 || (CleanUpTo(group, n - 1) && CleanAt(group, n - 1))
  {
    hide CleanAt;
  }

  lemma {:induction false} RunsAgainstOpeners(group: seq<Row>, n: nat)
    requires n <= |group|
    ensures |Split(group[..n])| >= |Filter(group[..n], Opens(group))|
    ensures |Split(group[..n])| == |Filter(group[..n], Opens(group))| <==> CleanUpTo(group, n)
  {
    hide Filter, CleanUpTo;
    CleanStep(group, n);
    if n == 0 {
      FilterMembers(group[..0], Opens(group));
    } else {
      RunsAgainstOpeners(group, n - 1);
      assert group[..n][..n - 1] == group[..n - 1];
      assert group[..n] == group[..n - 1] + [group[n - 1]];
      FilterSnoc(group[..n - 1], group[n - 1], Opens(group));
      assert n > 1 && Follows(group[n - 2], group[n - 1]) ==> HasPredecessor(group, group[n - 1]);
    }
  }

  /** The number of episodes of a group is the number of its rows with no row exactly 30 minutes
      earlier, if and only if no row slips in between a bar and its predecessor. */
  lemma EpisodeCount(group: seq<Row>)
    requires SortedBy(group, ByStart)
    ensures |Split(group)| >= |Filter(group, Opens(group))|
    ensures |Split(group)| == |Filter(group, Opens(group))| <==> NoInterloper(group)
  {
    RunsAgainstOpeners(group, |group|);
    assert group[..|group|] == group;
    if CleanUpTo(group, |group|) {
      CleanMeansNoInterloper(group);
    }
    if NoInterloper(group) {
      NoInterloperMeansClean(group);
    }
  }

  lemma StartsOrdered(group: seq<Row>, i: nat, j: nat)
    requires SortedBy(group, ByStart) && i < |group| && j < |group|
    ensures i <= j ==> group[i].start <= group[j].start
  {
    if i < j {
      assert ByStart(group[i], group[j]);
    }
  }

  lemma CleanMeansNoInterloper(group: seq<Row>)
    requires SortedBy(group, ByStart) && CleanUpTo(group, |group|)
    ensures NoInterloper(group)
  {
    forall i, j | 0 <= i < |group| && 0 <= j < |group| && i != j && HasPredecessor(group, group[i])
      ensures !(group[i].start - BAR_DELTA < group[j].start <= group[i].start)
    {
      assert CleanAt(group, i);
      StartsOrdered(group, j, i - 1);
      if i < j {
        NoTwin(group, i, j);
      }
    }
  }

  lemma TwinsSharePredecessor(group: seq<Row>, a: Row, b: Row)
    ensures a.start == b.start ==> (HasPredecessor(group, a) <==> HasPredecessor(group, b))
  {
    assert forall p: Row :: a.start == b.start ==> (Follows(p, a) <==> Follows(p, b));
  }

  lemma NoTwin(group: seq<Row>, i: nat, j: nat)
    requires SortedBy(group, ByStart) && CleanUpTo(group, |group|)
    requires i < j < |group| && HasPredecessor(group, group[i])
    ensures group[i].start < group[j].start
  {
    StartsOrdered(group, i, i + 1);
    StartsOrdered(group, i + 1, j);
    assert CleanAt(group, i) && CleanAt(group, i + 1);
    TwinsSharePredecessor(group, group[i], group[i + 1]);
  }

  lemma NoInterloperMeansClean(group: seq<Row>)
    requires SortedBy(group, ByStart) && NoInterloper(group)
    ensures CleanUpTo(group, |group|)
  {
    forall i | 0 <= i < |group| ensures CleanAt(group, i) {
      if HasPredecessor(group, group[i]) {
        var p :| 0 <= p < |group| && Follows(group[p], group[i]);
        StartsOrdered(group, i, p);
        StartsOrdered(group, p, i - 1);
        StartsOrdered(group, i - 1, i);
      }
    }
  }

  /** Bars on one 30-minute grid with distinct starts have no interlopers. */
  lemma GridHasNoInterloper(group: seq<Row>, phase: int)
    requires forall i :: 0 <= i < |group| ==> (group[i].start - phase) % BAR_DELTA == 0
    requires forall i, j :: 0 <= i < j < |group| ==> group[i].start != group[j].start
    ensures NoInterloper(group)
  {
  }
}
