/** Level-interaction events and their episode ids (alert_ranker/non_strat_coverage.py:448-477).
    Symbols and session dates are numbers in their string order; family names keep their string
    order through FamilyRank. */
module LevelEvents {
  import opened Conventions
  import opened Sorting

  const MINUTE_5 := 300

  datatype Level = Vwap | Pdh | Pdl | OrbHigh | OrbLow

  datatype Trend = Bullish | Bearish | Neutral

  datatype Family =
    | VwapReclaimLong | VwapFailedReclaimShort | VwapTestHoldLong | VwapTestHoldShort
    | PdhReclaimLong | PdlReclaimShort | PdhRejectionShort | PdlRejectionLong
    | PdhBreakRetestLong | PdlBreakRetestShort
    | OrbBreakoutLong | OrbBreakoutShort | OrbRejectionShort | OrbRejectionLong
    | OrbBreakRetestLong | OrbBreakRetestShort

  datatype Context = Context(vwap: Option<real>, ema20: Option<real>, volumeRatio: Option<real>,
                             spy: Option<Trend>, qqq: Option<Trend>)

  datatype EpisodeId = EpisodeId(session: int, symbol: int, family: Family, direction: Direction, index: nat)

  datatype Event = Event(symbol: int, session: int, start: int, family: Family, direction: Direction,
                         level: Level, levelValue: real, trigger: real, context: Context,
                         aligned: Option<bool>, episode: Option<EpisodeId>)

  datatype Key = Key(symbol: int, family: Family, direction: Direction, level: Level)

  /** The place of the family's name in string order. */
  function FamilyRank(f: Family): int {
    match f
    case OrbBreakoutLong => 0
    case OrbBreakoutShort => 1
    case OrbBreakRetestLong => 2
    case OrbBreakRetestShort => 3
    case OrbRejectionLong => 4
    case OrbRejectionShort => 5
    case PdhBreakRetestLong => 6
    case PdhReclaimLong => 7
    case PdhRejectionShort => 8
    case PdlBreakRetestShort => 9
    case PdlReclaimShort => 10
    case PdlRejectionLong => 11
    case VwapFailedReclaimShort => 12
    case VwapReclaimLong => 13
    case VwapTestHoldLong => 14
    case VwapTestHoldShort => 15
  }

  function KeyOf(e: Event): Key {
    Key(e.symbol, e.family, e.direction, e.level)
  }

  /** The order ids are handed out in: symbol, family, direction, bar start. */
  predicate IdOrder(a: Event, b: Event) {
    if a.symbol != b.symbol then a.symbol < b.symbol
    else if a.family != b.family then FamilyRank(a.family) < FamilyRank(b.family)
    else if a.direction != b.direction then a.direction.Long?
    else a.start <= b.start
  }

  /** The order of the result: symbol, bar start, family. */
  predicate TimeOrder(a: Event, b: Event) {
    if a.symbol != b.symbol then a.symbol < b.symbol
    else if a.start != b.start then a.start < b.start
    else FamilyRank(a.family) <= FamilyRank(b.family)
  }

  function Keyed(k: Key): Event -> bool {
    (e: Event) => KeyOf(e) == k
  }

  function Before(t: int): Event -> bool {
    (e: Event) => e.start < t
  }

  lemma RanksDiffer(a: Family, b: Family)
    ensures FamilyRank(a) == FamilyRank(b) ==> a == b
  {
  }

  lemma Orders()
    ensures TotalPreorder(IdOrder) && TotalPreorder(TimeOrder)
  {
    hide FamilyRank;
    forall a: Family, b: Family ensures FamilyRank(a) == FamilyRank(b) ==> a == b {
      RanksDiffer(a, b);
    }
  }

  // ----- episodes of one key -----

  /** The number of runs of bars exactly five minutes apart. */
  function RunsIn(group: seq<Event>): nat {
    if group == [] then 0 else
    var n := |group| - 1;
    RunsIn(group[..n]) + if n > 0 && group[n].start - group[n - 1].start == MINUTE_5 then 0 else 1
  }

  /** The group of ordered[i] up to and including it. */
  function GroupUpTo(ordered: seq<Event>, i: nat): seq<Event>
    requires i < |ordered|
  {
    Filter(ordered[..i + 1], Keyed(KeyOf(ordered[i])))
  }

  function WithIndex(e: Event, index: nat): Event {
    e.(episode := Some(EpisodeId(e.session, e.symbol, e.family, e.direction, index)))
  }

  function Stamped(ordered: seq<Event>): (r: seq<Event>)
    ensures |r| == |ordered|
  {
    seq(|ordered|, i requires 0 <= i < |ordered| => WithIndex(ordered[i], RunsIn(GroupUpTo(ordered, i))))
  }

  function AssignIds(events: seq<Event>): seq<Event> {
    StableSort(Stamped(StableSort(events, IdOrder)), TimeOrder)
  }

  ghost predicate CountedFor(k: Key, counters: map<Key, nat>, previous: map<Key, Event>, group: seq<Event>) {
    && (k in counters <==> group != [])
    && (k in previous <==> group != [])
    && (group != [] ==> counters[k] == RunsIn(group) && previous[k].start == group[|group| - 1].start)
  }

  /** Where the id counters stand after a prefix of the ordered events. */
  ghost predicate Counted(counters: map<Key, nat>, previous: map<Key, Event>, done: seq<Event>) {
    forall k :: CountedFor(k, counters, previous, Filter(done, Keyed(k)))
  }

  lemma RunsSnoc(group: seq<Event>, e: Event)
    ensures RunsIn(group + [e]) ==
            RunsIn(group) + if group != [] && e.start - group[|group| - 1].start == MINUTE_5 then 0 else 1
  {
    assert (group + [e])[..|group|] == group;
  }

  lemma CountStep(counters: map<Key, nat>, previous: map<Key, Event>, done: seq<Event>, e: Event, stamped: Event)
    requires Counted(counters, previous, done) && stamped.start == e.start
    ensures var k := KeyOf(e);
      var contiguous := k in previous && e.start - previous[k].start == MINUTE_5;
      var count := (if k in counters then counters[k] else 0) + if contiguous then 0 else 1;
      && RunsIn(Filter(done + [e], Keyed(k))) == count
      && Counted(counters[k := count], previous[k := stamped], done + [e])
  {
    hide Filter, RunsIn;
    var key := KeyOf(e);
    var group := Filter(done, Keyed(key));
    assert CountedFor(key, counters, previous, group);
    RunsSnoc(group, e);
    RunsOfNothing();
    FilterSnoc(done, e, Keyed(key));
    var count := RunsIn(group + [e]);
    assert CountedFor(key, counters[key := count], previous[key := stamped], group + [e]);
    forall k: Key | k != key
      ensures CountedFor(k, counters[key := count], previous[key := stamped], Filter(done + [e], Keyed(k)))
    {
      FilterSnoc(done, e, Keyed(k));
      assert Filter(done + [e], Keyed(k)) == Filter(done, Keyed(k));
      assert CountedFor(k, counters, previous, Filter(done, Keyed(k)));
    }
  }

  lemma RunsOfNothing()
    ensures RunsIn([]) == 0
  {
  }

  /** The loop of assign_episode_ids. */
  method AssignEpisodeIds(events: seq<Event>) returns (result: seq<Event>)
    ensures result == AssignIds(events)
  {
    hide Filter, Counted, RunsIn, StableSort;
    var ordered := StableSort(events, IdOrder);
    var counters: map<Key, nat> := map[];
    var previous: map<Key, Event> := map[];
    result := [];
    NothingCounted(ordered[..0]);
    for i := 0 to |ordered|
      invariant Counted(counters, previous, ordered[..i])
      invariant |result| == i
      invariant forall j :: 0 <= j < i ==> result[j] == WithIndex(ordered[j], RunsIn(GroupUpTo(ordered, j)))
    {
      var event := ordered[i];
      var key := KeyOf(event);
      var contiguous := key in previous && event.start - previous[key].start == MINUTE_5;
      var count := (if key in counters then counters[key] else 0) + if contiguous then 0 else 1;
      var stamped := WithIndex(event, count);
      CountStep(counters, previous, ordered[..i], event, stamped);
      assert ordered[..i + 1] == ordered[..i] + [event];
      counters := counters[key := count];
      previous := previous[key := stamped];
      result := result + [stamped];
    }
    assert result == Stamped(ordered);
    result := StableSort(result, TimeOrder);
  }

  lemma NothingCounted(done: seq<Event>)
    requires done == []
    ensures Counted(map[], map[], done)
  {
  }

  // ----- what an id means -----

  lemma GroupStep(ordered: seq<Event>, i: nat)
    requires i < |ordered|
    ensures GroupUpTo(ordered, i) == Filter(ordered[..i], Keyed(KeyOf(ordered[i]))) + [ordered[i]]
  {
    hide Filter;
    assert ordered[..i + 1] == ordered[..i] + [ordered[i]];
    FilterSnoc(ordered[..i], ordered[i], Keyed(KeyOf(ordered[i])));
  }

  lemma StampedSnoc(ordered: seq<Event>, e: Event)
    ensures Stamped(ordered + [e]) ==
            Stamped(ordered) + [WithIndex(e, RunsIn(Filter(ordered, Keyed(KeyOf(e))) + [e]))]
  {
    hide Filter, RunsIn;
    var all := ordered + [e];
    GroupStep(all, |ordered|);
    assert all[..|ordered|] == ordered;
    forall i | 0 <= i < |ordered| ensures Stamped(all)[i] == Stamped(ordered)[i] {
      assert all[..i + 1] == ordered[..i + 1];
    }
  }

  lemma {:induction false} StampedCutoff(ordered: seq<Event>, t: int)
    requires SortedBy(ordered, IdOrder)
    ensures Filter(Stamped(ordered), Before(t)) == Stamped(Filter(ordered, Before(t)))
  {
    hide Filter, Stamped, RunsIn;
    if ordered == [] {
      StampedNothing(ordered, t);
    } else {
      var n := |ordered| - 1;
      var e, early := ordered[n], ordered[..n];
      StampedCutoff(early, t);
      assert ordered == early + [e];
      StampedSnoc(early, e);
      FilterSnoc(early, e, Before(t));
      var stamped := WithIndex(e, RunsIn(Filter(early, Keyed(KeyOf(e))) + [e]));
      FilterSnoc(Stamped(early), stamped, Before(t));
      assert Before(t)(stamped) == Before(t)(e) == (e.start < t);
      if e.start < t {
        forall x | x in early && Keyed(KeyOf(e))(x) ensures Before(t)(x) {
          var i :| 0 <= i < n && ordered[i] == x;
          assert IdOrder(ordered[i], ordered[n]);
          assert KeyOf(x) == KeyOf(e);
        }
        FilterImplied(early, Before(t), Keyed(KeyOf(e)));
        StampedSnoc(Filter(early, Before(t)), e);
      } else {
        assert Filter(Stamped(ordered), Before(t)) == Filter(Stamped(early), Before(t));
        assert Filter(ordered, Before(t)) == Filter(early, Before(t));
      }
    }
  }

  lemma StampedNothing(ordered: seq<Event>, t: int)
    requires ordered == []
    ensures Filter(Stamped(ordered), Before(t)) == [] && Stamped(Filter(ordered, Before(t))) == []
  {
  }

  /** Ids never depend on later events: dropping the events from any time on and then handing out
      ids gives the same as handing out ids and then dropping. */
  lemma IdsIgnoreTheFuture(events: seq<Event>, t: int)
    ensures Filter(AssignIds(events), Before(t)) == AssignIds(Filter(events, Before(t)))
  {
    hide Filter, Stamped, StableSort, IdOrder, TimeOrder;
    Orders();
    SortSorts(events, IdOrder);
    var ordered := StableSort(events, IdOrder);
    SortFilter(events, IdOrder, Before(t));
    StampedCutoff(ordered, t);
    SortFilter(Stamped(ordered), TimeOrder, Before(t));
  }

  /** Two successive events of one key share their episode exactly when their bars are five minutes
      apart, and otherwise the later one opens the next episode. */
  lemma SuccessiveIds(ordered: seq<Event>, i: nat, j: nat)
    requires i < j < |ordered| && KeyOf(ordered[i]) == KeyOf(ordered[j])
    requires forall m :: i < m < j ==> KeyOf(ordered[m]) != KeyOf(ordered[i])
    ensures RunsIn(GroupUpTo(ordered, j)) ==
            RunsIn(GroupUpTo(ordered, i)) + if ordered[j].start - ordered[i].start == MINUTE_5 then 0 else 1
  {
    hide Filter;
    var k := KeyOf(ordered[i]);
    var group := GroupUpTo(ordered, i);
    GroupStep(ordered, i);
    GroupStep(ordered, j);
    assert ordered[..j] == ordered[..i + 1] + ordered[i + 1..j];
    FilterAppend(ordered[..i + 1], ordered[i + 1..j], Keyed(k));
    FilterNone(ordered[i + 1..j], Keyed(k));
    assert GroupUpTo(ordered, j) == group + [ordered[j]];
    assert (group + [ordered[j]])[..|group|] == group;
  }
}
