/** Laws of the level observer: no event uses a later bar, a retest always has its own break, and a
    failed reclaim directly follows a reclaim. */
module LevelLaws {
  import opened Sorting
  import Bars = CausalBars
  import opened LevelEvents
  import opened LevelObserver

  // ----- cutting the input off at a time -----

  function StartsBefore(t: int): Bar -> bool {
    (b: Bar) => b.start < t
  }

  function CutIndex(index: Option<Index>, t: int): Option<Index> {
    if index.None? then None else
    Some(Index(Filter(index.value.history, StartsBefore(t)), Filter(index.value.session, StartsBefore(t))))
  }

  /** The feed as it stood before any bar starting at t or later. */
  function Cut(feed: Feed, t: int): Feed {
    feed.(current := Filter(feed.current, StartsBefore(t)), spy := CutIndex(feed.spy, t), qqq := CutIndex(feed.qqq, t))
  }

  ghost predicate CutsAt(bars: seq<Bar>, t: int, k: nat) {
    k <= |bars| && forall i :: 0 <= i < |bars| ==> (bars[i].start < t <==> i < k)
  }

  lemma IndexTrendCut(index: Option<Index>, t: int, through: int)
    requires through < t + MINUTE_5
    ensures IndexTrend(CutIndex(index, t), through) == IndexTrend(index, through)
  {
    if index.Some? {
      FilterImplied(index.value.session, StartsBefore(t), Bars.ClosedBy(MINUTE_5, through));
      FilterImplied(index.value.history, StartsBefore(t), Bars.ClosedBy(MINUTE_5, through));
    }
  }

  // ----- one bar looks only backwards -----

  lemma WatchedPrefix(w: Watch, prior: seq<Bar>, bars: seq<Bar>, k: nat, i: nat)
    requires prior != [] && i < k <= |bars| && Knowable(w, i)
    ensures Watched(w, prior, bars[..k]) == Watched(w, prior, bars)
  {
    if k >= OPENING_BARS {
      assert bars[..k][..OPENING_BARS] == bars[..OPENING_BARS];
    }
  }

  lemma BreaksPrefix(w: Watch, prior: seq<Bar>, bars: seq<Bar>, k: nat, i: nat)
    requires prior != [] && 0 < i < k <= |bars|
    ensures Breaks(w, prior, bars[..k], i) == Breaks(w, prior, bars, i)
    ensures Touches(w, prior, bars[..k], i) == Touches(w, prior, bars, i)
    ensures Rejects(w, prior, bars[..k], i) == Rejects(w, prior, bars, i)
  {
    hide Watched, Crosses, ComesBack;
    if Knowable(w, i) {
      WatchedPrefix(w, prior, bars, k, i);
    }
  }

  lemma RetestsPrefix(w: Watch, prior: seq<Bar>, bars: seq<Bar>, k: nat, i: nat)
    requires prior != [] && 0 < i < k <= |bars|
    ensures Retests(w, prior, bars[..k], i) == Retests(w, prior, bars, i)
  {
    hide Breaks, Touches, Rejects;
    BreaksPrefix(w, prior, bars, k, i);
    forall m | 0 < m < i
      ensures Breaks(w, prior, bars[..k], m) == Breaks(w, prior, bars, m)
      ensures Touches(w, prior, bars[..k], m) == Touches(w, prior, bars, m)
    {
      BreaksPrefix(w, prior, bars, k, m);
    }
    forall j | 0 < j < i ensures OpenBreak(w, prior, bars[..k], j, i) == OpenBreak(w, prior, bars, j, i) {
    }
  }

  lemma VwapPrefix(bars: seq<Bar>, k: nat, i: nat)
    requires 0 < i < k <= |bars|
    ensures Reclaims(bars[..k], i) == Reclaims(bars, i) && FailsReclaim(bars[..k], i) == FailsReclaim(bars, i)
    ensures HoldsAbove(bars[..k], i) == HoldsAbove(bars, i) && HoldsBelow(bars[..k], i) == HoldsBelow(bars, i)
  {
    hide Bars.SessionVwap;
    assert bars[..k][..i] == bars[..i] && bars[..k][..i + 1] == bars[..i + 1];
    if i >= 2 {
      assert bars[..k][..i - 1] == bars[..i - 1];
    }
  }

  lemma FiresPrefix(f: Family, prior: seq<Bar>, bars: seq<Bar>, k: nat, i: nat)
    requires prior != [] && 0 < i < k <= |bars|
    ensures Fires(f, prior, bars[..k], i) == Fires(f, prior, bars, i)
  {
    hide Breaks, Retests, Rejects, Reclaims, FailsReclaim, HoldsAbove, HoldsBelow;
    VwapPrefix(bars, k, i);
    forall w: Watch
      ensures Breaks(w, prior, bars[..k], i) == Breaks(w, prior, bars, i)
      ensures Retests(w, prior, bars[..k], i) == Retests(w, prior, bars, i)
      ensures Rejects(w, prior, bars[..k], i) == Rejects(w, prior, bars, i)
    {
      BreaksPrefix(w, prior, bars, k, i);
      RetestsPrefix(w, prior, bars, k, i);
    }
  }

  lemma FiredLevelPrefix(f: Family, prior: seq<Bar>, bars: seq<Bar>, k: nat, i: nat)
    requires prior != [] && 0 < i < k <= |bars| && Fires(f, prior, bars, i)
    ensures LevelValue(LevelOf(f), prior, bars[..k], i) == LevelValue(LevelOf(f), prior, bars, i)
  {
    hide Watched, Bars.SessionVwap, Armed, Crosses, ComesBack;
    assert bars[..k][..i + 1] == bars[..i + 1];
    var w := if LevelOf(f) == OrbHigh then OrbLong else if LevelOf(f) == OrbLow then OrbShort
             else if LevelOf(f) == Pdh then PdhLong else PdlShort;
    if LevelOf(f) != Vwap {
      WatchedPrefix(w, prior, bars, k, i);
    }
  }

  lemma ContextPrefix(feed: Feed, history: seq<Bar>, bars: seq<Bar>, k: nat, i: nat, t: int)
    requires i < k <= |bars| && bars[i].start < t
    ensures ContextAt(Cut(feed, t), history, bars[..k], i) == ContextAt(feed, history, bars, i)
  {
    hide Bars.SessionVwap, Bars.Closes, VolumeRatio, IndexTrend, CutIndex, Bars.Ema;
    assert bars[..k][..i] == bars[..i] && bars[..k][..i + 1] == bars[..i + 1];
    IndexTrendCut(feed.spy, t, bars[i].start + MINUTE_5);
    IndexTrendCut(feed.qqq, t, bars[i].start + MINUTE_5);
  }

  lemma {:induction false} EventsAtPrefix(feed: Feed, history: seq<Bar>, bars: seq<Bar>, k: nat, i: nat, t: int, n: nat)
    requires feed.prior != [] && 0 < i < k <= |bars| && bars[i].start < t && n <= 16
    ensures EventsAt(Cut(feed, t), history, bars[..k], i, n) == EventsAt(feed, history, bars, i, n)
  {
    hide ContextAt, Fires, LevelValue, Checked, MarketAligned, DirectionOf, LevelOf;
    if n > 0 {
      EventsAtPrefix(feed, history, bars, k, i, t, n - 1);
      var f := Checked()[n - 1];
      FiresPrefix(f, feed.prior, bars, k, i);
      ContextPrefix(feed, history, bars, k, i, t);
      if Fires(f, feed.prior, bars, i) {
        FiredLevelPrefix(f, feed.prior, bars, k, i);
      }
    }
  }

  // ----- prefix causality of the session -----

  lemma {:induction false} RawPrefix(feed: Feed, history: seq<Bar>, bars: seq<Bar>, k: nat, t: int, n: nat)
    requires feed.prior != [] && n <= k && CutsAt(bars, t, k)
    ensures Raw(Cut(feed, t), history, bars[..k], n) == Raw(feed, history, bars, n)
  {
    hide EventsAt;
    if n > 1 {
      RawPrefix(feed, history, bars, k, t, n - 1);
      EventsAtPrefix(feed, history, bars, k, n - 1, t, 16);
    }
  }

  lemma {:induction false} EventsStartAt(feed: Feed, history: seq<Bar>, bars: seq<Bar>, i: nat, n: nat)
    requires feed.prior != [] && 0 < i < |bars| && n <= 16
    ensures forall e :: e in EventsAt(feed, history, bars, i, n) ==> e.start == bars[i].start
  {
    hide ContextAt, Fires, LevelValue, Checked, MarketAligned, DirectionOf, LevelOf;
    if n > 0 {
      EventsStartAt(feed, history, bars, i, n - 1);
    }
  }

  lemma {:induction false} RawCut(feed: Feed, history: seq<Bar>, bars: seq<Bar>, k: nat, t: int, n: nat)
    requires feed.prior != [] && n <= |bars| && CutsAt(bars, t, k)
    ensures Filter(Raw(feed, history, bars, n), Before(t)) == Raw(feed, history, bars, if n < k then n else k)
  {
    hide EventsAt, Filter;
    if n <= 1 {
      FilterNone<Event>([], Before(t));
    } else {
      RawCut(feed, history, bars, k, t, n - 1);
      var added := EventsAt(feed, history, bars, n - 1, 16);
      FilterAppend(Raw(feed, history, bars, n - 1), added, Before(t));
      EventsStartAt(feed, history, bars, n - 1, 16);
      if n <= k {
        FilterAll(added, Before(t));
      } else {
        FilterNone(added, Before(t));
      }
    }
  }

  /** No event uses a later bar: for every time t, observing only what started before t, in the
      symbol and in both indices, gives exactly the events the full run has on bars before t, with
      the same episode ids, although the source takes the opening range from the whole list. */
  lemma ObserverUsesNoLaterBar(feed: Feed, t: int)
    ensures Filter(Observed(feed), Before(t)) == Observed(Cut(feed, t))
  {
    hide Filter, StableSort, Raw, AssignIds, CutIndex;
    Bars.ByStartOrder();
    SortSorts(feed.current, Bars.ByStart);
    SortFilter(feed.current, Bars.ByStart, StartsBefore(t));
    var bars := StableSort(feed.current, Bars.ByStart);
    var history := StableSort(feed.history, Bars.ByStart);
    var k := SortedCut(bars, Bars.ByStart, StartsBefore(t));
    FilterNone<Event>([], Before(t));
    if |bars| >= 2 && feed.prior != [] {
      IdsIgnoreTheFuture(Raw(feed, history, bars, |bars|), t);
      RawCut(feed, history, bars, k, t, |bars|);
      RawPrefix(feed, history, bars, k, t, k);
      NoBarsNoEvents(Cut(feed, t), history, bars[..k]);
    }
  }

  lemma NoBarsNoEvents(feed: Feed, history: seq<Bar>, bars: seq<Bar>)
    requires feed.prior != []
    ensures |bars| < 2 ==> AssignIds(Raw(feed, history, bars, |bars|)) == []
  {
  }

  // ----- every retest has its own break -----

  lemma {:induction false} UntestedBreakStaysOpen(w: Watch, prior: seq<Bar>, bars: seq<Bar>, j: nat, i: nat)
    requires prior != [] && 0 < j < i <= |bars| && Breaks(w, prior, bars, j)
    requires forall m :: j < m < i ==> !Retests(w, prior, bars, m)
    ensures OpenBreak(w, prior, bars, j, i)
    decreases i
  {
    hide Breaks, Touches;
    if i > j + 1 {
      UntestedBreakStaysOpen(w, prior, bars, j, i - 1);
      assert !Retests(w, prior, bars, i - 1);
    }
  }

  /** A retest is recorded exactly when the bar comes back to the level after a break that no
      earlier retest has used. */
  lemma RetestFollowsItsBreak(w: Watch, prior: seq<Bar>, bars: seq<Bar>, i: nat)
    requires prior != [] && 0 < i < |bars|
    ensures Fires(RetestFamily(w), prior, bars, i) <==>
            Touches(w, prior, bars, i) &&
            exists j :: 0 < j < i && Fires(BreakFamily(w), prior, bars, j)
                        && forall m :: j < m < i ==> !Fires(RetestFamily(w), prior, bars, m)
  {
    hide Fires, Breaks, Touches, RetestFamily, BreakFamily;
    forall m | 0 < m < |bars|
      ensures Fires(BreakFamily(w), prior, bars, m) == Breaks(w, prior, bars, m)
      ensures Fires(RetestFamily(w), prior, bars, m) == Retests(w, prior, bars, m)
    {
      WatchFires(w, prior, bars, m);
    }
    if Retests(w, prior, bars, i) {
      var j :| 0 < j < i && OpenBreak(w, prior, bars, j, i);
      assert Fires(BreakFamily(w), prior, bars, j);
    }
    if j :| 0 < j < i && Fires(BreakFamily(w), prior, bars, j)
            && forall m :: j < m < i ==> !Fires(RetestFamily(w), prior, bars, m) {
      UntestedBreakStaysOpen(w, prior, bars, j, i);
    }
  }

  /** Between two retests of one level lies a fresh break of it. */
  lemma RetestsNeedFreshBreaks(w: Watch, prior: seq<Bar>, bars: seq<Bar>, i: nat, later: nat)
    requires prior != [] && 0 < i < later < |bars|
    requires Retests(w, prior, bars, i) && Retests(w, prior, bars, later)
    ensures exists j :: i < j < later && Breaks(w, prior, bars, j)
  {
    var j :| 0 < j < later && OpenBreak(w, prior, bars, j, later);
  }

  /** A failed reclaim is recorded exactly when the bar before it was recorded as a reclaim and this
      bar closes back below the running average price. */
  lemma FailureFollowsReclaim(prior: seq<Bar>, bars: seq<Bar>, i: nat)
    requires prior != [] && 2 <= i < |bars|
    ensures var now := Bars.SessionVwap(bars[..i + 1]);
      Fires(VwapFailedReclaimShort, prior, bars, i) <==>
      Fires(VwapReclaimLong, prior, bars, i - 1) && now.Some? && bars[i].close < now.value
  {
    hide Bars.SessionVwap;
  }
}
