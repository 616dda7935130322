/** The hour and day candles rebuilt from half-hour bars (alert_ranker/setup_capture.py:299-370)
    and their agreement with the general aggregator. */
module SessionRebuild {
  import opened Conventions
  import opened Sorting
  import opened CausalBars
  import opened BarAggregation
  import opened SessionCalendar

  /** How many half-hour bars a group ending at end should hold. */
  function SlotCount(anchor: int, end: int): nat {
    |ExpectedStarts(HALF_HOUR, anchor, end)|
  }

  predicate Emits(bars: seq<Bar>, close: int, cutoff: int, anchor: int) {
    var end := Min(anchor + HOUR, close);
    var n := SlotCount(anchor, end);
    n > 0 && Whole(bars, anchor, HALF_HOUR, n) && end <= cutoff
  }

  function HourCandle(bars: seq<Bar>, close: int, cutoff: int, anchor: int): (b: Bar)
    requires Emits(bars, close, cutoff, anchor)
    ensures b.start == anchor
  {
    Plain(Candle(anchor, Members(bars, anchor, HALF_HOUR, SlotCount(anchor, Min(anchor + HOUR, close)))))
  }

  /** The hour candles of one session from the given anchor on. */
  function HoursFrom(bars: seq<Bar>, close: int, cutoff: int, anchor: int): seq<Bar>
    decreases close - anchor
  {
    if anchor >= close then [] else
    (if Emits(bars, close, cutoff, anchor) then [HourCandle(bars, close, cutoff, anchor)] else [])
    + HoursFrom(bars, close, cutoff, anchor + HOUR)
  }

  function Hours(bars: seq<Bar>, sessions: seq<Session>, cutoff: int): seq<Bar> {
    if sessions == [] then [] else
    var last := |sessions| - 1;
    Hours(bars, sessions[..last], cutoff) + HoursFrom(bars, sessions[last].close, cutoff, sessions[last].open)
  }

  /** The nested cursor loops of rebuild_session_hours. */
  method RebuildSessionHours(bars: seq<Bar>, sessions: seq<Session>, cutoff: int) returns (prior: seq<Bar>)
    ensures prior == Hours(bars, sessions, cutoff)
  {
    hide Whole, Members, Candle, Plain, ExpectedStarts;
    prior := [];
    for i := 0 to |sessions|
      invariant prior == Hours(bars, sessions[..i], cutoff)
    {
      assert sessions[..i + 1][..i] == sessions[..i];
      var session := sessions[i];
      ghost var before := prior;
      var anchor := session.open;
      while anchor < session.close
        invariant prior + HoursFrom(bars, session.close, cutoff, anchor) ==
                  before + HoursFrom(bars, session.close, cutoff, session.open)
        decreases session.close - anchor
      {
        var groupEnd := Min(anchor + HOUR, session.close);
        var expected := ExpectedBarStarts(HALF_HOUR, anchor, groupEnd);
        var complete := expected != [] && Whole(bars, anchor, HALF_HOUR, |expected|);
        if complete && groupEnd <= cutoff {
          prior := prior + [Plain(Candle(anchor, Members(bars, anchor, HALF_HOUR, |expected|)))];
        }
        anchor := anchor + HOUR;
      }
    }
    assert sessions[..|sessions|] == sessions;
  }

  /** The daily candle of one session: its contained bars folded, if it has closed. */
  function DayCandle(bars: seq<Bar>, s: Session, cutoff: int): Option<Bar> {
    var kept := SessionBars(bars, HALF_HOUR, s.open, s.close);
    if s.close > cutoff || kept == [] then None else Some(Plain(Candle(s.open, kept)))
  }

  function Dailies(bars: seq<Bar>, sessions: seq<Session>, cutoff: int): seq<Bar> {
    if sessions == [] then [] else
    var last := |sessions| - 1;
    var day := DayCandle(bars, sessions[last], cutoff);
    Dailies(bars, sessions[..last], cutoff) + if day.Some? then [day.value] else []
  }

  method RebuildSessionDailies(bars: seq<Bar>, sessions: seq<Session>, cutoff: int) returns (r: seq<Bar>)
    ensures r == Dailies(bars, sessions, cutoff)
  {
    hide Candle, SessionBars;
    r := [];
    for i := 0 to |sessions|
      invariant r == Dailies(bars, sessions[..i], cutoff)
    {
      assert sessions[..i + 1][..i] == sessions[..i];
      if sessions[i].close > cutoff {
        continue;
      }
      var kept := SessionBars(bars, HALF_HOUR, sessions[i].open, sessions[i].close);
      if kept == [] {
        continue;
      }
      r := r + [Plain(Candle(sessions[i].open, kept))];
    }
    assert sessions[..|sessions|] == sessions;
  }

  // ----- no future bar, and agreement with the aggregator -----

  lemma {:induction false} HoursMembers(bars: seq<Bar>, close: int, cutoff: int, anchor: int, b: Bar)
    ensures b in HoursFrom(bars, close, cutoff, anchor) <==>
            && anchor <= b.start < close && (b.start - anchor) % HOUR == 0
            && Emits(bars, close, cutoff, b.start) && b == HourCandle(bars, close, cutoff, b.start)
    decreases close - anchor
  {
    hide Emits, HourCandle;
    if anchor < close {
      HoursMembers(bars, close, cutoff, anchor + HOUR, b);
      if b.start >= anchor {
        NextOnGrid(b.start, anchor, HOUR);
      }
    }
  }

  lemma {:induction false} HoursAscend(bars: seq<Bar>, close: int, cutoff: int, anchor: int)
    ensures Ascending(HoursFrom(bars, close, cutoff, anchor))
    decreases close - anchor
  {
    hide Emits, HourCandle;
    if anchor < close {
      HoursAscend(bars, close, cutoff, anchor + HOUR);
      var rest := HoursFrom(bars, close, cutoff, anchor + HOUR);
      forall i | 0 <= i < |rest| ensures anchor < rest[i].start {
        HoursMembers(bars, close, cutoff, anchor + HOUR, rest[i]);
      }
    }
  }

  /** No candle of any session, stub included, is published before its interval has ended. */
  lemma {:induction false} HoursKnowNoFuture(bars: seq<Bar>, sessions: seq<Session>, cutoff: int, b: Bar)
    requires b in Hours(bars, sessions, cutoff)
    ensures exists s :: s in sessions && s.open <= b.start < s.close && Min(b.start + HOUR, s.close) <= cutoff
  {
    var n := |sessions| - 1;
    assert sessions[n] in sessions;
    if b in HoursFrom(bars, sessions[n].close, cutoff, sessions[n].open) {
      HoursMembers(bars, sessions[n].close, cutoff, sessions[n].open, b);
    } else {
      HoursKnowNoFuture(bars, sessions[..n], cutoff, b);
      assert forall s :: s in sessions[..n] ==> s in sessions;
    }
  }

  function FullHour(close: int): Bar -> bool {
    (b: Bar) => b.start + HOUR <= close
  }

  lemma {:induction false} GridStart(open: int, close: int, i: nat)
    requires i < SlotCount(open, close)
    ensures ExpectedStarts(HALF_HOUR, open, close)[i] == open + i * HALF_HOUR
  {
    if i > 0 {
      GridStart(open, close, i - 1);
      ExpectedStep(HALF_HOUR, open, close, i);
    }
  }

  lemma SlotCountIs(open: int, close: int)
    ensures SlotCount(open, close) == if open + HALF_HOUR <= close then (close - open) / HALF_HOUR else 0
  {
    var n := SlotCount(open, close);
    if n > 0 {
      GridStart(open, close, n - 1);
    }
  }

  lemma SessionMembers(bars: seq<Bar>, s: Session, t: int)
    requires s.open <= t && t + HOUR <= s.close
    ensures var inside := SessionBars(bars, HALF_HOUR, s.open, s.close);
            && (Whole(inside, t, HALF_HOUR, 2) <==> Whole(bars, t, HALF_HOUR, 2))
            && (Whole(inside, t, HALF_HOUR, 2) ==> Members(inside, t, HALF_HOUR, 2) == Members(bars, t, HALF_HOUR, 2))
  {
    hide Lookup, SessionBars;
    var inside := SessionBars(bars, HALF_HOUR, s.open, s.close);
    forall i | 0 <= i < 2 ensures Lookup(inside, t + i * HALF_HOUR) == Lookup(bars, t + i * HALF_HOUR) {
      LookupSession(bars, HALF_HOUR, s.open, s.close, t + i * HALF_HOUR);
    }
  }

  lemma GroupStaysInside(bars: seq<Bar>, s: Session, t: int)
    requires IsGroup(SessionBars(bars, HALF_HOUR, s.open, s.close), HALF_HOUR, HOUR, s.open, t)
    ensures t + HOUR <= s.close
  {
    hide Lookup, SessionBars;
    var inside := SessionBars(bars, HALF_HOUR, s.open, s.close);
    assert Lookup(inside, t + 1 * HALF_HOUR).Some?;
    LookupSession(bars, HALF_HOUR, s.open, s.close, t + 1 * HALF_HOUR);
  }

  /** The two hour builders agree: the full-hour candles of the rebuild are the completed output of
      the aggregator on the session's bars, apart from the average price the rebuild drops. */
  lemma HourBuildersAgree(bars: seq<Bar>, s: Session, cutoff: int)
    ensures Filter(HoursFrom(bars, s.close, cutoff, s.open), FullHour(s.close)) ==
            Plains(Completed(Build(SessionBars(bars, HALF_HOUR, s.open, s.close), HALF_HOUR, HOUR, s.open),
                             HOUR, cutoff))
  {
    var inside := SessionBars(bars, HALF_HOUR, s.open, s.close);
    var hours, built := HoursFrom(bars, s.close, cutoff, s.open), Build(inside, HALF_HOUR, HOUR, s.open);
    var full, done := Filter(hours, FullHour(s.close)), Filter(built, ClosedBy(HOUR, cutoff));
    BuildIs(inside, HALF_HOUR, HOUR, s.open);
    AscendingCompleted(built, HOUR, cutoff);
    HoursAscend(bars, s.close, cutoff, s.open);
    FilterAscending(hours, FullHour(s.close));
    FilterAscending(built, ClosedBy(HOUR, cutoff));
    FilterMembers(hours, FullHour(s.close));
    FilterMembers(built, ClosedBy(HOUR, cutoff));
    PlainsAscend(done);
    forall x ensures x in full <==> x in Plains(done) {
      HourIsGroup(bars, s, cutoff, x);
      if x in Plains(done) {
        var d := FromPlain(done, x);
      }
      if x in full {
        PlainIn(done, GroupCandle(inside, HALF_HOUR, HOUR, s.open, x.start));
      }
    }
    AscendingSame(full, Plains(done));
  }

  lemma HourIsGroup(bars: seq<Bar>, s: Session, cutoff: int, x: Bar)
    ensures var inside := SessionBars(bars, HALF_HOUR, s.open, s.close);
            x in HoursFrom(bars, s.close, cutoff, s.open) && x.start + HOUR <= s.close <==>
            && IsGroup(inside, HALF_HOUR, HOUR, s.open, x.start) && x.start + HOUR <= cutoff
            && x == Plain(GroupCandle(inside, HALF_HOUR, HOUR, s.open, x.start))
  {
    hide Lookup, SessionBars, FoldAll, Whole, Members, HoursFrom;
    HoursMembers(bars, s.close, cutoff, s.open, x);
    SlotCountIs(x.start, x.start + HOUR);
    var inside := SessionBars(bars, HALF_HOUR, s.open, s.close);
    if IsGroup(inside, HALF_HOUR, HOUR, s.open, x.start) {
      GroupStaysInside(bars, s, x.start);
    }
    if s.open <= x.start && x.start + HOUR <= s.close {
      SessionMembers(bars, s, x.start);
    }
  }

  // ----- without the session filter -----

  lemma RawHour(bars: seq<Bar>, s: Session, cutoff: int, x: Bar)
    ensures x in HoursFrom(bars, s.close, cutoff, s.open) && x.start + HOUR <= s.close <==>
            && IsGroup(bars, HALF_HOUR, HOUR, s.open, x.start) && x.start + HOUR <= cutoff
            && x.start + HOUR <= s.close && x == Plain(GroupCandle(bars, HALF_HOUR, HOUR, s.open, x.start))
  {
    hide Lookup, FoldAll, Whole, Members, HoursFrom;
    HoursMembers(bars, s.close, cutoff, s.open, x);
    SlotCountIs(x.start, x.start + HOUR);
  }

  lemma RawBuilt(bars: seq<Bar>, s: Session, cutoff: int, x: Bar)
    ensures x in Plains(Completed(Build(bars, HALF_HOUR, HOUR, s.open), HOUR, cutoff)) <==>
            && IsGroup(bars, HALF_HOUR, HOUR, s.open, x.start) && x.start + HOUR <= cutoff
            && x == Plain(GroupCandle(bars, HALF_HOUR, HOUR, s.open, x.start))
  {
    hide IsGroup, GroupCandle, Build, Completed;
    var built := Build(bars, HALF_HOUR, HOUR, s.open);
    BuildIs(bars, HALF_HOUR, HOUR, s.open);
    AscendingCompleted(built, HOUR, cutoff);
    var done := Filter(built, ClosedBy(HOUR, cutoff));
    FilterMembers(built, ClosedBy(HOUR, cutoff));
    if x in Plains(done) {
      var d := FromPlain(done, x);
    }
    if IsGroup(bars, HALF_HOUR, HOUR, s.open, x.start) && x.start + HOUR <= cutoff {
      var g := GroupCandle(bars, HALF_HOUR, HOUR, s.open, x.start);
      GroupCandleStart(bars, s.open, x.start);
      assert g in done;
      PlainIn(done, g);
    }
  }

  lemma GroupCandleStart(bars: seq<Bar>, open: int, t: int)
    requires IsGroup(bars, HALF_HOUR, HOUR, open, t)
    ensures GroupCandle(bars, HALF_HOUR, HOUR, open, t).start == t
  {
  }

  /** No complete hour of the raw bars ends past the close. */
  ghost predicate StopsAtClose(bars: seq<Bar>, s: Session, cutoff: int) {
    forall t :: IsGroup(bars, HALF_HOUR, HOUR, s.open, t) && t + HOUR <= cutoff ==> t + HOUR <= s.close
  }

  /** On raw bars the two hour builders agree, if and only if no complete hour of them that ended by
      the cutoff ends past the close. */
  lemma RawBuildersAgreeExactlyWhen(bars: seq<Bar>, s: Session, cutoff: int)
    ensures Filter(HoursFrom(bars, s.close, cutoff, s.open), FullHour(s.close)) ==
            Plains(Completed(Build(bars, HALF_HOUR, HOUR, s.open), HOUR, cutoff)) <==>
            StopsAtClose(bars, s, cutoff)
  {
    hide IsGroup, GroupCandle, Build, HoursFrom;
    var hours, built := HoursFrom(bars, s.close, cutoff, s.open), Build(bars, HALF_HOUR, HOUR, s.open);
    var full, plains := Filter(hours, FullHour(s.close)), Plains(Completed(built, HOUR, cutoff));
    HoursAscend(bars, s.close, cutoff, s.open);
    FilterAscending(hours, FullHour(s.close));
    FilterMembers(hours, FullHour(s.close));
    BuildIs(bars, HALF_HOUR, HOUR, s.open);
    AscendingCompleted(built, HOUR, cutoff);
    FilterAscending(built, ClosedBy(HOUR, cutoff));
    PlainsAscend(Filter(built, ClosedBy(HOUR, cutoff)));
    forall x
      ensures x in full <==> x in plains && x.start + HOUR <= s.close
      ensures x in plains ==> IsGroup(bars, HALF_HOUR, HOUR, s.open, x.start) && x.start + HOUR <= cutoff
    {
      RawHour(bars, s, cutoff, x);
      RawBuilt(bars, s, cutoff, x);
    }
    if StopsAtClose(bars, s, cutoff) {
      AscendingSame(full, plains);
    }
    if full == plains {
      forall t | IsGroup(bars, HALF_HOUR, HOUR, s.open, t) && t + HOUR <= cutoff ensures t + HOUR <= s.close {
        GroupCandleStart(bars, s.open, t);
        RawBuilt(bars, s, cutoff, Plain(GroupCandle(bars, HALF_HOUR, HOUR, s.open, t)));
      }
    }
  }

  /** The session filter is needed: fed an after-hours bar of a regular session, the aggregator runs an
      hour across the close, where the rebuild keeps the half-hour stub. */
  lemma RawBarsRunAcrossTheClose(s: Session) returns (bars: seq<Bar>)
    requires s.close == s.open + 23400
    ensures |bars| == 2 && forall cutoff :: cutoff >= s.close + HALF_HOUR ==>
              Filter(HoursFrom(bars, s.close, cutoff, s.open), FullHour(s.close)) !=
              Plains(Completed(Build(bars, HALF_HOUR, HOUR, s.open), HOUR, cutoff))
  {
    var t := s.open + 21600;
    var b, d := Bar(t, 1.0, 1.0, 1.0, 1.0, 1.0, None), Bar(t + HALF_HOUR, 2.0, 2.0, 2.0, 2.0, 1.0, None);
    bars := [b, d];
    LastHour(b, d, s.open);
    forall cutoff | cutoff >= s.close + HALF_HOUR
      ensures Filter(HoursFrom(bars, s.close, cutoff, s.open), FullHour(s.close)) !=
              Plains(Completed(Build(bars, HALF_HOUR, HOUR, s.open), HOUR, cutoff))
    {
      RawBuildersAgreeExactlyWhen(bars, s, cutoff);
      assert IsGroup(bars, HALF_HOUR, HOUR, s.open, t);
    }
  }

  lemma LastHour(b: Bar, d: Bar, open: int)
    requires b.start == open + 21600 && d.start == b.start + HALF_HOUR
    ensures IsGroup([b, d], HALF_HOUR, HOUR, open, b.start)
  {
    FilterPair(b, d, StartsAt(b.start));
    FilterPair(b, d, StartsAt(d.start));
    assert Lookup([b, d], b.start + 0 * HALF_HOUR).Some? && Lookup([b, d], b.start + 1 * HALF_HOUR).Some?;
    assert Whole([b, d], b.start, HALF_HOUR, 2);
  }

  // ----- hours and stub fold to the day -----

  /** The session's half-hour bars sit exactly on its grid, with no gap and no duplicate. */
  ghost predicate GapFree(bars: seq<Bar>, s: Session) {
    var kept, expected := SessionBars(bars, HALF_HOUR, s.open, s.close), ExpectedStarts(HALF_HOUR, s.open, s.close);
    |kept| == |expected| && forall i :: 0 <= i < |kept| ==> kept[i].start == expected[i]
  }

  lemma GridLookup(bars: seq<Bar>, s: Session, i: nat)
    requires GapFree(bars, s)
    ensures var kept := SessionBars(bars, HALF_HOUR, s.open, s.close);
            i < |kept| ==> Lookup(bars, s.open + i * HALF_HOUR) == Some(kept[i])
  {
    hide Lookup, SessionBars;
    var kept := SessionBars(bars, HALF_HOUR, s.open, s.close);
    if i < |kept| {
      forall m: nat | m < |kept| ensures kept[m].start == s.open + m * HALF_HOUR {
        GridStart(s.open, s.close, m);
      }
      assert Ascending(kept);
      LookupAscending(kept, kept[i]);
      LookupSession(bars, HALF_HOUR, s.open, s.close, kept[i].start);
    }
  }

  lemma SlotsLeft(open: int, close: int, k: nat)
    requires open + k * HOUR < close
    ensures var total, n := SlotCount(open, close), SlotCount(open + k * HOUR, Min(open + k * HOUR + HOUR, close));
            && 2 * k <= total && n <= 2 && n <= total - 2 * k && (n < 2 ==> n == total - 2 * k)
  {
    SlotCountIs(open, close);
    SlotCountIs(open + k * HOUR, Min(open + k * HOUR + HOUR, close));
  }

  lemma GridMembers(bars: seq<Bar>, s: Session, i: nat, n: nat)
    requires GapFree(bars, s) && i + n <= |SessionBars(bars, HALF_HOUR, s.open, s.close)|
    ensures var t := s.open + i * HALF_HOUR;
            && Whole(bars, t, HALF_HOUR, n)
            && Members(bars, t, HALF_HOUR, n) == SessionBars(bars, HALF_HOUR, s.open, s.close)[i..i + n]
  {
    hide Lookup, SessionBars, GapFree;
    forall m | 0 <= m < n
      ensures Lookup(bars, s.open + i * HALF_HOUR + m * HALF_HOUR) ==
              Some(SessionBars(bars, HALF_HOUR, s.open, s.close)[i + m])
    {
      GridLookup(bars, s, i + m);
    }
  }

  lemma GridSize(bars: seq<Bar>, s: Session)
    requires GapFree(bars, s)
    ensures |SessionBars(bars, HALF_HOUR, s.open, s.close)| == SlotCount(s.open, s.close)
  {
  }

  lemma HourSlots(bars: seq<Bar>, s: Session, k: nat, kept: seq<Bar>, anchor: int, n: nat)
    requires GapFree(bars, s) && kept == SessionBars(bars, HALF_HOUR, s.open, s.close)
    requires anchor == s.open + k * HOUR < s.close && n == SlotCount(anchor, Min(anchor + HOUR, s.close))
    ensures n <= 2 && 2 * k + n <= |kept| && (n < 2 ==> 2 * k + n == |kept|)
    ensures Whole(bars, anchor, HALF_HOUR, n) && Members(bars, anchor, HALF_HOUR, n) == kept[2 * k..2 * k + n]
  {
    hide SessionBars, SlotCount, Whole, Members, GapFree;
    SlotsLeft(s.open, s.close, k);
    GridSize(bars, s);
    GridMembers(bars, s, 2 * k, n);
    assert s.open + 2 * k * HALF_HOUR == anchor;
  }

  lemma HourOfGrid(bars: seq<Bar>, close: int, cutoff: int, anchor: int, members: seq<Bar>)
    requires Emits(bars, close, cutoff, anchor)
    requires members == Members(bars, anchor, HALF_HOUR, SlotCount(anchor, Min(anchor + HOUR, close)))
    ensures Core(One(HourCandle(bars, close, cutoff, anchor))) == Core(FoldAll(members))
  {
    hide FoldAll, SlotCount, Whole, Members, One, Plain, Candle, Core;
    OneOfCandle(anchor, members);
    PlainCore(Candle(anchor, members));
  }

  lemma PlainCore(b: Bar)
    ensures Core(One(Plain(b))) == Core(One(b))
  {
  }

  lemma EmitsIs(bars: seq<Bar>, close: int, cutoff: int, anchor: int)
    requires close <= cutoff
    ensures var n := SlotCount(anchor, Min(anchor + HOUR, close));
            Emits(bars, close, cutoff, anchor) <==> n > 0 && Whole(bars, anchor, HALF_HOUR, n)
  {
  }

  lemma {:induction false} HoursFold(bars: seq<Bar>, s: Session, cutoff: int, k: nat)
    requires GapFree(bars, s) && s.close <= cutoff
    ensures var kept := SessionBars(bars, HALF_HOUR, s.open, s.close);
            var hours := HoursFrom(bars, s.close, cutoff, s.open + k * HOUR);
            if 2 * k >= |kept| then hours == []
            else hours != [] && Core(FoldAll(hours)) == Core(FoldAll(kept[2 * k..]))
    decreases s.close - (s.open + k * HOUR)
  {
    hide SessionBars, FoldAll, Emits, HourCandle, GapFree, One, Whole, Members, SlotCount;
    var kept, anchor := SessionBars(bars, HALF_HOUR, s.open, s.close), s.open + k * HOUR;
    if anchor < s.close {
      var n := SlotCount(anchor, Min(anchor + HOUR, s.close));
      HourSlots(bars, s, k, kept, anchor, n);
      HoursFold(bars, s, cutoff, k + 1);
      EmitsIs(bars, s.close, cutoff, anchor);
      var rest := HoursFrom(bars, s.close, cutoff, anchor + HOUR);
      assert s.open + (k + 1) * HOUR == anchor + HOUR;
      if n > 0 {
        var candle := HourCandle(bars, s.close, cutoff, anchor);
        HourOfGrid(bars, s.close, cutoff, anchor, kept[2 * k..2 * k + n]);
        FoldOne(candle);
        if rest == [] {
          assert [candle] + rest == [candle];
          assert kept[2 * k..2 * k + n] == kept[2 * k..];
        } else {
          FoldAppend([candle], rest);
          FoldAppend(kept[2 * k..2 * k + n], kept[2 * k + n..]);
          assert kept[2 * k..] == kept[2 * k..2 * k + n] + kept[2 * k + n..];
        }
      }
    } else {
      GridEnds(bars, s, k);
    }
  }

  lemma GridEnds(bars: seq<Bar>, s: Session, k: nat)
    requires GapFree(bars, s) && s.open + k * HOUR >= s.close
    ensures |SessionBars(bars, HALF_HOUR, s.open, s.close)| <= 2 * k
  {
    hide SessionBars;
    SlotCountIs(s.open, s.close);
  }

  /** On a finished session without gaps, folding all the hour candles, stub included, gives the
      daily candle. */
  lemma HoursFoldToDay(bars: seq<Bar>, s: Session, cutoff: int)
    requires GapFree(bars, s) && s.close <= cutoff
    ensures var hours, day := HoursFrom(bars, s.close, cutoff, s.open), DayCandle(bars, s, cutoff);
            && (hours == [] <==> day.None?)
            && (hours != [] ==> day == Some(Plain(Candle(s.open, hours))))
  {
    hide SessionBars, FoldAll, HoursFrom;
    HoursFold(bars, s, cutoff, 0);
    var kept := SessionBars(bars, HALF_HOUR, s.open, s.close);
    assert kept[2 * 0..] == kept && s.open + 0 * HOUR == s.open;
  }
}
