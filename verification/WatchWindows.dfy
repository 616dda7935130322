/** The watch windows of armed structures (alert_ranker/setup_capture.py:256-296): which stretch
    of regular trading hours a completed 30-minute, hourly or daily bar is watched in. */
module WatchWindows {
  import opened Conventions
  import opened CivilDates
  import opened SessionCalendar
  import opened TradingDays
  import opened SessionSearch

  datatype Timeframe = M30 | H1 | D1

  function Delta(tf: Timeframe): int {
    match tf
    case M30 => 1800
    case H1 => 3600
    case D1 => 86400
  }

  datatype Window = Window(start: int, end: int)

  predicate InWindow(w: Window, x: int) {
    w.start <= x < w.end
  }

  function WatchWindow(structureClose: int, tf: Timeframe): Window {
    var session := NyseSessionFor(DayOf(structureClose));
    if session.None? || structureClose >= session.value.close then
      var next := SessionAfter(structureClose);
      if tf.D1? then Window(next.open, next.close)
      else Window(next.open, Min(next.open + Delta(tf), next.close))
    else if tf.D1? then
      var next := SessionAfter(session.value.close);
      Window(next.open, next.close)
    else
      Window(structureClose, Min(structureClose + Delta(tf), session.value.close))
  }

  function StructureCloseForBar(barStart: int, tf: Timeframe, s: Session): int {
    if barStart + Delta(tf) > s.close then s.close else barStart + Delta(tf)
  }

  // ----- the bars of a session, anchored at its open -----

  datatype Slot = Slot(day: Day, k: int)

  predicate IsSlot(tf: Timeframe, t: Slot) {
    !IsClosed(t.day) && t.k >= 0 && SessionOn(t.day).open + t.k * Delta(tf) < SessionOn(t.day).close
  }

  function BarStart(tf: Timeframe, t: Slot): int
    requires IsSlot(tf, t)
  {
    SessionOn(t.day).open + t.k * Delta(tf)
  }

  function StructureClose(tf: Timeframe, t: Slot): int
    requires IsSlot(tf, t)
  {
    StructureCloseForBar(BarStart(tf, t), tf, SessionOn(t.day))
  }

  /** The window a completed bar is watched in. */
  function SlotWindow(tf: Timeframe, t: Slot): Window
    requires IsSlot(tf, t)
  {
    WatchWindow(StructureClose(tf, t), tf)
  }

  predicate InRegularHours(x: int) {
    !IsClosed(DayOf(x)) && SessionOn(DayOf(x)).open <= x < SessionOn(DayOf(x)).close
  }

  function Successor(tf: Timeframe, t: Slot): Slot
    requires IsSlot(tf, t)
  {
    if StructureClose(tf, t) < SessionOn(t.day).close then Slot(t.day, t.k + 1)
    else Slot(SessionDayFrom(t.day + 1), 0)
  }

  function Predecessor(tf: Timeframe, t: Slot): Slot
    requires IsSlot(tf, t)
  {
    if t.k > 0 then Slot(t.day, t.k - 1)
    else
      var day := SessionDayUpTo(t.day - 1);
      Slot(day, (SessionOn(day).close - SessionOn(day).open - 1) / Delta(tf))
  }

  function SlotAt(tf: Timeframe, x: int): Slot
    requires InRegularHours(x)
  {
    Slot(DayOf(x), (x - SessionOn(DayOf(x)).open) / Delta(tf))
  }

  lemma DayIs(x: int, d: Day)
    requires d * DAY_SECONDS <= x < (d + 1) * DAY_SECONDS
    ensures DayOf(x) == d
  {
  }

  lemma SuccessorIsSlot(tf: Timeframe, t: Slot)
    requires IsSlot(tf, t)
    ensures IsSlot(tf, Successor(tf, t))
    ensures BarStart(tf, Successor(tf, t)) >= StructureClose(tf, t)
  {
    hide IsClosed, NyseSessionFor;
    match tf {
      case M30 =>
      case H1 =>
      case D1 =>
    }
  }

  /** A structure is watched for exactly the bar that follows it: the rest of the session's grid,
      the clipped stub before the close, or the first bar of the next session. */
  lemma WatchesNextBar(tf: Timeframe, t: Slot)
    requires IsSlot(tf, t)
    ensures IsSlot(tf, Successor(tf, t))
    ensures SlotWindow(tf, t) == Window(BarStart(tf, Successor(tf, t)), StructureClose(tf, Successor(tf, t)))
  {
    hide IsClosed, NyseSessionFor;
    SuccessorIsSlot(tf, t);
    var close := StructureClose(tf, t);
    DayIs(close, t.day);
    DayIs(SessionOn(t.day).close, t.day);
  }

  /** Every watch window is non-empty, lies in one session, and starts no earlier than the
      structure it watches has closed. */
  lemma WindowShape(tf: Timeframe, t: Slot)
    requires IsSlot(tf, t)
    ensures var w := SlotWindow(tf, t);
            && StructureClose(tf, t) <= w.start < w.end
            && InRegularHours(w.start) && w.end <= SessionOn(DayOf(w.start)).close
  {
    hide IsClosed, NyseSessionFor;
    SuccessorIsSlot(tf, t);
    WatchesNextBar(tf, t);
    var next := Successor(tf, t);
    assert Delta(tf) > 0;
    assert next.k * Delta(tf) >= 0;
    DayIs(BarStart(tf, next), next.day);
  }

  lemma BarsPartition(tf: Timeframe, t: Slot, x: int)
    requires IsSlot(tf, t)
    ensures BarStart(tf, t) <= x < StructureClose(tf, t) <==> InRegularHours(x) && SlotAt(tf, x) == t
  {
    hide IsClosed, NyseSessionFor;
    var s := SessionOn(t.day);
    if s.open <= x < s.close {
      DayIs(x, t.day);
    }
    match tf {
      case M30 =>
      case H1 =>
      case D1 =>
    }
  }

  lemma SlotAtIsSlot(tf: Timeframe, x: int)
    requires InRegularHours(x)
    ensures IsSlot(tf, SlotAt(tf, x))
  {
    hide IsClosed, NyseSessionFor;
  }

  lemma PredecessorInverts(tf: Timeframe, t: Slot)
    requires IsSlot(tf, t)
    ensures IsSlot(tf, Predecessor(tf, t)) && Successor(tf, Predecessor(tf, t)) == t
  {
    hide IsClosed, NyseSessionFor;
    var p := Predecessor(tf, t);
    match tf {
      case M30 =>
      case H1 =>
      case D1 =>
    }
    if t.k == 0 {
      assert SessionDayFrom(p.day + 1) == t.day;
    }
  }

  lemma SuccessorInverts(tf: Timeframe, t: Slot)
    requires IsSlot(tf, t)
    ensures IsSlot(tf, Successor(tf, t)) && Predecessor(tf, Successor(tf, t)) == t
  {
    hide IsClosed, NyseSessionFor;
    SuccessorIsSlot(tf, t);
    if StructureClose(tf, t) >= SessionOn(t.day).close {
      assert SessionDayUpTo(Successor(tf, t).day - 1) == t.day;
    }
    match tf {
      case M30 =>
      case H1 =>
      case D1 =>
    }
  }

  /** The watch windows tile regular trading hours: every instant of every session is in the
      window of exactly one structure, over the Friday-to-Monday carry, holidays and the 15:30
      and 12:30 stubs alike. */
  lemma WindowsTile(tf: Timeframe, x: int)
    requires InRegularHours(x)
    ensures IsSlot(tf, SlotAt(tf, x))
    ensures var watching := Predecessor(tf, SlotAt(tf, x));
            && IsSlot(tf, watching) && InWindow(SlotWindow(tf, watching), x)
            && forall t :: IsSlot(tf, t) && InWindow(SlotWindow(tf, t), x) ==> t == watching
  {
    hide IsClosed, NyseSessionFor, Successor, Predecessor, SlotWindow, StructureClose, BarStart, IsSlot, SlotAt,
         InRegularHours;
    SlotAtIsSlot(tf, x);
    var watching := Predecessor(tf, SlotAt(tf, x));
    PredecessorInverts(tf, SlotAt(tf, x));
    WatchesNextBar(tf, watching);
    BarsPartition(tf, SlotAt(tf, x), x);
    forall t | IsSlot(tf, t) && InWindow(SlotWindow(tf, t), x) ensures t == watching {
      WatchesNextBar(tf, t);
      BarsPartition(tf, Successor(tf, t), x);
      SuccessorInverts(tf, t);
    }
  }

  /** Outside regular hours no structure is ever watched. */
  lemma NothingWatchedOutsideHours(tf: Timeframe, t: Slot, x: int)
    requires IsSlot(tf, t) && InWindow(SlotWindow(tf, t), x)
    ensures InRegularHours(x)
  {
    hide IsClosed, NyseSessionFor, SlotWindow, StructureClose, BarStart;
    WatchesNextBar(tf, t);
    BarsPartition(tf, Successor(tf, t), x);
  }

  /** The last hourly bar of a session, regular or early, is a half-hour stub. */
  lemma HourlyStub(d: Day)
    requires !IsClosed(d)
    ensures var s := SessionOn(d);
            var last := Slot(d, (s.close - s.open - 1) / 3600);
            && IsSlot(H1, last) && StructureClose(H1, last) == s.close && s.close - BarStart(H1, last) == 1800
  {
    hide IsClosed, NyseSessionFor, IsEarlyClose;
    SessionShape(d);
    var length := SessionOn(d).close - SessionOn(d).open;
    assert (length == 12600 && (length - 1) / 3600 == 3) || (length == 23400 && (length - 1) / 3600 == 6);
  }
}
