/** What the running peak, drawdown and underwater variables of the account replay mean,
    stated on the whole equity path. Path entry 0 is the starting balance; entry i > 0 is
    the equity after event i - 1, which happened at times[i - 1]. */
module EquityCurve {
  import opened Sorting

  function Peak(path: seq<real>): (p: real)
    requires path != []
    ensures p in path
    ensures forall i :: 0 <= i < |path| ==> path[i] <= p
  {
    var last := path[|path| - 1];
    if |path| == 1 then last else
    var before := Peak(path[..|path| - 1]);
    if last > before then last else before
  }

  function Trough(path: seq<real>): (p: real)
    requires path != []
    ensures p in path
    ensures forall i :: 0 <= i < |path| ==> p <= path[i]
  {
    var last := path[|path| - 1];
    if |path| == 1 then last else
    var before := Trough(path[..|path| - 1]);
    if last < before then last else before
  }

  /** d is the largest fall from an earlier (or the same) point of the path to a later one. */
  ghost predicate IsMaxDrawdown(d: real, path: seq<real>) {
    && (exists i, j :: 0 <= i <= j < |path| && path[i] - path[j] == d)
    && (forall i, j :: 0 <= i <= j < |path| ==> path[i] - path[j] <= d)
  }

  /** The percentage reported beside the drawdown: measured at the first point where the
      largest dollar fall is reached. */
  ghost predicate IsDrawdownPercent(pct: real, d: real, path: seq<real>, last: nat) {
    if d == 0.0 then pct == 0.0 else
    exists j: nat :: j <= last && j < |path| && FirstDeepest(d, path, j) && pct == PercentOf(d, Peak(path[..j + 1]))
  }

  ghost predicate FirstDeepest(d: real, path: seq<real>, j: nat)
    requires j < |path|
  {
    && Peak(path[..j + 1]) - path[j] == d
    && (forall m :: 0 <= m < j ==> Peak(path[..m + 1]) - path[m] < d)
  }

  function PercentOf(d: real, peak: real): real {
    if peak > 0.0 then d / peak * 100.0 else 0.0
  }

  predicate SubPeak(path: seq<real>, i: nat) {
    0 < i < |path| && path[i] < Peak(path[..i + 1])
  }

  /** The first index at or after k whose value exceeds level, or the last index. */
  function FirstAbove(path: seq<real>, level: real, k: nat): (r: nat)
    requires path != []
    ensures r < |path|
    decreases |path| - k
  {
    if k >= |path| then |path| - 1
    else if path[k] > level then k
    else FirstAbove(path, level, k + 1)
  }

  /** How long the path stays at or below its peak, counted from the sub-peak point i to the
      next strictly higher peak, or to the last event when there is none. */
  function UnderwaterFrom(path: seq<real>, times: seq<int>, i: nat): int
    requires |path| == |times| + 1 && SubPeak(path, i)
  {
    var end := FirstAbove(path, Peak(path[..i + 1]), i + 1);
    (if end == 0 then 0 else times[end - 1]) - times[i - 1]
  }

  ghost predicate IsLongestUnderwater(w: int, path: seq<real>, times: seq<int>)
    requires |path| == |times| + 1
  {
    && (w == 0 || exists i: nat :: SubPeak(path, i) && UnderwaterFrom(path, times, i) == w)
    && (forall i: nat :: SubPeak(path, i) ==> UnderwaterFrom(path, times, i) <= w)
  }

  // ----- how each loop variable is kept up to date -----

  lemma PeakGrows(path: seq<real>, n: nat)
    requires n + 1 < |path|
    ensures Peak(path[..n + 2]) == if path[n + 1] > Peak(path[..n + 1]) then path[n + 1] else Peak(path[..n + 1])
    ensures Trough(path[..n + 2]) == if path[n + 1] < Trough(path[..n + 1]) then path[n + 1] else Trough(path[..n + 1])
  {
    assert path[..n + 2][..n + 1] == path[..n + 1];
  }

  lemma {:induction false} PeakMonotone(path: seq<real>, i: nat, n: nat)
    requires i <= n < |path|
    ensures Peak(path[..i + 1]) <= Peak(path[..n + 1])
    ensures Peak(path[..i + 1]) == Peak(path[..n + 1]) <==>
            forall m :: i < m <= n ==> path[m] <= Peak(path[..i + 1])
  {
    hide Peak, Trough;
    if i < n {
      PeakMonotone(path, i, n - 1);
      PeakGrows(path, n - 1);
      var before := Peak(path[..n]);
      assert path[..n] == path[..n - 1 + 1] && path[..n + 1] == path[..n - 1 + 2];
      assert Peak(path[..n + 1]) == if path[n] > before then path[n] else before;
    }
  }

  lemma DrawdownStep(path: seq<real>, n: nat, d: real)
    requires n + 1 < |path| && IsMaxDrawdown(d, path[..n + 1])
    ensures var fall := Peak(path[..n + 1]) - path[n + 1];
            IsMaxDrawdown(if fall > d then fall else d, path[..n + 2])
  {
    hide Peak, Trough;
    var head, full, x := path[..n + 1], path[..n + 2], path[n + 1];
    var fall := Peak(head) - x;
    assert head[0] - head[0] <= d;
    forall i, j | 0 <= i <= j < |full| ensures full[i] - full[j] <= if fall > d then fall else d {
      if j <= n {
        assert full[i] == head[i] && full[j] == head[j];
      } else if i <= n {
        assert full[i] == head[i];
      }
    }
    if fall > d {
      var i :| 0 <= i < |head| && head[i] == Peak(head);
      assert full[i] - full[n + 1] == fall;
    } else {
      var i, j :| 0 <= i <= j < |head| && head[i] - head[j] == d;
      assert full[i] - full[j] == d;
    }
  }

  /** The fall from the running peak never exceeds the drawdown so far. */
  lemma FallBounded(path: seq<real>, n: nat, d: real, j: nat)
    requires j <= n < |path| && IsMaxDrawdown(d, path[..n + 1])
    ensures Peak(path[..j + 1]) - path[j] <= d
    ensures d >= 0.0
  {
    var p := path[..j + 1];
    var i :| 0 <= i < |p| && p[i] == Peak(p);
    var q := path[..n + 1];
    assert q[i] - q[j] <= d;
    assert q[0] - q[0] <= d;
  }

  lemma DeeperIsFirst(path: seq<real>, n: nat, d: real)
    requires n + 1 < |path| && IsMaxDrawdown(d, path[..n + 1])
    requires Peak(path[..n + 1]) - path[n + 1] > d
    ensures Peak(path[..n + 2]) == Peak(path[..n + 1])
    ensures FirstDeepest(Peak(path[..n + 1]) - path[n + 1], path, n + 1)
    ensures d >= 0.0
  {
    FallBounded(path, n, d, 0);
    PeakGrows(path, n);
    forall m | 0 <= m < n + 1 ensures Peak(path[..m + 1]) - path[m] <= d {
      FallBounded(path, n, d, m);
    }
  }

  lemma PercentDeepens(path: seq<real>, n: nat, fall: real, pct: real)
    requires n + 1 < |path| && fall != 0.0 && FirstDeepest(fall, path, n + 1)
    requires pct == PercentOf(fall, Peak(path[..n + 2]))
    ensures IsDrawdownPercent(pct, fall, path, n + 1)
  {
  }

  ghost predicate Unrecovered(path: seq<real>, n: nat, i: nat)
    requires n < |path|
  {
    SubPeak(path, i) && i <= n && Peak(path[..i + 1]) == Peak(path[..n + 1])
  }

  /** The loop invariant of the underwater clock after path entry n. */
  ghost predicate UnderwaterInv(path: seq<real>, times: seq<int>, n: nat, started: Option<int>, longest: int)
    requires |path| == |times| + 1 && n < |path|
  {
    && longest >= 0
    && (longest == 0 || exists i: nat :: SubPeak(path, i) && UnderwaterFrom(path, times, i) == longest)
    && (forall i: nat :: SubPeak(path, i) && i <= n && !Unrecovered(path, n, i) ==>
          UnderwaterFrom(path, times, i) <= longest)
    && (forall i: nat :: Unrecovered(path, n, i) ==> started.Some? && started.value <= times[i - 1])
    && (started.Some? ==> exists i: nat :: Unrecovered(path, n, i) && started.value == times[i - 1])
  }

  lemma {:induction false} FirstAboveIs(path: seq<real>, level: real, k: nat, r: nat)
    requires k <= r < |path| && (forall m :: k <= m < r ==> path[m] <= level)
    ensures path[r] > level || r == |path| - 1 ==> FirstAbove(path, level, k) == r
    decreases r - k
  {
    if k < r {
      FirstAboveIs(path, level, k + 1, r);
    }
  }

  lemma RecoveryLength(path: seq<real>, times: seq<int>, n: nat, i: nat)
    requires |path| == |times| + 1 && n < |path| && Unrecovered(path, n, i)
    ensures n + 1 < |path| && path[n + 1] > Peak(path[..n + 1]) ==>
              UnderwaterFrom(path, times, i) == times[n] - times[i - 1]
    ensures n + 1 == |path| ==> UnderwaterFrom(path, times, i) == times[n - 1] - times[i - 1]
  {
    hide Peak, Trough;
    PeakMonotone(path, i, n);
    if n + 1 < |path| {
      FirstAboveIs(path, Peak(path[..i + 1]), i + 1, n + 1);
    } else if i < n {
      FirstAboveIs(path, Peak(path[..i + 1]), i + 1, n);
    }
  }

  lemma UnrecoveredStep(path: seq<real>, n: nat, i: nat)
    requires n + 1 < |path| && i <= n && SubPeak(path, i)
    ensures Unrecovered(path, n + 1, i) <==> Unrecovered(path, n, i) && path[n + 1] <= Peak(path[..n + 1])
  {
    PeakGrows(path, n);
    PeakMonotone(path, i, n);
  }

  /** A new high stops the clock. */
  lemma UnderwaterNewPeak(path: seq<real>, times: seq<int>, n: nat, started: Option<int>, longest: int)
    requires |path| == |times| + 1 && n + 1 < |path| && path[n + 1] > Peak(path[..n + 1])
    requires UnderwaterInv(path, times, n, started, longest)
    requires forall i, j :: 0 <= i <= j < |times| ==> times[i] <= times[j]
    ensures UnderwaterInv(path, times, n + 1, None,
                          if started.Some? && times[n] - started.value > longest
                          then times[n] - started.value else longest)
  {
    hide Peak, Trough, FirstAbove, UnderwaterFrom;
    PeakGrows(path, n);
    var longest' := if started.Some? && times[n] - started.value > longest
                    then times[n] - started.value else longest;
    if started.Some? {
      var i: nat :| Unrecovered(path, n, i) && started.value == times[i - 1];
      RecoveryLength(path, times, n, i);
    }
    forall i: nat | SubPeak(path, i) && i <= n + 1
      ensures !Unrecovered(path, n + 1, i) && UnderwaterFrom(path, times, i) <= longest'
    {
      if i <= n {
        UnrecoveredStep(path, n, i);
        if Unrecovered(path, n, i) {
          RecoveryLength(path, times, n, i);
        }
      }
    }
  }

  /** Anything else leaves it as it was, started at this event if this is the first sub-peak one. */
  lemma UnderwaterNoPeak(path: seq<real>, times: seq<int>, n: nat, started: Option<int>, longest: int)
    requires |path| == |times| + 1 && n + 1 < |path| && path[n + 1] <= Peak(path[..n + 1])
    requires UnderwaterInv(path, times, n, started, longest)
    requires forall i, j :: 0 <= i <= j < |times| ==> times[i] <= times[j]
    ensures UnderwaterInv(path, times, n + 1,
                          if started.None? && path[n + 1] < Peak(path[..n + 1]) then Some(times[n]) else started,
                          longest)
  {
    hide Peak, Trough, FirstAbove, UnderwaterFrom;
    PeakGrows(path, n);
    var started' := if started.None? && path[n + 1] < Peak(path[..n + 1]) then Some(times[n]) else started;
    forall i: nat | SubPeak(path, i) && i <= n
      ensures Unrecovered(path, n + 1, i) == Unrecovered(path, n, i)
    {
      UnrecoveredStep(path, n, i);
    }
    if started.Some? {
      var i: nat :| Unrecovered(path, n, i) && started.value == times[i - 1];
      assert Unrecovered(path, n + 1, i);
    } else if started'.Some? {
      assert Unrecovered(path, n + 1, n + 1);
    }
  }

  lemma UnderwaterEnd(path: seq<real>, times: seq<int>, started: Option<int>, longest: int)
    requires |path| == |times| + 1
    requires UnderwaterInv(path, times, |path| - 1, started, longest)
    ensures started.Some? ==> times != []
    ensures IsLongestUnderwater(
              if started.Some? && times[|times| - 1] - started.value > longest
              then times[|times| - 1] - started.value else longest, path, times)
  {
    hide Peak, Trough, FirstAbove, UnderwaterFrom;
    var n := |path| - 1;
    if started.Some? {
      var i: nat :| Unrecovered(path, n, i) && started.value == times[i - 1];
      RecoveryLength(path, times, n, i);
    }
    forall i: nat | Unrecovered(path, n, i)
      ensures UnderwaterFrom(path, times, i) == times[n - 1] - times[i - 1]
    {
      RecoveryLength(path, times, n, i);
    }
  }
}
