/** The aggregate open risk (alert_ranker/contract_marks.py:138-171) and what it guarantees over
    runs of sequential scans (alert_ranker/scanner_legacy.py:345-360). The journal is a list of
    rows in ascending id order, as the shadow-journal table holds them. */
module RiskLedger {
  import opened Sorting
  import opened PaperPolicy

  datatype RiskField = Absent | NotNumeric | NotFinite | Number(value: real)

  datatype Row = Row(id: int, isOpen: bool, isV1: bool, counterfactual: bool, budgetConsumed: Option<bool>,
                     risk: RiskField)

  /** An OPEN row of the active lane: the only rows that reserve budget. */
  predicate Reserves(r: Row) {
    r.isOpen && r.isV1 && !r.counterfactual && r.budgetConsumed != Some(false)
  }

  predicate SoundRisk(f: RiskField) {
    f.Number? && f.value >= 0.0
  }

  predicate Damaged(r: Row) {
    Reserves(r) && !SoundRisk(r.risk)
  }

  function Part(r: Row): real {
    if Reserves(r) && SoundRisk(r.risk) then r.risk.value else 0.0
  }

  function Reserved(rows: seq<Row>): real {
    if rows == [] then 0.0 else Reserved(rows[..|rows| - 1]) + Part(rows[|rows| - 1])
  }

  ghost predicate AnyDamaged(rows: seq<Row>) {
    exists i :: 0 <= i < |rows| && Damaged(rows[i])
  }

  ghost predicate Ascending(rows: seq<Row>) {
    (forall i :: 0 <= i < |rows| ==> rows[i].id > 0)
    && forall i, j :: 0 <= i < j < |rows| ==> rows[i].id < rows[j].id
  }

  // ----- the batched scan -----

  function OpenAfter(last: int): Row -> bool {
    (r: Row) => r.isOpen && r.id > last
  }

  /** storage.open_setups_after: the next OPEN rows by id, at most limit of them. */
  function Batch(rows: seq<Row>, last: int, limit: nat): seq<Row> {
    var rest := Filter(rows, OpenAfter(last));
    if |rest| <= limit then rest else rest[..limit]
  }

  ghost predicate StrictlyBy(rows: seq<Row>) {
    forall i, j :: 0 <= i < j < |rows| ==> rows[i].id < rows[j].id
  }

  predicate Lower(a: Row, b: Row) {
    a.id < b.id
  }

  lemma FilterStrict(rows: seq<Row>, p: Row -> bool)
    requires StrictlyBy(rows)
    ensures StrictlyBy(Filter(rows, p))
  {
    hide Filter;
    FilterSorted(rows, Lower, p);
    assert forall i, j :: 0 <= i < j < |Filter(rows, p)| ==> Lower(Filter(rows, p)[i], Filter(rows, p)[j]);
  }

  /** Reading on from the id of the k-th remaining row drops exactly the first k of them. */
  lemma NextBatch(rows: seq<Row>, last: int, k: nat)
    requires Ascending(rows) && 0 < k <= |Filter(rows, OpenAfter(last))|
    ensures var rest := Filter(rows, OpenAfter(last));
            rest[k - 1].id > last && Filter(rows, OpenAfter(rest[k - 1].id)) == rest[k..]
  {
    hide Filter;
    var rest := Filter(rows, OpenAfter(last));
    FilterStrict(rows, OpenAfter(last));
    FilterMembers(rows, OpenAfter(last));
    assert rest[k - 1] in rest;
    var high := rest[k - 1].id;
    FilterImplied(rows, OpenAfter(last), OpenAfter(high));
    assert rest == rest[..k] + rest[k..];
    forall x | x in rest[..k] ensures !OpenAfter(high)(x) {
      var m :| 0 <= m < k && rest[m] == x;
      assert m == k - 1 || rest[m].id < rest[k - 1].id;
    }
    FilterNone(rest[..k], OpenAfter(high));
    FilterAppend(rest[..k], rest[k..], OpenAfter(high));
    forall x | x in rest[k..] ensures OpenAfter(high)(x) {
      var m :| 0 <= m < |rest| - k && rest[k..][m] == x;
      assert rest[k - 1].id < rest[k + m].id;
      assert rest[k + m] in rest;
    }
    FilterAll(rest[k..], OpenAfter(high));
  }

  /** What the scan answers: unknown as soon as one reserving row is damaged. */
  ghost function OpenRiskOf(rows: seq<Row>): OpenRisk {
    if AnyDamaged(rows) then Unknown else Dollars(RoundCents(Reserved(rows)))
  }

  lemma ClosedCountsNothing(r: Row)
    requires !r.isOpen
    ensures Part(r) == 0.0 && !Damaged(r)
  {
  }

  lemma {:induction false} ReservedFilter(rows: seq<Row>)
    requires forall i :: 0 <= i < |rows| ==> rows[i].id > 0
    ensures Reserved(Filter(rows, OpenAfter(0))) == Reserved(rows)
    ensures AnyDamaged(Filter(rows, OpenAfter(0))) <==> AnyDamaged(rows)
  {
    hide Reserved, AnyDamaged, Filter, Part, Damaged;
    if rows == [] {
      NothingKept();
    } else {
      var n := |rows| - 1;
      assert rows == rows[..n] + [rows[n]];
      ReservedFilter(rows[..n]);
      FilterSnoc(rows[..n], rows[n], OpenAfter(0));
      var f := Filter(rows[..n], OpenAfter(0));
      assert f + [] == f;
      DamagedSnoc(f, rows[n]);
      DamagedSnoc(rows[..n], rows[n]);
      if !rows[n].isOpen {
        ClosedCountsNothing(rows[n]);
      }
    }
  }

  lemma NothingKept()
    ensures Filter([], OpenAfter(0)) == []
  {
  }

  lemma DamagedSnoc(rows: seq<Row>, r: Row)
    ensures AnyDamaged(rows + [r]) <==> AnyDamaged(rows) || Damaged(r)
    ensures Reserved(rows + [r]) == Reserved(rows) + Part(r)
  {
    var all := rows + [r];
    assert all[..|rows|] == rows && all[|rows|] == r;
    if AnyDamaged(rows) {
      var i :| 0 <= i < |rows| && Damaged(rows[i]);
      assert Damaged(all[i]);
    }
    if Damaged(r) {
      assert Damaged(all[|rows|]);
    }
  }

  /** aggregate_open_planned_risk: nested loops over the batches, left at the first damaged row. */
  method AggregateOpenPlannedRisk(rows: seq<Row>, limit: nat) returns (r: OpenRisk)
    requires Ascending(rows) && limit > 0
    ensures r == OpenRiskOf(rows)
  {
    hide Reserved, Filter, Reserves, RoundCents;
    var total, last := 0.0, 0;
    ghost var all := Filter(rows, OpenAfter(0));
    ghost var done := 0;
    ReservedFilter(rows);
    ReservedNone();
    while true
      invariant 0 <= done <= |all|
      invariant Filter(rows, OpenAfter(last)) == all[done..]
      invariant total == Reserved(all[..done]) && !AnyDamaged(all[..done])
      decreases |all| - done
    {
      var batch := Batch(rows, last, limit);
      if batch == [] {
        break;
      }
      for i := 0 to |batch|
        invariant total == Reserved(all[..done + i]) && !AnyDamaged(all[..done + i])
        invariant i > 0 ==> last == all[done + i - 1].id
      {
        var setup := batch[i];
        assert setup == all[done + i];
        assert all[..done + i + 1] == all[..done + i] + [setup];
        DamagedSnoc(all[..done + i], setup);
        last := setup.id;
        if !Reserves(setup) {
          assert Part(setup) == 0.0;
          continue;
        }
        if !setup.risk.Number? || setup.risk.value < 0.0 {
          assert Damaged(all[done + i]);
          return Unknown;
        }
        total := total + setup.risk.value;
      }
      NextBatchOf(rows, all, done, |batch|, last);
      done := done + |batch|;
    }
    assert all[..done] == all;
    r := Dollars(RoundCents(total));
  }

  lemma ReservedNone()
    ensures Reserved([]) == 0.0
  {
  }

  lemma NextBatchOf(rows: seq<Row>, all: seq<Row>, done: nat, k: nat, last: int)
    requires Ascending(rows) && all == Filter(rows, OpenAfter(0)) && 0 < k && done + k <= |all|
    requires last == all[done + k - 1].id
    ensures Filter(rows, OpenAfter(last)) == all[done + k..]
  {
    NextBatch(rows, 0, done + k);
  }

  // ----- runs of scans -----

  datatype Step =
    | Scan(ask: real, invalidation: Option<real>, target: Option<real>)  // an ACTIVE row through the policy
    | Observe(counterfactual: bool, risk: RiskField)                     // a COUNTERFACTUAL or a non-V1 row
    | Resolve(index: nat)                                                // a row leaves OPEN
    | Damage(index: nat, risk: RiskField)                                // a row's risk field is lost

  function NextId(rows: seq<Row>): int {
    if rows == [] then 1 else rows[|rows| - 1].id + 1
  }

  ghost function Apply(rows: seq<Row>, step: Step): seq<Row> {
    match step
    case Scan(ask, invalidation, target) =>
      var booking := BookContract(ask, invalidation, target, OpenRiskOf(rows));
      if booking.Booked?
      then rows + [Row(NextId(rows), true, true, false, None, Number(booking.plannedRisk))]
      else rows
    case Observe(counterfactual, risk) =>
      rows + [Row(NextId(rows), true, counterfactual, counterfactual, None, risk)]
    case Resolve(index) =>
      if index < |rows| then rows[index := rows[index].(isOpen := false)] else rows
    case Damage(index, risk) =>
      if index < |rows| && !SoundRisk(risk) then rows[index := rows[index].(risk := risk)] else rows
  }

  ghost function Runs(steps: seq<Step>): seq<Row> {
    if steps == [] then [] else Apply(Runs(steps[..|steps| - 1]), steps[|steps| - 1])
  }

  /** Every row that still reserves budget is damaged or carries a risk in (0, 300], and the sound
      ones together stay within 1000. */
  ghost predicate WithinCaps(rows: seq<Row>) {
    && Ascending(rows)
    && (forall i :: 0 <= i < |rows| && Reserves(rows[i]) && !Damaged(rows[i]) ==>
          0.0 < rows[i].risk.value <= MAX_TRADE_RISK && WholeCents(rows[i].risk.value))
    && Reserved(rows) <= MAX_AGGREGATE_RISK
  }

  lemma {:induction false} ReservedUpdate(rows: seq<Row>, i: nat, r: Row)
    requires i < |rows|
    ensures Reserved(rows[i := r]) == Reserved(rows) - Part(rows[i]) + Part(r)
  {
    var n := |rows| - 1;
    if i < n {
      ReservedUpdate(rows[..n], i, r);
      assert rows[i := r][..n] == rows[..n][i := r];
    } else {
      assert rows[i := r][..n] == rows[..n];
    }
  }

  lemma {:induction false} ReservedWhole(rows: seq<Row>)
    requires forall i :: 0 <= i < |rows| && Reserves(rows[i]) && !Damaged(rows[i]) ==> WholeCents(rows[i].risk.value)
    ensures WholeCents(Reserved(rows)) && Reserved(rows) >= 0.0
  {
    hide WholeCents;
    ZeroIsWhole();
    if rows != [] {
      var n := |rows| - 1;
      ReservedWhole(rows[..n]);
      WholeSum(Reserved(rows[..n]), Part(rows[n]));
    }
  }

  lemma ZeroIsWhole()
    ensures WholeCents(0.0)
  {
  }

  lemma AppendKeepsCaps(rows: seq<Row>, r: Row)
    requires WithinCaps(rows) && r.id == NextId(rows) && Reserved(rows) + Part(r) <= MAX_AGGREGATE_RISK
    requires Reserves(r) && !Damaged(r) ==> 0.0 < r.risk.value <= MAX_TRADE_RISK && WholeCents(r.risk.value)
    ensures WithinCaps(rows + [r])
  {
    hide WholeCents, Reserved, Reserves;
    DamagedSnoc(rows, r);
  }

  lemma ReplaceKeepsCaps(rows: seq<Row>, i: nat, r: Row)
    requires WithinCaps(rows) && i < |rows| && r.id == rows[i].id && Part(r) <= Part(rows[i])
    requires Reserves(r) && !Damaged(r) ==> Reserves(rows[i]) && r.risk == rows[i].risk
    ensures WithinCaps(rows[i := r])
  {
    hide WholeCents, Reserved, Reserves;
    ReservedUpdate(rows, i, r);
  }

  lemma ScanKeepsCaps(rows: seq<Row>, ask: real, invalidation: Option<real>, target: Option<real>)
    requires WithinCaps(rows)
    ensures WithinCaps(Apply(rows, Scan(ask, invalidation, target)))
  {
    hide RoundCents, WholeCents, PlannedRisk, Reserved;
    var booking := BookContract(ask, invalidation, target, OpenRiskOf(rows));
    if booking.Booked? {
      ReservedWhole(rows);
      RiskIsQuarterPremium(ask);
      RoundWhole(Reserved(rows));
      WholeSum(Reserved(rows), booking.plannedRisk);
      RoundWhole(Reserved(rows) + booking.plannedRisk);
      AppendKeepsCaps(rows, Row(NextId(rows), true, true, false, None, Number(booking.plannedRisk)));
    }
  }

  lemma PartBounds(r: Row)
    ensures Part(r) >= 0.0 && (!Reserves(r) || Damaged(r) ==> Part(r) == 0.0)
  {
  }

  lemma StepKeepsCaps(rows: seq<Row>, step: Step)
    requires WithinCaps(rows)
    ensures WithinCaps(Apply(rows, step))
  {
    hide WithinCaps, BookContract, Part;
    match step {
      case Scan(ask, invalidation, target) =>
        ScanKeepsCaps(rows, ask, invalidation, target);
      case Observe(counterfactual, risk) =>
        var r := Row(NextId(rows), true, counterfactual, counterfactual, None, risk);
        PartBounds(r);
        AggregateBound(rows);
        AppendKeepsCaps(rows, r);
      case Resolve(index) =>
        if index < |rows| {
          PartBounds(rows[index]);
          PartBounds(rows[index].(isOpen := false));
          ReplaceKeepsCaps(rows, index, rows[index].(isOpen := false));
        }
      case Damage(index, risk) =>
        if index < |rows| && !SoundRisk(risk) {
          PartBounds(rows[index]);
          PartBounds(rows[index].(risk := risk));
          ReplaceKeepsCaps(rows, index, rows[index].(risk := risk));
        }
    }
  }

  lemma AggregateBound(rows: seq<Row>)
    requires WithinCaps(rows)
    ensures Reserved(rows) <= MAX_AGGREGATE_RISK
  {
  }

  /** Over every run of scans, resolutions, observer rows and damage, the caps hold. */
  lemma {:induction false} RunsStayWithinCaps(steps: seq<Step>)
    ensures WithinCaps(Runs(steps))
  {
    if steps != [] {
      RunsStayWithinCaps(steps[..|steps| - 1]);
      StepKeepsCaps(Runs(steps[..|steps| - 1]), steps[|steps| - 1]);
    }
  }

  /** A scan opens a row exactly when no damaged row is open, both levels are known, its own risk
      is in (0, 300] and the total stays within 1000. */
  lemma OpensExactlyWithinCaps(rows: seq<Row>, ask: real, invalidation: Option<real>, target: Option<real>)
    requires WithinCaps(rows)
    ensures Apply(rows, Scan(ask, invalidation, target)) != rows <==>
            && !AnyDamaged(rows) && invalidation.Some? && target.Some?
            && 0.0 < PlannedRisk(ask) <= MAX_TRADE_RISK && Reserved(rows) + PlannedRisk(ask) <= MAX_AGGREGATE_RISK
  {
    hide RoundCents, WholeCents, PlannedRisk;
    ReservedWhole(rows);
    RiskIsQuarterPremium(ask);
    RoundWhole(Reserved(rows));
    WholeSum(Reserved(rows), PlannedRisk(ask));
    RoundWhole(Reserved(rows) + PlannedRisk(ask));
  }

  /** While a damaged row stays OPEN, no ACTIVE row is opened, whatever else happens. */
  lemma {:induction false} DamageFreezesScans(rows: seq<Row>, steps: seq<Step>, j: nat)
    requires j < |rows| && Damaged(rows[j])
    requires forall k :: 0 <= k < |steps| ==> steps[k] != Resolve(j)
    ensures var after := RunFrom(rows, steps);
            && j < |after| && Damaged(after[j])
            && forall m :: |rows| <= m < |after| ==> !Reserves(after[m])
  {
    if steps != [] {
      var n := |steps| - 1;
      DamageFreezesScans(rows, steps[..n], j);
      var before := RunFrom(rows, steps[..n]);
      assert AnyDamaged(before);
      assert steps[n] != Resolve(j);
      RunFromGrows(rows, steps[..n]);
    }
  }

  ghost function RunFrom(rows: seq<Row>, steps: seq<Step>): seq<Row> {
    if steps == [] then rows else Apply(RunFrom(rows, steps[..|steps| - 1]), steps[|steps| - 1])
  }

  lemma {:induction false} RunFromGrows(rows: seq<Row>, steps: seq<Step>)
    ensures |RunFrom(rows, steps)| >= |rows|
  {
    if steps != [] {
      RunFromGrows(rows, steps[..|steps| - 1]);
    }
  }
}
