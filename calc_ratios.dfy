/** v_financial_ratios (src/calc.py): every report of v_value_augmented is
    crossed with ratio_requirements, LEFT JOINed to the augmented value of
    each requirement's key, and aggregated per (report, ratio key). */
module CalcRatios {
  import opened Common
  import opened Tables
  import opened CalcKeys
  import opened CalcRequirements
  import opened CalcResolve
  import opened CalcAugment

  /** A row of the grid CTE. */
  datatype GridRow = GridRow(report: ReportKey, req: RatioReq, value: Option<real>)

  /** A row of v_financial_ratios (ratio_ko is not kept). */
  datatype FinancialRatio = FinancialRatio(
    report: ReportKey, ratioKey: RatioKey, ratioValue: Option<real>,
    numerator: real, denominator: real, isComplete: bool)

  // ---------------------------------------------------------------
  // grid
  // ---------------------------------------------------------------

  function GridRows(rep: ReportKey, r: RatioReq, ms: seq<ValueRow>): seq<GridRow> {
    if ms == [] then [] else [GridRow(rep, r, ms[0].valueWon)] + GridRows(rep, r, ms[1..])
  }

  /** The LEFT JOIN of one (report, requirement) pair: one grid row per
      augmented row of the slot, or a single NULL row when there is none. */
  function JoinReq(aug: seq<ValueRow>, rep: ReportKey, r: RatioReq): seq<GridRow> {
    var ms := SlotRows(aug, rep, r.itemKey);
    if ms == [] then [GridRow(rep, r, None)] else GridRows(rep, r, ms)
  }

  /** The grid rows of one report. */
  function GridFor(aug: seq<ValueRow>, rep: ReportKey, reqs: seq<RatioReq>): seq<GridRow> {
    if reqs == [] then [] else JoinReq(aug, rep, reqs[0]) + GridFor(aug, rep, reqs[1..])
  }

  function GridAll(aug: seq<ValueRow>, reps: seq<ReportKey>, reqs: seq<RatioReq>): seq<GridRow> {
    if reps == [] then [] else GridFor(aug, reps[0], reqs) + GridAll(aug, reps[1..], reqs)
  }

  /** base × req, LEFT JOINed to v_value_augmented. */
  function Grid(aug: seq<ValueRow>, reqs: seq<RatioReq>): seq<GridRow> {
    GridAll(aug, AugReports(aug), reqs)
  }

  datatype RatioSlot = RatioSlot(report: ReportKey, ratioKey: RatioKey)

  function GridKey(g: GridRow): RatioSlot { RatioSlot(g.report, g.req.ratioKey) }

  // ---------------------------------------------------------------
  // agg
  // ---------------------------------------------------------------

  /** `COALESCE(SUM(CASE WHEN role = … THEN value_won END), 0)`: the sum of
      the non-NULL values in that role. */
  function RoleSum(rows: seq<GridRow>, role: Role): real {
    if rows == [] then 0.0 else RoleValue(rows[0], role) + RoleSum(rows[1..], role)
  }

  /** `CASE WHEN role = … THEN value_won END`, a NULL counting as 0 in the sum. */
  function RoleValue(g: GridRow, role: Role): real {
    if g.req.role == role && g.value.Some? then g.value.value else 0.0
  }

  /** required_cnt. */
  function RequiredCount(rows: seq<GridRow>): nat {
    if rows == [] then 0 else (if rows[0].req.required then 1 else 0) + RequiredCount(rows[1..])
  }

  /** required_hit. */
  function RequiredHit(rows: seq<GridRow>): nat {
    if rows == [] then 0
    else (if rows[0].req.required && rows[0].value.Some? then 1 else 0) + RequiredHit(rows[1..])
  }

  /** One output row from the grid rows of its group. */
  function Aggregate(key: RatioSlot, rows: seq<GridRow>): FinancialRatio {
    var num := RoleSum(rows, Numerator) + RoleSum(rows, Add) - RoleSum(rows, Subtract);
    var den := RoleSum(rows, Denominator);
    var complete := RequiredCount(rows) == RequiredHit(rows);
    FinancialRatio(key.report, key.ratioKey,
      if complete && den != 0.0 then Some(num / den) else None,
      num, den, complete)
  }

  function AggregateAll(grid: seq<GridRow>, keys: seq<RatioSlot>): seq<FinancialRatio> {
    if keys == [] then [] else [Aggregate(keys[0], GroupOf(grid, GridKey, keys[0]))] + AggregateAll(grid, keys[1..])
  }

  /** v_financial_ratios: GROUP BY corp_code, bsns_year, report_id, ratio_key. */
  function FinancialRatios(aug: seq<ValueRow>, reqs: seq<RatioReq>): seq<FinancialRatio> {
    var grid := Grid(aug, reqs);
    AggregateAll(grid, GroupKeys(grid, GridKey))
  }

  /** The requirements of one ratio, in table order. */
  function ReqsOf(reqs: seq<RatioReq>, k: RatioKey): seq<RatioReq> {
    Where(reqs, (r: RatioReq) => r.ratioKey == k)
  }

  // ---------------------------------------------------------------
  // properties of the aggregate
  // ---------------------------------------------------------------

  lemma {:induction false} RequiredHitSpec(rows: seq<GridRow>)
    ensures RequiredHit(rows) <= RequiredCount(rows)
    ensures RequiredHit(rows) == RequiredCount(rows) <==>
      forall g :: g in rows && g.req.required ==> g.value.Some?
  {
    if rows != [] {
      RequiredHitSpec(rows[1..]);
      assert rows == [rows[0]] + rows[1..];
    }
  }

  /** A ratio exists exactly when every required input is present and the
      denominator is not 0, and then it is numerator / denominator. */
  lemma AggregateSpec(key: RatioSlot, rows: seq<GridRow>)
    ensures var f := Aggregate(key, rows);
      f.report == key.report && f.ratioKey == key.ratioKey &&
      (f.isComplete <==> forall g :: g in rows && g.req.required ==> g.value.Some?) &&
      (f.ratioValue.Some? <==> f.isComplete && f.denominator != 0.0) &&
      (f.ratioValue.Some? ==> f.ratioValue.value * f.denominator == f.numerator)
  {
    RequiredHitSpec(rows);
    var f := Aggregate(key, rows);
    if f.ratioValue.Some? {
      assert f.numerator / f.denominator * f.denominator == f.numerator;
    }
  }

  /** A role sum over a concatenation is the sum of the parts. */
  lemma {:induction false} RoleSumAppend(a: seq<GridRow>, b: seq<GridRow>, role: Role)
    ensures RoleSum(a + b, role) == RoleSum(a, role) + RoleSum(b, role)
  {
    if a == [] {
      assert a + b == b;
    } else {
      assert (a + b)[0] == a[0];
      assert (a + b)[1..] == a[1..] + b;
      RoleSumAppend(a[1..], b, role);
    }
  }

  // ---------------------------------------------------------------
  // the grid
  // ---------------------------------------------------------------

  lemma {:induction false} GridRowsSpec(rep: ReportKey, r: RatioReq, ms: seq<ValueRow>)
    ensures |GridRows(rep, r, ms)| == |ms|
    ensures forall i :: 0 <= i < |ms| ==> GridRows(rep, r, ms)[i] == GridRow(rep, r, ms[i].valueWon)
  {
    if ms != [] {
      GridRowsSpec(rep, r, ms[1..]);
    }
  }

  lemma JoinReqRows(aug: seq<ValueRow>, rep: ReportKey, r: RatioReq)
    ensures JoinReq(aug, rep, r) != []
    ensures forall g :: g in JoinReq(aug, rep, r) ==> g.report == rep && g.req == r
  {
    var ms := SlotRows(aug, rep, r.itemKey);
    if ms != [] {
      GridRowsSpec(rep, r, ms);
      forall g | g in JoinReq(aug, rep, r) ensures g.report == rep && g.req == r {
        var i :| 0 <= i < |ms| && GridRows(rep, r, ms)[i] == g;
      }
    }
  }

  lemma {:induction false} GridForRows(aug: seq<ValueRow>, rep: ReportKey, reqs: seq<RatioReq>)
    ensures forall g :: g in GridFor(aug, rep, reqs) ==> g.report == rep && g.req in reqs
    ensures forall r :: r in reqs ==> exists g :: g in GridFor(aug, rep, reqs) && g.req == r
  {
    if reqs != [] {
      GridForRows(aug, rep, reqs[1..]);
      JoinReqRows(aug, rep, reqs[0]);
      var j := JoinReq(aug, rep, reqs[0]);
      assert j[0] in j;
      assert reqs == [reqs[0]] + reqs[1..];
    }
  }

  /** The group of ratio k within one report's grid is the grid of k's
      requirements. */
  lemma {:induction false} GridForGroup(aug: seq<ValueRow>, rep: ReportKey, reqs: seq<RatioReq>, k: RatioKey)
    ensures GroupOf(GridFor(aug, rep, reqs), GridKey, RatioSlot(rep, k)) == GridFor(aug, rep, ReqsOf(reqs, k))
  {
    if reqs != [] {
      var j := JoinReq(aug, rep, reqs[0]);
      GroupOfAppend(j, GridFor(aug, rep, reqs[1..]), GridKey, RatioSlot(rep, k));
      GridForGroup(aug, rep, reqs[1..], k);
      JoinReqRows(aug, rep, reqs[0]);
      WhereSpec(reqs, (r: RatioReq) => r.ratioKey == k);
      if reqs[0].ratioKey == k {
        GroupOfAll(j, GridKey, RatioSlot(rep, k));
        assert ReqsOf(reqs, k) == [reqs[0]] + ReqsOf(reqs[1..], k);
      } else {
        GroupOfNone(j, GridKey, RatioSlot(rep, k));
        assert ReqsOf(reqs, k) == ReqsOf(reqs[1..], k) by {
          assert ReqsOf(reqs, k) == [] + ReqsOf(reqs[1..], k);
        }
        assert GridFor(aug, rep, reqs) == j + GridFor(aug, rep, reqs[1..]);
        assert GroupOf(GridFor(aug, rep, reqs), GridKey, RatioSlot(rep, k)) == [] + GridFor(aug, rep, ReqsOf(reqs[1..], k));
      }
    }
  }

  /** Over distinct reports, the group of (rep, k) is rep's grid of k. */
  lemma {:induction false} GridAllGroup(aug: seq<ValueRow>, reps: seq<ReportKey>, reqs: seq<RatioReq>, rep: ReportKey, k: RatioKey)
    requires NoDup(reps) && rep in reps
    ensures GroupOf(GridAll(aug, reps, reqs), GridKey, RatioSlot(rep, k)) == GridFor(aug, rep, ReqsOf(reqs, k))
  {
    var head := GridFor(aug, reps[0], reqs);
    var rest := reps[1..];
    GroupOfAppend(head, GridAll(aug, rest, reqs), GridKey, RatioSlot(rep, k));
    assert NoDup(rest) by {
      forall i, j | 0 <= i < j < |rest| ensures rest[i] != rest[j] {
        assert rest[i] == reps[i + 1] && rest[j] == reps[j + 1];
      }
    }
    if reps[0] == rep {
      GridForGroup(aug, rep, reqs, k);
      forall i | 0 <= i < |rest| ensures rest[i] != rep {
        assert rest[i] == reps[i + 1];
      }
      GridAllAbsent(aug, rest, reqs, rep, k);
    } else {
      GridForRows(aug, reps[0], reqs);
      GroupOfNone(head, GridKey, RatioSlot(rep, k));
      assert rep in rest;
      GridAllGroup(aug, rest, reqs, rep, k);
    }
  }

  lemma {:induction false} GridAllAbsent(aug: seq<ValueRow>, reps: seq<ReportKey>, reqs: seq<RatioReq>, rep: ReportKey, k: RatioKey)
    requires rep !in reps
    ensures GroupOf(GridAll(aug, reps, reqs), GridKey, RatioSlot(rep, k)) == []
  {
    if reps != [] {
      GroupOfAppend(GridFor(aug, reps[0], reqs), GridAll(aug, reps[1..], reqs), GridKey, RatioSlot(rep, k));
      GridForRows(aug, reps[0], reqs);
      GroupOfNone(GridFor(aug, reps[0], reqs), GridKey, RatioSlot(rep, k));
      GridAllAbsent(aug, reps[1..], reqs, rep, k);
    }
  }

  lemma {:induction false} GridAllRows(aug: seq<ValueRow>, reps: seq<ReportKey>, reqs: seq<RatioReq>)
    ensures forall g :: g in GridAll(aug, reps, reqs) ==> g.report in reps && g.req in reqs
    ensures forall rep, r :: rep in reps && r in reqs ==>
      exists g :: g in GridAll(aug, reps, reqs) && g.report == rep && g.req == r
  {
    if reps != [] {
      GridAllRows(aug, reps[1..], reqs);
      GridForRows(aug, reps[0], reqs);
      assert reps == [reps[0]] + reps[1..];
    }
  }

  // ---------------------------------------------------------------
  // properties of the view
  // ---------------------------------------------------------------

  lemma {:induction false} AggregateAllSpec(grid: seq<GridRow>, keys: seq<RatioSlot>)
    ensures |AggregateAll(grid, keys)| == |keys|
    ensures forall i :: 0 <= i < |keys| ==> AggregateAll(grid, keys)[i] == Aggregate(keys[i], GroupOf(grid, GridKey, keys[i]))
  {
    if keys != [] {
      AggregateAllSpec(grid, keys[1..]);
    }
  }

  function RatioSlotOf(f: FinancialRatio): RatioSlot { RatioSlot(f.report, f.ratioKey) }

  /** The output row of a group carries that group's key. */
  lemma FinancialRatiosKeys(aug: seq<ValueRow>, reqs: seq<RatioReq>)
    ensures |FinancialRatios(aug, reqs)| == |GroupKeys(Grid(aug, reqs), GridKey)|
    ensures forall i :: 0 <= i < |FinancialRatios(aug, reqs)| ==>
      RatioSlotOf(FinancialRatios(aug, reqs)[i]) == GroupKeys(Grid(aug, reqs), GridKey)[i]
  {
    var grid := Grid(aug, reqs);
    AggregateAllSpec(grid, GroupKeys(grid, GridKey));
  }

  /** One row per (report, ratio key). */
  lemma FinancialRatiosUnique(aug: seq<ValueRow>, reqs: seq<RatioReq>)
    ensures forall i, j :: 0 <= i < j < |FinancialRatios(aug, reqs)| ==>
      RatioSlotOf(FinancialRatios(aug, reqs)[i]) != RatioSlotOf(FinancialRatios(aug, reqs)[j])
  {
    FinancialRatiosKeys(aug, reqs);
    GroupKeysDistinct(Grid(aug, reqs), GridKey);
  }

  /** Every output row belongs to a report of v_value_augmented and a ratio
      having requirements. */
  lemma FinancialRatiosFrom(aug: seq<ValueRow>, reqs: seq<RatioReq>, i: nat)
    requires i < |FinancialRatios(aug, reqs)|
    ensures (exists v :: v in aug && v.report == FinancialRatios(aug, reqs)[i].report)
    ensures exists r :: r in reqs && r.ratioKey == FinancialRatios(aug, reqs)[i].ratioKey
  {
    var grid := Grid(aug, reqs);
    var keys := GroupKeys(grid, GridKey);
    FinancialRatiosKeys(aug, reqs);
    GroupKeysDistinct(grid, GridKey);
    assert keys[i] in keys;
    var q :| 0 <= q < |grid| && GridKey(grid[q]) == keys[i];
    assert grid[q] in grid;
    GridAllRows(aug, AugReports(aug), reqs);
    AugReportsSpec(aug, keys[i].report);
  }

  /** There is a row for every report of v_value_augmented and every ratio
      having requirements. */
  lemma FinancialRatiosCover(aug: seq<ValueRow>, reqs: seq<RatioReq>, v: ValueRow, r: RatioReq)
    requires v in aug && r in reqs
    ensures exists i :: 0 <= i < |FinancialRatios(aug, reqs)| && RatioSlotOf(FinancialRatios(aug, reqs)[i]) == RatioSlot(v.report, r.ratioKey)
  {
    var grid := Grid(aug, reqs);
    var keys := GroupKeys(grid, GridKey);
    FinancialRatiosKeys(aug, reqs);
    GroupKeysDistinct(grid, GridKey);
    AugReportsSpec(aug, v.report);
    GridAllRows(aug, AugReports(aug), reqs);
    var g :| g in grid && g.report == v.report && g.req == r;
    var q :| 0 <= q < |grid| && grid[q] == g;
    assert RatioSlot(v.report, r.ratioKey) in keys;
    var i :| 0 <= i < |keys| && keys[i] == RatioSlot(v.report, r.ratioKey);
    assert RatioSlotOf(FinancialRatios(aug, reqs)[i]) == RatioSlot(v.report, r.ratioKey);
  }

  /** Each output row aggregates exactly its own report's grid rows of the
      requirements of its ratio. */
  lemma FinancialRatiosRow(aug: seq<ValueRow>, reqs: seq<RatioReq>, i: nat)
    requires i < |FinancialRatios(aug, reqs)|
    ensures var f := FinancialRatios(aug, reqs)[i];
      f == Aggregate(RatioSlot(f.report, f.ratioKey), GridFor(aug, f.report, ReqsOf(reqs, f.ratioKey)))
  {
    var grid := Grid(aug, reqs);
    var keys := GroupKeys(grid, GridKey);
    AggregateAllSpec(grid, keys);
    GroupKeysDistinct(grid, GridKey);
    var key := keys[i];
    assert key in keys;
    var q :| 0 <= q < |grid| && GridKey(grid[q]) == key;
    assert grid[q] in grid;
    GridAllRows(aug, AugReports(aug), reqs);
    DistinctSpec(MapSeq(aug, RowReport));
    GridAllGroup(aug, AugReports(aug), reqs, key.report, key.ratioKey);
  }

  // ---------------------------------------------------------------
  // over a v_value_augmented with one row per (report, key)
  // ---------------------------------------------------------------

  /** At most one row per (report, key), as v_value_augmented guarantees. */
  predicate SlotUnique(aug: seq<ValueRow>) {
    forall i, j :: 0 <= i < j < |aug| ==> RowSlot(aug[i]) != RowSlot(aug[j])
  }

  lemma AugmentedSlotUnique(resolved: seq<ValueRow>)
    ensures SlotUnique(ValueAugmented(resolved))
  {
    ValueAugmentedUnique(resolved);
  }

  /** The augmented value of a slot: that of its row, or NULL. */
  function AugValue(aug: seq<ValueRow>, rep: ReportKey, key: StdKey): Option<real> {
    var ms := SlotRows(aug, rep, key);
    if ms == [] then None else ms[0].valueWon
  }

  lemma {:induction false} SlotRowsAtMostOne(aug: seq<ValueRow>, rep: ReportKey, key: StdKey)
    requires SlotUnique(aug)
    ensures |SlotRows(aug, rep, key)| <= 1
  {
    if aug != [] {
      var rest := aug[1..];
      assert SlotUnique(rest) by {
        forall i, j | 0 <= i < j < |rest| ensures RowSlot(rest[i]) != RowSlot(rest[j]) {
          assert rest[i] == aug[i + 1] && rest[j] == aug[j + 1];
        }
      }
      if aug[0].report == rep && aug[0].stdKey == key {
        forall v | v in rest ensures !(v.report == rep && v.stdKey == key) {
          var j :| 0 <= j < |rest| && rest[j] == v;
          assert aug[j + 1] == v;
        }
        WhereNone(rest, (r: ValueRow) => r.report == rep && r.stdKey == key);
      } else {
        SlotRowsAtMostOne(rest, rep, key);
      }
    }
  }

  /** Each requirement then contributes one grid row carrying its slot's value. */
  lemma JoinReqUnique(aug: seq<ValueRow>, rep: ReportKey, r: RatioReq)
    requires SlotUnique(aug)
    ensures JoinReq(aug, rep, r) == [GridRow(rep, r, AugValue(aug, rep, r.itemKey))]
  {
    SlotRowsAtMostOne(aug, rep, r.itemKey);
    var ms := SlotRows(aug, rep, r.itemKey);
    if ms != [] {
      GridRowsSpec(rep, r, ms);
    }
  }

  lemma {:induction false} GridForUnique(aug: seq<ValueRow>, rep: ReportKey, qs: seq<RatioReq>)
    requires SlotUnique(aug)
    ensures |GridFor(aug, rep, qs)| == |qs|
    ensures forall i :: 0 <= i < |qs| ==> GridFor(aug, rep, qs)[i] == GridRow(rep, qs[i], AugValue(aug, rep, qs[i].itemKey))
  {
    if qs != [] {
      JoinReqUnique(aug, rep, qs[0]);
      GridForUnique(aug, rep, qs[1..]);
    }
  }

  /** A ratio is complete iff every required input of it has a value. */
  lemma RatioComplete(aug: seq<ValueRow>, reqs: seq<RatioReq>, i: nat)
    requires SlotUnique(aug)
    requires i < |FinancialRatios(aug, reqs)|
    ensures var f := FinancialRatios(aug, reqs)[i];
      f.isComplete <==> forall r :: r in reqs && r.ratioKey == f.ratioKey && r.required ==> AugValue(aug, f.report, r.itemKey).Some?
  {
    var f := FinancialRatios(aug, reqs)[i];
    var qs := ReqsOf(reqs, f.ratioKey);
    var rows := GridFor(aug, f.report, qs);
    FinancialRatiosRow(aug, reqs, i);
    AggregateSpec(RatioSlot(f.report, f.ratioKey), rows);
    GridForUnique(aug, f.report, qs);
    WhereSpec(reqs, (r: RatioReq) => r.ratioKey == f.ratioKey);
    forall r | r in reqs && r.ratioKey == f.ratioKey && r.required && f.isComplete
      ensures AugValue(aug, f.report, r.itemKey).Some?
    {
      var q :| 0 <= q < |qs| && qs[q] == r;
      assert rows[q] in rows;
    }
    if forall r :: r in reqs && r.ratioKey == f.ratioKey && r.required ==> AugValue(aug, f.report, r.itemKey).Some? {
      forall g | g in rows && g.req.required ensures g.value.Some? {
        var q :| 0 <= q < |rows| && rows[q] == g;
        assert qs[q] in qs;
      }
    }
  }

  /** Two requirements, a required numerator and a required denominator:
      the ratio is their quotient whenever the denominator is not 0. */
  lemma TwoTermRatio(aug: seq<ValueRow>, rep: ReportKey, k: RatioKey, n: StdKey, d: StdKey, x: real, y: real)
    requires SlotUnique(aug)
    requires AugValue(aug, rep, n) == Some(x) && AugValue(aug, rep, d) == Some(y) && y != 0.0
    ensures Aggregate(RatioSlot(rep, k), GridFor(aug, rep, [RatioReq(k, n, Numerator, true), RatioReq(k, d, Denominator, true)])) ==
      FinancialRatio(rep, k, Some(x / y), x, y, true)
  {
    var qs := [RatioReq(k, n, Numerator, true), RatioReq(k, d, Denominator, true)];
    GridForUnique(aug, rep, qs);
    var rows := GridFor(aug, rep, qs);
    var a, b := GridRow(rep, qs[0], Some(x)), GridRow(rep, qs[1], Some(y));
    assert rows == [a, b];
    PairSums(a, b);
  }

  lemma PairSums(a: GridRow, b: GridRow)
    ensures forall role :: RoleSum([a, b], role) == RoleValue(a, role) + RoleValue(b, role)
    ensures RequiredCount([a, b]) == (if a.req.required then 1 else 0) + (if b.req.required then 1 else 0)
    ensures RequiredHit([a, b]) ==
      (if a.req.required && a.value.Some? then 1 else 0) + (if b.req.required && b.value.Some? then 1 else 0)
  {
    assert [a, b][1..] == [b];
    assert [b][1..] == [];
    forall role ensures RoleSum([a, b], role) == RoleValue(a, role) + RoleValue(b, role) {
      assert RoleSum([b], role) == RoleValue(b, role) + RoleSum([], role);
    }
    assert RequiredCount([b]) == (if b.req.required then 1 else 0) + RequiredCount([]);
    assert RequiredHit([b]) == (if b.req.required && b.value.Some? then 1 else 0) + RequiredHit([]);
  }

  /** The shape of the shipped table as far as current_ratio is concerned:
      its two requirements come first and no later row belongs to it. */
  predicate CurrentRatioFirst(reqs: seq<RatioReq>) {
    |reqs| >= 2 &&
    reqs[0] == RatioReq(current_ratio, CURRENT_ASSETS, Numerator, true) &&
    reqs[1] == RatioReq(current_ratio, CURRENT_LIABILITIES, Denominator, true) &&
    forall i :: 2 <= i < |reqs| ==> reqs[i].ratioKey != current_ratio
  }

  lemma ShippedCurrentRatioFirst()
    ensures CurrentRatioFirst(RATIO_REQUIREMENTS)
  {
  }

  /** Rows after the last one of k do not change k's requirements. */
  lemma ReqsOfPrefix(reqs: seq<RatioReq>, n: nat, k: RatioKey)
    requires n <= |reqs|
    requires forall i :: n <= i < |reqs| ==> reqs[i].ratioKey != k
    ensures ReqsOf(reqs, k) == ReqsOf(reqs[..n], k)
  {
    var tail := reqs[n..];
    assert reqs == reqs[..n] + tail;
    WhereAppend(reqs[..n], tail, (r: RatioReq) => r.ratioKey == k);
    forall x | x in tail ensures x.ratioKey != k {
      var j :| 0 <= j < |tail| && tail[j] == x;
      assert reqs[n + j] == x;
    }
    WhereNone(tail, (r: RatioReq) => r.ratioKey == k);
  }

  lemma CurrentRatioReqs(reqs: seq<RatioReq>)
    requires CurrentRatioFirst(reqs)
    ensures ReqsOf(reqs, current_ratio) == reqs[..2]
  {
    ReqsOfPrefix(reqs, 2, current_ratio);
    WhereAll(reqs[..2], (r: RatioReq) => r.ratioKey == current_ratio);
  }

  /** Current assets of 800,000 and current liabilities of 400,000 give a current
      ratio of 2.0, complete. */
  lemma CurrentRatioExample(aug: seq<ValueRow>, reqs: seq<RatioReq>, i: nat)
    requires SlotUnique(aug) && CurrentRatioFirst(reqs)
    requires i < |FinancialRatios(aug, reqs)|
    requires FinancialRatios(aug, reqs)[i].ratioKey == current_ratio
    requires AugValue(aug, FinancialRatios(aug, reqs)[i].report, CURRENT_ASSETS) == Some(800000.0)
    requires AugValue(aug, FinancialRatios(aug, reqs)[i].report, CURRENT_LIABILITIES) == Some(400000.0)
    ensures FinancialRatios(aug, reqs)[i].ratioValue == Some(2.0)
    ensures FinancialRatios(aug, reqs)[i].isComplete
  {
    var f := FinancialRatios(aug, reqs)[i];
    FinancialRatiosRow(aug, reqs, i);
    CurrentRatioReqs(reqs);
    assert reqs[..2] == [RatioReq(current_ratio, CURRENT_ASSETS, Numerator, true), RatioReq(current_ratio, CURRENT_LIABILITIES, Denominator, true)];
    TwoTermRatio(aug, f.report, current_ratio, CURRENT_ASSETS, CURRENT_LIABILITIES, 800000.0, 400000.0);
  }
}
