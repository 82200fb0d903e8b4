/** v_value_augmented (src/calc.py): per report, the resolved inputs, the
    long-term-debt fallback and the seven derived values, deduplicated per
    (report, key) with derived rows first. */
module CalcAugment {
  import opened Common
  import opened Tables
  import opened CalcKeys
  import opened CalcRules
  import opened CalcViews
  import opened CalcRequirements
  import opened CalcResolve
  import opened MarketData

  // ---------------------------------------------------------------
  // base: MAX(value_won) FILTER (WHERE std_key = k)
  // ---------------------------------------------------------------

  /** SQL MAX over a column: NULLs are ignored, and no value gives NULL. */
  function MaxOpt(vs: seq<Option<real>>): Option<real> {
    if vs == [] then None
    else
      var t := MaxOpt(vs[1..]);
      if vs[0].None? then t
      else if t.Some? && t.value > vs[0].value then t
      else vs[0]
  }

  lemma {:induction false} MaxOptSpec(vs: seq<Option<real>>)
    ensures MaxOpt(vs).None? <==> forall i :: 0 <= i < |vs| ==> vs[i].None?
    ensures MaxOpt(vs).Some? ==> MaxOpt(vs) in vs
    ensures forall i :: 0 <= i < |vs| && vs[i].Some? ==> MaxOpt(vs).Some? && vs[i].value <= MaxOpt(vs).value
  {
    if vs != [] {
      MaxOptSpec(vs[1..]);
      assert forall i :: 1 <= i < |vs| ==> vs[i] == vs[1..][i - 1];
      assert forall i :: 0 <= i < |vs| - 1 ==> vs[1..][i] == vs[i + 1];
    }
  }

  /** The MAX of copies of one value is that value. */
  lemma MaxOptConst(vs: seq<Option<real>>, x: Option<real>)
    requires vs != [] && forall i :: 0 <= i < |vs| ==> vs[i] == x
    ensures MaxOpt(vs) == x
  {
    MaxOptSpec(vs);
    assert vs[0] == x;
  }

  function ValueWonOf(r: ValueRow): Option<real> { r.valueWon }

  function SlotRows(resolved: seq<ValueRow>, rep: ReportKey, key: StdKey): seq<ValueRow> {
    Where(resolved, (r: ValueRow) => r.report == rep && r.stdKey == key)
  }

  /** `MAX(value_won) FILTER (WHERE std_key = key)` within one report. */
  function Lookup(resolved: seq<ValueRow>, rep: ReportKey, key: StdKey): Option<real> {
    MaxOpt(MapSeq(SlotRows(resolved, rep, key), ValueWonOf))
  }

  /** A key with no row in the report gives NULL. */
  lemma LookupNone(resolved: seq<ValueRow>, rep: ReportKey, key: StdKey)
    requires forall r :: r in resolved ==> r.report != rep || r.stdKey != key
    ensures Lookup(resolved, rep, key) == None
  {
    WhereNone(resolved, (r: ValueRow) => r.report == rep && r.stdKey == key);
  }

  /** Rows that all carry x give x. */
  lemma LookupConst(resolved: seq<ValueRow>, rep: ReportKey, key: StdKey, x: Option<real>)
    requires exists r :: r in resolved && r.report == rep && r.stdKey == key
    requires forall r :: r in resolved && r.report == rep && r.stdKey == key ==> r.valueWon == x
    ensures Lookup(resolved, rep, key) == x
  {
    var rows := SlotRows(resolved, rep, key);
    WhereSpec(resolved, (r: ValueRow) => r.report == rep && r.stdKey == key);
    var vs := MapSeq(rows, ValueWonOf);
    var r :| r in resolved && r.report == rep && r.stdKey == key;
    assert r in rows;
    forall i | 0 <= i < |vs| ensures vs[i] == x {
      assert rows[i] in rows;
    }
    MaxOptConst(vs, x);
  }

  /** The columns of the base CTE. */
  datatype Inputs = Inputs(
    opProfit: Option<real>, taxExp: Option<real>, preTaxIncome: Option<real>,
    longTermDebt: Option<real>, nonCurrentLiabilities: Option<real>,
    totalLiabilities: Option<real>, currentLiabilities: Option<real>,
    equity: Option<real>, totalAssets: Option<real>,
    netIncome: Option<real>, revenue: Option<real>, depreciation: Option<real>,
    stockPrice: Option<real>, sharesOutstanding: Option<real>)

  function BaseInputs(resolved: seq<ValueRow>, rep: ReportKey): Inputs {
    Inputs(
      Lookup(resolved, rep, OP_PROFIT), Lookup(resolved, rep, TAX_EXP), Lookup(resolved, rep, PRE_TAX_INCOME),
      Lookup(resolved, rep, LONG_TERM_DEBT), Lookup(resolved, rep, NON_CURRENT_LIABILITIES),
      Lookup(resolved, rep, TOTAL_LIABILITIES), Lookup(resolved, rep, CURRENT_LIABILITIES),
      Lookup(resolved, rep, EQUITY), Lookup(resolved, rep, TOTAL_ASSETS),
      Lookup(resolved, rep, NET_INCOME), Lookup(resolved, rep, REVENUE), Lookup(resolved, rep, DEPRECIATION),
      Lookup(resolved, rep, STOCK_PRICE), Lookup(resolved, rep, SHARES_OUTSTANDING))
  }

  // ---------------------------------------------------------------
  // derived
  // ---------------------------------------------------------------

  /** long_term_debt_resolved: LONG_TERM_DEBT, else NON_CURRENT_LIABILITIES,
      else TOTAL_LIABILITIES − CURRENT_LIABILITIES when both are present. */
  function LtdResolved(b: Inputs): Option<real> {
    if b.longTermDebt.Some? then b.longTermDebt
    else if b.nonCurrentLiabilities.Some? then b.nonCurrentLiabilities
    else if b.totalLiabilities.Some? && b.currentLiabilities.Some? then
      Some(b.totalLiabilities.value - b.currentLiabilities.value)
    else None
  }

  function Clamp01(x: real): real {
    if x < 0.0 then 0.0 else if x > 1.0 then 1.0 else x
  }

  function TaxRate(b: Inputs): Option<real> {
    if b.taxExp.None? || b.preTaxIncome.None? || b.preTaxIncome.value == 0.0 then None
    else Some(Clamp01(b.taxExp.value / b.preTaxIncome.value))
  }

  function Nopat(b: Inputs): Option<real> {
    if b.opProfit.None? then None
    else if b.taxExp.None? || b.preTaxIncome.None? || b.preTaxIncome.value == 0.0 then None
    else Some(b.opProfit.value * (1.0 - Clamp01(b.taxExp.value / b.preTaxIncome.value)))
  }

  /** `COALESCE(...) + equity`, where NULL + x is NULL. */
  function InvestedCapital(b: Inputs): Option<real> {
    if b.equity.None? then None
    else
      var l := LtdResolved(b);
      if l.None? then None else Some(l.value + b.equity.value)
  }

  /** x / shares_outstanding when both are present and the share count is not 0. */
  function PerShare(x: Option<real>, shares: Option<real>): Option<real> {
    if x.Some? && shares.Some? && shares.value != 0.0 then Some(x.value / shares.value) else None
  }

  function Cfps(b: Inputs): Option<real> {
    if b.netIncome.Some? && b.sharesOutstanding.Some? && b.sharesOutstanding.value != 0.0
    then Some((b.netIncome.value + b.depreciation.GetOr(0.0)) / b.sharesOutstanding.value)
    else None
  }

  /** The value of a derived row. */
  function DerivedValue(b: Inputs, k: StdKey): Option<real>
    requires IsDerivedKey(k)
  {
    match k
    case TAX_RATE => TaxRate(b)
    case NOPAT => Nopat(b)
    case INVESTED_CAPITAL => InvestedCapital(b)
    case EPS => PerShare(b.netIncome, b.sharesOutstanding)
    case BPS => PerShare(b.equity, b.sharesOutstanding)
    case SPS => PerShare(b.revenue, b.sharesOutstanding)
    case CFPS => Cfps(b)
  }

  // --- properties of the derivations

  /** The fallback chain in order. */
  lemma LtdResolvedSpec(b: Inputs)
    ensures b.longTermDebt.Some? ==> LtdResolved(b) == b.longTermDebt
    ensures b.longTermDebt.None? && b.nonCurrentLiabilities.Some? ==> LtdResolved(b) == b.nonCurrentLiabilities
    ensures b.longTermDebt.None? && b.nonCurrentLiabilities.None? ==>
      (LtdResolved(b).Some? <==> b.totalLiabilities.Some? && b.currentLiabilities.Some?)
    ensures b.longTermDebt.None? && b.nonCurrentLiabilities.None? && LtdResolved(b).Some? ==>
      b.currentLiabilities.value + LtdResolved(b).value == b.totalLiabilities.value
  {
  }

  /** The tax rate exists iff tax and pre-tax income exist and pre-tax income
      is not 0; it always lies in [0, 1], and is the plain quotient when that
      does. */
  lemma TaxRateSpec(b: Inputs)
    ensures TaxRate(b).Some? <==> b.taxExp.Some? && b.preTaxIncome.Some? && b.preTaxIncome.value != 0.0
    ensures TaxRate(b).Some? ==> 0.0 <= TaxRate(b).value <= 1.0
    ensures TaxRate(b).Some? && 0.0 <= b.taxExp.value / b.preTaxIncome.value <= 1.0 ==>
      TaxRate(b).value * b.preTaxIncome.value == b.taxExp.value
  {
    if TaxRate(b).Some? && 0.0 <= b.taxExp.value / b.preTaxIncome.value <= 1.0 {
      var t := b.taxExp.value;
      var p := b.preTaxIncome.value;
      assert TaxRate(b).value == t / p;
      assert t / p * p == t;
    }
  }

  lemma MulUnit(o: real, t: real)
    requires o >= 0.0 && 0.0 <= t <= 1.0
    ensures 0.0 <= o * t <= o
  {
    assert o * t <= o * 1.0;
  }

  /** NOPAT is operating profit net of the tax rate, NULL when either is; for a
      non-negative operating profit it lies between 0 and the profit. */
  lemma NopatSpec(b: Inputs)
    ensures Nopat(b).Some? <==> b.opProfit.Some? && TaxRate(b).Some?
    ensures Nopat(b).Some? ==> Nopat(b).value == b.opProfit.value - b.opProfit.value * TaxRate(b).value
    ensures Nopat(b).Some? && b.opProfit.value >= 0.0 ==> 0.0 <= Nopat(b).value <= b.opProfit.value
  {
    TaxRateSpec(b);
    if Nopat(b).Some? {
      var o := b.opProfit.value;
      var t := TaxRate(b).value;
      assert Nopat(b).value == o * (1.0 - t);
      assert o * (1.0 - t) == o - o * t;
      if o >= 0.0 {
        MulUnit(o, t);
      }
    }
  }

  /** Invested capital is the resolved long-term debt plus equity, NULL when
      either is. */
  lemma InvestedCapitalSpec(b: Inputs)
    ensures InvestedCapital(b).Some? <==> b.equity.Some? && LtdResolved(b).Some?
    ensures InvestedCapital(b).Some? ==> InvestedCapital(b).value - b.equity.value == LtdResolved(b).value
  {
  }

  /** A per-share value exists iff the amount and a non-zero share count do,
      and times the share count gives the amount back. */
  lemma PerShareSpec(x: Option<real>, shares: Option<real>)
    ensures PerShare(x, shares).Some? <==> x.Some? && shares.Some? && shares.value != 0.0
    ensures PerShare(x, shares).Some? ==> PerShare(x, shares).value * shares.value == x.value
  {
    if PerShare(x, shares).Some? {
      assert x.value / shares.value * shares.value == x.value;
    }
  }

  /** CFPS is (net income + depreciation, missing depreciation as 0) per share. */
  lemma CfpsSpec(b: Inputs)
    ensures Cfps(b).Some? <==> b.netIncome.Some? && b.sharesOutstanding.Some? && b.sharesOutstanding.value != 0.0
    ensures Cfps(b).Some? ==> Cfps(b).value * b.sharesOutstanding.value == b.netIncome.value + b.depreciation.GetOr(0.0)
    ensures b.depreciation.None? ==> Cfps(b) == PerShare(b.netIncome, b.sharesOutstanding)
  {
    if Cfps(b).Some? {
      var n := b.netIncome.value + b.depreciation.GetOr(0.0);
      var s := b.sharesOutstanding.value;
      assert n / s * s == n;
    }
  }

  // ---------------------------------------------------------------
  // unioned and dedup
  // ---------------------------------------------------------------

  /** The derived keys in the order of the UNION ALL. */
  const DERIVED_KEYS: seq<StdKey> := [TAX_RATE, NOPAT, INVESTED_CAPITAL, EPS, BPS, SPS, CFPS]

  lemma DerivedKeysSpec()
    ensures forall k :: k in DERIVED_KEYS <==> IsDerivedKey(k)
  {
  }

  datatype AugRow = AugRow(row: ValueRow, prio: int)

  datatype Slot = Slot(report: ReportKey, stdKey: StdKey)

  function SlotOf(a: AugRow): Slot { Slot(a.row.report, a.row.stdKey) }

  function RowReport(r: ValueRow): ReportKey { r.report }

  function RowSlot(r: ValueRow): Slot { Slot(r.report, r.stdKey) }

  /** The reports of the base CTE (GROUP BY corp_code, bsns_year, report_id). */
  function AugReports(resolved: seq<ValueRow>): seq<ReportKey> {
    Distinct(MapSeq(resolved, RowReport))
  }

  function RawAug(r: ValueRow): AugRow { AugRow(r, 2) }

  function DerivedFor(resolved: seq<ValueRow>, k: StdKey, reps: seq<ReportKey>): seq<AugRow>
    requires IsDerivedKey(k)
  {
    if reps == [] then []
    else [AugRow(ValueRow(reps[0], k, DerivedValue(BaseInputs(resolved, reps[0]), k)), 1)] + DerivedFor(resolved, k, reps[1..])
  }

  function DerivedAll(resolved: seq<ValueRow>, keys: seq<StdKey>, reps: seq<ReportKey>): seq<AugRow>
    requires forall i :: 0 <= i < |keys| ==> IsDerivedKey(keys[i])
  {
    if keys == [] then [] else DerivedFor(resolved, keys[0], reps) + DerivedAll(resolved, keys[1..], reps)
  }

  /** unioned: raw rows at priority 2, then derived rows at priority 1. */
  function Unioned(resolved: seq<ValueRow>): seq<AugRow> {
    DerivedKeysSpec();
    MapSeq(resolved, RawAug) + DerivedAll(resolved, DERIVED_KEYS, AugReports(resolved))
  }

  /** `ORDER BY prio ASC, (value_won IS NULL) ASC`: a sorts strictly first. */
  predicate AugBefore(a: AugRow, b: AugRow) {
    a.prio < b.prio || (a.prio == b.prio && a.row.valueWon.Some? && b.row.valueWon.None?)
  }

  /** a is in u and no row of its slot sorts before it. */
  predicate SlotWinner(u: seq<AugRow>, a: AugRow) {
    a in u && forall y :: y in u && SlotOf(y) == SlotOf(a) ==> !AugBefore(y, a)
  }

  function BestAug(xs: seq<AugRow>): AugRow
    requires xs != []
  {
    if |xs| == 1 then xs[0]
    else
      var t := BestAug(xs[1..]);
      if AugBefore(t, xs[0]) then t else xs[0]
  }

  lemma {:induction false} BestAugSpec(xs: seq<AugRow>)
    requires xs != []
    ensures BestAug(xs) in xs
    ensures forall y :: y in xs ==> !AugBefore(y, BestAug(xs))
  {
    if |xs| > 1 {
      BestAugSpec(xs[1..]);
      assert xs == [xs[0]] + xs[1..];
    }
  }

  function PickAug(u: seq<AugRow>, keys: seq<Slot>): seq<ValueRow>
    requires forall i :: 0 <= i < |keys| ==> GroupOf(u, SlotOf, keys[i]) != []
  {
    if keys == [] then [] else [BestAug(GroupOf(u, SlotOf, keys[0])).row] + PickAug(u, keys[1..])
  }

  lemma SlotGroupsNonEmpty(u: seq<AugRow>)
    ensures forall i :: 0 <= i < |GroupKeys(u, SlotOf)| ==> GroupOf(u, SlotOf, GroupKeys(u, SlotOf)[i]) != []
  {
    GroupKeysDistinct(u, SlotOf);
    forall i | 0 <= i < |GroupKeys(u, SlotOf)| ensures GroupOf(u, SlotOf, GroupKeys(u, SlotOf)[i]) != [] {
      var k := GroupKeys(u, SlotOf)[i];
      assert k in GroupKeys(u, SlotOf);
      var q :| 0 <= q < |u| && SlotOf(u[q]) == k;
      GroupOfSpec(u, SlotOf, k);
      assert u[q] in GroupOf(u, SlotOf, k);
    }
  }

  /** v_value_augmented. */
  function ValueAugmented(resolved: seq<ValueRow>): seq<ValueRow> {
    var u := Unioned(resolved);
    SlotGroupsNonEmpty(u);
    PickAug(u, GroupKeys(u, SlotOf))
  }

  // --- properties of the dedup

  lemma {:induction false} PickAugSpec(u: seq<AugRow>, keys: seq<Slot>)
    requires forall i :: 0 <= i < |keys| ==> GroupOf(u, SlotOf, keys[i]) != []
    ensures |PickAug(u, keys)| == |keys|
    ensures forall i :: 0 <= i < |keys| ==> PickAug(u, keys)[i] == BestAug(GroupOf(u, SlotOf, keys[i])).row
  {
    if keys != [] {
      PickAugSpec(u, keys[1..]);
    }
  }

  /** The output follows the slots in order of first appearance. */
  lemma AugKeys(resolved: seq<ValueRow>)
    ensures |ValueAugmented(resolved)| == |GroupKeys(Unioned(resolved), SlotOf)|
    ensures forall i :: 0 <= i < |ValueAugmented(resolved)| ==>
      RowSlot(ValueAugmented(resolved)[i]) == GroupKeys(Unioned(resolved), SlotOf)[i]
  {
    var u := Unioned(resolved);
    var keys := GroupKeys(u, SlotOf);
    SlotGroupsNonEmpty(u);
    PickAugSpec(u, keys);
    forall i | 0 <= i < |keys| ensures SlotOf(BestAug(GroupOf(u, SlotOf, keys[i]))) == keys[i] {
      BestAugSpec(GroupOf(u, SlotOf, keys[i]));
      GroupOfSpec(u, SlotOf, keys[i]);
    }
  }

  /** Each output row is the first-ranked unioned row of its own slot. */
  lemma AugRowSpec(resolved: seq<ValueRow>, i: nat)
    requires i < |ValueAugmented(resolved)|
    ensures exists a :: SlotWinner(Unioned(resolved), a) && a.row == ValueAugmented(resolved)[i]
  {
    var u := Unioned(resolved);
    var keys := GroupKeys(u, SlotOf);
    SlotGroupsNonEmpty(u);
    PickAugSpec(u, keys);
    AugKeys(resolved);
    var g := GroupOf(u, SlotOf, keys[i]);
    BestAugSpec(g);
    GroupOfSpec(u, SlotOf, keys[i]);
  }

  /** One output row per (report, key). */
  lemma ValueAugmentedUnique(resolved: seq<ValueRow>)
    ensures forall i, j :: 0 <= i < j < |ValueAugmented(resolved)| ==>
      RowSlot(ValueAugmented(resolved)[i]) != RowSlot(ValueAugmented(resolved)[j])
  {
    GroupKeysDistinct(Unioned(resolved), SlotOf);
    AugKeys(resolved);
  }

  lemma DerivedForSpec(resolved: seq<ValueRow>, k: StdKey, reps: seq<ReportKey>)
    requires IsDerivedKey(k)
    ensures forall a :: a in DerivedFor(resolved, k, reps) <==>
      a.prio == 1 && a.row.stdKey == k && a.row.report in reps &&
      a.row.valueWon == DerivedValue(BaseInputs(resolved, a.row.report), k)
  {
    if reps != [] {
      DerivedForSpec(resolved, k, reps[1..]);
      assert reps == [reps[0]] + reps[1..];
    }
  }

  lemma {:induction false} DerivedAllSpec(resolved: seq<ValueRow>, keys: seq<StdKey>, reps: seq<ReportKey>)
    requires forall i :: 0 <= i < |keys| ==> IsDerivedKey(keys[i])
    ensures forall a :: a in DerivedAll(resolved, keys, reps) <==>
      a.prio == 1 && a.row.stdKey in keys && a.row.report in reps &&
      a.row.valueWon == DerivedValue(BaseInputs(resolved, a.row.report), a.row.stdKey)
  {
    if keys != [] {
      DerivedAllSpec(resolved, keys[1..], reps);
      DerivedForSpec(resolved, keys[0], reps);
      assert keys == [keys[0]] + keys[1..];
    }
  }

  /** The unioned rows: the resolved rows at priority 2 and one priority-1 row
      per (report, derived key) carrying the derived value. */
  lemma UnionedSpec(resolved: seq<ValueRow>)
    ensures forall a :: a in Unioned(resolved) <==>
      (a.prio == 2 && a.row in resolved) ||
      (a.prio == 1 && IsDerivedKey(a.row.stdKey) && (exists r :: r in resolved && r.report == a.row.report) &&
       a.row.valueWon == DerivedValue(BaseInputs(resolved, a.row.report), a.row.stdKey))
  {
    DerivedKeysSpec();
    DerivedAllSpec(resolved, DERIVED_KEYS, AugReports(resolved));
    forall rep ensures rep in AugReports(resolved) <==> exists r :: r in resolved && r.report == rep {
      AugReportsSpec(resolved, rep);
    }
    RawAugsSpec(resolved);
  }

  lemma RawAugsSpec(resolved: seq<ValueRow>)
    ensures forall a :: a in MapSeq(resolved, RawAug) <==> a.prio == 2 && a.row in resolved
  {
    forall a ensures a in MapSeq(resolved, RawAug) <==> a.prio == 2 && a.row in resolved {
      if a in MapSeq(resolved, RawAug) {
        var q :| 0 <= q < |resolved| && MapSeq(resolved, RawAug)[q] == a;
      }
      if a.prio == 2 && a.row in resolved {
        var q :| 0 <= q < |resolved| && resolved[q] == a.row;
        assert MapSeq(resolved, RawAug)[q] == a;
      }
    }
  }

  lemma UnionedReport(resolved: seq<ValueRow>, a: AugRow)
    requires a in Unioned(resolved)
    ensures exists r :: r in resolved && r.report == a.row.report
  {
    UnionedSpec(resolved);
  }

  lemma UnionedDerivedRow(resolved: seq<ValueRow>, d: AugRow)
    requires d.prio == 1 && IsDerivedKey(d.row.stdKey) && exists r :: r in resolved && r.report == d.row.report
    requires d.row.valueWon == DerivedValue(BaseInputs(resolved, d.row.report), d.row.stdKey)
    ensures d in Unioned(resolved)
  {
    UnionedSpec(resolved);
  }

  lemma AugReportsSpec(resolved: seq<ValueRow>, rep: ReportKey)
    ensures rep in AugReports(resolved) <==> exists r :: r in resolved && r.report == rep
  {
    DistinctSpec(MapSeq(resolved, RowReport));
    if rep in MapSeq(resolved, RowReport) {
      var q :| 0 <= q < |resolved| && MapSeq(resolved, RowReport)[q] == rep;
      assert resolved[q] in resolved;
    }
    if exists r :: r in resolved && r.report == rep {
      var r :| r in resolved && r.report == rep;
      var q :| 0 <= q < |resolved| && resolved[q] == r;
      assert MapSeq(resolved, RowReport)[q] == rep;
    }
  }

  lemma UnionedPrioOne(resolved: seq<ValueRow>, a: AugRow)
    requires a in Unioned(resolved) && a.prio <= 1
    ensures IsDerivedKey(a.row.stdKey) && a.row.valueWon == DerivedValue(BaseInputs(resolved, a.row.report), a.row.stdKey)
  {
    UnionedSpec(resolved);
  }

  lemma UnionedRaw(resolved: seq<ValueRow>, a: AugRow)
    requires a in Unioned(resolved) && !IsDerivedKey(a.row.stdKey)
    ensures a.row in resolved && a.prio == 2
  {
    UnionedSpec(resolved);
  }

  lemma UnionedHasRaw(resolved: seq<ValueRow>, r: ValueRow)
    requires r in resolved
    ensures RawAug(r) in Unioned(resolved)
  {
    UnionedSpec(resolved);
  }

  /** A derived key's output row carries the derived value: the priority-1
      row beats every raw row. */
  lemma AugmentedDerived(resolved: seq<ValueRow>, i: nat)
    requires i < |ValueAugmented(resolved)|
    requires IsDerivedKey(ValueAugmented(resolved)[i].stdKey)
    ensures var v := ValueAugmented(resolved)[i];
      v.valueWon == DerivedValue(BaseInputs(resolved, v.report), v.stdKey)
  {
    var u := Unioned(resolved);
    var v := ValueAugmented(resolved)[i];
    AugRowSpec(resolved, i);
    var a :| SlotWinner(u, a) && a.row == v;
    UnionedReport(resolved, a);
    var d := AugRow(ValueRow(v.report, v.stdKey, DerivedValue(BaseInputs(resolved, v.report), v.stdKey)), 1);
    UnionedDerivedRow(resolved, d);
    assert !AugBefore(d, a);
    UnionedPrioOne(resolved, a);
  }

  /** A key that is not derived keeps a resolved row of its slot, and a
      non-NULL one whenever the slot has one. */
  lemma AugmentedRaw(resolved: seq<ValueRow>, i: nat)
    requires i < |ValueAugmented(resolved)|
    requires !IsDerivedKey(ValueAugmented(resolved)[i].stdKey)
    ensures ValueAugmented(resolved)[i] in resolved
    ensures forall r :: r in resolved && r.valueWon.Some? && RowSlot(r) == RowSlot(ValueAugmented(resolved)[i]) ==>
      ValueAugmented(resolved)[i].valueWon.Some?
  {
    var u := Unioned(resolved);
    var v := ValueAugmented(resolved)[i];
    AugRowSpec(resolved, i);
    var a :| SlotWinner(u, a) && a.row == v;
    UnionedRaw(resolved, a);
    forall r | r in resolved && r.valueWon.Some? && RowSlot(r) == RowSlot(v)
      ensures v.valueWon.Some?
    {
      SlotBestNonNull(resolved, a, r);
    }
  }

  /** A priority-2 winner of a slot holding a non-NULL resolved row is itself non-NULL. */
  lemma SlotBestNonNull(resolved: seq<ValueRow>, a: AugRow, r: ValueRow)
    requires SlotWinner(Unioned(resolved), a) && a.prio == 2
    requires r in resolved && r.valueWon.Some? && RowSlot(r) == SlotOf(a)
    ensures a.row.valueWon.Some?
  {
    UnionedHasRaw(resolved, r);
    assert !AugBefore(RawAug(r), a);
  }

  // ---------------------------------------------------------------
  // v_value_augmented over v_value_resolved
  // ---------------------------------------------------------------

  /** The base CTE reads back the resolved value of every requirement key,
      and NULL for a key that is not resolved at all. */
  lemma ResolvedLookup(mapped: seq<MappedRow>, rules: seq<Rule>, market: seq<MarketRow>, reqs: seq<RatioReq>, rep: ReportKey, key: StdKey)
    ensures key in ReqKeys(reqs) && (exists m :: m in mapped && ReportOf(m) == rep) ==>
      Lookup(ValueResolved(mapped, rules, market, reqs), rep, key) == ResolvedValue(mapped, rules, market, rep, key)
    ensures key !in ReqKeys(reqs) ==> Lookup(ValueResolved(mapped, rules, market, reqs), rep, key) == None
  {
    var resolved := ValueResolved(mapped, rules, market, reqs);
    ValueResolvedGrid(mapped, rules, market, reqs);
    if key in ReqKeys(reqs) && exists m :: m in mapped && ReportOf(m) == rep {
      assert ValueRow(rep, key, ResolvedValue(mapped, rules, market, rep, key)) in resolved;
      LookupConst(resolved, rep, key, ResolvedValue(mapped, rules, market, rep, key));
    }
    if key !in ReqKeys(reqs) {
      LookupNone(resolved, rep, key);
    }
  }

  /** A report that has no mapped row reads NULL for every key. */
  lemma AbsentReportLookup(mapped: seq<MappedRow>, rules: seq<Rule>, market: seq<MarketRow>, reqs: seq<RatioReq>, rep: ReportKey, key: StdKey)
    requires forall m :: m in mapped ==> ReportOf(m) != rep
    ensures Lookup(ValueResolved(mapped, rules, market, reqs), rep, key) == None
  {
    ValueResolvedGrid(mapped, rules, market, reqs);
    LookupNone(ValueResolved(mapped, rules, market, reqs), rep, key);
  }

  /** With the shipped requirements LONG_TERM_DEBT is never resolved, so the
      long-term debt of invested capital always comes from the fallbacks. */
  lemma ShippedLtdFallback(mapped: seq<MappedRow>, rules: seq<Rule>, market: seq<MarketRow>, rep: ReportKey)
    ensures var b := BaseInputs(ValueResolved(mapped, rules, market, RATIO_REQUIREMENTS), rep);
      b.longTermDebt == None && (b.nonCurrentLiabilities.Some? ==> LtdResolved(b) == b.nonCurrentLiabilities)
  {
    ShippedNoLongTermDebt();
    ResolvedLookup(mapped, rules, market, RATIO_REQUIREMENTS, rep, LONG_TERM_DEBT);
  }

  /** With the shipped account map no rule yields DEPRECIATION, so CFPS
      always equals EPS. */
  lemma ShippedCfpsIsEps(mapped: seq<MappedRow>, market: seq<MarketRow>, reqs: seq<RatioReq>, rep: ReportKey)
    ensures var b := BaseInputs(ValueResolved(mapped, AccountMapRules(ACCOUNT_MAP), market, reqs), rep);
      b.depreciation == None && Cfps(b) == PerShare(b.netIncome, b.sharesOutstanding)
  {
    var rules := AccountMapRules(ACCOUNT_MAP);
    var b := BaseInputs(ValueResolved(mapped, rules, market, reqs), rep);
    if exists m :: m in mapped && ReportOf(m) == rep {
      DepreciationIsNull(mapped, market, rep);
      ResolvedLookup(mapped, rules, market, reqs, rep, DEPRECIATION);
    } else {
      AbsentReportLookup(mapped, rules, market, reqs, rep, DEPRECIATION);
    }
    CfpsSpec(b);
  }

  /** A non-derived key of v_value_augmented carries exactly its resolved value. */
  lemma AugmentedResolved(mapped: seq<MappedRow>, rules: seq<Rule>, market: seq<MarketRow>, reqs: seq<RatioReq>, i: nat)
    requires i < |ValueAugmented(ValueResolved(mapped, rules, market, reqs))|
    requires !IsDerivedKey(ValueAugmented(ValueResolved(mapped, rules, market, reqs))[i].stdKey)
    ensures var v := ValueAugmented(ValueResolved(mapped, rules, market, reqs))[i];
      v.stdKey in ReqKeys(reqs) && v.valueWon == ResolvedValue(mapped, rules, market, v.report, v.stdKey)
  {
    AugmentedRaw(ValueResolved(mapped, rules, market, reqs), i);
    ValueResolvedGrid(mapped, rules, market, reqs);
  }
}
