/** metric_catalog, load_fact_metrics and update_benchmark_improved
    (src/calc.py): the fact_metrics table is rebuilt per (corp_code,
    bsns_year) scope from v_analysis_compare, v_financial_ratios and
    v_value_augmented, then its benchmark_improved column is updated from the
    catalog's polarity. */
module CalcFacts {
  import opened Common
  import opened Tables
  import opened CalcKeys
  import opened CalcViews
  import opened CalcResolve
  import opened CalcRatios

  /** metric_catalog.unit. */
  datatype Unit = KRW | RATIO | TIMES | KRW_PER_SHARE

  /** A metric_catalog row (metric_name_ko is not kept); polarity TRUE means
      higher is better, FALSE lower is better, NULL that it depends. */
  datatype CatalogRow = CatalogRow(metricKey: MetricKey, metricType: MetricType, unit: Unit, polarity: Option<bool>)

  /** The rows inserted by create_metric_catalog, in insertion order. */
  const METRIC_CATALOG: seq<CatalogRow> := [
    CatalogRow(Item(TOTAL_ASSETS), Raw, KRW, Some(true)),
    CatalogRow(Item(CURRENT_ASSETS), Raw, KRW, Some(true)),
    CatalogRow(Item(CASH_EQ), Raw, KRW, Some(true)),
    CatalogRow(Item(AR), Raw, KRW, None),
    CatalogRow(Item(INVENTORIES), Raw, KRW, None),
    CatalogRow(Item(NON_CURRENT_ASSETS), Raw, KRW, Some(true)),
    CatalogRow(Item(LONG_TERM_DEBT), Raw, KRW, Some(false)),
    CatalogRow(Item(DEFERRED_TAX_LIAB), Raw, KRW, Some(false)),

    CatalogRow(Item(EQUITY), Raw, KRW, Some(true)),
    CatalogRow(Item(PARENT_EQUITY), Raw, KRW, Some(true)),
    CatalogRow(Item(RETAINED_EARNINGS), Raw, KRW, Some(true)),
    CatalogRow(Item(NON_CONTROLLING_INTEREST), Raw, KRW, Some(true)),

    CatalogRow(Item(CAPITAL_STOCK), Raw, KRW, Some(true)),

    CatalogRow(Item(REVENUE), Raw, KRW, Some(true)),
    CatalogRow(Item(COGS), Raw, KRW, Some(false)),
    CatalogRow(Item(GROSS_PROFIT), Raw, KRW, Some(true)),
    CatalogRow(Item(OP_PROFIT), Raw, KRW, Some(true)),
    CatalogRow(Item(PRE_TAX_INCOME), Raw, KRW, Some(true)),
    CatalogRow(Item(TAX_EXP), Raw, KRW, Some(false)),
    CatalogRow(Item(NET_INCOME), Raw, KRW, Some(true)),
    CatalogRow(Item(SGA_EXPENSES), Raw, KRW, Some(false)),

    CatalogRow(Item(OCF), Raw, KRW, Some(true)),
    CatalogRow(Item(ICF), Raw, KRW, None),
    CatalogRow(Item(FCF_FIN), Raw, KRW, None),
    CatalogRow(Item(PURCHASE_PPE), Raw, KRW, None),
    CatalogRow(Item(PURCHASE_INTANGIBLES), Raw, KRW, None),
    CatalogRow(Item(PURCHASE_LT_FIN_ASSETS), Raw, KRW, None),
    CatalogRow(Item(DISPOSAL_LT_FIN_ASSETS), Raw, KRW, Some(true)),

    CatalogRow(RatioMetric(roe), Ratio, RATIO, Some(true)),
    CatalogRow(RatioMetric(roa), Ratio, RATIO, Some(true)),
    CatalogRow(RatioMetric(roc), Ratio, RATIO, Some(true)),
    CatalogRow(RatioMetric(long_term_debt_ratio), Ratio, RATIO, Some(false)),
    CatalogRow(RatioMetric(net_margin), Ratio, RATIO, Some(true)),
    CatalogRow(RatioMetric(per), Ratio, TIMES, None),
    CatalogRow(RatioMetric(pbr), Ratio, TIMES, None),
    CatalogRow(RatioMetric(psr), Ratio, TIMES, None),
    CatalogRow(RatioMetric(pcfr), Ratio, TIMES, None),

    CatalogRow(Item(EPS), Derived, KRW_PER_SHARE, Some(true)),
    CatalogRow(Item(BPS), Derived, KRW_PER_SHARE, Some(true)),
    CatalogRow(Item(SPS), Derived, KRW_PER_SHARE, Some(true)),
    CatalogRow(Item(CFPS), Derived, KRW_PER_SHARE, Some(true)),
    CatalogRow(Item(STOCK_PRICE), Market, KRW_PER_SHARE, Some(true))
  ]

  /** The catalog row of a key (metric_key is the PRIMARY KEY, so the JOIN
      finds at most one). */
  function CatalogEntry(cat: seq<CatalogRow>, k: MetricKey): (r: Option<CatalogRow>)
    ensures r.Some? ==> r.value in cat && r.value.metricKey == k
    ensures r.None? ==> forall c :: c in cat ==> c.metricKey != k
  {
    if cat == [] then None
    else if cat[0].metricKey == k then Some(cat[0])
    else CatalogEntry(cat[1..], k)
  }

  /** A catalog row of the given metric type for k, as the JOIN and the
      `metric_type` filter of one insert path require. */
  predicate CatalogTyped(cat: seq<CatalogRow>, k: MetricKey, t: MetricType) {
    CatalogEntry(cat, k).Some? && CatalogEntry(cat, k).value.metricType == t
  }

  /** A fact_metrics row (metric_name_ko is not kept). */
  datatype FactRow = FactRow(
    corpCode: string, bsnsYear: int, metricKey: MetricKey, metricType: MetricType,
    value: Option<real>, valuePrev: Option<real>, yoyAbs: Option<real>, yoyPct: Option<real>,
    unit: Unit, benchmarkCorpCode: Option<string>, benchmarkValue: Option<real>,
    benchmarkImproved: Option<bool>)

  predicate InScope(f: FactRow, corp: string, year: int) {
    f.corpCode == corp && f.bsnsYear == year
  }

  // ---------------------------------------------------------------
  // the three insert paths
  // ---------------------------------------------------------------

  /** RAW: a v_analysis_compare row, diff_rate rescaled from percent. */
  function RawFact(a: CompareRow, mc: CatalogRow): FactRow {
    FactRow(a.corpCode, a.bsnsYear, Item(a.stdKey), Raw, Some(a.valCurr), a.valPrev, Some(a.diffAmt),
      if a.diffRate.Some? then Some(a.diffRate.value / 100.0) else None,
      mc.unit, None, None, None)
  }

  function RawFacts(cat: seq<CatalogRow>, compare: seq<CompareRow>, corp: string, year: int, spec: seq<MetricKey>): seq<FactRow> {
    if compare == [] then []
    else
      var a := compare[0];
      (if a.corpCode == corp && a.bsnsYear == year && Item(a.stdKey) in spec && CatalogTyped(cat, Item(a.stdKey), Raw)
       then [RawFact(a, CatalogEntry(cat, Item(a.stdKey)).value)] else [])
      + RawFacts(cat, compare[1..], corp, year, spec)
  }

  /** `cur - prev`, NULL when either is. */
  function YoyAbs(cur: Option<real>, prev: Option<real>): Option<real> {
    if cur.Some? && prev.Some? then Some(cur.value - prev.value) else None
  }

  /** `(cur - prev) / abs(prev)` when prev is present and not 0, else NULL. */
  function YoyPct(cur: Option<real>, prev: Option<real>): Option<real> {
    if prev.Some? && prev.value != 0.0 && cur.Some? then Some((cur.value - prev.value) / Abs(prev.value)) else None
  }

  /** A row of the RATIO and DERIVED/MARKET paths. */
  function DeltaFact(corp: string, year: int, k: MetricKey, mc: CatalogRow, cur: Option<real>, prev: Option<real>): FactRow {
    FactRow(corp, year, k, mc.metricType, cur, prev, YoyAbs(cur, prev), YoyPct(cur, prev), mc.unit, None, None, None)
  }

  /** The LEFT JOIN of v_financial_ratios to itself one year back. */
  predicate IsPrevRatio(p: FinancialRatio, c: FinancialRatio) {
    p.report.corpCode == c.report.corpCode && p.ratioKey == c.ratioKey && c.report.bsnsYear == p.report.bsnsYear + 1
  }

  function RatioDeltas(cur: FinancialRatio, mc: CatalogRow, prevs: seq<FinancialRatio>): seq<FactRow> {
    if prevs == [] then []
    else
      [DeltaFact(cur.report.corpCode, cur.report.bsnsYear, RatioMetric(cur.ratioKey), mc, cur.ratioValue, prevs[0].ratioValue)]
      + RatioDeltas(cur, mc, prevs[1..])
  }

  /** One row per matching previous-year ratio, or one with a NULL previous value. */
  function RatioJoin(cur: FinancialRatio, mc: CatalogRow, ratios: seq<FinancialRatio>): seq<FactRow> {
    var prevs := Where(ratios, (p: FinancialRatio) => IsPrevRatio(p, cur));
    if prevs == [] then [DeltaFact(cur.report.corpCode, cur.report.bsnsYear, RatioMetric(cur.ratioKey), mc, cur.ratioValue, None)]
    else RatioDeltas(cur, mc, prevs)
  }

  function RatioFactsFrom(cat: seq<CatalogRow>, curs: seq<FinancialRatio>, ratios: seq<FinancialRatio>, corp: string, year: int, spec: seq<MetricKey>): seq<FactRow> {
    if curs == [] then []
    else
      var c := curs[0];
      (if c.report.corpCode == corp && c.report.bsnsYear == year && RatioMetric(c.ratioKey) in spec && CatalogTyped(cat, RatioMetric(c.ratioKey), Ratio)
       then RatioJoin(c, CatalogEntry(cat, RatioMetric(c.ratioKey)).value, ratios) else [])
      + RatioFactsFrom(cat, curs[1..], ratios, corp, year, spec)
  }

  function RatioFacts(cat: seq<CatalogRow>, ratios: seq<FinancialRatio>, corp: string, year: int, spec: seq<MetricKey>): seq<FactRow> {
    RatioFactsFrom(cat, ratios, ratios, corp, year, spec)
  }

  /** The LEFT JOIN of v_value_augmented to itself one year back. */
  predicate IsPrevValue(p: ValueRow, c: ValueRow) {
    p.report.corpCode == c.report.corpCode && p.stdKey == c.stdKey && c.report.bsnsYear == p.report.bsnsYear + 1
  }

  function ValueDeltas(cur: ValueRow, mc: CatalogRow, prevs: seq<ValueRow>): seq<FactRow> {
    if prevs == [] then []
    else
      [DeltaFact(cur.report.corpCode, cur.report.bsnsYear, Item(cur.stdKey), mc, cur.valueWon, prevs[0].valueWon)]
      + ValueDeltas(cur, mc, prevs[1..])
  }

  function ValueJoin(cur: ValueRow, mc: CatalogRow, aug: seq<ValueRow>): seq<FactRow> {
    var prevs := Where(aug, (p: ValueRow) => IsPrevValue(p, cur));
    if prevs == [] then [DeltaFact(cur.report.corpCode, cur.report.bsnsYear, Item(cur.stdKey), mc, cur.valueWon, None)]
    else ValueDeltas(cur, mc, prevs)
  }

  /** `mc.metric_type IN ('derived', 'market')`. */
  predicate CatalogAugmented(cat: seq<CatalogRow>, k: MetricKey) {
    CatalogTyped(cat, k, Derived) || CatalogTyped(cat, k, Market)
  }

  function AugFactsFrom(cat: seq<CatalogRow>, curs: seq<ValueRow>, aug: seq<ValueRow>, corp: string, year: int, spec: seq<MetricKey>): seq<FactRow> {
    if curs == [] then []
    else
      var c := curs[0];
      (if c.report.corpCode == corp && c.report.bsnsYear == year && Item(c.stdKey) in spec && CatalogAugmented(cat, Item(c.stdKey))
       then ValueJoin(c, CatalogEntry(cat, Item(c.stdKey)).value, aug) else [])
      + AugFactsFrom(cat, curs[1..], aug, corp, year, spec)
  }

  function AugFacts(cat: seq<CatalogRow>, aug: seq<ValueRow>, corp: string, year: int, spec: seq<MetricKey>): seq<FactRow> {
    AugFactsFrom(cat, aug, aug, corp, year, spec)
  }

  /** The rows of other scopes, which the DELETE keeps. */
  function OutOfScope(rows: seq<FactRow>, corp: string, year: int): seq<FactRow> {
    Where(rows, (f: FactRow) => !InScope(f, corp, year))
  }

  /** The views a load reads. */
  datatype Sources = Sources(compare: seq<CompareRow>, ratios: seq<FinancialRatio>, aug: seq<ValueRow>)

  /** The table after a load: other scopes, then the three batches. */
  function Loaded(rows: seq<FactRow>, cat: seq<CatalogRow>, src: Sources, corp: string, year: int, spec: seq<MetricKey>): seq<FactRow> {
    OutOfScope(rows, corp, year)
    + RawFacts(cat, src.compare, corp, year, spec)
    + RatioFacts(cat, src.ratios, corp, year, spec)
    + AugFacts(cat, src.aug, corp, year, spec)
  }

  // ---------------------------------------------------------------
  // benchmark_improved
  // ---------------------------------------------------------------

  /** The CASE of update_benchmark_improved; a NULL value compares to NULL. */
  function Improved(value: Option<real>, bench: Option<real>, polarity: Option<bool>): Option<bool> {
    if bench.None? || polarity.None? || value.None? then None
    else if polarity.value then Some(value.value >= bench.value)
    else Some(value.value <= bench.value)
  }

  /** The new row of update_benchmark_improved: rows of the scope whose key
      is requested and catalogued are recomputed, all others kept. */
  function BenchmarkRow(f: FactRow, cat: seq<CatalogRow>, corp: string, year: int, spec: seq<MetricKey>): FactRow {
    var mc := CatalogEntry(cat, f.metricKey);
    if InScope(f, corp, year) && f.metricKey in spec && mc.Some?
    then f.(benchmarkImproved := Improved(f.value, f.benchmarkValue, mc.value.polarity))
    else f
  }

  /** The fact_metrics table. */
  class FactMetrics {
    var rows: seq<FactRow>

    constructor()
      ensures rows == []
    {
      rows := [];
    }

    /** load_fact_metrics: raises on an empty spec; otherwise deletes the
        scope and inserts the RAW, RATIO and DERIVED/MARKET batches. */
    method LoadFactMetrics(cat: seq<CatalogRow>, src: Sources, corp: string, year: int, spec: seq<MetricKey>) returns (r: Result<()>)
      modifies this
      ensures spec == [] ==> r.Err? && rows == old(rows)
      ensures spec != [] ==> r.Ok? && rows == Loaded(old(rows), cat, src, corp, year, spec)
    {
      if spec == [] {
        return Err("metrics_spec is empty");
      }
      rows := OutOfScope(rows, corp, year);
      rows := rows + RawFacts(cat, src.compare, corp, year, spec);
      rows := rows + RatioFacts(cat, src.ratios, corp, year, spec);
      rows := rows + AugFacts(cat, src.aug, corp, year, spec);
      r := Ok(());
    }

    /** update_benchmark_improved, row by row; an empty spec makes the SQL
        `IN ()` list invalid. */
    method UpdateBenchmarkImproved(cat: seq<CatalogRow>, corp: string, year: int, spec: seq<MetricKey>) returns (r: Result<()>)
      modifies this
      ensures spec == [] ==> r.Err? && rows == old(rows)
      ensures spec != [] ==> r.Ok? && |rows| == |old(rows)|
      ensures spec != [] ==> forall i :: 0 <= i < |rows| ==> rows[i] == BenchmarkRow(old(rows)[i], cat, corp, year, spec)
    {
      if spec == [] {
        return Err("empty IN list");
      }
      var i := 0;
      while i < |rows|
        invariant 0 <= i <= |rows| && |rows| == |old(rows)|
        invariant forall k :: 0 <= k < i ==> rows[k] == BenchmarkRow(old(rows)[k], cat, corp, year, spec)
        invariant forall k :: i <= k < |rows| ==> rows[k] == old(rows)[k]
      {
        rows := rows[i := BenchmarkRow(rows[i], cat, corp, year, spec)];
        i := i + 1;
      }
      r := Ok(());
    }
  }

  // ---------------------------------------------------------------
  // properties
  // ---------------------------------------------------------------

  /** NULL whenever the benchmark, the polarity or the value is NULL;
      otherwise `>=` for higher-is-better and `<=` for lower-is-better. */
  lemma ImprovedSpec(value: Option<real>, bench: Option<real>, polarity: Option<bool>)
    ensures Improved(value, bench, polarity).None? <==> bench.None? || polarity.None? || value.None?
    ensures Improved(value, bench, polarity) == Some(true) <==>
      value.Some? && bench.Some? && ((polarity == Some(true) && value.value >= bench.value) || (polarity == Some(false) && value.value <= bench.value))
  {
  }

  /** Year-over-year columns of the RATIO and DERIVED/MARKET paths. */
  lemma YoySpec(cur: Option<real>, prev: Option<real>)
    ensures YoyAbs(cur, prev).Some? <==> cur.Some? && prev.Some?
    ensures YoyAbs(cur, prev).Some? ==> prev.value + YoyAbs(cur, prev).value == cur.value
    ensures YoyPct(cur, prev).Some? <==> cur.Some? && prev.Some? && prev.value != 0.0
    ensures YoyPct(cur, prev).Some? ==> YoyPct(cur, prev).value * Abs(prev.value) == YoyAbs(cur, prev).value
  {
    if YoyPct(cur, prev).Some? {
      var d := cur.value - prev.value;
      var a := Abs(prev.value);
      assert d / a * a == d;
    }
  }

  /** The RAW path: rows of compare in scope whose key is requested and
      catalogued as raw. */
  lemma {:induction false} RawFactsSpec(cat: seq<CatalogRow>, compare: seq<CompareRow>, corp: string, year: int, spec: seq<MetricKey>)
    ensures forall f :: f in RawFacts(cat, compare, corp, year, spec) ==>
      InScope(f, corp, year) && f.metricKey in spec && CatalogTyped(cat, f.metricKey, Raw) &&
      f.metricType == Raw && f.metricKey.Item? && f.unit == CatalogEntry(cat, f.metricKey).value.unit &&
      f.benchmarkValue.None? && f.benchmarkImproved.None?
    ensures forall a :: a in compare && a.corpCode == corp && a.bsnsYear == year && Item(a.stdKey) in spec && CatalogTyped(cat, Item(a.stdKey), Raw) ==>
      RawFact(a, CatalogEntry(cat, Item(a.stdKey)).value) in RawFacts(cat, compare, corp, year, spec)
  {
    if compare != [] {
      RawFactsSpec(cat, compare[1..], corp, year, spec);
      assert compare == [compare[0]] + compare[1..];
    }
  }

  /** The year-over-year columns of a v_analysis_compare row. */
  predicate CompareConsistent(a: CompareRow) {
    a.diffAmt == a.valCurr - a.valPrev.GetOr(0.0) &&
    (a.diffRate.Some? <==> a.valPrev.Some? && a.valPrev.value != 0.0) &&
    (a.diffRate.Some? ==> a.diffRate.value * Abs(a.valPrev.value) == a.diffAmt * 100.0)
  }

  lemma CompareOfConsistent(c: SummaryRow, prev: Option<real>)
    ensures CompareConsistent(CompareOf(c, prev))
  {
    CompareOfMeaning(c, prev);
  }

  lemma CompareForConsistent(summary: seq<SummaryRow>, c: SummaryRow)
    ensures forall a :: a in CompareFor(summary, c) ==> CompareConsistent(a)
  {
    var ps := PrevRows(summary, c);
    if ps == [] {
      CompareOfConsistent(c, None);
    } else {
      var m := MapSeq(ps, (p: SummaryRow) => CompareOf(c, Some(p.val)));
      forall a | a in m ensures CompareConsistent(a) {
        var q :| 0 <= q < |m| && m[q] == a;
        CompareOfConsistent(c, Some(ps[q].val));
      }
    }
  }

  lemma {:induction false} CompareAllConsistent(summary: seq<SummaryRow>, curr: seq<SummaryRow>)
    ensures forall a :: a in CompareAll(summary, curr) ==> CompareConsistent(a)
  {
    if curr != [] {
      CompareAllConsistent(summary, curr[1..]);
      CompareForConsistent(summary, curr[0]);
    }
  }

  /** Every row of v_analysis_compare has consistent year-over-year columns. */
  lemma AnalysisCompareConsistent(summary: seq<SummaryRow>)
    ensures forall a :: a in AnalysisCompare(summary) ==> CompareConsistent(a)
  {
    CompareAllConsistent(summary, summary);
  }

  /** Over v_analysis_compare, a raw row's yoy_abs is value − COALESCE(previous, 0)
      and its yoy_pct is yoy_abs over |previous|, NULL for a missing or zero
      previous value. */
  lemma {:induction false} RawFactsYoy(cat: seq<CatalogRow>, compare: seq<CompareRow>, corp: string, year: int, spec: seq<MetricKey>)
    requires forall a :: a in compare ==> CompareConsistent(a)
    ensures forall f :: f in RawFacts(cat, compare, corp, year, spec) ==>
      f.value.Some? && f.yoyAbs == Some(f.value.value - f.valuePrev.GetOr(0.0)) &&
      (f.yoyPct.Some? <==> f.valuePrev.Some? && f.valuePrev.value != 0.0) &&
      (f.yoyPct.Some? ==> f.yoyPct.value * Abs(f.valuePrev.value) == f.yoyAbs.value)
  {
    if compare != [] {
      assert compare[0] in compare;
      forall a | a in compare[1..] ensures CompareConsistent(a) {
        assert a in compare;
      }
      RawFactsYoy(cat, compare[1..], corp, year, spec);
      var a := compare[0];
      if a.diffRate.Some? {
        assert a.diffRate.value / 100.0 * Abs(a.valPrev.value) == a.diffAmt;
      }
    }
  }

  /** A row of a delta path, as a predicate on the row. */
  predicate DeltaRow(f: FactRow, cat: seq<CatalogRow>, corp: string, year: int, spec: seq<MetricKey>) {
    InScope(f, corp, year) && f.metricKey in spec && CatalogEntry(cat, f.metricKey).Some? &&
    f.metricType == CatalogEntry(cat, f.metricKey).value.metricType && f.unit == CatalogEntry(cat, f.metricKey).value.unit &&
    f.yoyAbs == YoyAbs(f.value, f.valuePrev) && f.yoyPct == YoyPct(f.value, f.valuePrev) &&
    f.benchmarkValue.None? && f.benchmarkImproved.None?
  }

  lemma {:induction false} RatioDeltasSpec(cur: FinancialRatio, mc: CatalogRow, prevs: seq<FinancialRatio>)
    ensures forall f :: f in RatioDeltas(cur, mc, prevs) ==>
      f == DeltaFact(cur.report.corpCode, cur.report.bsnsYear, RatioMetric(cur.ratioKey), mc, cur.ratioValue, f.valuePrev)
  {
    if prevs != [] {
      RatioDeltasSpec(cur, mc, prevs[1..]);
    }
  }

  lemma RatioJoinSpec(cur: FinancialRatio, mc: CatalogRow, ratios: seq<FinancialRatio>)
    ensures forall f :: f in RatioJoin(cur, mc, ratios) ==>
      f == DeltaFact(cur.report.corpCode, cur.report.bsnsYear, RatioMetric(cur.ratioKey), mc, cur.ratioValue, f.valuePrev)
  {
    RatioDeltasSpec(cur, mc, Where(ratios, (p: FinancialRatio) => IsPrevRatio(p, cur)));
  }

  /** The RATIO path stores only requested ratio keys catalogued as ratio. */
  lemma {:induction false} RatioFactsSpec(cat: seq<CatalogRow>, curs: seq<FinancialRatio>, ratios: seq<FinancialRatio>, corp: string, year: int, spec: seq<MetricKey>)
    ensures forall f :: f in RatioFactsFrom(cat, curs, ratios, corp, year, spec) ==>
      DeltaRow(f, cat, corp, year, spec) && f.metricType == Ratio && f.metricKey.RatioMetric?
  {
    if curs != [] {
      RatioFactsSpec(cat, curs[1..], ratios, corp, year, spec);
      var c := curs[0];
      if c.report.corpCode == corp && c.report.bsnsYear == year && RatioMetric(c.ratioKey) in spec && CatalogTyped(cat, RatioMetric(c.ratioKey), Ratio) {
        RatioJoinSpec(c, CatalogEntry(cat, RatioMetric(c.ratioKey)).value, ratios);
      }
    }
  }

  lemma {:induction false} ValueDeltasSpec(cur: ValueRow, mc: CatalogRow, prevs: seq<ValueRow>)
    ensures forall f :: f in ValueDeltas(cur, mc, prevs) ==>
      f == DeltaFact(cur.report.corpCode, cur.report.bsnsYear, Item(cur.stdKey), mc, cur.valueWon, f.valuePrev)
  {
    if prevs != [] {
      ValueDeltasSpec(cur, mc, prevs[1..]);
    }
  }

  lemma ValueJoinSpec(cur: ValueRow, mc: CatalogRow, aug: seq<ValueRow>)
    ensures forall f :: f in ValueJoin(cur, mc, aug) ==>
      f == DeltaFact(cur.report.corpCode, cur.report.bsnsYear, Item(cur.stdKey), mc, cur.valueWon, f.valuePrev)
  {
    ValueDeltasSpec(cur, mc, Where(aug, (p: ValueRow) => IsPrevValue(p, cur)));
  }

  /** The DERIVED/MARKET path stores only requested keys catalogued as derived or market. */
  lemma {:induction false} AugFactsSpec(cat: seq<CatalogRow>, curs: seq<ValueRow>, aug: seq<ValueRow>, corp: string, year: int, spec: seq<MetricKey>)
    ensures forall f :: f in AugFactsFrom(cat, curs, aug, corp, year, spec) ==>
      DeltaRow(f, cat, corp, year, spec) && (f.metricType == Derived || f.metricType == Market) && f.metricKey.Item?
  {
    if curs != [] {
      AugFactsSpec(cat, curs[1..], aug, corp, year, spec);
      var c := curs[0];
      if c.report.corpCode == corp && c.report.bsnsYear == year && Item(c.stdKey) in spec && CatalogAugmented(cat, Item(c.stdKey)) {
        ValueJoinSpec(c, CatalogEntry(cat, Item(c.stdKey)).value, aug);
      }
    }
  }

  /** A row in the loaded scope comes from one of the three paths and is
      requested, catalogued with the type of its path, and has no benchmark. */
  predicate Stored(f: FactRow, cat: seq<CatalogRow>, corp: string, year: int, spec: seq<MetricKey>) {
    InScope(f, corp, year) && f.metricKey in spec && CatalogEntry(cat, f.metricKey).Some? &&
    f.metricType == CatalogEntry(cat, f.metricKey).value.metricType &&
    !f.metricKey.Unknown? &&
    (f.metricKey.RatioMetric? <==> f.metricType == Ratio) &&
    f.benchmarkValue.None? && f.benchmarkImproved.None?
  }

  /** After a load, the other scopes are untouched and every row of the
      scope was stored by this load. */
  lemma LoadedSpec(rows: seq<FactRow>, cat: seq<CatalogRow>, src: Sources, corp: string, year: int, spec: seq<MetricKey>)
    ensures forall f :: !InScope(f, corp, year) ==> (f in Loaded(rows, cat, src, corp, year, spec) <==> f in rows)
    ensures forall f :: f in Loaded(rows, cat, src, corp, year, spec) && InScope(f, corp, year) ==> Stored(f, cat, corp, year, spec)
  {
    WhereSpec(rows, (f: FactRow) => !InScope(f, corp, year));
    RawFactsSpec(cat, src.compare, corp, year, spec);
    RatioFactsSpec(cat, src.ratios, src.ratios, corp, year, spec);
    AugFactsSpec(cat, src.aug, src.aug, corp, year, spec);
  }

  /** A key without a catalog row is never stored, whatever is requested. */
  lemma UncataloguedNeverStored(rows: seq<FactRow>, cat: seq<CatalogRow>, src: Sources, corp: string, year: int, spec: seq<MetricKey>, k: MetricKey)
    requires forall c :: c in cat ==> c.metricKey != k
    ensures forall f :: f in Loaded(rows, cat, src, corp, year, spec) && InScope(f, corp, year) ==> f.metricKey != k
  {
    LoadedSpec(rows, cat, src, corp, year, spec);
  }

  /** current_ratio and TOTAL_LIABILITIES have no catalog row. */
  lemma ShippedUncatalogued()
    ensures forall i :: 0 <= i < |METRIC_CATALOG| ==> METRIC_CATALOG[i].metricKey != RatioMetric(current_ratio)
    ensures forall i :: 0 <= i < |METRIC_CATALOG| ==> METRIC_CATALOG[i].metricKey != Item(TOTAL_LIABILITIES)
  {
  }

  /** Benchmark values are never filled by the load, so an update right
      after it leaves benchmark_improved NULL on every row of the scope. */
  lemma LoadThenUpdate(rows: seq<FactRow>, cat: seq<CatalogRow>, src: Sources, corp: string, year: int, spec: seq<MetricKey>, i: nat)
    requires i < |Loaded(rows, cat, src, corp, year, spec)|
    requires InScope(Loaded(rows, cat, src, corp, year, spec)[i], corp, year)
    ensures BenchmarkRow(Loaded(rows, cat, src, corp, year, spec)[i], cat, corp, year, spec).benchmarkImproved.None?
  {
    LoadedSpec(rows, cat, src, corp, year, spec);
    assert Loaded(rows, cat, src, corp, year, spec)[i] in Loaded(rows, cat, src, corp, year, spec);
  }

  /** The update changes at most benchmark_improved, and only in the scope. */
  lemma BenchmarkRowSpec(f: FactRow, cat: seq<CatalogRow>, corp: string, year: int, spec: seq<MetricKey>)
    ensures BenchmarkRow(f, cat, corp, year, spec).(benchmarkImproved := f.benchmarkImproved) == f
    ensures !InScope(f, corp, year) || f.metricKey !in spec ==> BenchmarkRow(f, cat, corp, year, spec) == f
    ensures InScope(f, corp, year) && f.metricKey in spec && CatalogEntry(cat, f.metricKey).Some? ==>
      BenchmarkRow(f, cat, corp, year, spec).benchmarkImproved == Improved(f.value, f.benchmarkValue, CatalogEntry(cat, f.metricKey).value.polarity)
  {
  }
}
