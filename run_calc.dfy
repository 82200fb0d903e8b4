/** scripts/run_calc.py: load fact_metrics, update benchmark_improved, run the
    fail-closed validation, and export metrics.json. */
module RunCalc {
  import opened Common
  import opened CalcKeys
  import opened CalcFacts

  // ---------------------------------------------------------------------------
  // run_validation
  // ---------------------------------------------------------------------------

  datatype Level = PASS | WARN | FAIL

  /** One validation result. */
  datatype Check = Check(metricKey: string, level: Level, message: string)

  datatype Summary = Summary(pass: nat, warn: nat, fail: nat)

  /** At most this many FAIL details are printed. */
  const MAX_FAIL_DETAILS := 20

  function CountLevel(checks: seq<Check>, l: Level): (n: nat)
    ensures n <= |checks|
  {
    if checks == [] then 0
    else CountLevel(checks[..|checks| - 1], l) + (if checks[|checks| - 1].level == l then 1 else 0)
  }

  function SummaryOf(checks: seq<Check>): Summary {
    Summary(CountLevel(checks, PASS), CountLevel(checks, WARN), CountLevel(checks, FAIL))
  }

  /** fails: the FAIL checks in order. */
  function Fails(checks: seq<Check>): seq<Check> {
    if checks == [] then []
    else Fails(checks[..|checks| - 1]) + (if checks[|checks| - 1].level == FAIL then [checks[|checks| - 1]] else [])
  }

  /** "- {metric_key}: {message}" */
  function DetailLine(c: Check): string {
    "- " + c.metricKey + ": " + c.message
  }

  function DetailLines(cs: seq<Check>): (r: seq<string>)
    ensures |r| == |cs|
  {
    if cs == [] then [] else DetailLines(cs[..|cs| - 1]) + [DetailLine(cs[|cs| - 1])]
  }

  const VALIDATION_FAILED := "❌ Validation failed"

  /** run_validation over the checks the validators produced. Returns the
      summary, or the SystemExit raised when a check failed; `details` are the
      FAIL lines it prints. */
  method RunValidation(checks: seq<Check>) returns (r: Result<Summary>, details: seq<string>)
    ensures CountLevel(checks, FAIL) == 0 ==> r == Ok(SummaryOf(checks)) && details == []
    ensures CountLevel(checks, FAIL) > 0 ==> r == Err(VALIDATION_FAILED)
    ensures details == DetailLines(Take(Fails(checks), MAX_FAIL_DETAILS))
  {
    var summary, fails := Tally(checks);
    FailsCount(checks);
    details := [];
    if fails != [] {
      details := FailDetails(Take(fails, MAX_FAIL_DETAILS));
      return Err(VALIDATION_FAILED), details;
    }
    r := Ok(summary);
  }

  /** The counting loop: summary[c.level] += 1, and the FAIL checks collected. */
  method Tally(checks: seq<Check>) returns (summary: Summary, fails: seq<Check>)
    ensures summary == SummaryOf(checks) && fails == Fails(checks)
  {
    summary := Summary(0, 0, 0);
    fails := [];
    for i := 0 to |checks|
      invariant summary == SummaryOf(checks[..i])
      invariant fails == Fails(checks[..i])
    {
      assert checks[..i + 1][..i] == checks[..i];
      var c := checks[i];
      match c.level
      case PASS => summary := summary.(pass := summary.pass + 1);
      case WARN => summary := summary.(warn := summary.warn + 1);
      case FAIL => summary := summary.(fail := summary.fail + 1);
      if c.level == FAIL {
        fails := fails + [c];
      }
    }
    assert checks[..|checks|] == checks;
  }

  /** The printed FAIL details, one line per shown check. */
  method FailDetails(shown: seq<Check>) returns (details: seq<string>)
    ensures details == DetailLines(shown)
  {
    details := [];
    for i := 0 to |shown|
      invariant details == DetailLines(shown[..i])
    {
      assert shown[..i + 1][..i] == shown[..i];
      details := details + [DetailLine(shown[i])];
    }
    assert shown[..|shown|] == shown;
  }

  // ---------------------------------------------------------------------------
  // export_metrics_json
  // ---------------------------------------------------------------------------

  /** A numeric cell of the fetched DataFrame: pandas holds SQL NULL as NaN. */
  datatype PdNum = NaN | Num(x: real)

  /** A boolean cell: NULL is NA. */
  datatype PdBool = NA | Bool(b: bool)

  /** A fetched row of fact_metrics. */
  datatype DfRow = DfRow(metricKey: MetricKey, metricType: MetricType, value: PdNum, valuePrev: PdNum,
                         yoyAbs: PdNum, yoyPct: PdNum, unit: Unit, benchmarkCorpCode: Option<string>,
                         benchmarkValue: PdNum, benchmarkImproved: PdBool)

  /** One object of the "rows" list; None is JSON null. */
  datatype JsonRow = JsonRow(metricKey: MetricKey, metricType: MetricType, value: Option<real>, valuePrev: Option<real>,
                             yoyAbs: Option<real>, yoyPct: Option<real>, unit: Unit, benchmarkCorpCode: Option<string>,
                             benchmarkValue: Option<real>, benchmarkImproved: Option<bool>)

  datatype Payload = Payload(corpCode: string, bsnsYear: int, rows: seq<JsonRow>)

  /** How pandas reads a NULL-able column. */
  function ToPd(v: Option<real>): PdNum {
    if v.None? then NaN else Num(v.value)
  }

  /** None if pd.isna(v) else float(v) */
  function FromPd(v: PdNum): (r: Option<real>)
    ensures r.None? <==> v.NaN?
  {
    if v.NaN? then None else Some(v.x)
  }

  function FromPdBool(v: PdBool): (r: Option<bool>)
    ensures r.None? <==> v.NA?
  {
    if v.NA? then None else Some(v.b)
  }

  /** The fetched form of a fact_metrics row. */
  function Fetched(f: FactRow): DfRow {
    DfRow(f.metricKey, f.metricType, ToPd(f.value), ToPd(f.valuePrev), ToPd(f.yoyAbs), ToPd(f.yoyPct), f.unit,
          f.benchmarkCorpCode, ToPd(f.benchmarkValue), if f.benchmarkImproved.None? then NA else Bool(f.benchmarkImproved.value))
  }

  function JsonRowOf(d: DfRow): JsonRow {
    JsonRow(d.metricKey, d.metricType, FromPd(d.value), FromPd(d.valuePrev), FromPd(d.yoyAbs), FromPd(d.yoyPct), d.unit,
            d.benchmarkCorpCode, FromPd(d.benchmarkValue), FromPdBool(d.benchmarkImproved))
  }

  function JsonRows(df: seq<DfRow>): (r: seq<JsonRow>)
    ensures |r| == |df|
  {
    if df == [] then [] else JsonRows(df[..|df| - 1]) + [JsonRowOf(df[|df| - 1])]
  }

  /** export_metrics_json: one JSON row per fetched row, in order. */
  method ExportMetricsJson(df: seq<DfRow>, corp: string, year: int) returns (p: Payload)
    ensures p.corpCode == corp && p.bsnsYear == year
    ensures |p.rows| == |df|
    ensures forall i :: 0 <= i < |df| ==> p.rows[i] == JsonRowOf(df[i])
  {
    var rows: seq<JsonRow> := [];
    for i := 0 to |df|
      invariant rows == JsonRows(df[..i])
    {
      assert df[..i + 1][..i] == df[..i];
      rows := rows + [JsonRowOf(df[i])];
    }
    assert df[..|df|] == df;
    JsonRowsAt(df);
    p := Payload(corp, year, rows);
  }

  // ---------------------------------------------------------------------------
  // main
  // ---------------------------------------------------------------------------

  /** Where a run stopped: an exception in a step, or metrics.json written. */
  datatype Outcome = LoadFailed(msg: string) | ValidationFailed(details: seq<string>) | Written(payload: Payload)

  /** main: the four steps in order. The validators and fetch_fact_metrics are
      not part of this model and come in as functions of the table. */
  method RunCalcMain(db: FactMetrics, cat: seq<CatalogRow>, src: Sources, corp: string, year: int, spec: seq<MetricKey>,
                     validators: seq<FactRow> -> seq<Check>, fetch: seq<FactRow> -> seq<FactRow>)
    returns (o: Outcome)
    modifies db
    ensures spec == [] ==> o.LoadFailed? && db.rows == old(db.rows)
    ensures spec != [] ==> db.rows == Updated(Loaded(old(db.rows), cat, src, corp, year, spec), cat, corp, year, spec)
    ensures spec != [] && CountLevel(validators(db.rows), FAIL) > 0 ==> o.ValidationFailed?
    ensures spec != [] && CountLevel(validators(db.rows), FAIL) == 0 ==>
      o == Written(Payload(corp, year, JsonRows(FetchAll(fetch(db.rows)))))
  {
    var r1 := db.LoadFactMetrics(cat, src, corp, year, spec);
    if r1.Err? {
      return LoadFailed(r1.msg);
    }
    ghost var loaded := db.rows;
    var r2 := db.UpdateBenchmarkImproved(cat, corp, year, spec);
    UpdatedAt(loaded, db.rows, cat, corp, year, spec);
    var r3, details := RunValidation(validators(db.rows));
    if r3.Err? {
      return ValidationFailed(details);
    }
    var p := ExportMetricsJson(FetchAll(fetch(db.rows)), corp, year);
    JsonRowsEq(FetchAll(fetch(db.rows)), p.rows);
    o := Written(p);
  }

  /** The table after update_benchmark_improved. */
  function Updated(rows: seq<FactRow>, cat: seq<CatalogRow>, corp: string, year: int, spec: seq<MetricKey>): (r: seq<FactRow>)
    ensures |r| == |rows|
  {
    if rows == [] then []
    else Updated(rows[..|rows| - 1], cat, corp, year, spec) + [BenchmarkRow(rows[|rows| - 1], cat, corp, year, spec)]
  }

  function FetchAll(rows: seq<FactRow>): (r: seq<DfRow>)
    ensures |r| == |rows|
  {
    if rows == [] then [] else FetchAll(rows[..|rows| - 1]) + [Fetched(rows[|rows| - 1])]
  }

  // ---------------------------------------------------------------------------
  // Properties
  // ---------------------------------------------------------------------------

  /** Every check is counted under exactly one level. */
  lemma {:induction false} SummaryTotal(checks: seq<Check>)
    ensures SummaryOf(checks).pass + SummaryOf(checks).warn + SummaryOf(checks).fail == |checks|
  {
    if checks != [] {
      SummaryTotal(checks[..|checks| - 1]);
    }
  }

  /** fails holds exactly the FAIL checks, in order. */
  lemma {:induction false} FailsCount(checks: seq<Check>)
    ensures |Fails(checks)| == CountLevel(checks, FAIL)
    ensures forall c :: c in Fails(checks) <==> c in checks && c.level == FAIL
  {
    if checks != [] {
      var n := |checks| - 1;
      FailsCount(checks[..n]);
      assert checks == checks[..n] + [checks[n]];
    }
  }

  /** At most 20 details are printed, and all of them when there are fewer FAIL checks. */
  lemma DetailsBound(checks: seq<Check>)
    ensures |DetailLines(Take(Fails(checks), MAX_FAIL_DETAILS))| == Min(MAX_FAIL_DETAILS, CountLevel(checks, FAIL))
  {
    FailsCount(checks);
  }

  lemma {:induction false} JsonRowsAt(df: seq<DfRow>)
    ensures forall i :: 0 <= i < |df| ==> JsonRows(df)[i] == JsonRowOf(df[i])
  {
    if df != [] {
      JsonRowsAt(df[..|df| - 1]);
    }
  }

  lemma JsonRowsEq(df: seq<DfRow>, rows: seq<JsonRow>)
    requires |rows| == |df| && forall i :: 0 <= i < |df| ==> rows[i] == JsonRowOf(df[i])
    ensures rows == JsonRows(df)
  {
    JsonRowsAt(df);
  }

  lemma {:induction false} UpdatedAt(before: seq<FactRow>, after: seq<FactRow>, cat: seq<CatalogRow>, corp: string, year: int, spec: seq<MetricKey>)
    requires |after| == |before|
    requires forall i :: 0 <= i < |after| ==> after[i] == BenchmarkRow(before[i], cat, corp, year, spec)
    ensures after == Updated(before, cat, corp, year, spec)
  {
    if before != [] {
      var n := |before| - 1;
      UpdatedAt(before[..n], after[..n], cat, corp, year, spec);
    }
  }

  /** A NULL in fact_metrics is NaN in the DataFrame and null in the JSON; a
      value goes through unchanged. */
  lemma ExportRoundTrip(f: FactRow)
    ensures var j := JsonRowOf(Fetched(f));
      j.value == f.value && j.valuePrev == f.valuePrev && j.yoyAbs == f.yoyAbs && j.yoyPct == f.yoyPct
      && j.benchmarkValue == f.benchmarkValue && j.benchmarkImproved == f.benchmarkImproved
      && j.metricKey == f.metricKey && j.benchmarkCorpCode == f.benchmarkCorpCode
  {
  }
}
