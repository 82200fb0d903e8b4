/** build_metrics_for_section of prompts/common/builders/create_metrics.py:
    the metrics spec (new list-of-keys form or the legacy dict forms) is
    reduced to metric keys, the fact_metrics rows of the report's scope are
    collected by key, and one output row is produced per requested key, in
    request order, with an explicit `missing` row for keys without a fact. */
module PromptMetrics {
  import opened Common
  import opened Json

  // ---------------------------------------------------------------------------
  // _normalize_metrics_spec
  // ---------------------------------------------------------------------------

  /** The new format: a list whose first element is a string. */
  predicate NewFormat(spec: Value) {
    spec.JList? && (spec.items == [] || spec.items[0].JStr?)
  }

  /** [str(x) for x in spec if x]. */
  function TruthyStrings(xs: seq<Value>, show: Show): (r: seq<string>)
    ensures |r| <= |xs|
  {
    if xs == [] then []
    else TruthyStrings(xs[..|xs| - 1], show)
         + (if Truthy(xs[|xs| - 1]) then [PyStr(xs[|xs| - 1], show)] else [])
  }

  /** What one legacy `keys` entry contributes: a dict's truthy "key" as a
      string, or a plain string itself. */
  function LegacyKey(it: Value, show: Show): seq<string> {
    if it.JObj? && HasTruthy(it.fields, "key") then [PyStr(Lookup(it.fields, "key").value, show)]
    else if it.JStr? then [it.s]
    else []
  }

  function LegacyKeys(items: seq<Value>, show: Show): seq<string> {
    FlatMap(items, it => LegacyKey(it, show))
  }

  /** The legacy spec after a list was reduced to its first element. */
  function LegacySpec(spec: Value): Value {
    if spec.JList? then (if spec.items != [] then spec.items[0] else JNull) else spec
  }

  /** _normalize_metrics_spec; iterating a truthy non-iterable "keys" value
      raises TypeError. */
  function NormalizeMetricsSpec(spec: Value, show: Show): Result<seq<string>> {
    if !Truthy(spec) then Ok([])
    else if NewFormat(spec) then Ok(TruthyStrings(spec.items, show))
    else
      var d := LegacySpec(spec);
      if !d.JObj? then Ok([])
      else
        var keys := GetOr(d.fields, "keys", JNull);
        var ks := if Truthy(keys) then keys else JList([]);
        match Iterate(ks)
        case Err(m) => Err(m)
        case Ok(items) => Ok(LegacyKeys(items, show))
  }

  /** The loop over the legacy `keys` entries. */
  method CollectLegacyKeys(items: seq<Value>, show: Show) returns (out: seq<string>)
    ensures out == LegacyKeys(items, show)
  {
    out := [];
    for i := 0 to |items|
      invariant out == LegacyKeys(items[..i], show)
    {
      FlatMapPrefix(items, i, it => LegacyKey(it, show));
      var it := items[i];
      if it.JObj? && HasTruthy(it.fields, "key") {
        out := out + [PyStr(Lookup(it.fields, "key").value, show)];
      } else if it.JStr? {
        out := out + [it.s];
      }
    }
    assert items[..|items|] == items;
  }

  method NormalizeSpec(spec: Value, show: Show) returns (r: Result<seq<string>>)
    ensures r == NormalizeMetricsSpec(spec, show)
  {
    if !Truthy(spec) {
      return Ok([]);
    }
    if NewFormat(spec) {
      return Ok(TruthyStrings(spec.items, show));
    }
    var d := LegacySpec(spec);
    if !d.JObj? {
      return Ok([]);
    }
    var keys := GetOr(d.fields, "keys", JNull);
    if !Truthy(keys) {
      keys := JList([]);
    }
    var items := Iterate(keys);
    if items.Err? {
      return Err(items.msg);
    }
    var out := CollectLegacyKeys(items.value, show);
    r := Ok(out);
  }

  /** Falsy specs (None, [], {}, "") give no keys. */
  lemma NormalizeFalsy(spec: Value, show: Show)
    requires !Truthy(spec)
    ensures NormalizeMetricsSpec(spec, show) == Ok([])
  {
  }

  /** Every kept string comes from a truthy entry, and every truthy entry
      is kept. */
  lemma {:induction false} TruthyStringsSpec(xs: seq<Value>, show: Show)
    ensures forall i :: 0 <= i < |xs| && Truthy(xs[i]) ==> PyStr(xs[i], show) in TruthyStrings(xs, show)
    ensures forall s :: s in TruthyStrings(xs, show) ==> exists i :: 0 <= i < |xs| && KeptAt(xs, i, s, show)
  {
    if xs != [] {
      var n := |xs| - 1;
      var init := xs[..n];
      TruthyStringsSpec(init, show);
      forall s | s in TruthyStrings(xs, show)
        ensures exists i :: 0 <= i < |xs| && KeptAt(xs, i, s, show)
      {
        if s in TruthyStrings(init, show) {
          var i :| 0 <= i < |init| && KeptAt(init, i, s, show);
          assert KeptAt(xs, i, s, show);
        } else {
          assert KeptAt(xs, n, s, show);
        }
      }
    }
  }

  predicate KeptAt(xs: seq<Value>, i: nat, s: string, show: Show)
    requires i < |xs|
  {
    Truthy(xs[i]) && PyStr(xs[i], show) == s
  }

  /** A list of strings comes back unchanged, minus its empty strings. */
  lemma NewFormatStrings(names: seq<string>, xs: seq<Value>, show: Show)
    requires |xs| == |names| && forall i :: 0 <= i < |xs| ==> xs[i] == JStr(names[i])
    requires names != [] && names[0] != []
    ensures NormalizeMetricsSpec(JList(xs), show) == Ok(NonEmpty(names))
  {
    StringsKept(names, xs, show);
  }

  /** The non-empty names, in order. */
  function NonEmpty(names: seq<string>): (r: seq<string>)
    ensures forall i :: 0 <= i < |r| ==> r[i] != [] && r[i] in names
    ensures forall i :: 0 <= i < |names| && names[i] != [] ==> names[i] in r
  {
    if names == [] then []
    else
      var init := names[..|names| - 1];
      var r := NonEmpty(init) + (if names[|names| - 1] != [] then [names[|names| - 1]] else []);
      assert forall i :: 0 <= i < |init| ==> names[i] == init[i];
      r
  }

  lemma {:induction false} StringsKept(names: seq<string>, xs: seq<Value>, show: Show)
    requires |xs| == |names| && forall i :: 0 <= i < |xs| ==> xs[i] == JStr(names[i])
    ensures TruthyStrings(xs, show) == NonEmpty(names)
  {
    if names != [] {
      StringsKept(names[..|names| - 1], xs[..|xs| - 1], show);
    }
  }

  /** A legacy list is reduced to its first element: only that dict counts. */
  lemma LegacyListFirst(d: Dict, rest: seq<Value>, show: Show)
    ensures NormalizeMetricsSpec(JList([JObj(d)] + rest), show) == NormalizeMetricsSpec(JObj(d), show)
  {
    var spec := JList([JObj(d)] + rest);
    assert spec.items[0] == JObj(d);
  }

  /** Legacy dict items contribute their truthy "key", plain strings
      themselves, anything else nothing; the result is their contributions
      in item order. */
  lemma LegacyKeysAppend(a: seq<Value>, b: seq<Value>, show: Show)
    ensures LegacyKeys(a + b, show) == LegacyKeys(a, show) + LegacyKeys(b, show)
  {
    FlatMapAppend(a, b, it => LegacyKey(it, show));
  }

  /** Each entry's contribution: a string is kept, a dict gives str(key) when
      its "key" is truthy, and other entries give nothing. */
  lemma LegacyKeySpec(it: Value, show: Show)
    ensures it.JStr? ==> LegacyKeys([it], show) == [it.s]
    ensures it.JObj? && HasTruthy(it.fields, "key") ==> LegacyKeys([it], show) == [PyStr(Lookup(it.fields, "key").value, show)]
    ensures !it.JStr? && !(it.JObj? && HasTruthy(it.fields, "key")) ==> LegacyKeys([it], show) == []
  {
    FlatMapSnoc([], it, it => LegacyKey(it, show));
    assert [] + [it] == [it];
  }

  /** A spec that is neither a list nor a dict (a number, a string, True)
      gives no keys; so does a dict without a truthy "keys". */
  lemma NormalizeOther(spec: Value, show: Show)
    requires Truthy(spec) && !spec.JList? && !spec.JObj?
    ensures NormalizeMetricsSpec(spec, show) == Ok([])
  {
  }

  /** A truthy "keys" that is a number raises TypeError. */
  lemma NormalizeKeysNotIterable(d: Dict, n: int, show: Show)
    requires d != [] && Lookup(d, "keys") == Some(JInt(n)) && n != 0
    ensures NormalizeMetricsSpec(JObj(d), show).Err?
  {
  }

  // ---------------------------------------------------------------------------
  // build_metrics_for_section
  // ---------------------------------------------------------------------------

  /** A fact_metrics row as the query reads it (the unit and the value
      columns are already typed; NULL is None). */
  datatype FactRow = FactRow(
    corpCode: string, bsnsYear: int, metricKey: string,
    metricNameKo: Option<string>, metricType: Option<string>,
    value: Option<real>, valuePrev: Option<real>, yoyAbs: Option<real>, yoyPct: Option<real>,
    unit: Option<string>, benchmarkCorpCode: Option<string>, benchmarkValue: Option<real>,
    benchmarkImproved: Option<bool>)

  /** One output row; `missing` is true only on the rows made up for keys
      without a fact (the found rows carry no "missing" entry). */
  datatype MetricRow = MetricRow(
    metricKey: string, metricNameKo: Option<string>, metricType: Option<string>,
    value: Option<real>, valuePrev: Option<real>, yoyAbs: Option<real>, yoyPct: Option<real>,
    unit: Option<string>, benchmarkCorpCode: Option<string>, benchmarkValue: Option<real>,
    benchmarkImproved: Option<bool>, missing: bool)

  /** reports.corp_code (as str) and bsns_year of the report, when the report exists. */
  datatype ReportMeta = ReportMeta(corpCode: string, bsnsYear: int)

  /** The JSON written: report_id and rows always; corp_code and bsns_year
      only when the fact query ran. */
  datatype MetricsJson = MetricsJson(reportId: string, scope: Option<ReportMeta>, rows: seq<MetricRow>)

  function FoundRow(f: FactRow): MetricRow {
    MetricRow(f.metricKey, f.metricNameKo, f.metricType, f.value, f.valuePrev, f.yoyAbs, f.yoyPct,
              f.unit, f.benchmarkCorpCode, f.benchmarkValue, f.benchmarkImproved, false)
  }

  function MissingRow(k: string): MetricRow {
    MetricRow(k, None, None, None, None, None, None, None, None, None, None, true)
  }

  /** WHERE corp_code=? AND bsns_year=? AND metric_key IN keys, in table order. */
  predicate Selected(f: FactRow, m: ReportMeta, keys: seq<string>) {
    f.corpCode == m.corpCode && f.bsnsYear == m.bsnsYear && f.metricKey in keys
  }

  function Query(facts: seq<FactRow>, m: ReportMeta, keys: seq<string>): (r: seq<FactRow>)
    ensures forall i :: 0 <= i < |r| ==> Selected(r[i], m, keys)
  {
    if facts == [] then []
    else Query(facts[..|facts| - 1], m, keys)
         + (if Selected(facts[|facts| - 1], m, keys) then [facts[|facts| - 1]] else [])
  }

  /** The `found` dict: each fetched row stored under its key, later rows
      overwriting earlier ones. */
  function Found(rows: seq<FactRow>): map<string, MetricRow> {
    if rows == [] then map[]
    else Found(rows[..|rows| - 1])[rows[|rows| - 1].metricKey := FoundRow(rows[|rows| - 1])]
  }

  /** The output row of one requested key. */
  function OutRow(found: map<string, MetricRow>, k: string): MetricRow {
    if k in found then found[k] else MissingRow(k)
  }

  function OutRows(found: map<string, MetricRow>, keys: seq<string>): (r: seq<MetricRow>)
    ensures |r| == |keys| && forall i :: 0 <= i < |keys| ==> r[i] == OutRow(found, keys[i])
  {
    seq(|keys|, i requires 0 <= i < |keys| => OutRow(found, keys[i]))
  }

  /** The whole builder once the keys are known: meta is _report_meta's row
      (None when the report is absent) and hasTable whether fact_metrics exists. */
  function MetricsFor(reportId: string, keys: seq<string>, meta: Option<ReportMeta>, hasTable: bool, facts: seq<FactRow>): MetricsJson {
    if keys == [] || meta.None? || meta.value.corpCode == [] || !hasTable then MetricsJson(reportId, None, [])
    else MetricsJson(reportId, meta, OutRows(Found(Query(facts, meta.value, keys)), keys))
  }

  method FillFound(rows: seq<FactRow>) returns (found: map<string, MetricRow>)
    ensures found == Found(rows)
  {
    found := map[];
    for i := 0 to |rows|
      invariant found == Found(rows[..i])
    {
      assert rows[..i + 1][..i] == rows[..i];
      found := found[rows[i].metricKey := FoundRow(rows[i])];
    }
    assert rows[..|rows|] == rows;
  }

  method FillOutRows(found: map<string, MetricRow>, keys: seq<string>) returns (out: seq<MetricRow>)
    ensures out == OutRows(found, keys)
  {
    out := [];
    for i := 0 to |keys|
      invariant |out| == i && forall j :: 0 <= j < i ==> out[j] == OutRow(found, keys[j])
    {
      if keys[i] in found {
        out := out + [found[keys[i]]];
      } else {
        out := out + [MissingRow(keys[i])];
      }
    }
  }

  method BuildMetricsForSection(reportId: string, spec: Value, show: Show, meta: Option<ReportMeta>, hasTable: bool, facts: seq<FactRow>)
    returns (r: Result<MetricsJson>)
    ensures NormalizeMetricsSpec(spec, show).Err? <==> r.Err?
    ensures r.Ok? ==> r.value == MetricsFor(reportId, NormalizeMetricsSpec(spec, show).value, meta, hasTable, facts)
  {
    var keys := NormalizeSpec(spec, show);
    if keys.Err? {
      return Err(keys.msg);
    }
    if keys.value == [] || meta.None? || meta.value.corpCode == [] || !hasTable {
      return Ok(MetricsJson(reportId, None, []));
    }
    var rows := Query(facts, meta.value, keys.value);
    var found := FillFound(rows);
    var out := FillOutRows(found, keys.value);
    r := Ok(MetricsJson(reportId, meta, out));
  }

  /** A key is in `found` exactly when some fetched row has it, and then it
      holds the last such row. */
  lemma {:induction false} FoundSpec(rows: seq<FactRow>, k: string)
    ensures k in Found(rows) <==> exists i :: 0 <= i < |rows| && rows[i].metricKey == k
    ensures k in Found(rows) ==> exists i :: 0 <= i < |rows| && LastWith(rows, i, k) && Found(rows)[k] == FoundRow(rows[i])
  {
    FoundKeys(rows, k);
    if k in Found(rows) {
      FoundLast(rows, k);
    }
  }

  lemma {:induction false} FoundKeys(rows: seq<FactRow>, k: string)
    ensures k in Found(rows) <==> exists i :: 0 <= i < |rows| && rows[i].metricKey == k
  {
    if rows != [] {
      var n := |rows| - 1;
      var init := rows[..n];
      FoundKeys(init, k);
      if exists i :: 0 <= i < |rows| && rows[i].metricKey == k {
        var i :| 0 <= i < |rows| && rows[i].metricKey == k;
        if i < n {
          assert init[i] == rows[i];
        }
      }
      if exists i :: 0 <= i < n && init[i].metricKey == k {
        var i :| 0 <= i < n && init[i].metricKey == k;
        assert init[i] == rows[i];
      }
    }
  }

  lemma {:induction false} FoundLast(rows: seq<FactRow>, k: string)
    requires k in Found(rows)
    ensures exists i :: 0 <= i < |rows| && LastWith(rows, i, k) && Found(rows)[k] == FoundRow(rows[i])
  {
    var n := |rows| - 1;
    var init := rows[..n];
    if rows[n].metricKey == k {
      assert LastWith(rows, n, k);
    } else {
      FoundLast(init, k);
      var i :| 0 <= i < |init| && LastWith(init, i, k) && Found(init)[k] == FoundRow(init[i]);
      assert rows[i] == init[i];
      forall j | i < j < |rows| ensures rows[j].metricKey != k {
        if j < n {
          assert rows[j] == init[j];
        }
      }
      assert LastWith(rows, i, k);
    }
  }

  /** rows[i] is the last row with key k. */
  predicate LastWith(rows: seq<FactRow>, i: nat, k: string)
    requires i < |rows|
  {
    rows[i].metricKey == k && forall j :: i < j < |rows| ==> rows[j].metricKey != k
  }

  /** The rows follow the request: one per key, in key order, each under its
      own metric_key. */
  lemma RowsFollowKeys(reportId: string, keys: seq<string>, meta: ReportMeta, facts: seq<FactRow>)
    requires keys != [] && meta.corpCode != []
    ensures var out := MetricsFor(reportId, keys, Some(meta), true, facts);
            |out.rows| == |keys|
            && forall i :: 0 <= i < |keys| ==> out.rows[i].metricKey == keys[i]
  {
    var rows := Query(facts, meta, keys);
    forall i | 0 <= i < |keys|
      ensures OutRow(Found(rows), keys[i]).metricKey == keys[i]
    {
      FoundSpec(rows, keys[i]);
    }
  }

  /** A requested key is a `missing` row with every value None exactly when
      no fact of the report's (corp_code, bsns_year) has that key; otherwise
      it is the last such fact. */
  lemma MissingIffNoFact(reportId: string, keys: seq<string>, meta: ReportMeta, facts: seq<FactRow>, i: nat)
    requires keys != [] && meta.corpCode != [] && i < |keys|
    ensures var row := MetricsFor(reportId, keys, Some(meta), true, facts).rows[i];
            (row.missing <==> forall f :: f in facts && f.corpCode == meta.corpCode && f.bsnsYear == meta.bsnsYear ==> f.metricKey != keys[i])
            && (row.missing ==> row == MissingRow(keys[i]))
            && (!row.missing ==> exists f :: f in facts && Selected(f, meta, keys) && f.metricKey == keys[i] && row == FoundRow(f))
  {
    var rows := Query(facts, meta, keys);
    FoundSpec(rows, keys[i]);
    QueryMembers(facts, meta, keys);
  }

  /** The fetched rows are exactly the selected facts (as members). */
  lemma {:induction false} QueryMembers(facts: seq<FactRow>, m: ReportMeta, keys: seq<string>)
    ensures forall f :: f in Query(facts, m, keys) <==> f in facts && Selected(f, m, keys)
  {
    if facts != [] {
      var n := |facts| - 1;
      QueryMembers(facts[..n], m, keys);
      assert facts == facts[..n] + [facts[n]];
    }
  }

  /** rows is [] when there are no keys, no report meta (or an empty
      corp_code), or no fact_metrics table, and then no scope is reported. */
  lemma EmptyCases(reportId: string, keys: seq<string>, meta: Option<ReportMeta>, hasTable: bool, facts: seq<FactRow>)
    ensures (keys == [] || meta.None? || meta.value.corpCode == [] || !hasTable)
            <==> MetricsFor(reportId, keys, meta, hasTable, facts).scope.None?
    ensures MetricsFor(reportId, keys, meta, hasTable, facts).scope.None?
            ==> MetricsFor(reportId, keys, meta, hasTable, facts).rows == []
  {
  }
}
