/** The Markdown table templates of src/sections/_common/tables_templates.py:
    a pipe-table renderer and the year-on-year, benchmark, simple and
    evidence-trace renderers that feed the section prompts. metric_rows is
    the declared Dict[str, Dict[str, Any]] keyed by metric_key. */
module Templates {
  import opened Common
  import opened Json

  // ---------------------------------------------------------------------------
  // _md_table
  // ---------------------------------------------------------------------------

  /** "| " + " | ".join(cells) + " |". */
  function Line(cells: seq<string>): string {
    "| " + Join(cells, " | ") + " |"
  }

  /** ["---"] * n. */
  function Dashes(n: nat): (r: seq<string>)
    ensures |r| == n && forall i :: 0 <= i < n ==> r[i] == "---"
  {
    seq(n, _ => "---")
  }

  function RowLines(rows: seq<seq<string>>): (r: seq<string>)
    ensures |r| == |rows| && forall i :: 0 <= i < |rows| ==> r[i] == Line(rows[i])
  {
    seq(|rows|, i requires 0 <= i < |rows| => Line(rows[i]))
  }

  /** _md_table(headers, rows): header line, separator, and the body lines
      joined into one last element ("" when there are no rows). */
  function MdTable(headers: seq<string>, rows: seq<seq<string>>): string {
    Join([Line(headers), Line(Dashes(|headers|)), Join(RowLines(rows), "\n")], "\n")
  }

  predicate Free(s: string, c: char) {
    forall k :: 0 <= k < |s| ==> s[k] != c
  }

  predicate AllFree(parts: seq<string>, c: char) {
    forall i :: 0 <= i < |parts| ==> Free(parts[i], c)
  }

  /** Splitting after a separator-free prefix peels that prefix off. */
  lemma {:induction false} SplitAfter(a: string, c: char, b: string)
    requires Free(a, c)
    ensures Split(a + [c] + b, c) == [a] + Split(b, c)
  {
    if a == [] {
      assert a + [c] + b == [c] + b;
      assert ([c] + b)[1..] == b;
    } else {
      SplitAfter(a[1..], c, b);
      var s := a + [c] + b;
      assert s[1..] == a[1..] + [c] + b;
      assert s[0] == a[0];
      assert [a[0]] + a[1..] == a;
    }
  }

  /** A separator-free string splits to itself. */
  lemma SplitFree(a: string, c: char)
    requires Free(a, c)
    ensures Split(a, c) == [a]
  {
    assert c !in a;
  }

  /** Joining separator-free parts and splitting again gives the parts back. */
  lemma {:induction false} SplitJoin(parts: seq<string>, c: char)
    requires |parts| >= 1 && AllFree(parts, c)
    ensures Split(Join(parts, [c]), c) == parts
  {
    if |parts| == 1 {
      SplitFree(parts[0], c);
    } else {
      SplitJoin(parts[1..], c);
      SplitAfter(parts[0], c, Join(parts[1..], [c]));
      assert parts == [parts[0]] + parts[1..];
    }
  }

  /** The cells of a line are separated by '|': the tail after the first bar. */
  lemma {:induction false} TailCells(cells: seq<string>)
    requires |cells| >= 1 && AllFree(cells, '|')
    ensures Split(" " + Join(cells, " | ") + " |", '|')
            == seq(|cells|, i requires 0 <= i < |cells| => " " + cells[i] + " ") + [""]
  {
    var want := seq(|cells|, i requires 0 <= i < |cells| => " " + cells[i] + " ");
    var c0 := " " + cells[0] + " ";
    assert Free(c0, '|') by {
      assert forall k :: 1 <= k < |c0| - 1 ==> c0[k] == cells[0][k - 1];
    }
    if |cells| == 1 {
      assert " " + Join(cells, " | ") + " |" == c0 + ['|'] + [];
      SplitAfter(c0, '|', []);
      assert want == [c0];
    } else {
      var rest := " " + Join(cells[1..], " | ") + " |";
      assert " " + Join(cells, " | ") + " |" == c0 + ['|'] + rest;
      SplitAfter(c0, '|', rest);
      TailCells(cells[1..]);
      assert want == [c0] + seq(|cells| - 1, i requires 0 <= i < |cells| - 1 => " " + cells[1..][i] + " ");
    }
  }

  /** A rendered line, split on '|', is an empty piece, one padded piece per
      cell, and an empty piece. */
  lemma LineCells(cells: seq<string>)
    requires |cells| >= 1 && AllFree(cells, '|')
    ensures Split(Line(cells), '|')
            == [""] + seq(|cells|, i requires 0 <= i < |cells| => " " + cells[i] + " ") + [""]
  {
    var tail := " " + Join(cells, " | ") + " |";
    assert Line(cells) == [] + ['|'] + tail;
    SplitAfter([], '|', tail);
    TailCells(cells);
  }

  /** The separator has one "---" cell per header. */
  lemma SeparatorCells(n: nat)
    requires n >= 1
    ensures Split(Line(Dashes(n)), '|') == [""] + seq(n, _ => " --- ") + [""]
  {
    LineCells(Dashes(n));
    var pieces := seq(n, i requires 0 <= i < n => " " + Dashes(n)[i] + " ");
    assert forall i :: 0 <= i < n ==> pieces[i] == " --- ";
    assert pieces == seq(n, _ => " --- ");
  }

  lemma LinesFree(rows: seq<seq<string>>)
    requires forall i :: 0 <= i < |rows| ==> AllFree(rows[i], '\n')
    ensures AllFree(RowLines(rows), '\n')
  {
    forall i | 0 <= i < |rows|
      ensures Free(RowLines(rows)[i], '\n')
    {
      LineFree(rows[i]);
    }
  }

  lemma {:induction false} LineFree(cells: seq<string>)
    requires AllFree(cells, '\n')
    ensures Free(Line(cells), '\n')
  {
    JoinFree(cells, " | ", '\n');
  }

  lemma {:induction false} JoinFree(parts: seq<string>, sep: string, c: char)
    requires AllFree(parts, c) && Free(sep, c)
    ensures Free(Join(parts, sep), c)
  {
    if |parts| > 1 {
      JoinFree(parts[1..], sep, c);
    }
  }

  /** _md_table's lines: the header, the separator, then exactly one line per
      row in row order (a lone "" when there are no rows), provided no cell
      holds a newline. */
  lemma MdTableLines(headers: seq<string>, rows: seq<seq<string>>)
    requires AllFree(headers, '\n')
    requires forall i :: 0 <= i < |rows| ==> AllFree(rows[i], '\n')
    ensures Split(MdTable(headers, rows), '\n')
            == [Line(headers), Line(Dashes(|headers|))] + (if rows == [] then [""] else RowLines(rows))
  {
    var body := Join(RowLines(rows), "\n");
    LineFree(headers);
    LineFree(Dashes(|headers|));
    ThreeLines(Line(headers), Line(Dashes(|headers|)), body);
    if rows == [] {
      assert body == [];
    } else {
      LinesFree(rows);
      SplitJoin(RowLines(rows), '\n');
    }
  }

  lemma ThreeLines(a: string, b: string, body: string)
    requires Free(a, '\n') && Free(b, '\n')
    ensures Split(Join([a, b, body], "\n"), '\n') == [a, b] + Split(body, '\n')
  {
    var parts := [a, b, body];
    assert parts[1..] == [b, body];
    assert parts[1..][1..] == [body];
    assert Join(parts, "\n") == a + ['\n'] + (b + ['\n'] + body);
    SplitAfter(a, '\n', b + ['\n'] + body);
    SplitAfter(b, '\n', body);
  }

  // ---------------------------------------------------------------------------
  // render_T1_YOY, render_T2_BENCH, render_T_SIMPLE
  // ---------------------------------------------------------------------------

  type MetricRows = map<string, Dict>

  /** `r = metric_rows.get(k); if not r: continue` lets the row through. */
  predicate Present(mr: MetricRows, k: string) {
    k in mr && mr[k] != []
  }

  /** The keys whose rows a renderer uses, in metric_keys order; `extra` is
      the renderer's own skip test on top of Present. */
  function KeptKeys(mr: MetricRows, keys: seq<string>, extra: Dict -> bool): (r: seq<string>)
    ensures |r| <= |keys|
    ensures forall i :: 0 <= i < |r| ==> Present(mr, r[i]) && extra(mr[r[i]])
  {
    if keys == [] then []
    else
      var k := keys[|keys| - 1];
      KeptKeys(mr, keys[..|keys| - 1], extra) + (if Present(mr, k) && extra(mr[k]) then [k] else [])
  }

  /** str(r.get(key, "")). */
  function Cell(r: Dict, key: string, show: Show): string {
    PyStr(GetOr(r, key, JStr("")), show)
  }

  const T1_HEADERS: seq<string> := ["항목", "당기", "전기", "증감액", "증감률"]
  const T2_HEADERS: seq<string> := ["지표", "당기", "벤치", "벤치 대비(개선?)"]
  const SIMPLE_HEADERS: seq<string> := ["지표", "당기", "전기", "증감"]

  function T1Cells(r: Dict, show: Show): seq<string> {
    [Cell(r, "metric_name_ko", show), Cell(r, "value", show), Cell(r, "value_prev", show),
     Cell(r, "yoy_abs", show), Cell(r, "yoy_pct", show)]
  }

  function SimpleCells(r: Dict, show: Show): seq<string> {
    [Cell(r, "metric_name_ko", show), Cell(r, "value", show), Cell(r, "value_prev", show),
     Cell(r, "yoy_abs", show)]
  }

  /** `bi is True` / `bi is False`: only real booleans are labelled. */
  function BenchText(r: Dict): string {
    match Lookup(r, "benchmark_improved")
    case Some(JBool(b)) => if b then "개선" else "악화"
    case _ => "N/A"
  }

  function T2Cells(r: Dict, show: Show): seq<string> {
    [Cell(r, "metric_name_ko", show), Cell(r, "value", show), Cell(r, "benchmark_value", show),
     BenchText(r)]
  }

  /** `r.get("benchmark_corp_code") is None` is false. */
  predicate HasBenchmark(r: Dict) {
    Lookup(r, "benchmark_corp_code").Some? && Lookup(r, "benchmark_corp_code").value != JNull
  }

  function AnyRow(r: Dict): bool { true }

  /** The table rows a renderer builds from the kept keys. */
  function TableRows(mr: MetricRows, ks: seq<string>, cells: Dict -> seq<string>): (r: seq<seq<string>>)
    requires forall i :: 0 <= i < |ks| ==> ks[i] in mr
    ensures |r| == |ks| && forall i :: 0 <= i < |ks| ==> r[i] == cells(mr[ks[i]])
  {
    seq(|ks|, i requires 0 <= i < |ks| => cells(mr[ks[i]]))
  }

  function T1Rows(mr: MetricRows, keys: seq<string>, show: Show): seq<seq<string>> {
    TableRows(mr, KeptKeys(mr, keys, AnyRow), r => T1Cells(r, show))
  }

  function SimpleRows(mr: MetricRows, keys: seq<string>, show: Show): seq<seq<string>> {
    TableRows(mr, KeptKeys(mr, keys, AnyRow), r => SimpleCells(r, show))
  }

  function T2Rows(mr: MetricRows, keys: seq<string>, show: Show): seq<seq<string>> {
    TableRows(mr, KeptKeys(mr, keys, HasBenchmark), r => T2Cells(r, show))
  }

  lemma KeptKeysSnoc(mr: MetricRows, keys: seq<string>, k: string, extra: Dict -> bool)
    ensures KeptKeys(mr, keys + [k], extra)
            == KeptKeys(mr, keys, extra) + (if Present(mr, k) && extra(mr[k]) then [k] else [])
  {
    assert (keys + [k])[..|keys|] == keys;
  }

  /** The rows of one renderer's loop after the keys keys[..i]. */
  method CollectRows(mr: MetricRows, keys: seq<string>, extra: Dict -> bool, cells: Dict -> seq<string>)
    returns (rows: seq<seq<string>>)
    ensures rows == TableRows(mr, KeptKeys(mr, keys, extra), cells)
  {
    rows := [];
    for i := 0 to |keys|
      invariant rows == TableRows(mr, KeptKeys(mr, keys[..i], extra), cells)
    {
      KeptKeysSnoc(mr, keys[..i], keys[i], extra);
      assert keys[..i + 1] == keys[..i] + [keys[i]];
      var k := keys[i];
      if k in mr && mr[k] != [] && extra(mr[k]) {
        rows := rows + [cells(mr[k])];
      }
    }
    assert keys[..|keys|] == keys;
  }

  method RenderT1Yoy(mr: MetricRows, keys: seq<string>, show: Show) returns (out: string)
    ensures out == MdTable(T1_HEADERS, T1Rows(mr, keys, show))
  {
    var rows := CollectRows(mr, keys, AnyRow, r => T1Cells(r, show));
    out := MdTable(T1_HEADERS, rows);
  }

  method RenderTSimple(mr: MetricRows, keys: seq<string>, show: Show) returns (out: string)
    ensures out == MdTable(SIMPLE_HEADERS, SimpleRows(mr, keys, show))
  {
    var rows := CollectRows(mr, keys, AnyRow, r => SimpleCells(r, show));
    out := MdTable(SIMPLE_HEADERS, rows);
  }

  /** None exactly when no row is kept, otherwise the benchmark table. */
  method RenderT2Bench(mr: MetricRows, keys: seq<string>, show: Show) returns (out: Option<string>)
    ensures out.None? <==> KeptKeys(mr, keys, HasBenchmark) == []
    ensures out.Some? ==> out.value == MdTable(T2_HEADERS, T2Rows(mr, keys, show))
  {
    var rows := CollectRows(mr, keys, HasBenchmark, r => T2Cells(r, show));
    if rows == [] {
      out := None;
    } else {
      out := Some(MdTable(T2_HEADERS, rows));
    }
  }

  /** A key is kept exactly when it is requested, its row is present and
      non-empty, and it passes the renderer's own test. */
  lemma {:induction false} KeptKeysSpec(mr: MetricRows, keys: seq<string>, extra: Dict -> bool, k: string)
    ensures k in KeptKeys(mr, keys, extra) <==> k in keys && Present(mr, k) && extra(mr[k])
  {
    if keys != [] {
      var init := keys[..|keys| - 1];
      KeptKeysSpec(mr, init, extra, k);
      assert keys == init + [keys[|keys| - 1]];
    }
  }

  /** Kept keys keep metric_keys order: they are a subsequence of it. */
  lemma {:induction false} KeptKeysOrder(mr: MetricRows, keys: seq<string>, extra: Dict -> bool)
    ensures exists pos: seq<int> :: Embeds(pos, KeptKeys(mr, keys, extra), keys)
  {
    var ks := KeptKeys(mr, keys, extra);
    if keys == [] {
      assert Embeds([], ks, keys);
    } else {
      var init := keys[..|keys| - 1];
      KeptKeysOrder(mr, init, extra);
      var pos :| Embeds(pos, KeptKeys(mr, init, extra), init);
      var k := keys[|keys| - 1];
      if Present(mr, k) && extra(mr[k]) {
        assert Embeds(pos + [|keys| - 1], ks, keys);
      } else {
        assert Embeds(pos, ks, keys);
      }
    }
  }

  /** pos lists strictly increasing positions of xs at which ys's elements sit. */
  predicate Embeds(pos: seq<int>, ys: seq<string>, xs: seq<string>) {
    |pos| == |ys|
    && (forall i :: 0 <= i < |pos| ==> 0 <= pos[i] < |xs| && xs[pos[i]] == ys[i])
    && (forall i, j :: 0 <= i < j < |pos| ==> pos[i] < pos[j])
  }

  /** Every year-on-year row has five cells, every simple row four, every
      benchmark row four whose last cell is "개선", "악화" or "N/A" after the
      improvement flag. */
  lemma RowWidths(mr: MetricRows, keys: seq<string>, show: Show)
    ensures forall i :: 0 <= i < |T1Rows(mr, keys, show)| ==> |T1Rows(mr, keys, show)[i]| == 5
    ensures forall i :: 0 <= i < |SimpleRows(mr, keys, show)| ==> |SimpleRows(mr, keys, show)[i]| == 4
    ensures forall i :: 0 <= i < |T2Rows(mr, keys, show)| ==> |T2Rows(mr, keys, show)[i]| == 4
  {
  }

  /** The benchmark label: True is 개선, False 악화, anything else (missing,
      None, or a non-boolean such as 1) N/A. */
  lemma BenchTextSpec(r: Dict)
    ensures BenchText(r) == "개선" <==> Lookup(r, "benchmark_improved") == Some(JBool(true))
    ensures BenchText(r) == "악화" <==> Lookup(r, "benchmark_improved") == Some(JBool(false))
    ensures BenchText(r) in {"개선", "악화", "N/A"}
  {
  }

  /** A benchmark row whose benchmark_corp_code is None is skipped even when
      it is otherwise complete. */
  lemma NullBenchmarkSkipped(mr: MetricRows, keys: seq<string>, k: string)
    requires k in mr && Lookup(mr[k], "benchmark_corp_code") == Some(JNull)
    ensures k !in KeptKeys(mr, keys, HasBenchmark)
  {
    KeptKeysSpec(mr, keys, HasBenchmark, k);
  }

  // ---------------------------------------------------------------------------
  // render_T3_TRACE
  // ---------------------------------------------------------------------------

  /** The f-string of one trace item, with its fields already rendered. */
  function TraceText(item: string, noteNo: string, point: string, sectionCode: string, chunkId: string): string {
    "- [" + item + "] → note_no=" + noteNo + " → " + point
    + " (근거: note_no=" + noteNo + ", section_code=" + sectionCode + ", chunk_id=" + chunkId + ")"
  }

  /** t[key], raising KeyError when absent. */
  function Field(t: Dict, key: string, show: Show): Result<string> {
    match Lookup(t, key)
    case Some(v) => Ok(PyStr(v, show))
    case None => Err("KeyError: '" + key + "'")
  }

  /** One line, or the KeyError of the first missing field in evaluation order. */
  function TraceLine(t: Dict, show: Show): Result<string> {
    var item := Field(t, "item", show);
    var no := Field(t, "note_no", show);
    var point := Field(t, "point", show);
    var chunk := Field(t, "chunk_id", show);
    if item.Err? then Err(item.msg)
    else if no.Err? then Err(no.msg)
    else if point.Err? then Err(point.msg)
    else if chunk.Err? then Err(chunk.msg)
    else Ok(TraceText(item.value, no.value, point.value, Cell(t, "section_code", show), chunk.value))
  }

  /** The lines of all items, or the first item's error. */
  function TraceLines(items: seq<Dict>, show: Show): (r: Result<seq<string>>)
    ensures r.Ok? ==> |r.value| == |items|
  {
    if items == [] then Ok([])
    else
      match TraceLines(items[..|items| - 1], show)
      case Err(m) => Err(m)
      case Ok(ls) =>
        match TraceLine(items[|items| - 1], show)
        case Err(m) => Err(m)
        case Ok(l) => Ok(ls + [l])
  }

  method RenderT3Trace(items: seq<Dict>, show: Show) returns (out: Result<string>)
    ensures TraceLines(items, show).Err? <==> out.Err?
    ensures out.Ok? ==> out.value == Join(TraceLines(items, show).value, "\n")
  {
    var lines: seq<string> := [];
    for i := 0 to |items|
      invariant TraceLines(items[..i], show) == Ok(lines)
    {
      assert items[..i + 1][..i] == items[..i];
      var l := TraceLine(items[i], show);
      if l.Err? {
        TraceLinesErr(items, i + 1, show);
        return Err(l.msg);
      }
      lines := lines + [l.value];
    }
    assert items[..|items|] == items;
    out := Ok(Join(lines, "\n"));
  }

  /** An error in a prefix is the error of the whole list. */
  lemma {:induction false} TraceLinesErr(items: seq<Dict>, n: nat, show: Show)
    requires n <= |items| && TraceLines(items[..n], show).Err?
    ensures TraceLines(items, show).Err?
    decreases |items| - n
  {
    if n < |items| {
      assert items[..n + 1][..n] == items[..n];
      TraceLinesErr(items, n + 1, show);
    } else {
      assert items[..n] == items;
    }
  }

  /** Each line is the item's own text: line i comes from item i. */
  lemma {:induction false} TraceLinesAt(items: seq<Dict>, show: Show, i: nat)
    requires TraceLines(items, show).Ok? && i < |items|
    ensures TraceLine(items[i], show).Ok?
    ensures TraceLines(items, show).value[i] == TraceLine(items[i], show).value
  {
    if i < |items| - 1 {
      TraceLinesAt(items[..|items| - 1], show, i);
    }
  }

  /** render_T3_TRACE emits exactly one line per trace item once the
      rendered fields hold no newline. */
  lemma TraceOneLinePerItem(items: seq<Dict>, show: Show)
    requires items != [] && TraceLines(items, show).Ok?
    requires AllFree(TraceLines(items, show).value, '\n')
    ensures |Split(Join(TraceLines(items, show).value, "\n"), '\n')| == |items|
  {
    SplitJoin(TraceLines(items, show).value, '\n');
  }

  /** A trace item without a chunk_id raises KeyError. */
  lemma TraceMissingChunk(t: Dict, show: Show)
    requires Lookup(t, "item").Some? && Lookup(t, "note_no").Some? && Lookup(t, "point").Some?
    requires Lookup(t, "chunk_id").None?
    ensures TraceLine(t, show) == Err("KeyError: 'chunk_id'")
  {
  }
}
