/** The SWOT section retrievers of src/sections/c09_swot: metric rows sorted
    into strength and weakness candidates by their two improvement flags,
    the candidate tables, the bridge-summary loaders and the
    business-evidence filter. The helpers `_fmt`, `_bench_delta` and
    `_md_table` are the same code in every c09 and c10 retriever and are
    defined here once. Metric rows are the dicts of the metrics JSON. */
module Swot {
  import opened Common
  import opened Json
  import SectionIo
  import Templates
  import Tables

  // ---------------------------------------------------------------------------
  // Improvement flags and the AND/OR split
  // ---------------------------------------------------------------------------

  /** r.get(key): None (JNull) for an absent key. */
  function At(r: Dict, key: string): Value {
    Lookup(r, key).GetOr(JNull)
  }

  /** `r.get(key) is want`: only the JSON boolean itself, never 1, "true" or None. */
  predicate FlagIs(r: Dict, key: string, want: bool) {
    At(r, key) == JBool(want)
  }

  predicate YoyIs(r: Dict, want: bool) { FlagIs(r, "yoy_improved", want) }

  predicate BenchIs(r: Dict, want: bool) { FlagIs(r, "benchmark_improved", want) }

  /** A core candidate: both flags are `want` (True for strength, False for
      weakness). */
  predicate Core(r: Dict, want: bool) { YoyIs(r, want) && BenchIs(r, want) }

  /** An auxiliary candidate: one flag is `want` and the other its opposite. */
  predicate Aux(r: Dict, want: bool) {
    (YoyIs(r, want) && BenchIs(r, !want)) || (YoyIs(r, !want) && BenchIs(r, want))
  }

  /** Both flags are JSON booleans. */
  predicate Decided(r: Dict) {
    At(r, "yoy_improved").JBool? && At(r, "benchmark_improved").JBool?
  }

  function CoreOf(want: bool): Dict -> bool { r => Core(r, want) }

  function AuxOf(want: bool): Dict -> bool { r => Aux(r, want) }

  /** The (core, aux) lists of _split_strength_and_or (want = true) and
      _split_weakness_and_or (want = false). */
  function Candidates(rows: seq<Dict>, want: bool): (r: (seq<Dict>, seq<Dict>))
    ensures |r.0| + |r.1| <= |rows|
  {
    if rows == [] then ([], [])
    else
      var prev := Candidates(rows[..|rows| - 1], want);
      var x := rows[|rows| - 1];
      if Core(x, want) then (prev.0 + [x], prev.1)
      else if Aux(x, want) then (prev.0, prev.1 + [x])
      else prev
  }

  /** The loop that appends each row to the core list, the aux list or
      neither. */
  method SplitAndOr(rows: seq<Dict>, want: bool) returns (core: seq<Dict>, aux: seq<Dict>)
    ensures (core, aux) == Candidates(rows, want)
  {
    core, aux := [], [];
    for i := 0 to |rows|
      invariant (core, aux) == Candidates(rows[..i], want)
    {
      assert rows[..i + 1][..i] == rows[..i];
      var r := rows[i];
      if Core(r, want) {
        core := core + [r];
      } else if Aux(r, want) {
        aux := aux + [r];
      }
    }
    assert rows[..|rows|] == rows;
  }

  lemma {:induction false} FilterSnoc<T>(xs: seq<T>, x: T, p: T -> bool)
    ensures Filter(xs + [x], p) == Filter(xs, p) + (if p(x) then [x] else [])
  {
    if xs == [] {
      assert [x][1..] == [];
    } else {
      assert (xs + [x])[0] == xs[0];
      assert (xs + [x])[1..] == xs[1..] + [x];
      FilterSnoc(xs[1..], x, p);
    }
  }

  /** The core list holds exactly the rows whose flags are both `want`, and
      the aux list exactly those with one flag `want` and the other its
      opposite, each in input order. */
  lemma {:induction false} CandidatesSpec(rows: seq<Dict>, want: bool)
    ensures Candidates(rows, want).0 == Filter(rows, CoreOf(want))
    ensures Candidates(rows, want).1 == Filter(rows, AuxOf(want))
  {
    if rows != [] {
      var init := rows[..|rows| - 1];
      var x := rows[|rows| - 1];
      CandidatesSpec(init, want);
      FilterSnoc(init, x, CoreOf(want));
      FilterSnoc(init, x, AuxOf(want));
      assert init + [x] == rows;
    }
  }

  /** No row is in both lists, and a row with a missing or non-boolean flag
      is in neither. */
  lemma CandidatesDisjoint(rows: seq<Dict>, want: bool)
    ensures forall x :: x in Candidates(rows, want).0 ==> x !in Candidates(rows, want).1
    ensures forall x :: x in rows && !Decided(x) ==> x !in Candidates(rows, want).0 && x !in Candidates(rows, want).1
  {
    CandidatesSpec(rows, want);
  }

  /** The strength and the weakness aux lists are the same rows: "exactly
      one flag True" and "exactly one flag False" coincide once the other
      flag must be the opposite boolean. */
  lemma {:induction false} AuxShared(rows: seq<Dict>)
    ensures Candidates(rows, true).1 == Candidates(rows, false).1
  {
    if rows != [] {
      AuxShared(rows[..|rows| - 1]);
      var x := rows[|rows| - 1];
      assert Aux(x, true) == Aux(x, false);
    }
  }

  /** Every row whose flags are both booleans lands in the strength core,
      the weakness core or the shared aux list, and the two core lists
      share no row. */
  lemma PartitionDecided(rows: seq<Dict>)
    ensures forall x :: x in rows && Decided(x) ==>
              x in Candidates(rows, true).0 || x in Candidates(rows, false).0 || x in Candidates(rows, true).1
    ensures forall x :: x in Candidates(rows, true).0 ==> x !in Candidates(rows, false).0
  {
    CandidatesSpec(rows, true);
    CandidatesSpec(rows, false);
    CandidatesDisjoint(rows, true);
  }

  // ---------------------------------------------------------------------------
  // _fmt, _bench_delta, _md_table
  // ---------------------------------------------------------------------------

  /** float(v): ints, floats and booleans convert; a string goes through
      Python's float() parser, given as `parse`; any other value raises,
      which the caller turns into None. */
  function PyFloat(v: Value, parse: string -> Option<real>): Option<real> {
    match v
    case JInt(i) => Some(i as real)
    case JNum(x) => Some(x)
    case JBool(b) => Some(if b then 1.0 else 0.0)
    case JStr(s) => parse(s)
    case _ => None
  }

  /** _bench_delta: value minus benchmark_value when both are present and
      convert, otherwise None. */
  function BenchDelta(r: Dict, parse: string -> Option<real>): (d: Option<real>)
    ensures d.Some? ==> !At(r, "value").JNull? && !At(r, "benchmark_value").JNull?
    ensures At(r, "value").JNum? && At(r, "benchmark_value").JNum? ==>
              d == Some(At(r, "value").x - At(r, "benchmark_value").x)
  {
    var bv := At(r, "benchmark_value");
    var v := At(r, "value");
    if bv.JNull? || v.JNull? then None
    else match (PyFloat(v, parse), PyFloat(bv, parse))
      case (Some(a), Some(b)) => Some(a - b)
      case _ => None
  }

  /** _fmt: "N/A" for None, str(x) otherwise. */
  function Fmt(x: Value, show: Show): string {
    if x.JNull? then "N/A" else PyStr(x, show)
  }

  const NONE_GIVEN := "제공 없음"

  const SIGNAL_HEADERS: seq<string> :=
    ["지표", "당기", "전기", "YoY%", "벤치", "bench_delta", "yoy_improved", "bench_improved"]

  /** str(r.get("metric_name_ko") or r.get("metric_key", "")). */
  function NameCell(r: Dict, show: Show): string {
    var name := At(r, "metric_name_ko");
    if Truthy(name) then PyStr(name, show) else PyStr(GetOr(r, "metric_key", JStr("")), show)
  }

  function DeltaValue(d: Option<real>): Value {
    if d.None? then JNull else JNum(d.value)
  }

  /** The eight cells of a candidate row, one per header. */
  function SignalCells(r: Dict, show: Show, parse: string -> Option<real>): (cells: seq<string>)
    ensures |cells| == |SIGNAL_HEADERS|
  {
    [NameCell(r, show), Fmt(At(r, "value"), show), Fmt(At(r, "value_prev"), show), Fmt(At(r, "yoy_pct"), show),
     Fmt(At(r, "benchmark_value"), show), Fmt(DeltaValue(BenchDelta(r, parse)), show),
     Fmt(At(r, "yoy_improved"), show), Fmt(At(r, "benchmark_improved"), show)]
  }

  function SignalLine(r: Dict, show: Show, parse: string -> Option<real>): string {
    Templates.Line(SignalCells(r, show, parse))
  }

  function LineOf(show: Show, parse: string -> Option<real>): Dict -> string {
    r => SignalLine(r, show, parse)
  }

  function SignalLines(rows: seq<Dict>, show: Show, parse: string -> Option<real>): (ls: seq<string>)
    ensures |ls| == |rows| && forall i :: 0 <= i < |rows| ==> ls[i] == SignalLine(rows[i], show, parse)
  {
    Tables.MapSeq(rows, LineOf(show, parse))
  }

  /** The title, the header line and the separator line. */
  function TableHead(title: string): seq<string> {
    [title, Templates.Line(SIGNAL_HEADERS), Templates.Line(Templates.Dashes(|SIGNAL_HEADERS|))]
  }

  /** _md_table(title, rows, limit). */
  function SignalTable(title: string, rows: seq<Dict>, limit: int, show: Show, parse: string -> Option<real>): string {
    if rows == [] then title + ": " + NONE_GIVEN
    else Join(TableHead(title) + SignalLines(SliceTo(rows, limit), show, parse), "\n")
  }

  /** The loop of _md_table that appends one line per row of rows[:limit]. */
  method RenderSignalTable(title: string, rows: seq<Dict>, limit: int, show: Show, parse: string -> Option<real>)
    returns (text: string)
    ensures text == SignalTable(title, rows, limit, show, parse)
  {
    if rows == [] {
      return title + ": " + NONE_GIVEN;
    }
    var out := AppendSignalLines(TableHead(title), SliceTo(rows, limit), show, parse);
    text := Join(out, "\n");
  }

  /** The loop body of _md_table: one line per row, after the head. */
  method AppendSignalLines(head: seq<string>, xs: seq<Dict>, show: Show, parse: string -> Option<real>)
    returns (out: seq<string>)
    ensures out == head + SignalLines(xs, show, parse)
  {
    out := head;
    for i := 0 to |xs|
      invariant out == head + SignalLines(xs[..i], show, parse)
    {
      SignalLinesSnoc(xs, i, show, parse);
      out := out + [SignalLine(xs[i], show, parse)];
    }
    assert xs[..|xs|] == xs;
  }

  lemma SignalLinesSnoc(xs: seq<Dict>, i: nat, show: Show, parse: string -> Option<real>)
    requires i < |xs|
    ensures SignalLines(xs[..i + 1], show, parse) == SignalLines(xs[..i], show, parse) + [SignalLine(xs[i], show, parse)]
  {
    MapSeqSnoc(xs, i, LineOf(show, parse));
  }

  lemma MapSeqSnoc<T, U>(xs: seq<T>, i: nat, f: T -> U)
    requires i < |xs|
    ensures Tables.MapSeq(xs[..i + 1], f) == Tables.MapSeq(xs[..i], f) + [f(xs[i])]
  {
    var a := Tables.MapSeq(xs[..i + 1], f);
    var b := Tables.MapSeq(xs[..i], f) + [f(xs[i])];
    forall k | 0 <= k < |a| ensures a[k] == b[k] {
      assert xs[..i + 1][k] == xs[k];
    }
  }

  /** The "no data" text appears exactly when there are no rows. */
  lemma EmptyTableIff(title: string, rows: seq<Dict>, limit: int, show: Show, parse: string -> Option<real>)
    ensures SignalTable(title, rows, limit, show, parse) == title + ": " + NONE_GIVEN <==> rows == []
  {
    if rows != [] {
      var parts := TableHead(title) + SignalLines(SliceTo(rows, limit), show, parse);
      var t := Join(parts, "\n");
      assert parts[0] == title;
      assert t == title + "\n" + Join(parts[1..], "\n");
      assert t[|title|] == '\n';
      assert (title + ": " + NONE_GIVEN)[|title|] == ':';
    }
  }

  /** With a newline-free title and cells, the table is the title, the
      header and separator lines, then one line per row for the first
      `limit` rows in order: 3 + min(|rows|, limit) lines. */
  lemma TableLines(title: string, rows: seq<Dict>, limit: int, show: Show, parse: string -> Option<real>)
    requires rows != [] && limit >= 0
    requires Templates.Free(title, '\n')
    requires forall i :: 0 <= i < |rows| ==> Templates.AllFree(SignalCells(rows[i], show, parse), '\n')
    ensures var ls := Split(SignalTable(title, rows, limit, show, parse), '\n');
            |ls| == 3 + Min(|rows|, limit) && ls[0] == title
            && forall i :: 0 <= i < Min(|rows|, limit) ==> ls[3 + i] == SignalLine(rows[i], show, parse)
  {
    var xs := SliceTo(rows, limit);
    TableSplit(title, rows, limit, show, parse);
    var ls := Split(SignalTable(title, rows, limit, show, parse), '\n');
    Tables.HeadThenRows(ls, TableHead(title), xs, rows, LineOf(show, parse));
    assert |TableHead(title)| == 3;
  }

  /** The table text splits back into its head and body lines. */
  lemma TableSplit(title: string, rows: seq<Dict>, limit: int, show: Show, parse: string -> Option<real>)
    requires rows != [] && limit >= 0
    requires Templates.Free(title, '\n')
    requires forall i :: 0 <= i < |rows| ==> Templates.AllFree(SignalCells(rows[i], show, parse), '\n')
    ensures Split(SignalTable(title, rows, limit, show, parse), '\n') == TableHead(title) + SignalLines(SliceTo(rows, limit), show, parse)
  {
    var xs := SliceTo(rows, limit);
    var body := SignalLines(xs, show, parse);
    var parts := TableHead(title) + body;
    HeadersFree(SIGNAL_HEADERS);
    HeadFree(title, SIGNAL_HEADERS);
    forall i | 0 <= i < |xs| ensures Templates.Free(body[i], '\n') {
      assert xs[i] == rows[i];
      Templates.LineFree(SignalCells(xs[i], show, parse));
    }
    assert Templates.AllFree(parts, '\n');
    Templates.SplitJoin(parts, '\n');
  }

  lemma HeadersFree(h: seq<string>)
    requires h == SIGNAL_HEADERS
    ensures Templates.AllFree(h, '\n')
  {
    forall i | 0 <= i < |h| ensures Templates.Free(h[i], '\n') {
    }
  }

  lemma HeadFree(title: string, h: seq<string>)
    requires Templates.Free(title, '\n') && Templates.AllFree(h, '\n')
    ensures Templates.AllFree([title, Templates.Line(h), Templates.Line(Templates.Dashes(|h|))], '\n')
  {
    Templates.LineFree(h);
    Templates.LineFree(Templates.Dashes(|h|));
  }

  // ---------------------------------------------------------------------------
  // _load_bridge_text
  // ---------------------------------------------------------------------------

  const NOT_DICT := "AttributeError: object has no attribute 'get'"

  function BridgePath(workdir: string): string {
    SectionIo.PathJoin(workdir, "bridge_summary.json")
  }

  /** _load_bridge_text of the strength and weakness retrievers (and of the
      conclusion retrievers): the stripped top-level bridge_text, "" when
      the file is missing or the text is absent. */
  function TopBridgeText(files: SectionIo.Files, workdir: string): Result<string> {
    var p := BridgePath(workdir);
    if p !in files then Ok("")
    else if !files[p].JObj? then Err(NOT_DICT)
    else StrippedOr(Lookup(files[p].fields, "bridge_text"))
  }

  /** _ckey's fallback for a key that is not an integer. */
  const NON_INT_KEY: int := 1_000_000_000

  /** _ckey: int(k), or 10**9 when int() raises. */
  function ChapterKey(k: string): int {
    match PyInt(JStr(k))
    case Ok(n) => n
    case Err(_) => NON_INT_KEY
  }

  predicate KeyLe(a: string, b: string) { ChapterKey(a) <= ChapterKey(b) }

  /** sorted(chapters.keys(), key=_ckey): the insertion sort places an
      earlier key before a later one of equal _ckey, as Python's stable
      sort does. */
  function ChapterOrder(ch: Dict): seq<string> {
    SortBy(DictKeys(ch), KeyLe)
  }

  /** (chapters.get(ck, {}) or {}).get("chapter_text") or "", stripped; a
      truthy chapter that is not a dict raises. */
  function ChapterText(ch: Dict, k: string): Result<string> {
    var v := GetOr(ch, k, JObj([]));
    if !Truthy(v) then Ok("")
    else if !v.JObj? then Err(NOT_DICT)
    else StrippedOr(Lookup(v.fields, "chapter_text"))
  }

  /** The non-empty chapter texts in key order; the first failing chapter
      raises. */
  function ChapterLines(ch: Dict, keys: seq<string>): (r: Result<seq<string>>)
    ensures r.Ok? ==> |r.value| <= |keys|
  {
    if keys == [] then Ok([])
    else match ChapterLines(ch, keys[..|keys| - 1])
      case Err(e) => Err(e)
      case Ok(ls) =>
        match ChapterText(ch, keys[|keys| - 1])
        case Err(e) => Err(e)
        case Ok(ct) => if ct != [] then Ok(ls + [ct]) else Ok(ls)
  }

  /** _load_bridge_text of the opportunity and threat retrievers: the
      top-level text when non-empty, otherwise the chapter texts joined by a
      blank line, "" when chapters is not a dict. */
  function BridgeText(files: SectionIo.Files, workdir: string): Result<string> {
    var p := BridgePath(workdir);
    if p !in files then Ok("")
    else if !files[p].JObj? then Err(NOT_DICT)
    else
      match StrippedOr(Lookup(files[p].fields, "bridge_text"))
      case Err(e) => Err(e)
      case Ok(bt) =>
        if bt != [] then Ok(bt)
        else
          var chapters := At(files[p].fields, "chapters");
          if !chapters.JObj? then Ok("")
          else match ChapterLines(chapters.fields, ChapterOrder(chapters.fields))
            case Err(e) => Err(e)
            case Ok(ls) => Ok(Strip(Join(ls, "\n\n")))
  }

  lemma {:induction false} ChapterLinesErrSticky(ch: Dict, keys: seq<string>, n: nat)
    requires n <= |keys|
    requires ChapterLines(ch, keys[..n]).Err?
    ensures ChapterLines(ch, keys) == ChapterLines(ch, keys[..n])
    decreases |keys| - n
  {
    if n < |keys| {
      assert keys[..n + 1][..n] == keys[..n];
      ChapterLinesErrSticky(ch, keys, n + 1);
    } else {
      assert keys[..n] == keys;
    }
  }

  /** The loop over the sorted keys that appends each non-empty chapter text. */
  method CollectChapters(ch: Dict, keys: seq<string>) returns (r: Result<seq<string>>)
    ensures r == ChapterLines(ch, keys)
  {
    var lines: seq<string> := [];
    for i := 0 to |keys|
      invariant ChapterLines(ch, keys[..i]) == Ok(lines)
    {
      assert keys[..i + 1][..i] == keys[..i];
      var ct := ChapterText(ch, keys[i]);
      if ct.Err? {
        ChapterLinesErrSticky(ch, keys, i + 1);
        return Err(ct.msg);
      }
      if ct.value != [] {
        lines := lines + [ct.value];
      }
    }
    assert keys[..|keys|] == keys;
    r := Ok(lines);
  }

  method LoadBridgeText(files: SectionIo.Files, workdir: string) returns (r: Result<string>)
    ensures r == BridgeText(files, workdir)
  {
    var p := BridgePath(workdir);
    if p !in files {
      return Ok("");
    }
    if !files[p].JObj? {
      return Err(NOT_DICT);
    }
    var bt := StrippedOr(Lookup(files[p].fields, "bridge_text"));
    if bt.Err? || bt.value != [] {
      return bt;
    }
    var chapters := At(files[p].fields, "chapters");
    if !chapters.JObj? {
      return Ok("");
    }
    var lines := CollectChapters(chapters.fields, ChapterOrder(chapters.fields));
    if lines.Err? {
      return Err(lines.msg);
    }
    r := Ok(Strip(Join(lines.value, "\n\n")));
  }

  /** Both loaders read the same top-level text, and the chapter fallback
      only applies when that text is empty: the full loader agrees with the
      simple one except where the simple one gives "". */
  lemma BridgePriority(files: SectionIo.Files, workdir: string)
    ensures TopBridgeText(files, workdir).Err? ==> BridgeText(files, workdir) == TopBridgeText(files, workdir)
    ensures TopBridgeText(files, workdir).Ok? && TopBridgeText(files, workdir).value != [] ==>
              BridgeText(files, workdir) == TopBridgeText(files, workdir)
    ensures BridgePath(workdir) !in files ==> BridgeText(files, workdir) == Ok("")
  {
  }

  /** The chapter lines are produced exactly when every chapter reads
      without error. */
  lemma {:induction false} ChapterLinesOk(ch: Dict, keys: seq<string>)
    ensures ChapterLines(ch, keys).Ok? <==> forall i :: 0 <= i < |keys| ==> ChapterText(ch, keys[i]).Ok?
  {
    if keys != [] {
      var init := keys[..|keys| - 1];
      ChapterLinesOk(ch, init);
      assert forall i :: 0 <= i < |init| ==> init[i] == keys[i];
    }
  }

  /** Every chapter line is non-empty and stripped. */
  lemma {:induction false} ChapterLinesStripped(ch: Dict, keys: seq<string>)
    requires ChapterLines(ch, keys).Ok?
    ensures forall i :: 0 <= i < |ChapterLines(ch, keys).value| ==> StrippedLine(ChapterLines(ch, keys).value[i])
  {
    if keys != [] {
      var init := keys[..|keys| - 1];
      ChapterLinesStripped(ch, init);
      var ct := ChapterText(ch, keys[|keys| - 1]);
      if ct.value != [] {
        StrippedText(ch, keys[|keys| - 1]);
      }
    }
  }

  predicate StrippedLine(s: string) { s != [] && Strip(s) == s }

  /** A chapter text is already stripped. */
  lemma StrippedText(ch: Dict, k: string)
    requires ChapterText(ch, k).Ok?
    ensures Strip(ChapterText(ch, k).value) == ChapterText(ch, k).value
  {
    StripOfStripped(ChapterText(ch, k).value);
  }

  lemma KeyLeTotal()
    ensures TotalPreorder(KeyLe)
  {
  }

  /** The chapters come in ascending _ckey order, each key once as in the
      dict, and a key that is not an integer is followed only by keys whose
      _ckey is at least 10**9. */
  lemma ChapterOrderSpec(ch: Dict)
    ensures SortedBy(ChapterOrder(ch), KeyLe)
    ensures Tables.NoDup(ChapterOrder(ch))
    ensures forall k :: k in ChapterOrder(ch) <==> Lookup(ch, k).Some?
    ensures forall i, j :: 0 <= i < j < |ChapterOrder(ch)| && PyInt(JStr(ChapterOrder(ch)[i])).Err? ==>
              ChapterKey(ChapterOrder(ch)[j]) >= NON_INT_KEY
  {
    KeyLeTotal();
    SortBySorted(DictKeys(ch), KeyLe);
    SortByMembers(DictKeys(ch), KeyLe);
    Tables.NoDupPerm(DictKeys(ch), ChapterOrder(ch));
  }

  // ---------------------------------------------------------------------------
  // _filter_biz_only and the business evidence
  // ---------------------------------------------------------------------------

  /** (r.get("type") or "").strip().lower() == "biz"; a row that is not a
      dict, or a truthy type that is not a string, raises. */
  function IsBiz(r: Value): Result<bool> {
    if !r.JObj? then Err(NOT_DICT)
    else match StrippedOr(Lookup(r.fields, "type"))
      case Err(e) => Err(e)
      case Ok(t) => Ok(Lower(t) == "biz")
  }

  predicate BizRow(r: Value) { IsBiz(r) == Ok(true) }

  /** The biz rows in order; the first row that raises ends the filter. */
  function BizRows(rows: seq<Value>): (r: Result<seq<Value>>)
    ensures r.Ok? ==> |r.value| <= |rows|
  {
    if rows == [] then Ok([])
    else match BizRows(rows[..|rows| - 1])
      case Err(e) => Err(e)
      case Ok(out) =>
        match IsBiz(rows[|rows| - 1])
        case Err(e) => Err(e)
        case Ok(b) => if b then Ok(out + [rows[|rows| - 1]]) else Ok(out)
  }

  lemma {:induction false} BizRowsErrSticky(rows: seq<Value>, n: nat)
    requires n <= |rows|
    requires BizRows(rows[..n]).Err?
    ensures BizRows(rows) == BizRows(rows[..n])
    decreases |rows| - n
  {
    if n < |rows| {
      assert rows[..n + 1][..n] == rows[..n];
      BizRowsErrSticky(rows, n + 1);
    } else {
      assert rows[..n] == rows;
    }
  }

  /** The loop of _filter_biz_only in the opportunity and threat retrievers. */
  method FilterBizOnly(rows: seq<Value>) returns (r: Result<seq<Value>>)
    ensures r == BizRows(rows)
  {
    var out: seq<Value> := [];
    for i := 0 to |rows|
      invariant BizRows(rows[..i]) == Ok(out)
    {
      assert rows[..i + 1][..i] == rows[..i];
      var b := IsBiz(rows[i]);
      if b.Err? {
        BizRowsErrSticky(rows, i + 1);
        return Err(b.msg);
      }
      if b.value {
        out := out + [rows[i]];
      }
    }
    assert rows[..|rows|] == rows;
    r := Ok(out);
  }

  /** The filter succeeds exactly when every row's type reads. */
  lemma {:induction false} BizRowsOk(rows: seq<Value>)
    ensures BizRows(rows).Ok? <==> forall i :: 0 <= i < |rows| ==> IsBiz(rows[i]).Ok?
  {
    if rows != [] {
      var init := rows[..|rows| - 1];
      BizRowsOk(init);
      assert forall i :: 0 <= i < |init| ==> init[i] == rows[i];
    }
  }

  /** When it succeeds, the filter keeps exactly the biz rows in order. */
  lemma {:induction false} BizRowsSpec(rows: seq<Value>)
    requires BizRows(rows).Ok?
    ensures BizRows(rows).value == Filter(rows, BizRow)
  {
    if rows != [] {
      var init := rows[..|rows| - 1];
      var x := rows[|rows| - 1];
      assert init + [x] == rows;
      var tail := if BizRow(x) then [x] else [];
      BizRowsStep(init, x);
      calc {
        BizRows(rows).value;
        BizRows(init).value + tail;
        { BizRowsSpec(init); }
        Filter(init, BizRow) + tail;
        { FilterSnoc(init, x, BizRow); }
        Filter(rows, BizRow);
      }
    }
  }

  /** One more row: the filter of the rows before it, plus the row when it
      is a biz row. */
  lemma BizRowsStep(init: seq<Value>, x: Value)
    requires BizRows(init + [x]).Ok?
    ensures BizRows(init).Ok?
    ensures BizRows(init + [x]).value == BizRows(init).value + (if BizRow(x) then [x] else [])
  {
    var rows := init + [x];
    assert rows[..|rows| - 1] == init && rows[|rows| - 1] == x;
  }

  /** pack_evidence over the biz rows, or "제공 없음" when there are none. */
  function BusinessEvidence(biz: seq<Value>, topk: int, show: Show): Result<string> {
    if biz == [] then Ok(NONE_GIVEN) else SectionIo.PackEvidence(biz, topk, false, show)
  }

  /** Dict rows always pack without tables. */
  lemma {:induction false} DictsPack(rows: seq<Value>, show: Show)
    requires forall i :: 0 <= i < |rows| ==> rows[i].JObj?
    ensures SectionIo.PackLines(rows, false, show).Ok?
  {
    if rows != [] {
      var init := rows[..|rows| - 1];
      assert forall i :: 0 <= i < |init| ==> init[i] == rows[i];
      DictsPack(init, show);
    }
  }

  /** For biz rows and topk >= 1: the evidence packs the first min(topk, n)
      rows, one evidence line each, and it reads "제공 없음" exactly when
      there are no biz rows. */
  lemma BusinessEvidenceSpec(rows: seq<Value>, topk: int, show: Show)
    requires BizRows(rows).Ok? && topk >= 1
    ensures var biz := BizRows(rows).value;
            var e := BusinessEvidence(biz, topk, show);
            e.Ok? && (e.value == NONE_GIVEN <==> biz == [])
            && (biz != [] ==>
                  var ls := SectionIo.PackLines(SliceTo(biz, topk), false, show).value;
                  |ls| == Min(topk, |biz|) && e.value == Join(ls, "\n")
                  && forall i :: 0 <= i < |ls| ==> biz[i].JObj? && ls[i] == SectionIo.EvidenceLine(biz[i].fields, show))
  {
    BizRowsSpec(rows);
    var biz := BizRows(rows).value;
    assert forall i :: 0 <= i < |biz| ==> BizRow(biz[i]);
    if biz != [] {
      var xs := SliceTo(biz, topk);
      assert forall i :: 0 <= i < |xs| ==> xs[i] == biz[i];
      DictsPack(xs, show);
      SectionIo.PackLinesSpec(xs, false, show);
      var ls := SectionIo.PackLines(xs, false, show).value;
      JoinStartsWith(ls, "\n");
      assert Join(ls, "\n")[0] == ls[0][0] == '-';
      assert NONE_GIVEN[0] != '-';
    }
  }

  // ---------------------------------------------------------------------------
  // build_ctx
  // ---------------------------------------------------------------------------

  /** meta.get("corp_name") or meta.get("corp_name_kr") or meta.get("corp_code"):
      the first truthy of the three, else whatever corp_code holds (None
      when it is absent). */
  function CorpName(meta: Dict): Value {
    var name := GetOr(meta, "corp_name", JNull);
    var nameKr := GetOr(meta, "corp_name_kr", JNull);
    if Truthy(name) then name else if Truthy(nameKr) then nameKr else GetOr(meta, "corp_code", JNull)
  }

  /** The corp name is the first truthy entry of the chain, and it is truthy
      exactly when one of the three entries is. */
  lemma CorpNameSpec(meta: Dict)
    ensures Truthy(CorpName(meta)) <==>
              HasTruthy(meta, "corp_name") || HasTruthy(meta, "corp_name_kr") || HasTruthy(meta, "corp_code")
    ensures HasTruthy(meta, "corp_name") ==> Some(CorpName(meta)) == Lookup(meta, "corp_name")
    ensures !HasTruthy(meta, "corp_name") && HasTruthy(meta, "corp_name_kr") ==>
              Some(CorpName(meta)) == Lookup(meta, "corp_name_kr")
    ensures !HasTruthy(meta, "corp_name") && !HasTruthy(meta, "corp_name_kr") ==>
              CorpName(meta) == GetOr(meta, "corp_code", JNull)
  {
  }

  /** The two context entries every build_ctx takes from meta.json; a meta
      that is not a dict raises when the context is assembled. */
  datatype MetaFields = MetaFields(corpName: Value, bsnsYear: Value)

  function MetaFieldsOf(meta: Value): Result<MetaFields> {
    if !meta.JObj? then Err(NOT_DICT)
    else Ok(MetaFields(CorpName(meta.fields), GetOr(meta.fields, "bsns_year", JNull)))
  }

  datatype CandidateCtx = CandidateCtx(meta: MetaFields, bridgeText: string, coreTable: string, auxTable: string)

  const TABLE_LIMIT := 12

  function CoreTitle(want: bool): string {
    if want then "핵심 Strength 후보(AND: yoy=True AND bench=True)"
    else "핵심 Weakness 후보(AND: yoy=False AND bench=False)"
  }

  function AuxTitle(want: bool): string {
    if want then "보조 Strength 후보(OR: yoy/bench 중 하나만 True)"
    else "보조 Weakness 후보(OR: yoy/bench 중 하나만 False)"
  }

  /** build_ctx of the strength (want = true) and weakness (want = false)
      retrievers: corp_name and bsns_year from meta.json, the bridge text
      and the core and aux tables of at most 12 rows each. */
  method BuildCandidateCtx(files: SectionIo.Files, workdir: string, meta: Value, rows: seq<Dict>, want: bool,
                           show: Show, parse: string -> Option<real>) returns (ctx: Result<CandidateCtx>)
    ensures ctx.Ok? <==> TopBridgeText(files, workdir).Ok? && meta.JObj?
    ensures ctx.Err? && TopBridgeText(files, workdir).Ok? ==> ctx == Err(NOT_DICT)
    ensures ctx.Ok? ==>
              ctx.value.meta == MetaFieldsOf(meta).value
              && ctx.value.bridgeText == TopBridgeText(files, workdir).value
              && ctx.value.coreTable == SignalTable(CoreTitle(want), Candidates(rows, want).0, TABLE_LIMIT, show, parse)
              && ctx.value.auxTable == SignalTable(AuxTitle(want), Candidates(rows, want).1, TABLE_LIMIT, show, parse)
    ensures ctx.Ok? ==> (ctx.value.coreTable == CoreTitle(want) + ": " + NONE_GIVEN <==> Candidates(rows, want).0 == [])
  {
    var bridge := TopBridgeText(files, workdir);
    if bridge.Err? {
      return Err(bridge.msg);
    }
    var core, aux := SplitAndOr(rows, want);
    var coreTable := RenderSignalTable(CoreTitle(want), core, TABLE_LIMIT, show, parse);
    var auxTable := RenderSignalTable(AuxTitle(want), aux, TABLE_LIMIT, show, parse);
    EmptyTableIff(CoreTitle(want), core, TABLE_LIMIT, show, parse);
    var mf := MetaFieldsOf(meta);
    if mf.Err? {
      return Err(mf.msg);
    }
    ctx := Ok(CandidateCtx(mf.value, bridge.value, coreTable, auxTable));
  }

  datatype OutlookCtx = OutlookCtx(meta: MetaFields, bridgeText: string, businessEvidence: string, financialCapacityTable: string)

  const CAPACITY_KEYS: seq<string> := ["CASH_EQ", "OCF", "TOTAL_LIABILITIES", "CURRENT_LIABILITIES"]

  /** build_ctx of the opportunity and threat retrievers: corp_name and
      bsns_year from meta.json, the bridge text
      with its chapter fallback, every biz row packed (or "제공 없음"), and
      the year-on-year table of the financial-capacity metrics. */
  method BuildOutlookCtx(files: SectionIo.Files, workdir: string, meta: Value, evidenceRows: seq<Value>,
                         metricRows: Templates.MetricRows, show: Show) returns (ctx: Result<OutlookCtx>)
    ensures ctx.Ok? <==> BridgeText(files, workdir).Ok? && BizRows(evidenceRows).Ok? && meta.JObj?
    ensures ctx.Err? && BridgeText(files, workdir).Ok? && BizRows(evidenceRows).Ok? ==> ctx == Err(NOT_DICT)
    ensures ctx.Ok? ==>
              var biz := BizRows(evidenceRows).value;
              ctx.value.meta == MetaFieldsOf(meta).value
              && ctx.value.bridgeText == BridgeText(files, workdir).value
              && BusinessEvidence(biz, |biz|, show) == Ok(ctx.value.businessEvidence)
              && (ctx.value.businessEvidence == NONE_GIVEN <==> biz == [])
              && ctx.value.financialCapacityTable
                   == Templates.MdTable(Templates.T1_HEADERS, Templates.T1Rows(metricRows, CAPACITY_KEYS, show))
  {
    var bridge := LoadBridgeText(files, workdir);
    if bridge.Err? {
      return Err(bridge.msg);
    }
    var biz := FilterBizOnly(evidenceRows);
    if biz.Err? {
      return Err(biz.msg);
    }
    var evidence := NONE_GIVEN;
    if biz.value != [] {
      BusinessEvidenceSpec(evidenceRows, |biz.value|, show);
      evidence := SectionIo.PackEvidence(biz.value, |biz.value|, false, show).value;
    } else {
      assert BusinessEvidence(biz.value, |biz.value|, show) == Ok(NONE_GIVEN);
    }
    var table := Templates.RenderT1Yoy(metricRows, CAPACITY_KEYS, show);
    var mf := MetaFieldsOf(meta);
    if mf.Err? {
      return Err(mf.msg);
    }
    ctx := Ok(OutlookCtx(mf.value, bridge.value, evidence, table));
  }
}
