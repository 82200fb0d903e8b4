/** The section writers' input loading and evidence packing
    (src/sections/_common/io.py). The working directory is a map from path
    to parsed JSON document; a path exists when it is a key. */
module SectionIo {
  import opened Common
  import opened Json

  /** The files under the working directory, by path. */
  type Files = map<string, Value>

  /** workdir / name. */
  function PathJoin(dir: string, name: string): string {
    dir + "/" + name
  }

  /** _resolve_under_workdir: an absolute path is kept, a relative one is
      taken under workdir. */
  function ResolveUnder(workdir: string, p: string): string {
    if |p| > 0 && p[0] == '/' then p else PathJoin(workdir, p)
  }

  predicate IsDot(c: char) { c == '.' }

  /** _default_section_stem: the text after the first ".", or the whole id. */
  function DefaultSectionStem(specId: string): string {
    match FirstIndex(specId, IsDot)
    case Some(i) => specId[i + 1..]
    case None => specId
  }

  /** Without a "." the stem is the id; with one, the id is a dot-free prefix,
      the first ".", then the stem. */
  lemma DefaultSectionStemSpec(specId: string)
    ensures '.' !in specId ==> DefaultSectionStem(specId) == specId
    ensures '.' in specId ==> exists i :: 0 <= i < |specId| && specId[i] == '.' && '.' !in specId[..i]
                                         && DefaultSectionStem(specId) == specId[i + 1..]
  {
    match FirstIndex(specId, IsDot)
    case None =>
      assert forall k :: 0 <= k < |specId| ==> specId[k] != '.' by {
        forall k | 0 <= k < |specId| ensures specId[k] != '.' { assert !IsDot(specId[k]); }
      }
    case Some(i) =>
      assert '.' !in specId[..i] by {
        forall k | 0 <= k < i ensures specId[..i][k] != '.' {
          assert !IsDot(specId[k]);
        }
      }
  }

  lemma DefaultSectionStemExamples()
    ensures DefaultSectionStem("c04.s04_1") == "s04_1"
    ensures DefaultSectionStem("s04_1") == "s04_1"
  {
    assert !IsDot('c') && !IsDot('0') && !IsDot('4') && IsDot("c04.s04_1"[3]);
    assert FirstIndex("c04.s04_1", IsDot) == Some(3) by {
      FirstIndexAt("c04.s04_1", IsDot, 3);
    }
    DefaultSectionStemSpec("s04_1");
  }

  predicate Exists(files: Files, p: string) { p in files }

  /** _pick_existing: the first candidate that exists. */
  function PickExisting(files: Files, cands: seq<string>): (r: Option<string>)
    ensures r.None? <==> forall i :: 0 <= i < |cands| ==> cands[i] !in files
    ensures r.Some? ==> exists i :: 0 <= i < |cands| && cands[i] == r.value && r.value in files
                                    && forall j :: 0 <= j < i ==> cands[j] !in files
  {
    match FirstIndex(cands, (p: string) => Exists(files, p))
    case Some(i) => Some(cands[i])
    case None => None
  }

  /** The candidate metrics (or evidence) files, in the order tried. */
  function Candidates(workdir: string, kind: string, specId: string): (r: seq<string>)
    ensures |r| == 4
  {
    var stem := DefaultSectionStem(specId);
    var dir := PathJoin(workdir, kind);
    [PathJoin(dir, stem + "_" + kind + ".json"), PathJoin(dir, specId + "_" + kind + ".json"),
     PathJoin(dir, stem + ".json"), PathJoin(dir, specId + ".json")]
  }

  function TriedMessage(what: string, cands: seq<string>): string {
    "FileNotFoundError: " + what + " file not found. Tried:\n- " + Join(cands, "\n- ")
  }

  /** The loaded inputs (the compatibility keys repeat these). */
  datatype Inputs = Inputs(meta: Value, metricsObj: Value, evidenceObj: Value, metricRows: seq<Value>,
                           evidenceRows: seq<Value>, metricsPath: string, evidencePath: string, metaPath: string)

  function MetaPath(workdir: string): string {
    PathJoin(PathJoin(workdir, "meta"), "meta.json")
  }

  /** `obj.get("rows") or []`, required to be a list. */
  function RowsOf(obj: Value, path: string): Result<seq<Value>> {
    if !obj.JObj? then Err("AttributeError: object has no attribute 'get'")
    else if !HasTruthy(obj.fields, "rows") then Ok([])
    else match Lookup(obj.fields, "rows").value
      case JList(xs) => Ok(xs)
      case _ => Err("TypeError: rows must be a list: " + path)
  }

  predicate NoId(specId: Option<string>) { specId.None? || specId.value == "" }

  /** The metrics file: an explicit path must exist; otherwise spec_id is
      required and the four candidates are tried in order. */
  function MetricsFile(files: Files, workdir: string, specId: Option<string>, metricsPath: Option<string>): (r: Result<string>)
    ensures r.Ok? ==> r.value in files
  {
    if metricsPath.Some? then
      var p := ResolveUnder(workdir, metricsPath.value);
      if p in files then Ok(p) else Err("FileNotFoundError: metrics_path not found: " + p)
    else if NoId(specId) then Err("ValueError: metrics_path is None. Provide spec_id to auto-resolve metrics file.")
    else
      var cands := Candidates(workdir, "metrics", specId.value);
      match PickExisting(files, cands)
      case Some(p) => Ok(p)
      case None => Err(TriedMessage("metrics", cands))
  }

  /** The evidence file, None when it is missing and that is allowed. */
  function EvidenceFile(files: Files, workdir: string, specId: Option<string>, evidencePath: Option<string>,
                        allowMissing: bool): (r: Result<Option<string>>)
    ensures r.Ok? && r.value.Some? ==> r.value.value in files
    ensures r.Ok? && r.value.None? ==> allowMissing
  {
    if evidencePath.Some? then
      var p := ResolveUnder(workdir, evidencePath.value);
      if p in files then Ok(Some(p))
      else if allowMissing then Ok(None)
      else Err("FileNotFoundError: evidence_path not found: " + p)
    else if NoId(specId) then Err("ValueError: evidence_path is None. Provide spec_id to auto-resolve evidence file.")
    else
      var cands := Candidates(workdir, "evidence", specId.value);
      match PickExisting(files, cands)
      case Some(p) => Ok(Some(p))
      case None => if allowMissing then Ok(None) else Err(TriedMessage("evidence", cands))
  }

  function LoadInputs(files: Files, workdir: string, specId: Option<string>, metricsPath: Option<string>,
                      evidencePath: Option<string>, allowMissing: bool): Result<Inputs> {
    var metaPath := MetaPath(workdir);
    if metaPath !in files then Err("FileNotFoundError: meta.json not found: " + metaPath)
    else
      match MetricsFile(files, workdir, specId, metricsPath)
      case Err(e) => Err(e)
      case Ok(mpath) =>
        var metricsObj := files[mpath];
        match RowsOf(metricsObj, mpath)
        case Err(e) => Err(e)
        case Ok(metricRows) =>
          match EvidenceFile(files, workdir, specId, evidencePath, allowMissing)
          case Err(e) => Err(e)
          case Ok(None) =>
            Ok(Inputs(files[metaPath], metricsObj, JObj([("rows", JList([]))]), metricRows, [], mpath, "", metaPath))
          case Ok(Some(epath)) =>
            match RowsOf(files[epath], epath)
            case Err(e) => Err(e)
            case Ok(evidenceRows) =>
              Ok(Inputs(files[metaPath], metricsObj, files[epath], metricRows, evidenceRows, mpath, epath, metaPath))
  }

  /** A missing meta.json fails whatever else is given. */
  lemma MetaRequired(files: Files, workdir: string, specId: Option<string>, metricsPath: Option<string>,
                     evidencePath: Option<string>, allowMissing: bool)
    requires MetaPath(workdir) !in files
    ensures LoadInputs(files, workdir, specId, metricsPath, evidencePath, allowMissing).Err?
  {
  }

  /** The metrics candidates are stem_metrics, spec_id_metrics, stem and
      spec_id, in that order, under workdir/metrics. */
  lemma MetricsCandidates(workdir: string, specId: string)
    ensures var cands := Candidates(workdir, "metrics", specId);
            var stem := DefaultSectionStem(specId);
            var dir := PathJoin(workdir, "metrics");
            cands == [PathJoin(dir, stem + "_metrics.json"), PathJoin(dir, specId + "_metrics.json"),
                      PathJoin(dir, stem + ".json"), PathJoin(dir, specId + ".json")]
  {
    var stem := DefaultSectionStem(specId);
    assert stem + "_" + "metrics" + ".json" == stem + "_metrics.json";
    assert specId + "_" + "metrics" + ".json" == specId + "_metrics.json";
  }

  /** Without an explicit path the metrics file is the first existing
      candidate, and loading fails when none exists. */
  lemma MetricsCandidateOrder(files: Files, workdir: string, specId: string)
    requires specId != ""
    ensures var cands := Candidates(workdir, "metrics", specId);
            var r := MetricsFile(files, workdir, Some(specId), None);
            (r.Ok? <==> exists i :: 0 <= i < 4 && cands[i] in files)
            && (r.Ok? ==> exists i :: 0 <= i < 4 && cands[i] == r.value && r.value in files
                                     && forall j :: 0 <= j < i ==> cands[j] !in files)
  {
    var cands := Candidates(workdir, "metrics", specId);
    assert MetricsFile(files, workdir, Some(specId), None) == match PickExisting(files, cands)
      case Some(p) => Ok(p)
      case None => Err(TriedMessage("metrics", cands));
  }

  /** A successful load has list-valued rows from the files it names; a
      metrics rows value that is truthy but not a list fails. */
  lemma LoadedRows(files: Files, workdir: string, specId: Option<string>, metricsPath: Option<string>,
                   evidencePath: Option<string>, allowMissing: bool)
    ensures var r := LoadInputs(files, workdir, specId, metricsPath, evidencePath, allowMissing);
            r.Ok? ==> r.value.metricsPath in files && r.value.metricsObj == files[r.value.metricsPath]
                      && RowsOf(r.value.metricsObj, r.value.metricsPath) == Ok(r.value.metricRows)
                      && (r.value.evidencePath == "" || (r.value.evidencePath in files
                            && RowsOf(files[r.value.evidencePath], r.value.evidencePath) == Ok(r.value.evidenceRows)))
  {
    var r := LoadInputs(files, workdir, specId, metricsPath, evidencePath, allowMissing);
    if r.Ok? {
      var m := MetricsFile(files, workdir, specId, metricsPath);
      assert m.Ok? && r.value.metricsPath == m.value;
      var e := EvidenceFile(files, workdir, specId, evidencePath, allowMissing);
      assert e.Ok?;
    }
  }

  /** Missing evidence is allowed only with allow_missing_evidence, and
      then gives no rows and path "". */
  lemma MissingEvidence(files: Files, workdir: string, specId: Option<string>, evidencePath: Option<string>, allowMissing: bool)
    requires EvidenceFile(files, workdir, specId, evidencePath, allowMissing).Ok?
    requires EvidenceFile(files, workdir, specId, evidencePath, allowMissing).value.None?
    ensures allowMissing
    ensures forall metricsPath: Option<string> ::
              var r := LoadInputs(files, workdir, specId, metricsPath, evidencePath, allowMissing);
              r.Ok? ==> r.value.evidenceRows == [] && r.value.evidencePath == ""
                        && r.value.evidenceObj == JObj([("rows", JList([]))])
  {
  }

  /** Without allow_missing_evidence a missing evidence file fails. */
  lemma EvidenceRequired(files: Files, workdir: string, specId: string, evidencePath: Option<string>)
    requires specId != ""
    requires evidencePath.Some? ==> ResolveUnder(workdir, evidencePath.value) !in files
    requires evidencePath.None? ==> forall i :: 0 <= i < 4 ==> Candidates(workdir, "evidence", specId)[i] !in files
    ensures EvidenceFile(files, workdir, Some(specId), evidencePath, false).Err?
  {
  }

  // ---------------------------------------------------------------------------
  // pack_evidence
  // ---------------------------------------------------------------------------

  /** str(d.get(key)), "None" when absent. */
  function GetStr(d: Dict, key: string, show: Show): string {
    PyStr(Lookup(d, key).GetOr(JNull), show)
  }

  /** str(d.get(key, "")). */
  function GetStrOr(d: Dict, key: string, show: Show): string {
    PyStr(GetOr(d, key, JStr("")), show)
  }

  function EvidenceLine(c: Dict, show: Show): string {
    "- " + GetStrOr(c, "text", show) + " (근거: note_no=" + GetStr(c, "note_no", show)
    + ", section_code=" + GetStr(c, "section_code", show) + ", chunk_id=" + GetStr(c, "chunk_id", show) + ")"
  }

  function TableLine(t: Dict, show: Show): string {
    "  - [TABLE] " + GetStrOr(t, "caption", show) + "\n" + GetStrOr(t, "table_md", show)
  }

  /** The first three table refs of a row; a truthy non-list or a non-dict
      ref raises. */
  function TableLines(c: Dict, show: Show): Result<seq<string>> {
    if !HasTruthy(c, "table_refs") then Ok([])
    else match Lookup(c, "table_refs").value
      case JList(ts) => DictLines(Take(ts, 3), show)
      case _ => Err("TypeError: table_refs must be a list")
  }

  function DictLines(ts: seq<Value>, show: Show): (r: Result<seq<string>>)
    ensures r.Ok? ==> |r.value| == |ts|
  {
    if ts == [] then Ok([])
    else match DictLines(ts[..|ts| - 1], show)
      case Err(e) => Err(e)
      case Ok(ls) =>
        if ts[|ts| - 1].JObj? then Ok(ls + [TableLine(ts[|ts| - 1].fields, show)])
        else Err("AttributeError: object has no attribute 'get'")
  }

  function RowLines(c: Value, includeTables: bool, show: Show): (r: Result<seq<string>>)
    ensures r.Ok? ==> c.JObj?
  {
    if !c.JObj? then Err("AttributeError: object has no attribute 'get'")
    else if !includeTables then Ok([EvidenceLine(c.fields, show)])
    else match TableLines(c.fields, show)
      case Err(e) => Err(e)
      case Ok(ts) => Ok([EvidenceLine(c.fields, show)] + ts)
  }

  function PackLines(rows: seq<Value>, includeTables: bool, show: Show): Result<seq<string>> {
    if rows == [] then Ok([])
    else match PackLines(rows[..|rows| - 1], includeTables, show)
      case Err(e) => Err(e)
      case Ok(ls) =>
        match RowLines(rows[|rows| - 1], includeTables, show)
        case Err(e) => Err(e)
        case Ok(more) => Ok(ls + more)
  }

  function PackEvidence(rows: seq<Value>, topk: int, includeTables: bool, show: Show): Result<string> {
    match PackLines(SliceTo(rows, topk), includeTables, show)
    case Err(e) => Err(e)
    case Ok(ls) => Ok(Join(ls, "\n"))
  }

  /** `out` of pack_evidence, built by its loop. */
  method PackEvidenceLines(rows: seq<Value>, topk: int, includeTables: bool, show: Show) returns (r: Result<seq<string>>)
    ensures r == PackLines(SliceTo(rows, topk), includeTables, show)
  {
    var xs := SliceTo(rows, topk);
    var out: seq<string> := [];
    for i := 0 to |xs|
      invariant PackLines(xs[..i], includeTables, show) == Ok(out)
    {
      var more := RowLines(xs[i], includeTables, show);
      PackLinesSnoc(xs, includeTables, show, i);
      if more.Err? {
        PackLinesErrSticky(xs, includeTables, show, i + 1);
        assert xs[..|xs|] == xs;
        return Err(more.msg);
      }
      out := out + more.value;
    }
    assert xs[..|xs|] == xs;
    r := Ok(out);
  }

  /** One more row: its lines are appended, or its error ends the packing. */
  lemma PackLinesSnoc(rows: seq<Value>, includeTables: bool, show: Show, n: nat)
    requires n < |rows| && PackLines(rows[..n], includeTables, show).Ok?
    ensures var more := RowLines(rows[n], includeTables, show);
            PackLines(rows[..n + 1], includeTables, show)
            == if more.Err? then Err(more.msg) else Ok(PackLines(rows[..n], includeTables, show).value + more.value)
  {
    assert rows[..n + 1][..n] == rows[..n];
    assert rows[..n + 1][n] == rows[n];
  }

  lemma {:induction false} PackLinesErrSticky(rows: seq<Value>, includeTables: bool, show: Show, n: nat)
    requires n <= |rows|
    requires PackLines(rows[..n], includeTables, show).Err?
    ensures PackLines(rows, includeTables, show) == PackLines(rows[..n], includeTables, show)
    decreases |rows| - n
  {
    if n < |rows| {
      assert rows[..n + 1][..n] == rows[..n];
      PackLinesErrSticky(rows, includeTables, show, n + 1);
    } else {
      assert rows[..n] == rows;
    }
  }

  /** A row gives its evidence line and, with tables, at most three more. */
  lemma RowLinesSpec(c: Value, includeTables: bool, show: Show)
    requires RowLines(c, includeTables, show).Ok?
    ensures var ls := RowLines(c, includeTables, show).value;
            1 <= |ls| <= (if includeTables then 4 else 1) && ls[0] == EvidenceLine(c.fields, show)
  {
    if includeTables && HasTruthy(c.fields, "table_refs") {
      var ts := Lookup(c.fields, "table_refs").value.items;
      assert |Take(ts, 3)| <= 3;
    }
  }

  /** The packed lines: at least one per row and, with tables, at most four
      per row; without tables exactly the rows' evidence lines. */
  lemma PackLinesSpec(rows: seq<Value>, includeTables: bool, show: Show)
    requires PackLines(rows, includeTables, show).Ok?
    ensures var ls := PackLines(rows, includeTables, show).value;
            |rows| <= |ls| <= (if includeTables then 4 * |rows| else |rows|)
            && (!includeTables ==> forall i :: 0 <= i < |rows| ==> rows[i].JObj? && ls[i] == EvidenceLine(rows[i].fields, show))
  {
    PackLinesCount(rows, includeTables, show);
    if !includeTables {
      PackLinesEvidence(rows, show);
    }
  }

  lemma {:induction false} PackLinesCount(rows: seq<Value>, includeTables: bool, show: Show)
    requires PackLines(rows, includeTables, show).Ok?
    ensures var ls := PackLines(rows, includeTables, show).value;
            |rows| <= |ls| <= (if includeTables then 4 * |rows| else |rows|)
  {
    if rows != [] {
      var init := rows[..|rows| - 1];
      PackLinesStep(rows, includeTables, show);
      PackLinesCount(init, includeTables, show);
      RowLinesSpec(rows[|rows| - 1], includeTables, show);
    }
  }

  lemma {:induction false} PackLinesEvidence(rows: seq<Value>, show: Show)
    requires PackLines(rows, false, show).Ok?
    ensures var ls := PackLines(rows, false, show).value;
            |ls| == |rows| && forall i :: 0 <= i < |rows| ==> rows[i].JObj? && ls[i] == EvidenceLine(rows[i].fields, show)
  {
    if rows != [] {
      var init := rows[..|rows| - 1];
      PackLinesStep(rows, false, show);
      PackLinesEvidence(init, show);
      var last := rows[|rows| - 1];
      RowLinesSpec(last, false, show);
      var ls0 := PackLines(init, false, show).value;
      var more := RowLines(last, false, show).value;
      var ls := PackLines(rows, false, show).value;
      assert ls == ls0 + more && |more| == 1;
      forall i | 0 <= i < |rows| ensures rows[i].JObj? && ls[i] == EvidenceLine(rows[i].fields, show) {
        if i < |init| {
          assert init[i] == rows[i] && ls[i] == ls0[i];
        } else {
          assert i == |ls0| && rows[i] == last && ls[i] == more[0];
        }
      }
    }
  }

  /** pack_evidence uses at most topk rows (all rows but the last -topk when
      topk is negative); every non-dict row among them fails. */
  lemma PackEvidenceSpec(rows: seq<Value>, topk: int, includeTables: bool, show: Show)
    ensures var xs := SliceTo(rows, topk);
            (topk >= 0 ==> |xs| == Min(topk, |rows|))
            && (topk < 0 ==> |xs| == Max(0, |rows| + topk))
            && (PackEvidence(rows, topk, includeTables, show).Ok? ==>
                  PackLines(xs, includeTables, show).Ok? && forall i :: 0 <= i < |xs| ==> xs[i].JObj?)
  {
    var xs := SliceTo(rows, topk);
    if PackLines(xs, includeTables, show).Ok? {
      PackLinesOk(xs, includeTables, show);
    }
  }

  lemma {:induction false} PackLinesOk(rows: seq<Value>, includeTables: bool, show: Show)
    requires PackLines(rows, includeTables, show).Ok?
    ensures forall i :: 0 <= i < |rows| ==> rows[i].JObj?
  {
    if rows != [] {
      var init := rows[..|rows| - 1];
      PackLinesStep(rows, includeTables, show);
      PackLinesOk(init, includeTables, show);
      forall i | 0 <= i < |rows| ensures rows[i].JObj? {
        if i < |init| {
          assert init[i] == rows[i] && init[i].JObj?;
        } else {
          assert i == |rows| - 1;
        }
      }
    }
  }

  /** A packing that succeeds succeeds on all rows but the last, and on the last. */
  lemma PackLinesStep(rows: seq<Value>, includeTables: bool, show: Show)
    requires rows != [] && PackLines(rows, includeTables, show).Ok?
    ensures PackLines(rows[..|rows| - 1], includeTables, show).Ok?
    ensures RowLines(rows[|rows| - 1], includeTables, show).Ok?
    ensures PackLines(rows, includeTables, show).value
            == PackLines(rows[..|rows| - 1], includeTables, show).value + RowLines(rows[|rows| - 1], includeTables, show).value
  {
  }
}
