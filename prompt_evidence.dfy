/** build_evidence_for_section of prompts/common/builders/create_evidence.py:
    a "biz" spec gathers business-section chunks; any other spec builds note
    evidence per metric of the metrics JSON, following fs line item ->
    note links -> note chunks, and bundling the inputs' evidence for ratio
    metrics. Table markers [[TABLE:id]] inside chunk text become table refs. */
module PromptEvidence {
  import opened Common
  import opened Json
  import PromptMetrics

  // ---------------------------------------------------------------------------
  // _extract_table_refs
  // ---------------------------------------------------------------------------

  predicate IsHexLower(c: char) { IsDigit(c) || 'a' <= c <= 'f' }

  /** The end of the run of [a-f0-9] starting at j. */
  function HexEnd(text: string, j: nat): (k: nat)
    requires j <= |text|
    ensures j <= k <= |text|
    ensures forall p :: j <= p < k ==> IsHexLower(text[p])
    ensures k == |text| || !IsHexLower(text[k])
    decreases |text| - j
  {
    if j < |text| && IsHexLower(text[j]) then HexEnd(text, j + 1) else j
  }

  const TABLE_OPEN := "[[TABLE:"

  /** A match of \[\[TABLE:([a-f0-9]{8,64})\]\] at i: the id and the end. A
      longer hex run cannot be followed by "]]" after 64 or fewer digits, so
      the run must be 8 to 64 long and end just before "]]". */
  function TableMatchAt(text: string, i: nat): (r: Option<(string, nat)>)
    requires i <= |text|
    ensures r.Some? ==> i < r.value.1 <= |text|
  {
    if i + 8 <= |text| && text[i..i + 8] == TABLE_OPEN then
      var k := HexEnd(text, i + 8);
      if 8 <= k - (i + 8) <= 64 && k + 2 <= |text| && text[k..k + 2] == "]]" then Some((text[i + 8..k], k + 2))
      else None
    else None
  }

  /** _TABLE_PAT.findall(text[i:]): scan left to right, resuming after each match. */
  function FindTableIds(text: string, i: nat): seq<string>
    requires i <= |text|
    decreases |text| - i
  {
    if i == |text| then []
    else match TableMatchAt(text, i)
      case Some(m) => [m.0] + FindTableIds(text, m.1)
      case None => FindTableIds(text, i + 1)
  }

  /** A well-formed id: 8 to 64 characters of [a-f0-9]. */
  predicate TableId(id: string) {
    8 <= |id| <= 64 && forall p :: 0 <= p < |id| ==> IsHexLower(id[p])
  }

  /** Every id found is well formed and written as "[[TABLE:id]]" in the text. */
  lemma {:induction false} FoundIdsSpec(text: string, i: nat)
    requires i <= |text|
    ensures forall id :: id in FindTableIds(text, i) ==> TableId(id) && Marked(text, id)
    decreases |text| - i
  {
    if i < |text| {
      match TableMatchAt(text, i)
      case Some(m) =>
        FoundIdsSpec(text, m.1);
        MatchMarked(text, i);
      case None =>
        FoundIdsSpec(text, i + 1);
    }
  }

  /** "[[TABLE:" + id + "]]" occurs in text. */
  ghost predicate Marked(text: string, id: string) {
    exists p: nat :: MarkerAt(text, p, id)
  }

  predicate MarkerAt(text: string, p: nat, id: string) {
    p + |id| + 10 <= |text| && text[p..p + |id| + 10] == TABLE_OPEN + id + "]]"
  }

  lemma MatchMarked(text: string, i: nat)
    requires i <= |text| && TableMatchAt(text, i).Some?
    ensures TableId(TableMatchAt(text, i).value.0) && Marked(text, TableMatchAt(text, i).value.0)
  {
    var k := HexEnd(text, i + 8);
    var id := text[i + 8..k];
    assert text[i..k + 2] == text[i..i + 8] + id + text[k..k + 2];
    assert forall p :: 0 <= p < |id| ==> id[p] == text[i + 8 + p];
    assert MarkerAt(text, i, id);
  }

  /** A table ref; caption is None without a tables table or title row. */
  datatype TableRef = TableRef(tableId: string, caption: Option<string>)

  /** A row of the tables table (table_id, table_title). */
  datatype TableTitle = TableTitle(tableId: string, title: Option<string>)

  /** SELECT table_title FROM tables WHERE table_id=? LIMIT 1: the first row's title. */
  function CaptionOf(tables: seq<TableTitle>, id: string): Option<string> {
    match FirstIndex(tables, (t: TableTitle) => t.tableId == id)
    case Some(i) => tables[i].title
    case None => None
  }

  function Identity(s: string): string { s }

  /** list(dict.fromkeys(findall(text))): the ids in first-occurrence order. */
  function TableIdsOf(text: string): seq<string> {
    DedupFirst(FindTableIds(text, 0), Identity)
  }

  function RefOf(tables: Option<seq<TableTitle>>, id: string): TableRef {
    TableRef(id, if tables.Some? then CaptionOf(tables.value, id) else None)
  }

  /** _extract_table_refs; `tables` is None when the tables table is absent. */
  function TableRefs(text: Option<string>, tables: Option<seq<TableTitle>>): (r: seq<TableRef>)
    ensures text.None? || text.value == [] ==> r == []
  {
    if text.None? || text.value == [] then []
    else
      var ids := TableIdsOf(text.value);
      seq(|ids|, i requires 0 <= i < |ids| => RefOf(tables, ids[i]))
  }

  /** The caption loop over refs, updating each ref in place. */
  method ExtractTableRefs(text: Option<string>, tables: Option<seq<TableTitle>>) returns (refs: seq<TableRef>)
    ensures refs == TableRefs(text, tables)
  {
    if text.None? || text.value == [] {
      return [];
    }
    var ids := TableIdsOf(text.value);
    if ids == [] {
      return [];
    }
    refs := seq(|ids|, i requires 0 <= i < |ids| => TableRef(ids[i], None));
    if tables.Some? {
      for i := 0 to |refs|
        invariant |refs| == |ids|
        invariant forall j :: 0 <= j < i ==> refs[j] == RefOf(tables, ids[j])
        invariant forall j :: i <= j < |refs| ==> refs[j] == TableRef(ids[j], None)
      {
        var cap := FirstIndex(tables.value, (t: TableTitle) => t.tableId == ids[i]);
        if cap.Some? {
          refs := refs[i := TableRef(ids[i], tables.value[cap.value].title)];
        }
      }
    }
  }

  /** The refs are the ids, in order. */
  lemma TableRefsIds(text: string, tables: Option<seq<TableTitle>>)
    requires text != []
    ensures |TableRefs(Some(text), tables)| == |TableIdsOf(text)|
    ensures forall i :: 0 <= i < |TableIdsOf(text)| ==> TableRefs(Some(text), tables)[i].tableId == TableIdsOf(text)[i]
  {
  }

  /** Each marked table is named once, in order of first appearance. */
  lemma TableIdsDistinct(text: string)
    ensures forall i, j :: 0 <= i < j < |TableIdsOf(text)| ==> TableIdsOf(text)[i] != TableIdsOf(text)[j]
  {
    DedupFirstKeys(FindTableIds(text, 0), Identity);
  }

  /** The ids are exactly the ids the pattern finds. */
  lemma TableIdsFound(text: string)
    ensures forall id :: id in TableIdsOf(text) <==> id in FindTableIds(text, 0)
  {
    var found := FindTableIds(text, 0);
    var ids := TableIdsOf(text);
    DedupFirstKeys(found, Identity);
    forall id | id in found
      ensures id in ids
    {
      var p :| 0 <= p < |found| && found[p] == id;
      assert Identity(found[p]) in KeysOf(ids, Identity);
    }
    forall id | id in ids
      ensures id in found
    {
      var p :| 0 <= p < |ids| && ids[p] == id;
      assert Identity(ids[p]) in KeysOf(found, Identity);
    }
  }

  /** Only well-formed ids written as markers in the text are named. */
  lemma TableIdsMarked(text: string)
    ensures forall id :: id in TableIdsOf(text) ==> TableId(id) && Marked(text, id)
  {
    TableIdsFound(text);
    FoundIdsSpec(text, 0);
  }

  /** Without a tables table every caption is None. */
  lemma NoCaptionsWithoutTables(text: Option<string>)
    ensures forall i :: 0 <= i < |TableRefs(text, None)| ==> TableRefs(text, None)[i].caption.None?
  {
  }

  // ---------------------------------------------------------------------------
  // The fs / note / chunk tables the builders query (one report)
  // ---------------------------------------------------------------------------

  /** fs_line_items joined to the report's fs_facts. */
  datatype FsLineItem = FsLineItem(lineItemId: string, statementType: string, labelKo: Option<string>, labelClean: Option<string>)

  /** A note_links row of the report (note_no may be NULL). */
  datatype NoteLink = NoteLink(lineItemId: string, noteNo: Option<int>, confidence: real)

  /** A text-chunk row of the report. */
  datatype TextChunk = TextChunk(chunkId: string, sectionId: Option<string>, sectionCode: Option<string>,
                                 sectionType: Option<string>, noteNo: Option<int>, chunkIdx: int, text: Option<string>)

  /** The report's rows: line items that have facts in the report, note_links
      (None when the table is absent), text chunks, and tables titles (None
      when the table is absent). */
  datatype Db = Db(
    meta: Option<PromptMetrics.ReportMeta>,
    lineItems: seq<FsLineItem>,
    noteLinks: Option<seq<NoteLink>>,
    chunks: seq<TextChunk>,
    tables: Option<seq<TableTitle>>)

  /** A chunk as the evidence JSON carries it. A business chunk has no
      note_no key and a note chunk no section_id key; the model writes the
      absent key as None. */
  datatype Chunk = Chunk(chunkId: string, sectionId: Option<string>, sectionCode: Option<string>, sectionType: Option<string>,
                         noteNo: Option<int>, chunkIdx: int, text: Option<string>, tableRefs: seq<TableRef>)

  function ChunkOf(db: Db, c: TextChunk, withSection: bool): Chunk {
    Chunk(c.chunkId, if withSection then c.sectionId else None, c.sectionCode, c.sectionType,
          if withSection then None else c.noteNo, c.chunkIdx, c.text, TableRefs(c.text, db.tables))
  }

  // ---------------------------------------------------------------------------
  // _find_line_item_id, _note_nos_from_note_links, _fetch_note_chunks
  // ---------------------------------------------------------------------------

  datatype FsEntry = FsEntry(statementType: string, labelLike: string)

  /** FS_MAP. */
  const FS_MAP: map<string, FsEntry> := map[
    "REVENUE" := FsEntry("IS", "매출"),
    "COGS" := FsEntry("IS", "매출원가"),
    "TOTAL_ASSETS" := FsEntry("BS", "자산총계"),
    "INVENTORIES" := FsEntry("BS", "재고"),
    "AR" := FsEntry("BS", "매출채권")]

  /** RATIO_REQ. */
  const RATIO_REQ: map<string, seq<string>> := map[
    "asset_turnover" := ["REVENUE", "TOTAL_ASSETS"],
    "inventory_turnover" := ["COGS", "INVENTORIES"],
    "ar_turnover" := ["REVENUE", "AR"]]

  /** statement_type=? AND label_clean LIKE '%like%' (a NULL label never matches). */
  predicate Candidate(li: FsLineItem, e: FsEntry) {
    li.statementType == e.statementType && li.labelClean.Some? && Contains(li.labelClean.value, e.labelLike)
  }

  /** ORDER BY length(label_clean) ASC LIMIT 1: a shortest candidate (the
      first in table order among equally short ones). */
  function Shortest(items: seq<FsLineItem>, e: FsEntry): (r: Option<FsLineItem>)
    ensures r.Some? ==> r.value in items && Candidate(r.value, e)
    ensures r.None? <==> forall li :: li in items ==> !Candidate(li, e)
  {
    if items == [] then None
    else
      var rest := Shortest(items[1..], e);
      if !Candidate(items[0], e) then rest
      else if rest.Some? && |rest.value.labelClean.value| < |items[0].labelClean.value| then rest
      else Some(items[0])
  }

  lemma {:induction false} ShortestIsShortest(items: seq<FsLineItem>, e: FsEntry)
    requires Shortest(items, e).Some?
    ensures forall li :: li in items && Candidate(li, e)
              ==> |Shortest(items, e).value.labelClean.value| <= |li.labelClean.value|
  {
    if items != [] && Shortest(items[1..], e).Some? {
      ShortestIsShortest(items[1..], e);
    }
  }

  function FindLineItem(db: Db, metricKey: string): Option<FsLineItem> {
    if metricKey !in FS_MAP then None else Shortest(db.lineItems, FS_MAP[metricKey])
  }

  function LinkConfidence(l: NoteLink): real { l.confidence }

  predicate LinkOf(l: NoteLink, lineItemId: string) {
    l.lineItemId == lineItemId && l.noteNo.Some?
  }

  /** WHERE line_item_id=? AND note_no IS NOT NULL ORDER BY confidence DESC LIMIT max_notes. */
  function TopLinks(links: seq<NoteLink>, lineItemId: string, maxNotes: int): seq<NoteLink> {
    Take(SortDesc(Filter(links, (l: NoteLink) => LinkOf(l, lineItemId)), LinkConfidence), maxNotes)
  }

  function NoteNos(db: Db, lineItemId: string, maxNotes: int): (r: seq<int>)
    ensures db.noteLinks.Some? ==> |r| == |TopLinks(db.noteLinks.value, lineItemId, maxNotes)|
    ensures db.noteLinks.Some? ==> forall i :: 0 <= i < |r| ==> r[i] == TopLinks(db.noteLinks.value, lineItemId, maxNotes)[i].noteNo.GetOr(0)
  {
    if db.noteLinks.None? then []
    else
      var top := TopLinks(db.noteLinks.value, lineItemId, maxNotes);
      seq(|top|, i requires 0 <= i < |top| => top[i].noteNo.GetOr(0))
  }

  /** A prefix of a sorted list of filtered rows. */
  lemma SortedPrefix<T>(xs: seq<T>, key: T -> real, n: int)
    ensures |SortDesc(xs, key)| == |xs|
    ensures SortedDesc(Take(SortDesc(xs, key), n), key)
    ensures forall i :: 0 <= i < |Take(SortDesc(xs, key), n)| ==> Take(SortDesc(xs, key), n)[i] in xs
  {
    var sorted := SortDesc(xs, key);
    SortDescSorted(xs, key);
    assert |multiset(sorted)| == |multiset(xs)|;
    var top := Take(sorted, n);
    forall i | 0 <= i < |top|
      ensures top[i] in xs
    {
      assert top[i] == sorted[i];
      assert top[i] in multiset(sorted);
    }
  }

  /** The links used are the item's links that carry a note number, at most
      max_notes (all when there are fewer), in descending confidence. */
  lemma TopLinksSpec(links: seq<NoteLink>, lineItemId: string, maxNotes: int)
    ensures var top := TopLinks(links, lineItemId, maxNotes);
            SortedDesc(top, LinkConfidence)
            && (forall i :: 0 <= i < |top| ==> top[i] in links && LinkOf(top[i], lineItemId))
            && |top| == Min(Max(maxNotes, 0), |Filter(links, (l: NoteLink) => LinkOf(l, lineItemId))|)
  {
    SortedPrefix(Filter(links, (l: NoteLink) => LinkOf(l, lineItemId)), LinkConfidence, maxNotes);
  }

  /** Without a note_links table there are no note numbers. */
  lemma NoNoteLinksTable(db: Db, lineItemId: string, maxNotes: int)
    requires db.noteLinks.None?
    ensures NoteNos(db, lineItemId, maxNotes) == []
  {
  }

  function ChunkOrder(c: TextChunk): real { 0.0 - c.chunkIdx as real }

  predicate NoteChunkOf(c: TextChunk, noteNo: int) {
    c.sectionType == Some("notes") && c.noteNo == Some(noteNo)
  }

  /** WHERE section_type='notes' AND note_no=? ORDER BY chunk_idx ASC LIMIT topk. */
  function NoteChunkRows(db: Db, noteNo: int, topk: int): seq<TextChunk> {
    Take(SortDesc(Filter(db.chunks, (c: TextChunk) => NoteChunkOf(c, noteNo)), ChunkOrder), topk)
  }

  function NoteChunks(db: Db, noteNo: int, topk: int): (r: seq<Chunk>)
    ensures |r| == |NoteChunkRows(db, noteNo, topk)|
  {
    var rows := NoteChunkRows(db, noteNo, topk);
    seq(|rows|, i requires 0 <= i < |rows| => ChunkOf(db, rows[i], false))
  }

  /** _fetch_note_chunks: the loop appending one chunk per fetched row. */
  method FetchNoteChunks(db: Db, noteNo: int, topk: int) returns (out: seq<Chunk>)
    ensures out == NoteChunks(db, noteNo, topk)
  {
    var rows := NoteChunkRows(db, noteNo, topk);
    out := [];
    for i := 0 to |rows|
      invariant |out| == i && forall j :: 0 <= j < i ==> out[j] == ChunkOf(db, rows[j], false)
    {
      var refs := ExtractTableRefs(rows[i].text, db.tables);
      out := out + [Chunk(rows[i].chunkId, None, rows[i].sectionCode, rows[i].sectionType,
                          rows[i].noteNo, rows[i].chunkIdx, rows[i].text, refs)];
    }
  }

  /** The note chunks are notes chunks of that note number, at most topk,
      in ascending chunk_idx order. */
  lemma NoteChunksSpec(db: Db, noteNo: int, topk: int)
    ensures var rows := NoteChunkRows(db, noteNo, topk);
            |rows| <= Max(topk, 0)
            && (forall i :: 0 <= i < |rows| ==> rows[i] in db.chunks && NoteChunkOf(rows[i], noteNo))
            && (forall i, j :: 0 <= i < j < |rows| ==> rows[i].chunkIdx <= rows[j].chunkIdx)
  {
    var fs := Filter(db.chunks, (c: TextChunk) => NoteChunkOf(c, noteNo));
    SortedPrefix(fs, ChunkOrder, topk);
    var rows := Take(SortDesc(fs, ChunkOrder), topk);
    forall i, j | 0 <= i < j < |rows|
      ensures rows[i].chunkIdx <= rows[j].chunkIdx
    {
      assert ChunkOrder(rows[i]) >= ChunkOrder(rows[j]);
    }
  }

  // ---------------------------------------------------------------------------
  // _build_notes_evidence_for_metric
  // ---------------------------------------------------------------------------

  datatype NoteEvidence = NoteEvidence(noteNo: int, chunks: seq<Chunk>)

  datatype MetricEvidence =
    | RatioEvidence(metricKey: string, inputs: seq<string>, inputEvidence: seq<(string, MetricEvidence)>)
    | RawEvidence(metricKey: string, lineItem: FsLineItem, notes: seq<NoteEvidence>)
    | MissingMapping(metricKey: string)

  datatype Limits = Limits(maxNotes: int, topkChunksPerNote: int)

  /** The notes of the note numbers, skipping numbers without chunks. */
  function NotesOut(db: Db, nos: seq<int>, lim: Limits): seq<NoteEvidence> {
    FlatMap(nos, (no: int) => NoteOut(db, no, lim))
  }

  /** `if chunks: notes_out.append(...)` for one note number. */
  function NoteOut(db: Db, no: int, lim: Limits): (r: seq<NoteEvidence>)
    ensures |r| <= 1 && forall n :: n in r ==> n.noteNo == no && n.chunks != []
  {
    var cs := NoteChunks(db, no, lim.topkChunksPerNote);
    if cs != [] then [NoteEvidence(no, cs)] else []
  }

  /** Raw evidence: line item -> note numbers -> chunks. */
  function RawEvidenceFor(db: Db, metricKey: string, lim: Limits): MetricEvidence {
    match FindLineItem(db, metricKey)
    case None => MissingMapping(metricKey)
    case Some(li) => RawEvidence(metricKey, li, NotesOut(db, NoteNos(db, li.lineItemId, lim.maxNotes), lim))
  }

  function NotesEvidence(db: Db, metricKey: string, lim: Limits): MetricEvidence {
    if metricKey in RATIO_REQ then
      var inputs := RATIO_REQ[metricKey];
      RatioEvidence(metricKey, inputs, seq(|inputs|, i requires 0 <= i < |inputs| => (inputs[i], RawEvidenceFor(db, inputs[i], lim))))
    else RawEvidenceFor(db, metricKey, lim)
  }

  /** No ratio input is itself a ratio, so the recursion of
      _build_notes_evidence_for_metric stops after one level and the ratio
      branch is exactly the inputs' raw evidence. */
  lemma RatioInputsAreRaw()
    ensures forall k, i :: k in RATIO_REQ && 0 <= i < |RATIO_REQ[k]| ==> RATIO_REQ[k][i] !in RATIO_REQ
  {
  }

  /** A ratio metric's input_evidence is keyed exactly by its inputs, in order,
      each entry being that input's evidence. */
  lemma RatioEvidenceSpec(db: Db, metricKey: string, lim: Limits)
    requires metricKey in RATIO_REQ
    ensures var ev := NotesEvidence(db, metricKey, lim);
            ev.RatioEvidence? && ev.inputs == RATIO_REQ[metricKey]
            && |ev.inputEvidence| == |ev.inputs|
            && forall i :: 0 <= i < |ev.inputs| ==> ev.inputEvidence[i] == (ev.inputs[i], NotesEvidence(db, ev.inputs[i], lim))
  {
    RatioInputsAreRaw();
  }

  /** A non-ratio metric without an FS_MAP entry, or without a matching line
      item, is a missing mapping. */
  lemma MissingMappingSpec(db: Db, metricKey: string, lim: Limits)
    requires metricKey !in RATIO_REQ
    ensures NotesEvidence(db, metricKey, lim).MissingMapping?
            <==> metricKey !in FS_MAP || forall li :: li in db.lineItems ==> !Candidate(li, FS_MAP[metricKey])
  {
  }

  /** A note appears only with at least one chunk, and only for a note
      number of the item's links. */
  lemma {:induction false} NotesOutSpec(db: Db, nos: seq<int>, lim: Limits)
    ensures forall n :: n in NotesOut(db, nos, lim) ==> n.chunks != [] && n.noteNo in nos
    ensures |NotesOut(db, nos, lim)| <= |nos|
  {
    if nos != [] {
      var k := |nos| - 1;
      NotesOutSpec(db, nos[..k], lim);
      FlatMapSnoc(nos[..k], nos[k], (no: int) => NoteOut(db, no, lim));
      assert nos == nos[..k] + [nos[k]];
      assert forall n :: n in nos[..k] ==> n in nos;
    }
  }

  // ---------------------------------------------------------------------------
  // build_evidence_for_section
  // ---------------------------------------------------------------------------

  datatype Evidence =
    | Biz(chunks: seq<Chunk>)
    | NotesByMetrics(rows: seq<MetricEvidence>)

  datatype EvidenceJson = EvidenceJson(meta: Option<PromptMetrics.ReportMeta>, reportId: string, evidence: Evidence)

  const TOPK_BIZ_DEFAULT := 80

  /** A list spec is reduced to its first element (or None). */
  function FirstIfList(spec: Value): Value {
    if spec.JList? then (if spec.items != [] then spec.items[0] else JNull) else spec
  }

  /** etype: the trimmed, lowercased "type" of a dict spec; None for others. */
  function EvidenceType(spec: Value): Result<Option<string>> {
    var s := FirstIfList(spec);
    if !s.JObj? then Ok(None)
    else match StrippedOr(Lookup(s.fields, "type"))
      case Err(m) => Err(m)
      case Ok(t) => Ok(Some(Lower(t)))
  }

  /** int(spec.get("topk_chunks") or 80). */
  function BizTopK(spec: Value): Result<int>
    requires spec.JObj?
  {
    var v := GetOr(spec.fields, "topk_chunks", JNull);
    if Truthy(v) then PyInt(v) else Ok(TOPK_BIZ_DEFAULT)
  }

  /** The metric keys of metrics_json["rows"], skipping rows without a truthy metric_key. */
  function MetricKeysOf(metricsJson: Value, show: Show): Result<seq<string>> {
    if !Truthy(metricsJson) then Ok([])
    else if !metricsJson.JObj? then Err("AttributeError: object has no attribute 'get'")
    else
      var rows := GetOr(metricsJson.fields, "rows", JList([]));
      if !Truthy(rows) then Ok([])
      else match Iterate(rows)
        case Err(m) => Err(m)
        case Ok(items) => RowKeys(items, show)
  }

  function RowKeys(items: seq<Value>, show: Show): Result<seq<string>> {
    if items == [] then Ok([])
    else match RowKeys(items[..|items| - 1], show)
      case Err(m) => Err(m)
      case Ok(ks) =>
        var r := items[|items| - 1];
        if !r.JObj? then Err("AttributeError: object has no attribute 'get'")
        else if HasTruthy(r.fields, "metric_key") then Ok(ks + [PyStr(Lookup(r.fields, "metric_key").value, show)])
        else Ok(ks)
  }

  predicate BizChunk(c: TextChunk) { c.sectionType == Some("biz") }

  /** ORDER BY section_code, chunk_idx; DuckDB sorts NULL section codes last. */
  predicate BizBefore(a: TextChunk, b: TextChunk) {
    match (a.sectionCode, b.sectionCode)
    case (Some(x), Some(y)) => LexLess(x, y) || (x == y && a.chunkIdx <= b.chunkIdx)
    case (Some(_), None) => true
    case (None, Some(_)) => false
    case (None, None) => a.chunkIdx <= b.chunkIdx
  }

  lemma BizBeforeOrders()
    ensures TotalPreorder(BizBefore)
  {
    forall a: TextChunk, b: TextChunk ensures BizBefore(a, b) || BizBefore(b, a) {
      if a.sectionCode.Some? && b.sectionCode.Some? {
        LexLessTotal(a.sectionCode.value, b.sectionCode.value);
      }
    }
    forall a: TextChunk, b: TextChunk, c: TextChunk | BizBefore(a, b) && BizBefore(b, c) ensures BizBefore(a, c) {
      if a.sectionCode.Some? && b.sectionCode.Some? && c.sectionCode.Some?
         && LexLess(a.sectionCode.value, b.sectionCode.value) && LexLess(b.sectionCode.value, c.sectionCode.value) {
        LexLessTransitive(a.sectionCode.value, b.sectionCode.value, c.sectionCode.value);
      }
    }
  }

  /** WHERE section_type='biz' ORDER BY section_code, chunk_idx LIMIT topk. */
  function BizChunkRows(db: Db, topk: int): seq<TextChunk> {
    Take(SortBy(Filter(db.chunks, BizChunk), BizBefore), topk)
  }

  function BizChunks(db: Db, topk: int): seq<Chunk> {
    var rows := BizChunkRows(db, topk);
    seq(|rows|, i requires 0 <= i < |rows| => ChunkOf(db, rows[i], true))
  }

  function BuildEvidence(db: Db, reportId: string, spec: Value, metricsJson: Value, show: Show, lim: Limits): Result<EvidenceJson> {
    match EvidenceType(spec)
    case Err(m) => Err(m)
    case Ok(etype) =>
      if etype == Some("biz") then
        match BizTopK(FirstIfList(spec))
        case Err(m) => Err(m)
        case Ok(k) => Ok(EvidenceJson(db.meta, reportId, Biz(BizChunks(db, k))))
      else
        match MetricKeysOf(metricsJson, show)
        case Err(m) => Err(m)
        case Ok(keys) =>
          Ok(EvidenceJson(db.meta, reportId, NotesByMetrics(seq(|keys|, i requires 0 <= i < |keys| => NotesEvidence(db, keys[i], lim)))))
  }

  /** _build_biz_evidence: the loop over the fetched business chunks. */
  method BuildBizEvidence(db: Db, topk: int) returns (out: seq<Chunk>)
    ensures out == BizChunks(db, topk)
  {
    var rows := BizChunkRows(db, topk);
    out := [];
    for i := 0 to |rows|
      invariant |out| == i && forall j :: 0 <= j < i ==> out[j] == ChunkOf(db, rows[j], true)
    {
      var refs := ExtractTableRefs(rows[i].text, db.tables);
      out := out + [Chunk(rows[i].chunkId, rows[i].sectionId, rows[i].sectionCode, rows[i].sectionType,
                          None, rows[i].chunkIdx, rows[i].text, refs)];
    }
  }

  method BuildEvidenceForSection(db: Db, reportId: string, spec: Value, metricsJson: Value, show: Show, lim: Limits)
    returns (r: Result<EvidenceJson>)
    ensures r == BuildEvidence(db, reportId, spec, metricsJson, show, lim)
  {
    var etype := EvidenceType(spec);
    if etype.Err? {
      return Err(etype.msg);
    }
    if etype.value == Some("biz") {
      var k := BizTopK(FirstIfList(spec));
      if k.Err? {
        return Err(k.msg);
      }
      var chunks := BuildBizEvidence(db, k.value);
      return Ok(EvidenceJson(db.meta, reportId, Biz(chunks)));
    }
    var keys := MetricKeysOf(metricsJson, show);
    if keys.Err? {
      return Err(keys.msg);
    }
    var rows := seq(|keys.value|, i requires 0 <= i < |keys.value| => NotesEvidence(db, keys.value[i], lim));
    r := Ok(EvidenceJson(db.meta, reportId, NotesByMetrics(rows)));
  }

  /** A dict whose trimmed, lowercased type is "biz" selects the biz branch. */
  lemma BizType(d: Dict)
    requires Lookup(d, "type").Some? && Lookup(d, "type").value.JStr?
    requires Lower(Strip(Lookup(d, "type").value.s)) == "biz"
    ensures EvidenceType(JObj(d)) == Ok(Some("biz"))
    ensures EvidenceType(JList([JObj(d)])) == Ok(Some("biz"))
  {
    var t := Lookup(d, "type").value;
    assert Strip(t.s) != [];
    assert Truthy(t);
    assert FirstIfList(JList([JObj(d)])) == JObj(d);
  }

  /** Without topk_chunks the biz branch takes at most 80 chunks. */
  lemma BizBranch(db: Db, reportId: string, d: Dict, metricsJson: Value, show: Show, lim: Limits)
    requires Lookup(d, "type").Some? && Lookup(d, "type").value.JStr?
    requires Lower(Strip(Lookup(d, "type").value.s)) == "biz"
    requires Lookup(d, "topk_chunks").None?
    ensures BuildEvidence(db, reportId, JObj(d), metricsJson, show, lim)
            == Ok(EvidenceJson(db.meta, reportId, Biz(BizChunks(db, 80))))
  {
    BizType(d);
    assert BizTopK(JObj(d)) == Ok(80);
  }

  /** Specs that are not dicts never select the biz branch. */
  lemma NonDictSpecIsNotes(db: Db, reportId: string, spec: Value, metricsJson: Value, show: Show, lim: Limits)
    requires !FirstIfList(spec).JObj?
    ensures BuildEvidence(db, reportId, spec, metricsJson, show, lim).Ok?
            ==> BuildEvidence(db, reportId, spec, metricsJson, show, lim).value.evidence.NotesByMetrics?
  {
  }

  /** Otherwise there is one evidence row per metric key of metrics_json, in order. */
  lemma NotesRowsFollowKeys(db: Db, reportId: string, spec: Value, metricsJson: Value, show: Show, lim: Limits)
    requires EvidenceType(spec) == Ok(None) && MetricKeysOf(metricsJson, show).Ok?
    ensures var r := BuildEvidence(db, reportId, spec, metricsJson, show, lim);
            var keys := MetricKeysOf(metricsJson, show).value;
            r.Ok? && r.value.evidence.NotesByMetrics? && |r.value.evidence.rows| == |keys|
            && forall i :: 0 <= i < |keys| ==> r.value.evidence.rows[i].metricKey == keys[i]
  {
  }

  /** The fetched business rows are at most topk biz chunks of the report,
      in section-code then chunk_idx order; every biz chunk left out sorts no
      earlier than those kept, and none is left out when topk covers them all. */
  lemma BizChunkRowsSpec(db: Db, topk: int)
    ensures var rows := BizChunkRows(db, topk);
            var n := |Filter(db.chunks, BizChunk)|;
            |rows| == (if topk <= 0 then 0 else Min(topk, n))
            && (forall i :: 0 <= i < |rows| ==> rows[i] in db.chunks && rows[i].sectionType == Some("biz"))
            && SortedBy(rows, BizBefore)
            && (forall c :: c in db.chunks && BizChunk(c) && c !in rows ==>
                  forall i :: 0 <= i < |rows| ==> BizBefore(rows[i], c))
            && (topk >= n ==> forall c :: c in db.chunks && BizChunk(c) ==> c in rows)
  {
    var fs := Filter(db.chunks, BizChunk);
    BizBeforeOrders();
    SortBySorted(fs, BizBefore);
    SortByMembers(fs, BizBefore);
    var sorted := SortBy(fs, BizBefore);
    TakeSortedBy(sorted, BizBefore, topk);
    var rows := Take(sorted, topk);
    assert BizChunkRows(db, topk) == rows;
    forall i | 0 <= i < |rows| ensures rows[i] in db.chunks && rows[i].sectionType == Some("biz") {
      assert rows[i] in rows;
      var j :| 0 <= j < |fs| && fs[j] == rows[i];
    }
  }

  /** Each business chunk of the evidence carries its row's fields, no
      note_no, and the table refs of its text, in the rows' order. */
  lemma BizChunksSpec(db: Db, topk: int)
    ensures var rows := BizChunkRows(db, topk);
            var out := BizChunks(db, topk);
            |out| == |rows|
            && forall i :: 0 <= i < |out| ==>
                 out[i].chunkId == rows[i].chunkId && out[i].sectionId == rows[i].sectionId
                 && out[i].sectionCode == rows[i].sectionCode && out[i].sectionType == Some("biz")
                 && out[i].chunkIdx == rows[i].chunkIdx && out[i].text == rows[i].text
                 && out[i].noteNo.None? && out[i].tableRefs == TableRefs(rows[i].text, db.tables)
  {
    BizChunkRowsSpec(db, topk);
  }
}
