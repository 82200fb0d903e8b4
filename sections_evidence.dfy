/** The section writers' evidence builder
    (src/sections/_common/builders/create_evidence.py): either every business
    chunk of chapters I and II, or the notes chunks of the note numbers linked
    to the line items a metrics JSON found. */
module SectionEvidence {
  import opened Common
  import opened Json
  import PromptEvidence
  import Retrieve

  /** A note_links row of the report. */
  datatype LinkRow = LinkRow(noteNo: Option<int>, noteSectionId: Option<string>, lineItemId: string, confidence: real)

  /** A rag_text_chunks row of the report. */
  datatype ChunkRow = ChunkRow(chunkId: string, sectionCode: Option<string>, sectionType: Option<string>,
                               noteNo: Option<int>, chunkIdx: int, text: Option<string>)

  /** The reports row. */
  datatype ReportRow = ReportRow(corpCode: string, bsnsYear: int)

  /** One report's rows: its reports row (if any), note links and chunks. */
  datatype Db = Db(report: Option<ReportRow>, noteLinks: seq<LinkRow>, chunks: seq<ChunkRow>)

  /** One evidence row; table_refs is always empty in this builder. */
  datatype EvidenceRow = EvidenceRow(chunkId: string, sectionCode: string, sectionType: string, noteNo: Option<int>,
                                     chunkIdx: int, text: Option<string>, tableRefs: seq<string>)

  datatype NotesResult = NotesResult(rows: seq<EvidenceRow>, noteNos: seq<int>)

  datatype SectionEvidenceJson = SectionEvidenceJson(corpCode: Option<string>, bsnsYear: Option<int>, reportId: string,
                                                     rows: seq<EvidenceRow>)

  /** str() of a nullable text column. */
  function TextStr(o: Option<string>): string {
    if o.Some? then o.value else "None"
  }

  predicate Increasing(xs: seq<int>) {
    forall i, j :: 0 <= i < j < |xs| ==> xs[i] < xs[j]
  }

  // ---------------------------------------------------------------------------
  // _build_evidence_notes_by_metrics
  // ---------------------------------------------------------------------------

  /** rows_list: a dict gives `get("rows") or []`, a list itself, anything else []. */
  function MetricRows(metricsJson: Value): Value {
    match metricsJson
    case JObj(d) => if HasTruthy(d, "rows") then Lookup(d, "rows").value else JList([])
    case JList(_) => metricsJson
    case _ => JList([])
  }

  /** A dict row with truthy found and line_item_id. */
  predicate Contributing(r: Value) {
    r.JObj? && HasTruthy(r.fields, "found") && HasTruthy(r.fields, "line_item_id")
  }

  function LineItemIdOf(r: Value, show: Show): string
    requires Contributing(r)
  {
    PyStr(Lookup(r.fields, "line_item_id").value, show)
  }

  function LineItemIds(rows: seq<Value>, show: Show): (ids: seq<string>)
    ensures |ids| <= |rows|
  {
    if rows == [] then []
    else
      var last := rows[|rows| - 1];
      LineItemIds(rows[..|rows| - 1], show) + (if Contributing(last) then [LineItemIdOf(last, show)] else [])
  }

  /** The loop collecting line_item_ids. */
  method CollectLineItemIds(rows: seq<Value>, show: Show) returns (ids: seq<string>)
    ensures ids == LineItemIds(rows, show)
  {
    ids := [];
    for i := 0 to |rows|
      invariant ids == LineItemIds(rows[..i], show)
    {
      assert rows[..i + 1][..i] == rows[..i];
      var r := rows[i];
      if r.JObj? && HasTruthy(r.fields, "found") && HasTruthy(r.fields, "line_item_id") {
        ids := ids + [PyStr(Lookup(r.fields, "line_item_id").value, show)];
      }
    }
    assert rows[..|rows|] == rows;
  }

  /** Every contributing row gives its id. */
  lemma {:induction false} LineItemIdsComplete(rows: seq<Value>, show: Show)
    ensures forall i :: 0 <= i < |rows| && Contributing(rows[i]) ==> LineItemIdOf(rows[i], show) in LineItemIds(rows, show)
  {
    if rows != [] {
      var init := rows[..|rows| - 1];
      LineItemIdsComplete(init, show);
      forall i | 0 <= i < |rows| && Contributing(rows[i])
        ensures LineItemIdOf(rows[i], show) in LineItemIds(rows, show)
      {
        if i < |init| { assert init[i] == rows[i]; }
      }
    }
  }

  /** Every id comes from a contributing row. */
  lemma {:induction false} LineItemIdsSound(rows: seq<Value>, show: Show)
    ensures forall id :: id in LineItemIds(rows, show) ==> exists i :: 0 <= i < |rows| && Contributing(rows[i]) && LineItemIdOf(rows[i], show) == id
  {
    if rows != [] {
      var init := rows[..|rows| - 1];
      LineItemIdsSound(init, show);
      forall id | id in LineItemIds(rows, show)
        ensures exists i :: 0 <= i < |rows| && Contributing(rows[i]) && LineItemIdOf(rows[i], show) == id
      {
        if id in LineItemIds(init, show) {
          var i :| 0 <= i < |init| && Contributing(init[i]) && LineItemIdOf(init[i], show) == id;
          assert init[i] == rows[i];
        } else {
          assert Contributing(rows[|rows| - 1]) && LineItemIdOf(rows[|rows| - 1], show) == id;
        }
      }
    }
  }

  /** The ids are those of the contributing rows and only those; there are
      none exactly when no row contributes. */
  lemma LineItemIdsSpec(rows: seq<Value>, show: Show)
    ensures forall i :: 0 <= i < |rows| && Contributing(rows[i]) ==> LineItemIdOf(rows[i], show) in LineItemIds(rows, show)
    ensures forall id :: id in LineItemIds(rows, show) ==> exists i :: 0 <= i < |rows| && Contributing(rows[i]) && LineItemIdOf(rows[i], show) == id
    ensures LineItemIds(rows, show) == [] <==> forall i :: 0 <= i < |rows| ==> !Contributing(rows[i])
  {
    LineItemIdsComplete(rows, show);
    LineItemIdsSound(rows, show);
    var ids := LineItemIds(rows, show);
    assert |ids| > 0 ==> ids[0] in ids;
  }

  /** note_nos.add(x), with the set kept as its ascending list. */
  function InsertUnique(x: int, xs: seq<int>): (r: seq<int>)
    requires Increasing(xs)
    ensures Increasing(r)
    ensures forall y :: y in r <==> y in xs || y == x
  {
    if xs == [] then [x]
    else if x < xs[0] then [x] + xs
    else if x == xs[0] then xs
    else
      var rest := InsertUnique(x, xs[1..]);
      assert forall y :: y in xs <==> y == xs[0] || y in xs[1..];
      forall y | y in rest ensures xs[0] < y {
        if y in xs[1..] {
          var k :| 0 <= k < |xs[1..]| && xs[1..][k] == y;
          assert xs[k + 1] == y;
        }
      }
      var r := [xs[0]] + rest;
      forall i, j | 0 <= i < j < |r| ensures r[i] < r[j] {
        assert r[j] == rest[j - 1] && rest[j - 1] in rest;
        if i > 0 { assert r[i] == rest[i - 1]; }
      }
      r
  }

  /** The link carries note number n for one of the ids. */
  predicate LinksTo(l: LinkRow, ids: seq<string>, n: int) {
    l.lineItemId in ids && l.noteNo == Some(n)
  }

  /** sorted(note_nos) over the report's links of the ids. */
  function NoteNos(links: seq<LinkRow>, ids: seq<string>): (r: seq<int>)
    ensures Increasing(r)
  {
    if links == [] then []
    else
      var l := links[|links| - 1];
      var rest := NoteNos(links[..|links| - 1], ids);
      if l.lineItemId in ids && l.noteNo.Some? then InsertUnique(l.noteNo.value, rest) else rest
  }

  /** The loop adding note numbers to the set. */
  method CollectNoteNos(links: seq<LinkRow>, ids: seq<string>) returns (nos: seq<int>)
    ensures nos == NoteNos(links, ids)
  {
    nos := [];
    for i := 0 to |links|
      invariant nos == NoteNos(links[..i], ids)
    {
      assert links[..i + 1][..i] == links[..i];
      var l := links[i];
      if l.lineItemId in ids && l.noteNo.Some? {
        nos := InsertUnique(l.noteNo.value, nos);
      }
    }
    assert links[..|links|] == links;
  }

  /** The note numbers are distinct and ascending, and are exactly the
      non-null note numbers of the links of the ids. */
  lemma {:induction false} NoteNosSpec(links: seq<LinkRow>, ids: seq<string>)
    ensures Increasing(NoteNos(links, ids))
    ensures forall n :: n in NoteNos(links, ids) <==> exists l :: l in links && LinksTo(l, ids, n)
  {
    if links != [] {
      var init := links[..|links| - 1];
      var l := links[|links| - 1];
      NoteNosSpec(init, ids);
      assert links == init + [l];
      var r0 := NoteNos(init, ids);
      forall n ensures n in NoteNos(links, ids) <==> exists m :: m in links && LinksTo(m, ids, n) {
        assert n in NoteNos(links, ids) <==> n in r0 || LinksTo(l, ids, n);
        assert (exists m :: m in links && LinksTo(m, ids, n))
               <==> (exists m :: m in init && LinksTo(m, ids, n)) || LinksTo(l, ids, n) by {
          assert forall m :: m in links <==> m in init || m == l;
        }
      }
    }
  }

  predicate NoteChunkOf(c: ChunkRow, no: int) {
    c.sectionType == Some("notes") && c.noteNo == Some(no)
  }

  /** ORDER BY chunk_idx ASC. */
  predicate ChunkBefore(a: ChunkRow, b: ChunkRow) {
    a.chunkIdx <= b.chunkIdx
  }

  /** WHERE section_type='notes' AND note_no=? ORDER BY chunk_idx LIMIT topk
      (the model reads no rows for a negative limit). */
  function NoteChunks(db: Db, no: int, topk: int): seq<ChunkRow> {
    Take(SortBy(Filter(db.chunks, (c: ChunkRow) => NoteChunkOf(c, no)), ChunkBefore), topk)
  }

  function NoteRow(c: ChunkRow): EvidenceRow {
    EvidenceRow(c.chunkId, TextStr(c.sectionCode), TextStr(c.sectionType), c.noteNo, c.chunkIdx, c.text, [])
  }

  function NoteRows(db: Db, topk: int, no: int): (r: seq<EvidenceRow>)
    ensures |r| == |NoteChunks(db, no, topk)|
  {
    var cs := NoteChunks(db, no, topk);
    seq(|cs|, i requires 0 <= i < |cs| => NoteRow(cs[i]))
  }

  /** out_rows: the chunks of each note number in turn. */
  function NotesRows(db: Db, nos: seq<int>, topk: int): seq<EvidenceRow> {
    FlatMap(nos, (no: int) => NoteRows(db, topk, no))
  }

  function NotesEvidence(db: Db, metricsJson: Value, topk: int, show: Show): Result<NotesResult> {
    match Iterate(MetricRows(metricsJson))
    case Err(e) => Err(e)
    case Ok(rows) =>
      var ids := LineItemIds(rows, show);
      if ids == [] then Ok(NotesResult([], []))
      else
        var nos := NoteNos(db.noteLinks, ids);
        if nos == [] then Ok(NotesResult([], []))
        else Ok(NotesResult(NotesRows(db, nos, topk), nos))
  }

  /** The inner loop over one note's chunks. */
  method CollectNoteRows(db: Db, topk: int, no: int) returns (group: seq<EvidenceRow>)
    ensures group == NoteRows(db, topk, no)
  {
    var chunks := NoteChunks(db, no, topk);
    group := [];
    for i := 0 to |chunks|
      invariant |group| == i && forall j :: 0 <= j < i ==> group[j] == NoteRow(chunks[j])
    {
      var c := chunks[i];
      group := group + [EvidenceRow(c.chunkId, TextStr(c.sectionCode), TextStr(c.sectionType), c.noteNo, c.chunkIdx, c.text, [])];
    }
  }

  /** The loop over sorted(note_nos). */
  method CollectNotesRows(db: Db, nos: seq<int>, topk: int) returns (out: seq<EvidenceRow>)
    ensures out == NotesRows(db, nos, topk)
  {
    out := [];
    for k := 0 to |nos|
      invariant out == NotesRows(db, nos[..k], topk)
    {
      var group := CollectNoteRows(db, topk, nos[k]);
      FlatMapPrefix(nos, k, (no: int) => NoteRows(db, topk, no));
      out := out + group;
    }
    assert nos[..|nos|] == nos;
  }

  method BuildNotesEvidence(db: Db, metricsJson: Value, topk: int, show: Show) returns (r: Result<NotesResult>)
    ensures r == NotesEvidence(db, metricsJson, topk, show)
  {
    var rowsList := Iterate(MetricRows(metricsJson));
    if rowsList.Err? {
      return Err(rowsList.msg);
    }
    var ids := CollectLineItemIds(rowsList.value, show);
    if ids == [] {
      return Ok(NotesResult([], []));
    }
    var nos := CollectNoteNos(db.noteLinks, ids);
    if nos == [] {
      return Ok(NotesResult([], []));
    }
    var rows := CollectNotesRows(db, nos, topk);
    r := Ok(NotesResult(rows, nos));
  }

  /** A dict contributes its rows (or [] when falsy), a list itself, and
      anything else nothing. */
  lemma MetricRowsSpec(metricsJson: Value)
    ensures metricsJson.JList? ==> MetricRows(metricsJson) == metricsJson
    ensures metricsJson.JObj? && HasTruthy(metricsJson.fields, "rows") ==> MetricRows(metricsJson) == Lookup(metricsJson.fields, "rows").value
    ensures metricsJson.JObj? && !HasTruthy(metricsJson.fields, "rows") ==> MetricRows(metricsJson) == JList([])
    ensures !metricsJson.JObj? && !metricsJson.JList? ==> MetricRows(metricsJson) == JList([])
  {
  }

  /** Without a contributing row, or without a note number for the ids, the
      result is {"rows": [], "note_nos": []}. */
  lemma NotesEmptyCases(db: Db, rows: seq<Value>, topk: int, show: Show)
    requires (forall i :: 0 <= i < |rows| ==> !Contributing(rows[i]))
             || (forall l :: l in db.noteLinks ==> l.noteNo.None? || l.lineItemId !in LineItemIds(rows, show))
    ensures NotesEvidence(db, JList(rows), topk, show) == Ok(NotesResult([], []))
  {
    LineItemIdsSpec(rows, show);
    var ids := LineItemIds(rows, show);
    assert Iterate(JList(rows)) == Ok(rows);
    if !(forall i :: 0 <= i < |rows| ==> !Contributing(rows[i])) {
      NoNoteNos(db.noteLinks, ids);
    }
  }

  /** No link of the ids with a note number: no note numbers. */
  lemma {:induction false} NoNoteNos(links: seq<LinkRow>, ids: seq<string>)
    requires forall l :: l in links ==> l.noteNo.None? || l.lineItemId !in ids
    ensures NoteNos(links, ids) == []
  {
    if links != [] {
      var init := links[..|links| - 1];
      forall l | l in init ensures l.noteNo.None? || l.lineItemId !in ids {
        assert l in links;
      }
      NoNoteNos(init, ids);
      assert links[|links| - 1] in links;
    }
  }

  /** The chunks of one note number are that note's notes chunks, at most
      topk of them, in ascending chunk_idx, each carrying the note number. */
  lemma NoteRowsSpec(db: Db, topk: int, no: int)
    ensures var r := NoteRows(db, topk, no);
            |r| <= Max(topk, 0)
            && (forall i :: 0 <= i < |r| ==>
                  r[i].noteNo == Some(no) && r[i].sectionType == "notes" && r[i].tableRefs == []
                  && NoteRow(NoteChunks(db, no, topk)[i]) == r[i] && NoteChunks(db, no, topk)[i] in db.chunks)
            && (forall i, j :: 0 <= i < j < |r| ==> r[i].chunkIdx <= r[j].chunkIdx)
  {
    var fs := Filter(db.chunks, (c: ChunkRow) => NoteChunkOf(c, no));
    assert TotalPreorder(ChunkBefore);
    SortBySorted(fs, ChunkBefore);
    SortByMembers(fs, ChunkBefore);
    var sorted := SortBy(fs, ChunkBefore);
    var cs := NoteChunks(db, no, topk);
    forall i | 0 <= i < |cs| ensures cs[i] in fs {
      assert cs[i] == sorted[i];
      assert sorted[i] in sorted;
    }
    forall i, j | 0 <= i < j < |cs| ensures cs[i].chunkIdx <= cs[j].chunkIdx {
      assert cs[i] == sorted[i] && cs[j] == sorted[j];
    }
  }

  /** Every notes row carries one of the note numbers. */
  lemma {:induction false} NotesRowsFromNos(db: Db, nos: seq<int>, topk: int)
    ensures forall i :: 0 <= i < |NotesRows(db, nos, topk)| ==>
              NotesRows(db, nos, topk)[i].noteNo.Some? && NotesRows(db, nos, topk)[i].noteNo.value in nos
  {
    if nos != [] {
      var init := nos[..|nos| - 1];
      var last := nos[|nos| - 1];
      NotesRowsFromNos(db, init, topk);
      NoteRowsNo(db, topk, last);
      NotesRowsSnoc(db, nos, topk);
      assert nos == init + [last];
      RowsFromAppend(NotesRows(db, init, topk), NoteRows(db, topk, last), init, last);
    }
  }

  lemma NoteRowsNo(db: Db, topk: int, no: int)
    ensures forall i :: 0 <= i < |NoteRows(db, topk, no)| ==> NoteRows(db, topk, no)[i].noteNo == Some(no)
  {
    NoteRowsSpec(db, topk, no);
  }

  lemma NotesRowsSnoc(db: Db, nos: seq<int>, topk: int)
    requires nos != []
    ensures NotesRows(db, nos, topk) == NotesRows(db, nos[..|nos| - 1], topk) + NoteRows(db, topk, nos[|nos| - 1])
  {
  }

  lemma RowsFromAppend(a: seq<EvidenceRow>, g: seq<EvidenceRow>, init: seq<int>, last: int)
    requires forall i :: 0 <= i < |a| ==> a[i].noteNo.Some? && a[i].noteNo.value in init
    requires forall i :: 0 <= i < |g| ==> g[i].noteNo == Some(last)
    ensures forall i :: 0 <= i < |a + g| ==> (a + g)[i].noteNo.Some? && (a + g)[i].noteNo.value in init + [last]
  {
    forall i | 0 <= i < |a + g| ensures (a + g)[i].noteNo.Some? && (a + g)[i].noteNo.value in init + [last] {
      if i < |a| {
        assert (a + g)[i] == a[i];
      } else {
        assert (a + g)[i] == g[i - |a|];
      }
    }
  }

  /** With ascending note numbers the rows are grouped by ascending note
      number. */
  lemma {:induction false} NotesRowsGrouped(db: Db, nos: seq<int>, topk: int)
    requires Increasing(nos)
    ensures var rows := NotesRows(db, nos, topk);
            forall i, j :: 0 <= i < j < |rows| ==>
              rows[i].noteNo.Some? && rows[j].noteNo.Some? && rows[i].noteNo.value <= rows[j].noteNo.value
  {
    NotesRowsFromNos(db, nos, topk);
    if nos != [] {
      var init := nos[..|nos| - 1];
      var last := nos[|nos| - 1];
      var a := NotesRows(db, init, topk);
      var g := NoteRows(db, topk, last);
      NotesRowsGrouped(db, init, topk);
      NotesRowsFromNos(db, init, topk);
      NoteRowsSpec(db, topk, last);
      var rows := a + g;
      assert NotesRows(db, nos, topk) == rows;
      forall i, j | 0 <= i < j < |rows|
        ensures rows[i].noteNo.Some? && rows[j].noteNo.Some? && rows[i].noteNo.value <= rows[j].noteNo.value
      {
        if j >= |a| {
          assert rows[j] == g[j - |a|];
          if i < |a| {
            assert rows[i] == a[i];
            var k :| 0 <= k < |init| && init[k] == a[i].noteNo.value;
            assert init[k] == nos[k];
          } else {
            assert rows[i] == g[i - |a|];
          }
        } else {
          assert rows[i] == a[i] && rows[j] == a[j];
        }
      }
    }
  }

  /** A successful notes result lists distinct ascending note numbers, every
      row carries one of them, and the rows are grouped by ascending note. */
  lemma NotesEvidenceSpec(db: Db, metricsJson: Value, topk: int, show: Show)
    requires NotesEvidence(db, metricsJson, topk, show).Ok?
    ensures var r := NotesEvidence(db, metricsJson, topk, show).value;
            Increasing(r.noteNos)
            && (forall i :: 0 <= i < |r.rows| ==> r.rows[i].noteNo.Some? && r.rows[i].noteNo.value in r.noteNos)
            && (forall i, j :: 0 <= i < j < |r.rows| ==> r.rows[i].noteNo.value <= r.rows[j].noteNo.value)
  {
    var rows := Iterate(MetricRows(metricsJson)).value;
    var ids := LineItemIds(rows, show);
    if ids != [] {
      var nos := NoteNos(db.noteLinks, ids);
      if nos != [] {
        NotesRowsFromNos(db, nos, topk);
        NotesRowsGrouped(db, nos, topk);
      }
    }
  }

  // ---------------------------------------------------------------------------
  // _build_evidence_biz_all
  // ---------------------------------------------------------------------------

  const DEFAULT_PREFIXES: seq<string> := ["I-", "II-"]

  /** section_type='biz' AND (section_code LIKE 'p%' OR …), with no ESCAPE
      clause: a '%' or '_' inside a prefix is a wildcard too. */
  predicate BizChunkOf(c: ChunkRow, prefixes: seq<string>) {
    c.sectionType == Some("biz") && c.sectionCode.Some?
    && exists p :: p in prefixes && Retrieve.LikeMatch(Retrieve.PlainLikeTokens(p + "%"), c.sectionCode.value)
  }

  /** With wildcard-free prefixes, such as the default "I-" and "II-", a biz
      chunk is selected exactly when its section code starts with one. */
  lemma BizChunkOfLiteral(c: ChunkRow, prefixes: seq<string>)
    requires forall p :: p in prefixes ==> Retrieve.NoWildcard(p)
    ensures BizChunkOf(c, prefixes) <==>
            c.sectionType == Some("biz") && c.sectionCode.Some?
            && exists p :: p in prefixes && StartsWith(c.sectionCode.value, p)
  {
    if c.sectionCode.Some? {
      forall p | p in prefixes
        ensures Retrieve.LikeMatch(Retrieve.PlainLikeTokens(p + "%"), c.sectionCode.value)
                <==> StartsWith(c.sectionCode.value, p)
      {
        Retrieve.PlainPrefixIff(p, c.sectionCode.value);
      }
    }
  }

  /** The default prefixes hold no wildcard. */
  lemma DefaultPrefixesLiteral()
    ensures forall p :: p in DEFAULT_PREFIXES ==> Retrieve.NoWildcard(p)
  {
  }

  /** ORDER BY section_code ASC, chunk_idx ASC. */
  predicate BizBefore(a: ChunkRow, b: ChunkRow) {
    LexLess(TextStr(a.sectionCode), TextStr(b.sectionCode))
    || (TextStr(a.sectionCode) == TextStr(b.sectionCode) && a.chunkIdx <= b.chunkIdx)
  }

  lemma BizBeforeOrders()
    ensures TotalPreorder(BizBefore)
  {
    forall a: ChunkRow, b: ChunkRow ensures BizBefore(a, b) || BizBefore(b, a) {
      LexLessTotal(TextStr(a.sectionCode), TextStr(b.sectionCode));
    }
    forall a: ChunkRow, b: ChunkRow, c: ChunkRow | BizBefore(a, b) && BizBefore(b, c) ensures BizBefore(a, c) {
      if LexLess(TextStr(a.sectionCode), TextStr(b.sectionCode)) && LexLess(TextStr(b.sectionCode), TextStr(c.sectionCode)) {
        LexLessTransitive(TextStr(a.sectionCode), TextStr(b.sectionCode), TextStr(c.sectionCode));
      }
    }
  }

  /** An empty prefix list falls back to ["I-", "II-"]. */
  function EffectivePrefixes(prefixes: seq<string>): seq<string> {
    if prefixes == [] then DEFAULT_PREFIXES else prefixes
  }

  function BizChunks(db: Db, prefixes: seq<string>): seq<ChunkRow> {
    var ps := EffectivePrefixes(prefixes);
    SortBy(Filter(db.chunks, (c: ChunkRow) => BizChunkOf(c, ps)), BizBefore)
  }

  function BizRow(c: ChunkRow): EvidenceRow {
    EvidenceRow(c.chunkId, TextStr(c.sectionCode), TextStr(c.sectionType), None, c.chunkIdx, c.text, [])
  }

  function BizRows(db: Db, prefixes: seq<string>): (r: seq<EvidenceRow>)
    ensures |r| == |BizChunks(db, prefixes)|
  {
    var cs := BizChunks(db, prefixes);
    seq(|cs|, i requires 0 <= i < |cs| => BizRow(cs[i]))
  }

  method BuildBizAll(db: Db, prefixes: seq<string>) returns (out: seq<EvidenceRow>)
    ensures out == BizRows(db, prefixes)
  {
    var chunks := BizChunks(db, prefixes);
    out := [];
    for i := 0 to |chunks|
      invariant |out| == i && forall j :: 0 <= j < i ==> out[j] == BizRow(chunks[j])
    {
      var c := chunks[i];
      out := out + [EvidenceRow(c.chunkId, TextStr(c.sectionCode), TextStr(c.sectionType), None, c.chunkIdx, c.text, [])];
    }
  }

  /** The business rows are exactly the biz chunks whose section code starts
      with one of the prefixes, ordered by section code then chunk_idx; each
      carries note_no None and no table refs. */
  lemma BizRowsSpec(db: Db, prefixes: seq<string>)
    ensures var r := BizRows(db, prefixes);
            var cs := BizChunks(db, prefixes);
            var ps := EffectivePrefixes(prefixes);
            (forall i :: 0 <= i < |r| ==>
               r[i].noteNo.None? && r[i].tableRefs == [] && r[i].sectionType == "biz"
               && r[i] == BizRow(cs[i]) && cs[i] in db.chunks && BizChunkOf(cs[i], ps))
            && (forall c :: c in db.chunks && BizChunkOf(c, ps) ==> c in cs)
            && SortedBy(cs, BizBefore)
  {
    var ps := EffectivePrefixes(prefixes);
    var fs := Filter(db.chunks, (c: ChunkRow) => BizChunkOf(c, ps));
    BizBeforeOrders();
    SortBySorted(fs, BizBefore);
    SortByMembers(fs, BizBefore);
    var cs := BizChunks(db, prefixes);
    forall i | 0 <= i < |cs| ensures cs[i] in fs {
      assert cs[i] in cs;
    }
  }

  // ---------------------------------------------------------------------------
  // build_evidence_for_section
  // ---------------------------------------------------------------------------

  const TOPK_DEFAULT := 5

  /** int(spec.get("topk_chunks_per_note") or 5). */
  function TopK(d: Dict): Result<int> {
    if HasTruthy(d, "topk_chunks_per_note") then PyInt(Lookup(d, "topk_chunks_per_note").value) else Ok(TOPK_DEFAULT)
  }

  /** list(spec.get("section_code_prefixes") or ["I-", "II-"]). */
  function PrefixesOf(d: Dict): Result<seq<Value>> {
    if HasTruthy(d, "section_code_prefixes") then Iterate(Lookup(d, "section_code_prefixes").value)
    else Ok([JStr("I-"), JStr("II-")])
  }

  /** The f"{p}%" patterns. */
  function PrefixStrings(ps: seq<Value>, show: Show): (r: seq<string>)
    ensures |r| == |ps|
  {
    seq(|ps|, i requires 0 <= i < |ps| => PyStr(ps[i], show))
  }

  function Envelope(db: Db, reportId: string, rows: seq<EvidenceRow>): SectionEvidenceJson {
    SectionEvidenceJson(if db.report.Some? then Some(db.report.value.corpCode) else None,
                        if db.report.Some? then Some(db.report.value.bsnsYear) else None,
                        reportId, rows)
  }

  function BuildEvidence(db: Db, reportId: string, spec: Value, metricsJson: Value, show: Show): Result<SectionEvidenceJson> {
    var s := PromptEvidence.FirstIfList(spec);
    if !s.JObj? then Ok(Envelope(db, reportId, []))
    else match StrippedOr(Lookup(s.fields, "type"))
      case Err(e) => Err(e)
      case Ok(etype) =>
        if etype == "biz" then
          match PrefixesOf(s.fields)
          case Err(e) => Err(e)
          case Ok(ps) => Ok(Envelope(db, reportId, BizRows(db, PrefixStrings(ps, show))))
        else
          match TopK(s.fields)
          case Err(e) => Err(e)
          case Ok(k) =>
            match NotesEvidence(db, if Truthy(metricsJson) then metricsJson else JObj([]), k, show)
            case Err(e) => Err(e)
            case Ok(r) => Ok(Envelope(db, reportId, r.rows))
  }

  method BuildEvidenceForSection(db: Db, reportId: string, spec: Value, metricsJson: Value, show: Show)
    returns (r: Result<SectionEvidenceJson>)
    ensures r == BuildEvidence(db, reportId, spec, metricsJson, show)
  {
    var s := PromptEvidence.FirstIfList(spec);
    if !s.JObj? {
      return Ok(Envelope(db, reportId, []));
    }
    var etype := StrippedOr(Lookup(s.fields, "type"));
    if etype.Err? {
      return Err(etype.msg);
    }
    if etype.value == "biz" {
      var prefixes := PrefixesOf(s.fields);
      if prefixes.Err? {
        return Err(prefixes.msg);
      }
      var rows := BuildBizAll(db, PrefixStrings(prefixes.value, show));
      return Ok(Envelope(db, reportId, rows));
    }
    var topk := TopK(s.fields);
    if topk.Err? {
      return Err(topk.msg);
    }
    var notes := BuildNotesEvidence(db, if Truthy(metricsJson) then metricsJson else JObj([]), topk.value, show);
    if notes.Err? {
      return Err(notes.msg);
    }
    r := Ok(Envelope(db, reportId, notes.value.rows));
  }

  /** A spec that is not a dict after taking a list's first element gives
      rows [] with the report's corp_code and bsns_year. */
  lemma NonDictSpec(db: Db, reportId: string, spec: Value, metricsJson: Value, show: Show)
    requires !PromptEvidence.FirstIfList(spec).JObj?
    ensures BuildEvidence(db, reportId, spec, metricsJson, show) == Ok(Envelope(db, reportId, []))
    ensures Envelope(db, reportId, []).corpCode.Some? <==> db.report.Some?
  {
  }

  lemma StripExamples()
    ensures Strip(" biz ") == "biz"
    ensures Strip("Biz") == "Biz"
  {
    assert IsSpace(' ') && !IsSpace('b') && !IsSpace('z') && !IsSpace('B');
    assert LStrip(" biz ") == LStrip("biz ");
    assert LStrip("biz ") == "biz ";
    assert RStrip("biz ") == "biz";
    assert LStrip("Biz") == "Biz";
    assert RStrip("Biz") == "Biz";
  }

  /** The type is trimmed before the comparison: " biz " selects the business
      chunks, with the default prefixes when none are given. */
  lemma BizTypeTrimmed(db: Db, reportId: string, metricsJson: Value, show: Show)
    ensures BuildEvidence(db, reportId, JObj([("type", JStr(" biz "))]), metricsJson, show)
            == Ok(Envelope(db, reportId, BizRows(db, DEFAULT_PREFIXES)))
  {
    StripExamples();
    var d := [("type", JStr(" biz "))];
    assert StrippedOr(Lookup(d, "type")) == Ok("biz");
    assert PrefixesOf(d) == Ok([JStr("I-"), JStr("II-")]);
    assert PrefixStrings([JStr("I-"), JStr("II-")], show) == DEFAULT_PREFIXES;
  }

  /** The type is not lowercased: "Biz" selects the notes, with topk 5. */
  lemma BizTypeCaseSensitive(db: Db, reportId: string, metricsJson: Value, show: Show)
    ensures BuildEvidence(db, reportId, JObj([("type", JStr("Biz"))]), metricsJson, show)
            == match NotesEvidence(db, if Truthy(metricsJson) then metricsJson else JObj([]), TOPK_DEFAULT, show)
               case Err(e) => Err(e)
               case Ok(r) => Ok(Envelope(db, reportId, r.rows))
  {
    StripExamples();
    var d := [("type", JStr("Biz"))];
    assert StrippedOr(Lookup(d, "type")) == Ok("Biz");
    assert TopK(d) == Ok(TOPK_DEFAULT);
  }

  /** Without a type the notes are used with topk 5 and the metrics rows. */
  lemma NotesDefault(db: Db, reportId: string, metricsJson: Value, show: Show)
    ensures BuildEvidence(db, reportId, JObj([]), metricsJson, show)
            == match NotesEvidence(db, if Truthy(metricsJson) then metricsJson else JObj([]), TOPK_DEFAULT, show)
               case Err(e) => Err(e)
               case Ok(r) => Ok(Envelope(db, reportId, r.rows))
  {
  }
}
