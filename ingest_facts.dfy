/** The statement-table ingest of src/ingest.py: unit detection
    (extract_unit), the column rows and the fact rows of upsert_tables_common,
    and the text-chunk rows of upsert_text_chunks_from_text. stable_id and
    sha1_hex are hashes; a line item is identified here by the values hashed
    into its id, and the table id is given. */
module IngestFacts {
  import opened Common
  import opened Normalize
  import opened HtmlText
  import opened IngestTree
  import opened IngestGrid
  import opened TextUtil

  // ---------------------------------------------------------------------------
  // extract_unit: the first match of \(단위\s*:\s*([^)]+)\)
  // ---------------------------------------------------------------------------

  datatype Unit = Unit(unitLabel: string, multiplier: int, currency: string)

  /** A match t[start..hi + 1]: "(단위", whitespace, ':', then t[lo..hi]
      (at least one character, none of them ')'), then ')'. */
  datatype UnitMatch = UnitMatch(start: nat, lo: nat, hi: nat)

  /** Index of the first ')' at or after k, or |t|. */
  function CloseParen(t: string, k: nat): (c: nat)
    requires k <= |t|
    ensures k <= c <= |t| && (c < |t| ==> t[c] == ')')
    ensures forall m :: k <= m < c ==> t[m] != ')'
    decreases |t| - k
  {
    if k == |t| || t[k] == ')' then k else CloseParen(t, k + 1)
  }

  /** The pattern anchored at i. The group [^)]+ runs to the first ')'; when
      only whitespace lies between ':' and ')', the engine gives back one
      whitespace character to the group, which then strips to "". So the
      stripped group is always the stripped text between ':' and ')'. */
  function UnitAt(t: string, i: nat): (m: Option<UnitMatch>)
    requires i <= |t|
    ensures m.Some? ==> (m.value.start == i && m.value.lo < m.value.hi < |t|
                         && t[m.value.hi] == ')')
  {
    if i + 3 <= |t| && t[i] == '(' && t[i + 1] == '단' && t[i + 2] == '위' then
      var j := i + 3 + SpaceRun(t, i + 3);
      if j < |t| && t[j] == ':' then
        var close := CloseParen(t, j + 1);
        if j + 1 < close < |t| then Some(UnitMatch(i, j + 1, close)) else None
      else None
    else None
  }

  /** re.search: the leftmost match starting at or after from. */
  function FirstUnit(t: string, from: nat): (m: Option<UnitMatch>)
    requires from <= |t|
    ensures m.Some? ==> from <= m.value.start <= |t| && UnitAt(t, m.value.start) == m
    decreases |t| - from
  {
    if UnitAt(t, from).Some? then UnitAt(t, from)
    else if from == |t| then None
    else FirstUnit(t, from + 1)
  }

  /** No match found means no match anywhere from `from` on. */
  lemma {:induction false} FirstUnitNone(t: string, from: nat)
    requires from <= |t| && FirstUnit(t, from).None?
    ensures forall i :: from <= i <= |t| ==> UnitAt(t, i).None?
    decreases |t| - from
  {
    if from < |t| {
      FirstUnitNone(t, from + 1);
    }
  }

  /** The match found is the leftmost one. */
  lemma {:induction false} FirstUnitLeftmost(t: string, from: nat)
    requires from <= |t| && FirstUnit(t, from).Some?
    ensures forall i :: from <= i < FirstUnit(t, from).value.start ==> UnitAt(t, i).None?
    decreases |t| - from
  {
    if UnitAt(t, from).None? {
      FirstUnitLeftmost(t, from + 1);
    }
  }

  /** 백만 wins over 천; a unit with neither (원 or anything else) is 1. */
  function Multiplier(inner: string): int {
    if Contains(inner, "백만") then 1_000_000
    else if Contains(inner, "천") then 1_000
    else 1
  }

  function UnitOfText(t: string): Unit {
    match FirstUnit(t, 0)
    case None => Unit("", 1, "KRW")
    case Some(m) =>
      var inner := Strip(t[m.lo..m.hi]);
      Unit(inner, Multiplier(inner), "KRW")
  }

  /** extract_unit(section_html). */
  function ExtractUnit(html: string): Unit {
    UnitOfText(StripHtmlKeepLines(html))
  }

  /** m is the leftmost match in t. */
  predicate LeftmostUnit(t: string, m: UnitMatch) {
    m.start <= |t| && UnitAt(t, m.start) == Some(m)
    && forall i :: 0 <= i < m.start ==> UnitAt(t, i).None?
  }

  /** Without a "(단위: …)" marker the unit is ("", 1, "KRW"); with one, the
      label is the stripped text inside the leftmost marker; the currency is
      always KRW. */
  lemma UnitOfTextSpec(t: string)
    ensures UnitOfText(t).currency == "KRW"
    ensures FirstUnit(t, 0).None? <==> forall i :: 0 <= i <= |t| ==> UnitAt(t, i).None?
    ensures FirstUnit(t, 0).None? ==> UnitOfText(t) == Unit("", 1, "KRW")
    ensures FirstUnit(t, 0).Some? ==>
      LeftmostUnit(t, FirstUnit(t, 0).value)
      && UnitOfText(t).unitLabel == Strip(t[FirstUnit(t, 0).value.lo..FirstUnit(t, 0).value.hi])
      && UnitOfText(t).multiplier == Multiplier(UnitOfText(t).unitLabel)
  {
    if FirstUnit(t, 0).None? {
      FirstUnitNone(t, 0);
    } else {
      FirstUnitLeftmost(t, 0);
    }
  }

  /** The multiplier is 1_000_000 iff the unit mentions 백만, 1_000 iff it
      mentions 천 but not 백만, and 1 otherwise. */
  lemma MultiplierSpec(inner: string)
    ensures Multiplier(inner) == 1_000_000 <==> Contains(inner, "백만")
    ensures Multiplier(inner) == 1_000 <==> !Contains(inner, "백만") && Contains(inner, "천")
    ensures Multiplier(inner) == 1 <==> !Contains(inner, "백만") && !Contains(inner, "천")
  {
  }

  lemma ContainsAt(s: string, sub: string, i: nat)
    requires i + |sub| <= |s| && s[i..i + |sub|] == sub
    ensures Contains(s, sub)
    decreases i
  {
    if i > 0 {
      assert s[1..][i - 1..i - 1 + |sub|] == sub;
      ContainsAt(s[1..], sub, i - 1);
    }
  }

  lemma StripLeadingSpace(w: string)
    requires w != [] && !IsSpace(w[0]) && !IsSpace(w[|w| - 1])
    ensures Strip([' '] + w) == w
  {
    LStripCons(' ', w);
    StripOfStripped(w);
  }

  lemma LStripCons(c: char, w: string)
    requires IsSpace(c)
    ensures LStrip([c] + w) == LStrip(w)
  {
    assert ([c] + w)[1..] == w;
  }

  lemma {:induction false} NotContainsLonger(s: string, sub: string)
    requires |s| < |sub|
    ensures !Contains(s, sub)
    decreases |s|
  {
    if s != [] {
      NotContainsLonger(s[1..], sub);
    }
  }

  lemma MillionsMatch(t: string)
    requires t == "(단위 : 백만원)"
    ensures FirstUnit(t, 0) == Some(UnitMatch(0, 5, 9)) && t[5..9] == [' '] + "백만원"
  {
    assert SpaceRun(t, 4) == 0;
    assert CloseParen(t, 9) == 9;
    assert CloseParen(t, 5) == 9 by {
      assert CloseParen(t, 8) == 9;
      assert CloseParen(t, 7) == 9;
      assert CloseParen(t, 6) == 9;
    }
    assert UnitAt(t, 0) == Some(UnitMatch(0, 5, 9));
  }

  /** "(단위 : 백만원)" reads as millions of won. */
  lemma UnitMillions(t: string)
    requires t == "(단위 : 백만원)"
    ensures UnitOfText(t) == Unit("백만원", 1_000_000, "KRW")
  {
    MillionsMatch(t);
    StripLeadingSpace("백만원");
    ContainsAt("백만원", "백만", 0);
  }

  lemma ThousandsMatch(t: string)
    requires t == "(단위: 천원)"
    ensures FirstUnit(t, 0) == Some(UnitMatch(0, 4, 7)) && t[4..7] == [' '] + "천원"
  {
    assert SpaceRun(t, 3) == 0;
    assert CloseParen(t, 7) == 7;
    assert CloseParen(t, 4) == 7 by {
      assert CloseParen(t, 6) == 7;
      assert CloseParen(t, 5) == 7;
    }
    assert UnitAt(t, 0) == Some(UnitMatch(0, 4, 7));
  }

  /** "(단위: 천원)" reads as thousands of won. */
  lemma UnitThousands(t: string)
    requires t == "(단위: 천원)"
    ensures UnitOfText(t) == Unit("천원", 1_000, "KRW")
  {
    ThousandsMatch(t);
    StripLeadingSpace("천원");
    NotContainsLonger("천원"[1..], "백만");
    assert !StartsWith("천원", "백만");
    ContainsAt("천원", "천", 0);
  }

  // ---------------------------------------------------------------------------
  // upsert_tables_common: column rows
  // ---------------------------------------------------------------------------

  /** extract_fy_map: space-free "제N기" key -> (fiscal year, period end). */
  type FyMap = map<string, (int, string)>

  datatype ColRow = ColRow(colIdx: nat, colType: string, headerKo: string,
                           periodEnd: Option<string>, fiscalYear: Option<int>)

  /** header.replace(" ", "") */
  function HeaderKey(header: string): string {
    RemoveChar(header, ' ')
  }

  /** What the column loop promises: one row per header in order; column 0 is
      the line-item column; every other column is a period column, and it has
      a fiscal year and period end exactly when its space-free header is in
      fy_map, taken from there. */
  ghost predicate ColumnsFor(cols: seq<ColRow>, headers: seq<string>, fyMap: FyMap) {
    |cols| == |headers|
    && forall ci :: 0 <= ci < |cols| ==>
      cols[ci].colIdx == ci && cols[ci].headerKo == headers[ci]
      && (cols[ci].colType == "line_item" <==> ci == 0)
      && (ci > 0 ==> cols[ci].colType == "period")
      && (cols[ci].periodEnd.Some? <==> ci > 0 && HeaderKey(headers[ci]) in fyMap)
      && cols[ci].fiscalYear.Some? == cols[ci].periodEnd.Some?
      && (cols[ci].periodEnd.Some? ==>
            cols[ci].fiscalYear.value == fyMap[HeaderKey(headers[ci])].0
            && cols[ci].periodEnd.value == fyMap[HeaderKey(headers[ci])].1)
  }

  method ColumnRows(headers: seq<string>, fyMap: FyMap) returns (cols: seq<ColRow>)
    ensures ColumnsFor(cols, headers, fyMap)
  {
    cols := [];
    for ci := 0 to |headers|
      invariant ColumnsFor(cols, headers[..ci], fyMap)
    {
      var header := headers[ci];
      var col;
      if ci == 0 {
        col := ColRow(0, "line_item", header, None, None);
      } else {
        var key := HeaderKey(header);
        if key in fyMap {
          col := ColRow(ci, "period", header, Some(fyMap[key].1), Some(fyMap[key].0));
        } else {
          col := ColRow(ci, "period", header, None, None);
        }
      }
      cols := cols + [col];
    }
    assert headers[..|headers|] == headers;
  }

  // ---------------------------------------------------------------------------
  // upsert_tables_common: fact rows
  // ---------------------------------------------------------------------------

  /** The values stable_id hashes into a line_item_id. */
  datatype LineItemKey = LineItemKey(reportId: string, statementType: string,
                                     ifrsCode: string, labelClean: string)

  datatype LineItem = LineItem(id: LineItemKey, statementType: string,
                               ifrsCode: Option<string>, labelKo: string, labelClean: string)

  datatype Fact = Fact(
    reportId: string, lineItem: LineItemKey, periodEnd: string, fiscalYear: Option<int>,
    value: Option<real>, unitMultiplier: int, currency: string, tableId: string,
    rowIdx: nat, colIdx: nat, noteRefsRaw: Option<string>, noteNos: seq<nat>)

  /** The per-table constants written into every fact. */
  datatype FactCtx = FactCtx(reportId: string, statementType: string, tableId: string,
                             unit: Unit)

  type CellDict = map<(nat, nat), (Option<string>, Option<real>)>

  /** {(ri, ci): (tv, nv) for … in cells}: a later cell overwrites an earlier one. */
  function CellDictOf(cells: seq<CellValue>): CellDict {
    if cells == [] then map[]
    else
      var c := cells[|cells| - 1];
      CellDictOf(cells[..|cells| - 1])[(c.rowIdx, c.colIdx) := (c.text, c.value)]
  }

  /** cells[k] is the last cell at (ri, ci). */
  predicate LastCellAt(cells: seq<CellValue>, k: int, ri: nat, ci: nat) {
    0 <= k < |cells| && cells[k].rowIdx == ri && cells[k].colIdx == ci
    && forall k2 :: k < k2 < |cells| ==> cells[k2].rowIdx != ri || cells[k2].colIdx != ci
  }

  /** A position is in the dictionary iff some cell is at it. */
  lemma {:induction false} CellDictKeys(cells: seq<CellValue>, ri: nat, ci: nat)
    ensures (ri, ci) in CellDictOf(cells) <==>
      exists k :: 0 <= k < |cells| && cells[k].rowIdx == ri && cells[k].colIdx == ci
  {
    if cells != [] {
      var n := |cells|;
      var init := cells[..n - 1];
      CellDictKeys(init, ri, ci);
      if (ri, ci) in CellDictOf(init) {
        var k :| 0 <= k < |init| && init[k].rowIdx == ri && init[k].colIdx == ci;
        assert cells[k] == init[k];
      }
      if exists k :: 0 <= k < n && cells[k].rowIdx == ri && cells[k].colIdx == ci {
        var k :| 0 <= k < n && cells[k].rowIdx == ri && cells[k].colIdx == ci;
        if k < n - 1 {
          assert init[k] == cells[k];
        }
      }
    }
  }

  /** The position of the last cell at it holds that cell's values. */
  lemma {:induction false} CellDictLastWins(cells: seq<CellValue>, k: nat, ri: nat, ci: nat)
    requires LastCellAt(cells, k, ri, ci)
    ensures (ri, ci) in CellDictOf(cells)
    ensures CellDictOf(cells)[(ri, ci)] == (cells[k].text, cells[k].value)
  {
    var n := |cells|;
    var init := cells[..n - 1];
    if k < n - 1 {
      forall k2 | k < k2 < |init| ensures init[k2].rowIdx != ri || init[k2].colIdx != ci {
        assert init[k2] == cells[k2];
      }
      assert init[k] == cells[k];
      CellDictLastWins(init, k, ri, ci);
    }
  }

  /** cell_dict.get((ri, ci), (None, None)) */
  function Lookup(cd: CellDict, ri: nat, ci: nat): (Option<string>, Option<real>) {
    if (ri, ci) in cd then cd[(ri, ci)] else (None, None)
  }

  function LineItemOf(ctx: FactCtx, r: TableRow): LineItemKey {
    LineItemKey(ctx.reportId, ctx.statementType, r.ifrsCode.GetOr(""), r.labelClean)
  }

  /** The fact of one row and one column, if the loop emits one. */
  function FactAt(ctx: FactCtx, r: TableRow, col: ColRow, cd: CellDict): Option<Fact> {
    if col.colType != "period" || col.periodEnd.None? then None
    else
      var cell := Lookup(cd, r.rowIdx, col.colIdx);
      if cell.0.None? && cell.1.None? && r.noteNos == [] then None
      else Some(Fact(ctx.reportId, LineItemOf(ctx, r), col.periodEnd.value, col.fiscalYear,
                     cell.1, ctx.unit.multiplier, ctx.unit.currency, ctx.tableId,
                     r.rowIdx, col.colIdx, r.noteRefsRaw, r.noteNos))
  }

  function RowFacts(ctx: FactCtx, r: TableRow, cols: seq<ColRow>, cd: CellDict): seq<Fact> {
    if cols == [] then []
    else
      var f := FactAt(ctx, r, cols[|cols| - 1], cd);
      RowFacts(ctx, r, cols[..|cols| - 1], cd) + (if f.Some? then [f.value] else [])
  }

  function TableFacts(ctx: FactCtx, rows: seq<TableRow>, cols: seq<ColRow>, cd: CellDict): seq<Fact> {
    if rows == [] then []
    else TableFacts(ctx, rows[..|rows| - 1], cols, cd) + RowFacts(ctx, rows[|rows| - 1], cols, cd)
  }

  /** A fact of one row lies in one of the columns and carries that row's
      line item, note numbers and cell value; a column gets a fact iff the
      loop emits one for it. */
  lemma {:induction false} RowFactsIff(ctx: FactCtx, r: TableRow, cols: seq<ColRow>, cd: CellDict)
    ensures forall f :: f in RowFacts(ctx, r, cols, cd) <==>
      exists k :: 0 <= k < |cols| && FactAt(ctx, r, cols[k], cd) == Some(f)
  {
    if cols != [] {
      var n := |cols|;
      RowFactsIff(ctx, r, cols[..n - 1], cd);
      forall k | 0 <= k < n - 1 ensures cols[..n - 1][k] == cols[k] { }
    }
  }

  lemma {:induction false} TableFactsIff(ctx: FactCtx, rows: seq<TableRow>, cols: seq<ColRow>, cd: CellDict)
    ensures forall f :: f in TableFacts(ctx, rows, cols, cd) <==>
      exists i :: 0 <= i < |rows| && f in RowFacts(ctx, rows[i], cols, cd)
  {
    if rows != [] {
      var n := |rows|;
      TableFactsIff(ctx, rows[..n - 1], cols, cd);
      forall i | 0 <= i < n - 1 ensures rows[..n - 1][i] == rows[i] { }
    }
  }

  predicate RowIdxDistinct(rows: seq<TableRow>) {
    forall i, j :: 0 <= i < j < |rows| ==> rows[i].rowIdx != rows[j].rowIdx
  }

  /** The fact rule of upsert_tables_common: with the column rows built from
      the headers and fy_map, row i has a fact in column c iff c is a period
      column (c >= 1) whose space-free header is in fy_map, and the cell has
      a text or a number or the row has rolled-up note numbers. */
  lemma FactEmittedIff(ctx: FactCtx, rows: seq<TableRow>, cols: seq<ColRow>, cells: seq<CellValue>,
                       headers: seq<string>, fyMap: FyMap, i: nat, c: nat)
    requires ColumnsFor(cols, headers, fyMap) && RowIdxDistinct(rows) && i < |rows|
    ensures (exists f :: f in TableFacts(ctx, rows, cols, CellDictOf(cells))
               && f.rowIdx == rows[i].rowIdx && f.colIdx == c)
      <==> (1 <= c < |headers| && HeaderKey(headers[c]) in fyMap
            && (Lookup(CellDictOf(cells), rows[i].rowIdx, c) != (None, None) || rows[i].noteNos != []))
  {
    var cd := CellDictOf(cells);
    if 1 <= c < |headers| && HeaderKey(headers[c]) in fyMap
      && (Lookup(cd, rows[i].rowIdx, c) != (None, None) || rows[i].noteNos != [])
    {
      FactEmittedIf(ctx, rows, cols, cd, headers, fyMap, i, c);
    }
    if exists f :: f in TableFacts(ctx, rows, cols, cd) && f.rowIdx == rows[i].rowIdx && f.colIdx == c {
      var f :| f in TableFacts(ctx, rows, cols, cd) && f.rowIdx == rows[i].rowIdx && f.colIdx == c;
      FactEmittedOnlyIf(ctx, rows, cols, cd, headers, fyMap, i, c, f);
    }
  }

  lemma FactEmittedIf(ctx: FactCtx, rows: seq<TableRow>, cols: seq<ColRow>, cd: CellDict,
                      headers: seq<string>, fyMap: FyMap, i: nat, c: nat)
    requires ColumnsFor(cols, headers, fyMap) && i < |rows|
    requires 1 <= c < |headers| && HeaderKey(headers[c]) in fyMap
      && (Lookup(cd, rows[i].rowIdx, c) != (None, None) || rows[i].noteNos != [])
    ensures exists f :: f in TableFacts(ctx, rows, cols, cd) && f.rowIdx == rows[i].rowIdx && f.colIdx == c
  {
    TableFactsIff(ctx, rows, cols, cd);
    RowFactsIff(ctx, rows[i], cols, cd);
    var f := FactAt(ctx, rows[i], cols[c], cd).value;
    assert f in RowFacts(ctx, rows[i], cols, cd);
  }

  lemma FactEmittedOnlyIf(ctx: FactCtx, rows: seq<TableRow>, cols: seq<ColRow>, cd: CellDict,
                          headers: seq<string>, fyMap: FyMap, i: nat, c: nat, f: Fact)
    requires ColumnsFor(cols, headers, fyMap) && RowIdxDistinct(rows) && i < |rows|
    requires f in TableFacts(ctx, rows, cols, cd) && f.rowIdx == rows[i].rowIdx && f.colIdx == c
    ensures 1 <= c < |headers| && HeaderKey(headers[c]) in fyMap
            && (Lookup(cd, rows[i].rowIdx, c) != (None, None) || rows[i].noteNos != [])
  {
    TableFactsIff(ctx, rows, cols, cd);
    var i2 :| 0 <= i2 < |rows| && f in RowFacts(ctx, rows[i2], cols, cd);
    RowFactsIff(ctx, rows[i2], cols, cd);
    var k :| 0 <= k < |cols| && FactAt(ctx, rows[i2], cols[k], cd) == Some(f);
    assert i2 == i;
    assert k == c;
  }

  predicate FactOfRow(ctx: FactCtx, f: Fact, r: TableRow) {
    r.rowIdx == f.rowIdx && f.lineItem == LineItemOf(ctx, r) && f.noteNos == r.noteNos
    && f.noteRefsRaw == r.noteRefsRaw
  }

  /** Every fact carries the period of its column, the value of its cell
      (None when the cell is absent), the unit of the table and the line item
      and rolled-up note numbers of its row. */
  lemma FactContents(ctx: FactCtx, rows: seq<TableRow>, cols: seq<ColRow>, cells: seq<CellValue>,
                     headers: seq<string>, fyMap: FyMap, f: Fact)
    requires ColumnsFor(cols, headers, fyMap)
    requires f in TableFacts(ctx, rows, cols, CellDictOf(cells))
    ensures exists i :: 0 <= i < |rows| && FactOfRow(ctx, f, rows[i])
    ensures 1 <= f.colIdx < |headers| && HeaderKey(headers[f.colIdx]) in fyMap
      && (f.fiscalYear, f.periodEnd) == (Some(fyMap[HeaderKey(headers[f.colIdx])].0),
                                         fyMap[HeaderKey(headers[f.colIdx])].1)
    ensures f.value == Lookup(CellDictOf(cells), f.rowIdx, f.colIdx).1
    ensures f.unitMultiplier == ctx.unit.multiplier && f.currency == ctx.unit.currency
      && f.reportId == ctx.reportId && f.tableId == ctx.tableId
  {
    var cd := CellDictOf(cells);
    TableFactsIff(ctx, rows, cols, cd);
    var i :| 0 <= i < |rows| && f in RowFacts(ctx, rows[i], cols, cd);
    RowFactsIff(ctx, rows[i], cols, cd);
    var k :| 0 <= k < |cols| && FactAt(ctx, rows[i], cols[k], cd) == Some(f);
    assert cols[k].colType == "period" && cols[k].periodEnd.Some?;
    assert f.colIdx == cols[k].colIdx == k;
    assert FactOfRow(ctx, f, rows[i]);
  }

  method RowFactsLoop(ctx: FactCtx, r: TableRow, cols: seq<ColRow>, cd: CellDict, facts0: seq<Fact>)
    returns (facts: seq<Fact>)
    ensures facts == facts0 + RowFacts(ctx, r, cols, cd)
  {
    facts := facts0;
    for k := 0 to |cols|
      invariant facts == facts0 + RowFacts(ctx, r, cols[..k], cd)
    {
      var col := cols[k];
      assert cols[..k + 1][..k] == cols[..k];
      if col.colType == "period" && col.periodEnd.Some? {
        var cell := Lookup(cd, r.rowIdx, col.colIdx);
        if !(cell.0.None? && cell.1.None? && r.noteNos == []) {
          facts := facts + [Fact(ctx.reportId, LineItemOf(ctx, r), col.periodEnd.value,
                                 col.fiscalYear, cell.1, ctx.unit.multiplier,
                                 ctx.unit.currency, ctx.tableId, r.rowIdx, col.colIdx,
                                 r.noteRefsRaw, r.noteNos)];
        }
      }
    }
    assert cols[..|cols|] == cols;
  }

  /** The FS-facts block: one line item per row, and the facts of every row in
      row order, each row's in column order. */
  method BuildFacts(ctx: FactCtx, rows: seq<TableRow>, cols: seq<ColRow>, cells: seq<CellValue>)
    returns (lineItems: seq<LineItem>, facts: seq<Fact>)
    ensures |lineItems| == |rows|
    ensures forall i :: 0 <= i < |rows| ==>
      lineItems[i] == LineItem(LineItemOf(ctx, rows[i]), ctx.statementType, rows[i].ifrsCode,
                               rows[i].labelKo, rows[i].labelClean)
    ensures facts == TableFacts(ctx, rows, cols, CellDictOf(cells))
  {
    var cd := CellDictOf(cells);
    lineItems := [];
    facts := [];
    for i := 0 to |rows|
      invariant |lineItems| == i
      invariant forall i2 :: 0 <= i2 < i ==>
        lineItems[i2] == LineItem(LineItemOf(ctx, rows[i2]), ctx.statementType, rows[i2].ifrsCode,
                                  rows[i2].labelKo, rows[i2].labelClean)
      invariant facts == TableFacts(ctx, rows[..i], cols, cd)
    {
      var r := rows[i];
      lineItems := lineItems + [LineItem(LineItemOf(ctx, r), ctx.statementType, r.ifrsCode,
                                         r.labelKo, r.labelClean)];
      assert rows[..i + 1][..i] == rows[..i];
      facts := RowFactsLoop(ctx, r, cols, cd, facts);
    }
    assert rows[..|rows|] == rows;
  }

  // ---------------------------------------------------------------------------
  // upsert_text_chunks_from_text
  // ---------------------------------------------------------------------------

  /** (chunk_idx, text, text_for_embed) of one rag_text_chunks row. */
  datatype ChunkRow = ChunkRow(idx: nat, text: string, textForEmbed: string)

  lemma StripTrimmed(c: string)
    requires Trimmed(c)
    ensures Strip(c) == c
  {
    StripOfStripped(c);
  }

  /** ChunksShape, by index. */
  lemma ChunksAt(text: string, cs: int, ov: int)
    requires ChunkParams(cs, ov)
    ensures forall k :: 0 <= k < |Chunks(text, cs, ov)| ==>
      |Chunks(text, cs, ov)[k]| <= cs && Trimmed(Chunks(text, cs, ov)[k])
  {
    ChunksShape(text, cs, ov);
    var ch := Chunks(text, cs, ov);
    forall k | 0 <= k < |ch| ensures |ch[k]| <= cs && Trimmed(ch[k]) {
      assert ch[k] in ch;
    }
  }

  /** while len(xs) < m: xs.append("") */
  method PadTo(xs: seq<string>, m: nat) returns (ys: seq<string>)
    requires |xs| <= m
    ensures |ys| == m && forall k :: 0 <= k < m ==> ys[k] == PaddedAt(xs, k)
  {
    ys := xs;
    while |ys| < m
      invariant |xs| <= |ys| <= m
      invariant forall k :: 0 <= k < |ys| ==> ys[k] == PaddedAt(xs, k)
      decreases m - |ys|
    {
      ys := ys + [""];
    }
  }

  /** xs padded with "": xs[k], or "" past its end. */
  function PaddedAt(xs: seq<string>, k: nat): string {
    if k < |xs| then xs[k] else ""
  }

  /** The stripped padded entry is the chunk itself, or "" past the end. */
  lemma StripPadded(padded: seq<string>, xs: seq<string>, k: nat)
    requires k < |padded| && padded[k] == PaddedAt(xs, k)
    requires k < |xs| ==> Trimmed(xs[k])
    ensures Strip(padded[k]) == PaddedAt(xs, k)
    ensures Strip(padded[k]) == [] <==> k >= |xs|
  {
    if k < |xs| {
      StripTrimmed(xs[k]);
    }
  }

  /** One row per text chunk, numbered from 0, each with the embed chunk of
      the same index or "". */
  predicate ChunkRowsOf(rows: seq<ChunkRow>, cs: seq<string>, es: seq<string>) {
    |rows| == |cs| && forall k :: 0 <= k < |rows| ==> rows[k] == ChunkRow(k, cs[k], PaddedAt(es, k))
  }

  lemma RowsShape(rows: seq<ChunkRow>, cs: seq<string>, es: seq<string>, chunkSize: int)
    requires ChunkRowsOf(rows, cs, es)
    requires forall k :: 0 <= k < |cs| ==> |cs[k]| <= chunkSize && Trimmed(cs[k])
    ensures forall k :: 0 <= k < |rows| ==> rows[k].text != [] && |rows[k].text| <= chunkSize
    ensures es == cs ==> forall k :: 0 <= k < |rows| ==> rows[k].textForEmbed == rows[k].text
  {
  }

  /** The row loop over the padded lists. */
  method EmitChunkRows(chunks: seq<string>, embedChunks: seq<string>, cs0: seq<string>,
                       es0: seq<string>)
    returns (rows: seq<ChunkRow>)
    requires |cs0| <= |chunks| == |embedChunks|
    requires forall k :: 0 <= k < |chunks| ==> chunks[k] == PaddedAt(cs0, k)
    requires forall k :: 0 <= k < |embedChunks| ==> embedChunks[k] == PaddedAt(es0, k)
    requires forall k :: 0 <= k < |cs0| ==> Trimmed(cs0[k])
    requires forall k :: 0 <= k < |es0| ==> Trimmed(es0[k])
    ensures ChunkRowsOf(rows, cs0, es0)
  {
    rows := [];
    for idx := 0 to |chunks|
      invariant |rows| == if idx <= |cs0| then idx else |cs0|
      invariant forall k :: 0 <= k < |rows| ==> rows[k] == ChunkRow(k, cs0[k], PaddedAt(es0, k))
    {
      StripPadded(chunks, cs0, idx);
      StripPadded(embedChunks, es0, idx);
      var c := Strip(chunks[idx]);
      var ec := Strip(embedChunks[idx]);
      if c != [] {
        rows := rows + [ChunkRow(idx, c, ec)];
      }
    }
  }

  /** (text or "").strip() */
  function BodyText(text: Option<string>): string {
    Strip(text.GetOr(""))
  }

  /** text_for_embed, or the stripped text when it is None. */
  function EmbedText(text: Option<string>, textForEmbed: Option<string>): string {
    if textForEmbed.Some? then textForEmbed.value else BodyText(text)
  }

  /** Both chunk lists are padded with "" to the longer length, and a row is
      written for every index whose text chunk is not empty. So there is one
      row per text chunk: an embed chunk beyond the last text chunk is
      dropped, and a text chunk beyond the last embed chunk gets "". With no
      separate embed text, each row embeds its own text. */
  method TextChunkRows(text: Option<string>, textForEmbed: Option<string>, chunkSize: int, overlap: int)
    returns (rows: seq<ChunkRow>)
    requires ChunkParams(chunkSize, overlap)
    ensures forall k :: 0 <= k < |rows| ==> rows[k].text != [] && |rows[k].text| <= chunkSize
    ensures textForEmbed.None? ==> forall k :: 0 <= k < |rows| ==> rows[k].textForEmbed == rows[k].text
    ensures ChunkRowsOf(rows, Chunks(BodyText(text), chunkSize, overlap),
                        Chunks(EmbedText(text, textForEmbed), chunkSize, overlap))
  {
    var t := BodyText(text);
    if t == [] {
      return [];
    }
    var e := EmbedText(text, textForEmbed);
    var cs0 := ChunkText(t, chunkSize, overlap);
    var es0 := ChunkText(e, chunkSize, overlap);
    ChunksAt(t, chunkSize, overlap);
    ChunksAt(e, chunkSize, overlap);
    var m := Max(|cs0|, |es0|);
    var chunks := PadTo(cs0, m);
    var embedChunks := PadTo(es0, m);
    rows := EmitChunkRows(chunks, embedChunks, cs0, es0);
    RowsShape(rows, cs0, es0, chunkSize);
  }
}
