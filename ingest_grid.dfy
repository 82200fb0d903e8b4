/** Expansion of an HTML table into a rectangular grid of cells, honouring
    rowspan and colspan, and the parse of a note table into rows and cells
    (src/ingest.py: _norm_cell_text, html_table_to_grid,
    parse_any_single_table). Tags are given already parsed: each <tr> is a
    sequence of CellTag values. */
module IngestGrid {
  import opened Common
  import opened Normalize
  import opened IngestTree

  // ---------------------------------------------------------------------------
  // _norm_cell_text
  // ---------------------------------------------------------------------------

  const TILDE_OPERATOR: char := '\U{223C}'

  function CellChar(c: char): char {
    if c == NBSP || c == FULLWIDTH_SPACE then ' ' else if c == TILDE_OPERATOR then '~' else c
  }

  /** The three single-character replacements, applied to every character. */
  function MapCellChars(s: string): (r: string)
    ensures |r| == |s| && forall k :: 0 <= k < |s| ==> r[k] == CellChar(s[k])
  {
    seq(|s|, k requires 0 <= k < |s| => CellChar(s[k]))
  }

  function NormCellText(s: string): string {
    NormalizeSpace(MapCellChars(s))
  }

  lemma {:induction false} InkSubset(s: string, c: char)
    requires c in Ink(s)
    ensures c in s
    decreases |s|
  {
    if s != [] {
      if c != s[0] { InkSubset(s[1..], c); }
    }
  }

  /** The cell text is space-normal and holds no U+223C. */
  lemma NormCellTextShape(s: string)
    ensures SpaceNormal(NormCellText(s))
    ensures TILDE_OPERATOR !in NormCellText(s)
  {
    var m := MapCellChars(s);
    NormalizeSpaceShape(m);
    var t := NormalizeSpace(m);
    if TILDE_OPERATOR in t {
      var k :| 0 <= k < |t| && t[k] == TILDE_OPERATOR;
      InkHasVisible(t, k);
      InkSubset(m, TILDE_OPERATOR);
      assert false;
    }
  }

  lemma {:induction false} InkHasVisible(t: string, k: nat)
    requires k < |t| && !IsSpace(t[k])
    ensures t[k] in Ink(t)
    decreases k
  {
    if k > 0 {
      InkHasVisible(t[1..], k - 1);
      assert t[1..][k - 1] == t[k];
    }
  }

  /** Normalising a cell text twice changes nothing, so re-normalising grid
      text (as parse_any_single_table does) is harmless. */
  lemma NormCellTextIdempotent(s: string)
    ensures NormCellText(NormCellText(s)) == NormCellText(s)
  {
    var t := NormCellText(s);
    NormCellTextShape(s);
    assert MapCellChars(t) == t by {
      forall k | 0 <= k < |t|
        ensures CellChar(t[k]) == t[k]
      {
        assert t[k] != TILDE_OPERATOR;
        if IsSpace(t[k]) { assert t[k] == ' '; }
      }
    }
    NormalizeSpaceIdempotent(MapCellChars(s));
  }

  // ---------------------------------------------------------------------------
  // html_table_to_grid
  // ---------------------------------------------------------------------------

  /** A <th>, <td> or <te> tag: its text, whether it is a <th>, and its
      rowspan and colspan attributes read with int(get(..., 1) or 1). */
  datatype CellTag = CellTag(text: string, isTh: bool, rowspan: int, colspan: int)

  /** A grid cell: normalised text and the header flag (tag attributes are
      not modelled). */
  datatype GridCell = GridCell(text: string, isHeader: bool)

  const BLANK: GridCell := GridCell("", false)

  /** A rowspan reservation: the cell to repeat and how many rows remain. */
  datatype Span = Span(remain: int, cell: GridCell)

  type SpanMap = map<int, Span>

  /** The row being built: the span map, the cells so far, the column c. */
  datatype Placement = Placement(span: SpanMap, row: seq<GridCell>, col: int)

  /** Every reservation still in the map has a row to go. */
  predicate Positive(span: SpanMap) {
    forall k :: k in span ==> span[k].remain >= 1
  }

  function KeysFrom(span: SpanMap, c: int): set<int> {
    set k | k in span.Keys && k >= c
  }

  lemma SubsetCard(a: set<int>, b: set<int>)
    requires a <= b
    ensures |a| <= |b|
  {
    assert b == a + (b - a);
    assert a * (b - a) == {};
  }

  lemma DrainShrinks(span: SpanMap, span1: SpanMap, c: int)
    requires c in span && span1.Keys <= span.Keys
    ensures |KeysFrom(span1, c + 1)| < |KeysFrom(span, c)|
  {
    var a := KeysFrom(span1, c + 1);
    var b := KeysFrom(span, c);
    assert a <= b - {c};
    SubsetCard(a, b - {c});
    assert b == (b - {c}) + {c};
  }

  /** One `while c in span_map` loop: copy reserved cells into the row,
      counting each reservation down and dropping it at zero. */
  function Drain(p: Placement): Placement
    decreases |KeysFrom(p.span, p.col)|
  {
    if p.col !in p.span then p
    else
      var s := p.span[p.col];
      var span1 := if s.remain - 1 <= 0 then p.span - {p.col} else p.span[p.col := Span(s.remain - 1, s.cell)];
      DrainShrinks(p.span, span1, p.col);
      Drain(Placement(span1, p.row + [s.cell], p.col + 1))
  }

  /** What a drain does to the row: it stops at the first free column
      c' >= c, and every column in [c, c') was reserved, its cell appended
      in column order. */
  lemma {:induction false} DrainRow(p: Placement)
    ensures var q := Drain(p);
      p.col <= q.col && q.col !in q.span
      && |q.row| == |p.row| + (q.col - p.col)
      && (forall j :: 0 <= j < |p.row| ==> q.row[j] == p.row[j])
      && (forall j :: p.col <= j < q.col ==> j in p.span && q.row[|p.row| + (j - p.col)] == p.span[j].cell)
    decreases |KeysFrom(p.span, p.col)|
  {
    if p.col in p.span {
      var s := p.span[p.col];
      var span1 := if s.remain - 1 <= 0 then p.span - {p.col} else p.span[p.col := Span(s.remain - 1, s.cell)];
      DrainShrinks(p.span, span1, p.col);
      var p1 := Placement(span1, p.row + [s.cell], p.col + 1);
      DrainRow(p1);
      var q := Drain(p1);
      assert q == Drain(p);
      forall j | p.col < j < q.col
        ensures j in p.span && q.row[|p.row| + (j - p.col)] == p.span[j].cell
      {
        assert j in p1.span && q.row[|p1.row| + (j - p1.col)] == p1.span[j].cell;
      }
      assert q.row[|p.row|] == p1.row[|p.row|];
    }
  }

  /** What a drain does to the reservations: each column it crossed is
      counted down by one and removed at zero; every other reservation is
      untouched. */
  lemma {:induction false} DrainCounts(p: Placement)
    ensures var q := Drain(p);
      (forall j :: p.col <= j < q.col && j in p.span && p.span[j].remain <= 1 ==> j !in q.span)
      && (forall j :: p.col <= j < q.col && j in p.span && p.span[j].remain > 1 ==>
            j in q.span && q.span[j] == Span(p.span[j].remain - 1, p.span[j].cell))
      && (forall j :: (j < p.col || j >= q.col) ==> (j in q.span <==> j in p.span))
      && (forall j :: (j < p.col || j >= q.col) && j in p.span ==> q.span[j] == p.span[j])
    decreases |KeysFrom(p.span, p.col)|
  {
    if p.col in p.span {
      var s := p.span[p.col];
      var span1 := if s.remain - 1 <= 0 then p.span - {p.col} else p.span[p.col := Span(s.remain - 1, s.cell)];
      DrainShrinks(p.span, span1, p.col);
      var p1 := Placement(span1, p.row + [s.cell], p.col + 1);
      DrainCounts(p1);
      DrainAdvances(p1);
      var q := Drain(p1);
      assert q == Drain(p);
      assert p.col < p1.col <= q.col;
    }
  }

  lemma {:induction false} DrainAdvances(p: Placement)
    ensures p.col <= Drain(p).col
    decreases |KeysFrom(p.span, p.col)|
  {
    if p.col in p.span {
      var s := p.span[p.col];
      var span1 := if s.remain - 1 <= 0 then p.span - {p.col} else p.span[p.col := Span(s.remain - 1, s.cell)];
      DrainShrinks(p.span, span1, p.col);
      DrainAdvances(Placement(span1, p.row + [s.cell], p.col + 1));
    }
  }

  lemma {:induction false} DrainPositive(p: Placement)
    requires Positive(p.span)
    ensures Positive(Drain(p).span)
    decreases |KeysFrom(p.span, p.col)|
  {
    if p.col in p.span {
      var s := p.span[p.col];
      var span1 := if s.remain - 1 <= 0 then p.span - {p.col} else p.span[p.col := Span(s.remain - 1, s.cell)];
      DrainShrinks(p.span, span1, p.col);
      DrainPositive(Placement(span1, p.row + [s.cell], p.col + 1));
    }
  }

  /** `for k in range(colspan)`, from k on: append the cell and, for a
      rowspan above 1, reserve column c + k for the rows below. */
  function Spread(p: Placement, g: GridCell, rowspan: int, k: nat, colspan: int): Placement
    decreases colspan - k
  {
    if k >= colspan then p
    else
      var span1 := if rowspan > 1 then p.span[p.col + k := Span(rowspan - 1, g)] else p.span;
      Spread(Placement(span1, p.row + [g], p.col), g, rowspan, k + 1, colspan)
  }

  /** A cell with colspan n adds n copies of itself to the row (none for
      n <= 0); the column itself does not move until `c += colspan`. */
  lemma {:induction false} SpreadRow(p: Placement, g: GridCell, rowspan: int, k: nat, colspan: int)
    ensures var q := Spread(p, g, rowspan, k, colspan);
      q.col == p.col
      && |q.row| == |p.row| + (if colspan > k then colspan - k else 0)
      && (forall j :: 0 <= j < |p.row| ==> q.row[j] == p.row[j])
      && (forall j :: |p.row| <= j < |q.row| ==> q.row[j] == g)
    decreases colspan - k
  {
    if k < colspan {
      var span1 := if rowspan > 1 then p.span[p.col + k := Span(rowspan - 1, g)] else p.span;
      var p1 := Placement(span1, p.row + [g], p.col);
      SpreadRow(p1, g, rowspan, k + 1, colspan);
      assert Spread(p1, g, rowspan, k + 1, colspan) == Spread(p, g, rowspan, k, colspan);
    }
  }

  /** With rowspan r > 1 the cell reserves each column it covers for r - 1
      more rows; no other reservation changes. */
  lemma {:induction false} SpreadSpan(p: Placement, g: GridCell, rowspan: int, k: nat, colspan: int)
    ensures var q := Spread(p, g, rowspan, k, colspan);
      (forall x :: rowspan > 1 && p.col + k <= x < p.col + colspan ==> x in q.span && q.span[x] == Span(rowspan - 1, g))
      && (forall x :: x in q.span && !(rowspan > 1 && p.col + k <= x < p.col + colspan) ==> x in p.span && q.span[x] == p.span[x])
      && (forall x :: x in p.span ==> x in q.span)
  {
    forall x {
      SpreadSpanAt(p, g, rowspan, k, colspan, x);
    }
  }

  /** SpreadSpan for one column x. */
  lemma {:induction false} SpreadSpanAt(p: Placement, g: GridCell, rowspan: int, k: nat, colspan: int, x: int)
    ensures var q := Spread(p, g, rowspan, k, colspan);
      (if rowspan > 1 && p.col + k <= x < p.col + colspan then x in q.span && q.span[x] == Span(rowspan - 1, g)
       else (x in q.span <==> x in p.span) && (x in q.span ==> q.span[x] == p.span[x]))
    decreases colspan - k
  {
    if k < colspan {
      var span1 := if rowspan > 1 then p.span[p.col + k := Span(rowspan - 1, g)] else p.span;
      var p1 := Placement(span1, p.row + [g], p.col);
      SpreadSpanAt(p1, g, rowspan, k + 1, colspan, x);
      assert Spread(p1, g, rowspan, k + 1, colspan) == Spread(p, g, rowspan, k, colspan);
    }
  }

  lemma {:induction false} SpreadPositive(p: Placement, g: GridCell, rowspan: int, k: nat, colspan: int)
    requires Positive(p.span)
    ensures Positive(Spread(p, g, rowspan, k, colspan).span)
    decreases colspan - k
  {
    if k < colspan {
      var span1 := if rowspan > 1 then p.span[p.col + k := Span(rowspan - 1, g)] else p.span;
      SpreadPositive(Placement(span1, p.row + [g], p.col), g, rowspan, k + 1, colspan);
    }
  }

  function CellOf(tag: CellTag): GridCell {
    GridCell(NormCellText(tag.text), tag.isTh)
  }

  /** Placing one tag: spread it over its colspan, then `c += colspan`. */
  function Place(p: Placement, tag: CellTag): Placement {
    var q := Spread(p, CellOf(tag), tag.rowspan, 0, tag.colspan);
    q.(col := p.col + tag.colspan)
  }

  /** With non-negative colspans the row length tracks the column, so the
      cell of a tag with colspan n fills exactly columns c .. c+n-1. */
  lemma PlaceColumns(p: Placement, tag: CellTag)
    requires |p.row| == p.col && tag.colspan >= 0
    ensures var q := Place(p, tag);
      |q.row| == q.col == p.col + tag.colspan && q.row[..p.col] == p.row
      && forall j :: p.col <= j < q.col ==> q.row[j] == CellOf(tag)
  {
    SpreadRow(p, CellOf(tag), tag.rowspan, 0, tag.colspan);
  }

  /** The tags of a row, left to right, each preceded by a drain. */
  function Cells(p: Placement, tags: seq<CellTag>): Placement
    decreases |tags|
  {
    if tags == [] then p else Cells(Place(Drain(p), tags[0]), tags[1..])
  }

  /** One <tr>: a drain, the tags, and a closing drain. */
  function RowOf(span: SpanMap, tags: seq<CellTag>): Placement {
    Drain(Cells(Drain(Placement(span, [], 0)), tags))
  }

  lemma {:induction false} CellsPositive(p: Placement, tags: seq<CellTag>)
    requires Positive(p.span)
    ensures Positive(Cells(p, tags).span)
    decreases |tags|
  {
    if tags != [] {
      var d := Drain(p);
      DrainPositive(p);
      SpreadPositive(d, CellOf(tags[0]), tags[0].rowspan, 0, tags[0].colspan);
      CellsPositive(Place(d, tags[0]), tags[1..]);
    }
  }

  /** A reservation is removed once it reaches zero: after any row, every
      entry of the span map still has at least one row to go. */
  lemma RowOfPositive(span: SpanMap, tags: seq<CellTag>)
    requires Positive(span)
    ensures Positive(RowOf(span, tags).span)
  {
    var p0 := Placement(span, [], 0);
    DrainPositive(p0);
    CellsPositive(Drain(p0), tags);
    DrainPositive(Cells(Drain(p0), tags));
  }

  /** The rows before padding, threading the span map from row to row. */
  function Unpadded(span: SpanMap, trs: seq<seq<CellTag>>): seq<seq<GridCell>>
    decreases |trs|
  {
    if trs == [] then []
    else
      var p := RowOf(span, trs[0]);
      [p.row] + Unpadded(p.span, trs[1..])
  }

  /** max(len(r) for r in grid), default 0. */
  function MaxLen(rows: seq<seq<GridCell>>): nat {
    if rows == [] then 0 else Max(MaxLen(rows[..|rows| - 1]), |rows[|rows| - 1]|)
  }

  lemma {:induction false} MaxLenBounds(rows: seq<seq<GridCell>>)
    ensures forall i :: 0 <= i < |rows| ==> |rows[i]| <= MaxLen(rows)
    ensures rows != [] ==> exists i :: 0 <= i < |rows| && |rows[i]| == MaxLen(rows)
  {
    if rows != [] {
      var init := rows[..|rows| - 1];
      MaxLenBounds(init);
      assert forall i :: 0 <= i < |init| ==> rows[i] == init[i];
      if init != [] && MaxLen(init) >= |rows[|rows| - 1]| {
        var i :| 0 <= i < |init| && |init[i]| == MaxLen(init);
        assert |rows[i]| == MaxLen(rows);
      } else {
        assert |rows[|rows| - 1]| == MaxLen(rows);
      }
    }
  }

  function Pad(r: seq<GridCell>, n: nat): seq<GridCell> {
    if |r| >= n then r else r + seq(n - |r|, _ => BLANK)
  }

  function PadAll(rows: seq<seq<GridCell>>, n: nat): seq<seq<GridCell>> {
    seq(|rows|, i requires 0 <= i < |rows| => Pad(rows[i], n))
  }

  function TableGrid(trs: seq<seq<CellTag>>): seq<seq<GridCell>> {
    var rows := Unpadded(map[], trs);
    PadAll(rows, MaxLen(rows))
  }

  lemma {:induction false} UnpaddedLength(span: SpanMap, trs: seq<seq<CellTag>>)
    ensures |Unpadded(span, trs)| == |trs|
    decreases |trs|
  {
    if trs != [] { UnpaddedLength(RowOf(span, trs[0]).span, trs[1..]); }
  }

  /** After padding the grid is rectangular: one row per <tr>, every row
      as long as the longest one, each row the unpadded row followed by
      blank cells only. */
  lemma GridRectangular(trs: seq<seq<CellTag>>)
    ensures var rows := Unpadded(map[], trs); var grid := TableGrid(trs);
      |grid| == |trs|
      && (forall i :: 0 <= i < |grid| ==> |grid[i]| == MaxLen(rows))
      && (forall i :: 0 <= i < |grid| ==> grid[i][..|rows[i]|] == rows[i])
      && (forall i, j :: 0 <= i < |grid| && |rows[i]| <= j < |grid[i]| ==> grid[i][j] == BLANK)
  {
    var rows := Unpadded(map[], trs);
    UnpaddedLength(map[], trs);
    MaxLenBounds(rows);
  }

  // -- the imperative algorithm ----------------------------------------------

  /** `while c in span_map: ...`, the loop the source repeats before,
      between and after the cells of a row. */
  method DrainSpans(span0: SpanMap, row0: seq<GridCell>, c0: int)
    returns (span: SpanMap, row: seq<GridCell>, c: int)
    ensures Placement(span, row, c) == Drain(Placement(span0, row0, c0))
  {
    span, row, c := span0, row0, c0;
    while c in span
      invariant Drain(Placement(span, row, c)) == Drain(Placement(span0, row0, c0))
      decreases |KeysFrom(span, c)|
    {
      var s := span[c];
      var remain := s.remain - 1;
      ghost var before := span;
      if remain <= 0 {
        span := span - {c};
      } else {
        span := span[c := Span(remain, s.cell)];
      }
      row := row + [s.cell];
      DrainShrinks(before, span, c);
      c := c + 1;
    }
  }

  /** One tag: `for k in range(colspan)` appends the cell and reserves
      column c + k when rowspan > 1; then `c += colspan`. */
  method PlaceTag(span0: SpanMap, row0: seq<GridCell>, c0: int, tag: CellTag)
    returns (span: SpanMap, row: seq<GridCell>, c: int)
    ensures Placement(span, row, c) == Place(Placement(span0, row0, c0), tag)
  {
    span, row, c := span0, row0, c0;
    var cell := GridCell(NormCellText(tag.text), tag.isTh);
    var k := 0;
    while k < tag.colspan
      invariant 0 <= k
      invariant Spread(Placement(span, row, c), cell, tag.rowspan, k, tag.colspan)
             == Spread(Placement(span0, row0, c0), cell, tag.rowspan, 0, tag.colspan)
      decreases tag.colspan - k
    {
      row := row + [cell];
      if tag.rowspan > 1 {
        span := span[c + k := Span(tag.rowspan - 1, cell)];
      }
      k := k + 1;
    }
    c := c + tag.colspan;
  }

  /** One <tr>: drain, then each tag after a drain, then a closing drain. */
  method BuildRow(span0: SpanMap, tr: seq<CellTag>) returns (span: SpanMap, row: seq<GridCell>)
    ensures var p := RowOf(span0, tr); span == p.span && row == p.row
  {
    var c;
    span, row, c := DrainSpans(span0, [], 0);
    ghost var first := Placement(span, row, c);
    var j := 0;
    while j < |tr|
      invariant 0 <= j <= |tr|
      invariant Cells(Placement(span, row, c), tr[j..]) == Cells(first, tr)
    {
      span, row, c := DrainSpans(span, row, c);
      span, row, c := PlaceTag(span, row, c, tr[j]);
      assert tr[j..][1..] == tr[j + 1..];
      j := j + 1;
    }
    span, row, c := DrainSpans(span, row, c);
  }

  /** `max((len(r) for r in grid), default=0)`. */
  method MaxRowLength(rows: seq<seq<GridCell>>) returns (m: nat)
    ensures m == MaxLen(rows)
  {
    m := 0;
    var t := 0;
    while t < |rows|
      invariant 0 <= t <= |rows|
      invariant m == MaxLen(rows[..t])
    {
      assert rows[..t + 1][..t] == rows[..t];
      if |rows[t]| > m {
        m := |rows[t]|;
      }
      t := t + 1;
    }
    assert rows[..t] == rows;
  }

  /** `while len(r) < max_cols: r.append(blank)` for every row. */
  method PadRows(rows: seq<seq<GridCell>>, maxCols: nat) returns (grid: seq<seq<GridCell>>)
    ensures grid == PadAll(rows, maxCols)
  {
    grid := rows;
    var t := 0;
    while t < |grid|
      invariant 0 <= t <= |grid| == |rows|
      invariant forall u :: 0 <= u < t ==> grid[u] == Pad(rows[u], maxCols)
      invariant forall u :: t <= u < |grid| ==> grid[u] == rows[u]
    {
      var r := grid[t];
      while |r| < maxCols
        invariant |rows[t]| <= |r| && r == rows[t] + seq(|r| - |rows[t]|, _ => BLANK)
        invariant |r| <= maxCols || r == rows[t]
        decreases maxCols - |r|
      {
        r := r + [BLANK];
      }
      grid := grid[t := r];
      t := t + 1;
    }
  }

  /** html_table_to_grid: the span map threaded through the rows, then every
      row padded with blank cells to the widest row. */
  method HtmlTableToGrid(trs: seq<seq<CellTag>>) returns (grid: seq<seq<GridCell>>)
    ensures grid == TableGrid(trs)
  {
    var span: SpanMap := map[];
    var rows: seq<seq<GridCell>> := [];
    var i := 0;
    while i < |trs|
      invariant 0 <= i <= |trs|
      invariant rows + Unpadded(span, trs[i..]) == Unpadded(map[], trs)
    {
      var row;
      ghost var before := span;
      span, row := BuildRow(span, trs[i]);
      assert trs[i..][1..] == trs[i + 1..];
      assert Unpadded(before, trs[i..]) == [row] + Unpadded(span, trs[i + 1..]);
      rows := rows + [row];
      i := i + 1;
    }
    assert rows == Unpadded(map[], trs);
    var maxCols := MaxRowLength(rows);
    grid := PadRows(rows, maxCols);
  }

  // ---------------------------------------------------------------------------
  // parse_any_single_table
  // ---------------------------------------------------------------------------

  /** One entry of `cells`: (row_idx, col_idx, text or None, parse_num(text)). */
  datatype CellValue = CellValue(rowIdx: nat, colIdx: nat, text: Option<string>, value: Option<real>)

  datatype ParsedTable = ParsedTable(colHeaders: seq<string>, rows: seq<TableRow>, cells: seq<CellValue>)

  function HeaderCount(row: seq<GridCell>): nat {
    if row == [] then 0 else HeaderCount(row[..|row| - 1]) + (if row[|row| - 1].isHeader then 1 else 0)
  }

  /** The first row is a header when at least max(1, len // 2) of its cells are <th>. */
  predicate HasHeader(first: seq<GridCell>) {
    HeaderCount(first) >= Max(1, |first| / 2)
  }

  /** Text whose normalised form is empty: whitespace only (see BlankTextIff). */
  predicate BlankText(s: string) {
    forall k :: 0 <= k < |s| ==> IsSpace(s[k])
  }

  lemma BlankTextIff(s: string)
    ensures BlankText(s) <==> NormCellText(s) == ""
  {
    var m := MapCellChars(s);
    var t := NormalizeSpace(m);
    NormalizeSpaceShape(m);
    assert forall k :: 0 <= k < |m| ==> (IsSpace(m[k]) <==> IsSpace(s[k]));
    if BlankText(s) {
      InkOfAllSpace(m);
    } else {
      var k :| 0 <= k < |s| && !IsSpace(s[k]);
      InkHasVisible(m, k);
    }
  }

  /** `all(_norm_cell_text(c["text"]) == "" for c in row)`. */
  predicate BlankRow(row: seq<GridCell>) {
    forall k :: 0 <= k < |row| ==> BlankText(row[k].text)
  }

  /** The data rows kept, in order: the non-blank ones. */
  function Kept(rows: seq<seq<GridCell>>): seq<seq<GridCell>> {
    if rows == [] then []
    else Kept(rows[..|rows| - 1]) + (if BlankRow(rows[|rows| - 1]) then [] else [rows[|rows| - 1]])
  }

  function ColHeaders(first: seq<GridCell>): seq<string> {
    if HasHeader(first) then seq(|first|, k requires 0 <= k < |first| => NormCellText(first[k].text))
    else seq(|first|, k requires 0 <= k < |first| => "COL_" + NatToString(k))
  }

  /** The row record of the i-th kept row: label split into clean label and
      note references, indent 0, no parent, no IFRS code. */
  function LabelRow(i: nat, row: seq<GridCell>): TableRow {
    var labelRaw := if row == [] then "" else NormCellText(row[0].text);
    var refs := SplitNoteRefs(labelRaw);
    TableRow(i, labelRaw, refs.clean, 0, None, false, None,
             if refs.raw != "" then Some("(주" + refs.raw + ")") else None, refs.noteNos)
  }

  function CellAt(i: nat, ci: nat, row: seq<GridCell>): CellValue {
    var tv := if ci < |row| then NormCellText(row[ci].text) else "";
    CellValue(i, ci, if tv != "" then Some(tv) else None, ParseNum(Some(tv)))
  }

  /** [f(0), ..., f(n - 1)], built front to back. */
  function Tabulate<T>(f: nat -> T, n: nat): (r: seq<T>)
    ensures |r| == n
  {
    if n == 0 then [] else Tabulate(f, n - 1) + [f(n - 1)]
  }

  lemma {:induction false} TabulateAt<T>(f: nat -> T, n: nat, k: nat)
    requires k < n
    ensures Tabulate(f, n)[k] == f(k)
  {
    if k < n - 1 { TabulateAt(f, n - 1, k); }
  }

  /** The cells of columns 0 .. n-1 of the i-th kept row. */
  function RowCells(i: nat, row: seq<GridCell>, n: nat): seq<CellValue> {
    Tabulate(ci => CellAt(i, ci, row), n)
  }

  lemma RowCellsAt(i: nat, row: seq<GridCell>, n: nat, ci: nat)
    requires ci < n
    ensures RowCells(i, row, n)[ci] == CellAt(i, ci, row)
  {
    TabulateAt(ci => CellAt(i, ci, row), n, ci);
  }

  lemma RowCellsSnoc(i: nat, row: seq<GridCell>, n: nat)
    ensures RowCells(i, row, n + 1) == RowCells(i, row, n) + [CellAt(i, n, row)]
  {
  }

  /** The cells of the kept rows, row by row. */
  function AllCells(kept: seq<seq<GridCell>>, n: nat): seq<CellValue> {
    if kept == [] then [] else AllCells(kept[..|kept| - 1], n) + RowCells(|kept| - 1, kept[|kept| - 1], n)
  }

  lemma AllCellsSnoc(kept: seq<seq<GridCell>>, row: seq<GridCell>, n: nat)
    ensures AllCells(kept + [row], n) == AllCells(kept, n) + RowCells(|kept|, row, n)
  {
    assert (kept + [row])[..|kept|] == kept;
  }

  /** The row records of the kept rows, numbered from 0. */
  function LabelRows(kept: seq<seq<GridCell>>): (r: seq<TableRow>)
    ensures |r| == |kept|
  {
    MapIndexed(kept, LabelRow)
  }

  lemma LabelRowsAt(kept: seq<seq<GridCell>>, i: nat)
    requires i < |kept|
    ensures LabelRows(kept)[i] == LabelRow(i, kept[i])
  {
  }

  lemma LabelRowsSnoc(kept: seq<seq<GridCell>>, row: seq<GridCell>)
    ensures LabelRows(kept + [row]) == LabelRows(kept) + [LabelRow(|kept|, row)]
  {
    MapIndexedSnoc(kept, row, LabelRow);
  }

  /** The non-blank rows after the header row, if there is one. */
  function DataRows(grid: seq<seq<GridCell>>): seq<seq<GridCell>>
    requires grid != []
  {
    Kept(grid[(if HasHeader(grid[0]) then 1 else 0)..])
  }

  function ParseTable(grid: seq<seq<GridCell>>): Option<ParsedTable> {
    if |grid| < 2 then None
    else
      var kept := DataRows(grid);
      if kept == [] then None
      else
        var hdrs := ColHeaders(grid[0]);
        Some(ParsedTable(hdrs, LabelRows(kept), AllCells(kept, |hdrs|)))
  }

  lemma KeptSnoc(grid: seq<seq<GridCell>>, lo: nat, hi: nat)
    requires lo <= hi < |grid|
    ensures BlankRow(grid[hi]) ==> Kept(grid[lo..hi + 1]) == Kept(grid[lo..hi])
    ensures !BlankRow(grid[hi]) ==> Kept(grid[lo..hi + 1]) == Kept(grid[lo..hi]) + [grid[hi]]
  {
    assert grid[lo..hi + 1][..hi - lo] == grid[lo..hi];
    assert Kept(grid[lo..hi]) + [] == Kept(grid[lo..hi]);
  }

  lemma {:induction false} KeptSpec(rows: seq<seq<GridCell>>)
    ensures forall i :: 0 <= i < |Kept(rows)| ==> !BlankRow(Kept(rows)[i])
    ensures Kept(rows) == [] <==> forall i :: 0 <= i < |rows| ==> BlankRow(rows[i])
  {
    if rows != [] {
      var init := rows[..|rows| - 1];
      KeptSpec(init);
      assert forall i :: 0 <= i < |init| ==> rows[i] == init[i];
    }
  }

  lemma {:induction false} AllCellsLength(kept: seq<seq<GridCell>>, n: nat)
    ensures |AllCells(kept, n)| == |kept| * n
  {
    if kept != [] {
      AllCellsLength(kept[..|kept| - 1], n);
      assert |kept| * n == (|kept| - 1) * n + n;
    }
  }

  lemma {:induction false} AllCellsAt(kept: seq<seq<GridCell>>, n: nat, i: nat, ci: nat)
    requires i < |kept| && ci < n
    ensures Flat(i, ci, n) < |AllCells(kept, n)|
    ensures AllCells(kept, n)[Flat(i, ci, n)] == RowCells(i, kept[i], n)[ci]
  {
    var init := kept[..|kept| - 1];
    var A := AllCells(init, n);
    var B := RowCells(|init|, kept[|init|], n);
    AllCellsSnoc(init, kept[|init|], n);
    assert init + [kept[|init|]] == kept;
    AllCellsLength(init, n);
    if i < |init| {
      AllCellsAt(init, n, i, ci);
      FlatBelow(i, ci, n, |init|);
      assert kept[i] == init[i];
      assert (A + B)[Flat(i, ci, n)] == A[Flat(i, ci, n)];
    } else {
      assert i == |init|;
      assert Flat(i, ci, n) == |A| + ci;
      assert (A + B)[Flat(i, ci, n)] == B[ci];
    }
  }

  /** A flat position of row i lies before the cells of row m > i. */
  lemma FlatBelow(i: nat, ci: nat, n: nat, m: nat)
    requires i < m && ci < n
    ensures Flat(i, ci, n) < m * n
  {
    assert (i + 1) * n <= m * n;
  }

  /** parse_any_single_table yields None exactly when the grid has fewer than
      two rows or every data row (after the header row, if any) is blank. */
  lemma ParseTableNone(grid: seq<seq<GridCell>>)
    ensures |grid| < 2 ==> ParseTable(grid).None?
    ensures |grid| >= 2 ==> var start := if HasHeader(grid[0]) then 1 else 0;
      (ParseTable(grid).None? <==> forall r :: start <= r < |grid| ==> BlankRow(grid[r]))
  {
    if |grid| >= 2 {
      var start := if HasHeader(grid[0]) then 1 else 0;
      var data := grid[start..];
      KeptSpec(data);
      assert forall r :: start <= r < |grid| ==> grid[r] == data[r - start];
    }
  }

  /** One column header per column of the first row: its text when the row
      is header-like, else COL_0, COL_1, ... */
  lemma ParseTableHeaders(grid: seq<seq<GridCell>>)
    requires ParseTable(grid).Some?
    ensures var t := ParseTable(grid).value;
      |t.colHeaders| == |grid[0]|
      && forall k :: 0 <= k < |grid[0]| ==>
           t.colHeaders[k] == if HasHeader(grid[0]) then NormCellText(grid[0][k].text) else "COL_" + NatToString(k)
  {
  }

  /** The row indices run 0, 1, ... over the kept rows; parse_any_single_table
      leaves every row at indent 0 and without a parent. */
  lemma ParseTableRows(grid: seq<seq<GridCell>>)
    requires ParseTable(grid).Some?
    ensures var t := ParseTable(grid).value;
      forall i :: 0 <= i < |t.rows| ==> t.rows[i].rowIdx == i && t.rows[i].parent.None? && t.rows[i].indent == 0
  {
    var start := if HasHeader(grid[0]) then 1 else 0;
    var kept := Kept(grid[start..]);
    forall i | 0 <= i < |kept|
      ensures var r := LabelRows(kept)[i]; r.rowIdx == i && r.parent.None? && r.indent == 0
    {
      LabelRowsAt(kept, i);
      LabelRowShape(i, kept[i]);
    }
  }

  lemma LabelRowShape(i: nat, row: seq<GridCell>)
    ensures var r := LabelRow(i, row); r.rowIdx == i && r.parent.None? && r.indent == 0
  {
  }

  function Flat(i: nat, ci: nat, n: nat): nat { i * n + ci }

  /** Each kept row yields exactly one cell per column header, row after
      row, carrying that row's index and the column's index. */
  lemma ParseTableCells(grid: seq<seq<GridCell>>)
    requires ParseTable(grid).Some?
    ensures var t := ParseTable(grid).value; var n := |t.colHeaders|;
      |t.cells| == |t.rows| * n
      && forall i, ci :: 0 <= i < |t.rows| && 0 <= ci < n ==>
           (Flat(i, ci, n) < |t.cells| && t.cells[Flat(i, ci, n)] == CellAt(i, ci, DataRows(grid)[i])
            && t.cells[Flat(i, ci, n)].rowIdx == i && t.cells[Flat(i, ci, n)].colIdx == ci)
  {
    var start := if HasHeader(grid[0]) then 1 else 0;
    var kept := Kept(grid[start..]);
    var n := |ColHeaders(grid[0])|;
    AllCellsLength(kept, n);
    forall i, ci | 0 <= i < |kept| && 0 <= ci < n
      ensures Flat(i, ci, n) < |AllCells(kept, n)| && AllCells(kept, n)[Flat(i, ci, n)] == CellAt(i, ci, kept[i])
    {
      AllCellsAt(kept, n, i, ci);
      RowCellsAt(i, kept[i], n, ci);
    }
  }

  // -- the imperative algorithm ----------------------------------------------

  /** `sum(1 for c in first if c.get("is_header"))`. */
  method CountHeaders(first: seq<GridCell>) returns (n: nat)
    ensures n == HeaderCount(first)
  {
    n := 0;
    var k := 0;
    while k < |first|
      invariant 0 <= k <= |first| && n == HeaderCount(first[..k])
    {
      assert first[..k + 1][..k] == first[..k];
      if first[k].isHeader {
        n := n + 1;
      }
      k := k + 1;
    }
    assert first[..k] == first;
  }

  /** `all(_norm_cell_text(c.get("text", "")) == "" for c in row)`. */
  method RowIsBlank(row: seq<GridCell>) returns (b: bool)
    ensures b == BlankRow(row)
  {
    b := true;
    var k := 0;
    while k < |row|
      invariant 0 <= k <= |row|
      invariant b <==> forall m :: 0 <= m < k ==> BlankText(row[m].text)
    {
      BlankTextIff(row[k].text);
      if NormCellText(row[k].text) != "" {
        b := false;
      }
      k := k + 1;
    }
  }

  /** The row record and the cells of one kept data row: one cell per
      column header, blank past the end of the row. */
  method EmitRow(i: nat, row: seq<GridCell>, n: nat) returns (rec: TableRow, cs: seq<CellValue>)
    ensures rec == LabelRow(i, row) && cs == RowCells(i, row, n)
  {
    rec := LabelRow(i, row);
    cs := [];
    var ci := 0;
    while ci < n
      invariant 0 <= ci <= n
      invariant cs == RowCells(i, row, ci)
    {
      RowCellsSnoc(i, row, ci);
      cs := cs + [CellAt(i, ci, row)];
      ci := ci + 1;
    }
  }

  /** The loop over the data rows: blank rows are skipped, every other row
      gets the next row index and one cell per column. */
  method CollectRows(grid: seq<seq<GridCell>>, dataStart: nat, n: nat)
    returns (rows: seq<TableRow>, cells: seq<CellValue>)
    requires dataStart <= |grid|
    ensures rows == LabelRows(Kept(grid[dataStart..]))
    ensures cells == AllCells(Kept(grid[dataStart..]), n)
  {
    rows := [];
    cells := [];
    var outRowIdx := 0;
    var rr := dataStart;
    CollectedStart(grid, dataStart, n);
    while rr < |grid|
      invariant dataStart <= rr <= |grid|
      invariant outRowIdx == |rows|
      invariant Collected(grid, dataStart, rr, n, rows, cells)
    {
      rows, cells, outRowIdx, rr := CollectRow(grid, dataStart, rr, n, outRowIdx, rows, cells);
    }
    assert grid[dataStart..rr] == grid[dataStart..];
  }

  /** The loop's invariant: the records and cells of the kept rows among
      grid[dataStart..rr]. */
  ghost predicate Collected(grid: seq<seq<GridCell>>, dataStart: nat, rr: nat, n: nat,
                            rows: seq<TableRow>, cells: seq<CellValue>)
    requires dataStart <= rr <= |grid|
  {
    rows == LabelRows(Kept(grid[dataStart..rr])) && cells == AllCells(Kept(grid[dataStart..rr]), n)
  }

  lemma CollectedStart(grid: seq<seq<GridCell>>, dataStart: nat, n: nat)
    requires dataStart <= |grid|
    ensures Collected(grid, dataStart, dataStart, n, [], [])
  {
    assert grid[dataStart..dataStart] == [];
  }

  /** One pass of that loop: row rr is skipped when blank, otherwise its
      record and cells are appended under row index outRowIdx, and the
      index moves on. */
  method CollectRow(grid: seq<seq<GridCell>>, dataStart: nat, rr: nat, n: nat, outRowIdx: nat,
                    rows0: seq<TableRow>, cells0: seq<CellValue>)
    returns (rows: seq<TableRow>, cells: seq<CellValue>, nextRowIdx: nat, next: nat)
    requires dataStart <= rr < |grid| && outRowIdx == |rows0|
    requires Collected(grid, dataStart, rr, n, rows0, cells0)
    ensures next == rr + 1 && nextRowIdx == |rows|
    ensures Collected(grid, dataStart, next, n, rows, cells)
  {
    next := rr + 1;
    ghost var before := Kept(grid[dataStart..rr]);
    KeptSnoc(grid, dataStart, rr);
    var row := grid[rr];
    var blank := RowIsBlank(row);
    rows, cells, nextRowIdx := rows0, cells0, outRowIdx;
    if !blank {
      var rec, cs := EmitRow(outRowIdx, row, n);
      AllCellsSnoc(before, row, n);
      LabelRowsSnoc(before, row);
      rows := rows + [rec];
      cells := cells + cs;
      nextRowIdx := outRowIdx + 1;
    }
  }

  /** parse_any_single_table over the grid html_table_to_grid produced. */
  method ParseAnySingleTable(grid: seq<seq<GridCell>>) returns (r: Option<ParsedTable>)
    ensures r == ParseTable(grid)
  {
    if |grid| < 2 {
      return None;
    }
    var first := grid[0];
    var headerLike := CountHeaders(first);
    var hasHeader := headerLike >= Max(1, |first| / 2);
    var dataStart := if hasHeader then 1 else 0;
    var colHeaders := ColHeaders(first);
    var rows, cells := CollectRows(grid, dataStart, |colHeaders|);
    if rows == [] {
      return None;
    }
    return Some(ParsedTable(colHeaders, rows, cells));
  }
}
