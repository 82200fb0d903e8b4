/** The notes-table half of question-time retrieval (src/retrieve.py): the
    query's LIKE escaping, the cell search over the notes tables of one
    report, column-header and row-label paths, the row window around every
    hit, and the text context handed to the answering model. */
module Retrieve {
  import opened Common
  import opened Normalize

  // ---------------------------------------------------------------------------
  // _escape_like and the ILIKE pattern of search_notes_tables
  // ---------------------------------------------------------------------------

  /** Every occurrence of the character c replaced by rep. */
  function Subst(s: string, c: char, rep: string): string {
    if s == [] then [] else (if s[0] == c then rep else [s[0]]) + Subst(s[1..], c, rep)
  }

  lemma {:induction false} ReplaceOneChar(s: string, c: char, rep: string)
    ensures Replace(s, [c], rep) == Subst(s, c, rep)
  {
    if s != [] {
      assert s[..1] == [s[0]];
      ReplaceOneChar(s[1..], c, rep);
    }
  }

  lemma {:induction false} SubstAppend(a: string, b: string, c: char, rep: string)
    ensures Subst(a + b, c, rep) == Subst(a, c, rep) + Subst(b, c, rep)
  {
    if a == [] {
      assert a + b == b;
    } else {
      assert (a + b)[0] == a[0] && (a + b)[1..] == a[1..] + b;
      SubstAppend(a[1..], b, c, rep);
    }
  }

  /** The escaped form of one character: '\', '%' and '_' get a backslash. */
  function EscChar(c: char): string {
    if c == '\\' || c == '%' || c == '_' then ['\\', c] else [c]
  }

  /** Each character escaped on its own: the reference reading of _escape_like. */
  function EscapeEach(s: string): string {
    if s == [] then [] else EscChar(s[0]) + EscapeEach(s[1..])
  }

  /** _escape_like: backslashes doubled first, then '%' and '_' escaped. */
  function EscapeLike(s: string): string {
    Replace(Replace(Replace(s, "\\", "\\\\"), "%", "\\%"), "_", "\\_")
  }

  function Esc3(s: string): string {
    Subst(Subst(Subst(s, '\\', "\\\\"), '%', "\\%"), '_', "\\_")
  }

  lemma SubstOne(x: char, c: char, rep: string)
    ensures Subst([x], c, rep) == if x == c then rep else [x]
  {
    assert [x][1..] == [];
  }

  lemma SubstTwo(x: char, y: char, c: char, rep: string)
    ensures Subst([x, y], c, rep) == Subst([x], c, rep) + Subst([y], c, rep)
  {
    assert [x, y] == [x] + [y];
    SubstAppend([x], [y], c, rep);
  }

  lemma Esc3Char(x: char)
    ensures Esc3([x]) == EscChar(x)
  {
    SubstOne(x, '\\', "\\\\");
    if x == '\\' {
      SubstTwo('\\', '\\', '%', "\\%");
      SubstOne('\\', '%', "\\%");
      SubstTwo('\\', '\\', '_', "\\_");
      SubstOne('\\', '_', "\\_");
    } else {
      SubstOne(x, '%', "\\%");
      if x == '%' {
        SubstTwo('\\', '%', '_', "\\_");
        SubstOne('\\', '_', "\\_");
        SubstOne('%', '_', "\\_");
      } else {
        SubstOne(x, '_', "\\_");
      }
    }
  }

  lemma {:induction false} Esc3Each(s: string)
    ensures Esc3(s) == EscapeEach(s)
  {
    if s != [] {
      var x := s[0];
      var t := s[1..];
      assert s == [x] + t;
      SubstAppend([x], t, '\\', "\\\\");
      var a1 := Subst([x], '\\', "\\\\");
      var b1 := Subst(t, '\\', "\\\\");
      SubstAppend(a1, b1, '%', "\\%");
      SubstAppend(Subst(a1, '%', "\\%"), Subst(b1, '%', "\\%"), '_', "\\_");
      Esc3Char(x);
      Esc3Each(t);
    }
  }

  /** The three chained replacements escape each character independently:
      the earlier doubling of backslashes is never re-escaped. */
  lemma EscapeLikeEach(s: string)
    ensures EscapeLike(s) == EscapeEach(s)
  {
    ReplaceOneChar(s, '\\', "\\\\");
    ReplaceOneChar(Subst(s, '\\', "\\\\"), '%', "\\%");
    ReplaceOneChar(Subst(Subst(s, '\\', "\\\\"), '%', "\\%"), '_', "\\_");
    Esc3Each(s);
  }

  /** One token of a LIKE pattern read with ESCAPE '\'. */
  datatype LikeTok = Lit(c: char) | AnyRun | AnyOne

  /** A LIKE pattern as tokens: '\' makes the next character literal, '%' is
      any run and '_' any single character. */
  function LikeTokens(p: string): seq<LikeTok>
    decreases |p|
  {
    if p == [] then []
    else if p[0] == '\\' && |p| >= 2 then [Lit(p[1])] + LikeTokens(p[2..])
    else if p[0] == '%' then [AnyRun] + LikeTokens(p[1..])
    else if p[0] == '_' then [AnyOne] + LikeTokens(p[1..])
    else [Lit(p[0])] + LikeTokens(p[1..])
  }

  function Lits(s: string): (r: seq<LikeTok>)
    ensures |r| == |s|
  {
    if s == [] then [] else [Lit(s[0])] + Lits(s[1..])
  }

  /** An escaped string reads back as literals only. */
  lemma {:induction false} TokensOfEscaped(s: string, rest: string)
    ensures LikeTokens(EscapeEach(s) + rest) == Lits(s) + LikeTokens(rest)
  {
    if s != [] {
      TokensOfEscaped(s[1..], rest);
      var e := EscChar(s[0]);
      var tail := EscapeEach(s[1..]) + rest;
      var p := e + tail;
      assert EscapeEach(s) + rest == p;
      if |e| == 2 {
        assert p[0] == '\\' && p[1] == s[0] && p[2..] == tail;
        assert LikeTokens(p) == [Lit(s[0])] + LikeTokens(tail);
      } else {
        assert p[0] == s[0] && p[1..] == tail;
        assert LikeTokens(p) == [Lit(s[0])] + LikeTokens(tail);
      }
      assert Lits(s) == [Lit(s[0])] + Lits(s[1..]);
      assert Lits(s) + LikeTokens(rest) == [Lit(s[0])] + (Lits(s[1..]) + LikeTokens(rest));
      assert LikeTokens(EscapeEach(s) + rest) == [Lit(s[0])] + LikeTokens(tail);
    } else {
      assert EscapeEach(s) + rest == rest;
      assert Lits(s) + LikeTokens(rest) == LikeTokens(rest);
    }
  }

  /** The pattern `%<escaped query>%` that search_notes_tables binds. */
  function SearchPattern(q: string): string {
    "%" + EscapeLike(q) + "%"
  }

  /** Whatever the query holds, its pattern is one literal run between two
      wildcards. */
  lemma SearchPatternTokens(q: string)
    ensures LikeTokens(SearchPattern(q)) == [AnyRun] + Lits(q) + [AnyRun]
  {
    EscapeLikeEach(q);
    TokensOfEscaped(q, "%");
    assert SearchPattern(q) == "%" + (EscapeEach(q) + "%");
  }

  /** Whether a token sequence matches the whole of t. */
  predicate LikeMatch(toks: seq<LikeTok>, t: string)
    decreases |toks|, |t|
  {
    if toks == [] then t == []
    else match toks[0]
      case Lit(c) => t != [] && t[0] == c && LikeMatch(toks[1..], t[1..])
      case AnyOne => t != [] && LikeMatch(toks[1..], t[1..])
      case AnyRun => LikeMatch(toks[1..], t) || (t != [] && LikeMatch(toks, t[1..]))
  }

  function LowerToks(toks: seq<LikeTok>): (r: seq<LikeTok>)
    ensures |r| == |toks|
  {
    if toks == [] then []
    else (match toks[0] case Lit(c) => [Lit(LowerChar(c))] case t => [t]) + LowerToks(toks[1..])
  }

  /** ILIKE: LIKE with both sides lower-cased. */
  predicate ILikeMatch(pattern: string, t: string) {
    LikeMatch(LowerToks(LikeTokens(pattern)), Lower(t))
  }

  lemma {:induction false} RunMatchesAll(t: string)
    ensures LikeMatch([AnyRun], t)
    decreases |t|
  {
    if t != [] {
      RunMatchesAll(t[1..]);
    }
  }

  /** A prefix test, one character at a time. */
  lemma StartsWithCons(t: string, q: string)
    requires t != [] && q != []
    ensures StartsWith(t, q) <==> t[0] == q[0] && StartsWith(t[1..], q[1..])
  {
    if |q| <= |t| {
      assert t[..|q|] == [t[0]] + t[1..][..|q| - 1];
      assert q == [q[0]] + q[1..];
    }
  }

  lemma {:induction false} LitsThenRun(q: string, t: string)
    ensures LikeMatch(Lits(q) + [AnyRun], t) <==> StartsWith(t, q)
    decreases |q|
  {
    if q == [] {
      RunMatchesAll(t);
      assert Lits(q) + [AnyRun] == [AnyRun];
    } else {
      var toks := Lits(q) + [AnyRun];
      assert toks[0] == Lit(q[0]) && toks[1..] == Lits(q[1..]) + [AnyRun];
      if t != [] {
        LitsThenRun(q[1..], t[1..]);
        StartsWithCons(t, q);
      }
    }
  }

  lemma {:induction false} RunLitsRun(q: string, t: string)
    ensures LikeMatch([AnyRun] + Lits(q) + [AnyRun], t) <==> Contains(t, q)
    decreases |t|
  {
    var toks := [AnyRun] + Lits(q) + [AnyRun];
    assert toks[0] == AnyRun && toks[1..] == Lits(q) + [AnyRun];
    LitsThenRun(q, t);
    if t != [] {
      RunLitsRun(q, t[1..]);
    }
  }

  lemma {:induction false} LowerLits(q: string)
    ensures LowerToks(Lits(q)) == Lits(Lower(q))
  {
    if q != [] {
      LowerLits(q[1..]);
      assert Lower(q)[1..] == Lower(q[1..]);
    }
  }

  lemma LowerToksAppend(a: seq<LikeTok>, b: seq<LikeTok>)
    ensures LowerToks(a + b) == LowerToks(a) + LowerToks(b)
  {
    if a == [] {
      assert a + b == b;
    } else {
      assert (a + b)[1..] == a[1..] + b;
      LowerToksAppend(a[1..], b);
    }
  }

  /** The search condition `text ILIKE '%' || escape(q) || '%' ESCAPE '\'`
      holds exactly when the lower-cased text contains the lower-cased
      query: '%', '_' and '\' in the query match only themselves. */
  lemma SearchMatchIff(q: string, t: string)
    ensures ILikeMatch(SearchPattern(q), t) <==> Contains(Lower(t), Lower(q))
  {
    SearchPatternTokens(q);
    LowerToksAppend([AnyRun] + Lits(q), [AnyRun]);
    LowerToksAppend([AnyRun], Lits(q));
    LowerLits(q);
    assert LowerToks([AnyRun]) == [AnyRun];
    assert LowerToks(LikeTokens(SearchPattern(q))) == [AnyRun] + Lits(Lower(q)) + [AnyRun];
    RunLitsRun(Lower(q), Lower(t));
  }

  /** A LIKE pattern with no ESCAPE clause as tokens: '%' is any run, '_'
      any single character, and every other character, '\' included, is
      literal. */
  function PlainLikeTokens(p: string): seq<LikeTok>
    decreases |p|
  {
    if p == [] then []
    else if p[0] == '%' then [AnyRun] + PlainLikeTokens(p[1..])
    else if p[0] == '_' then [AnyOne] + PlainLikeTokens(p[1..])
    else [Lit(p[0])] + PlainLikeTokens(p[1..])
  }

  /** A string with neither of the LIKE wildcards in it. */
  predicate NoWildcard(s: string) {
    forall k :: 0 <= k < |s| ==> s[k] != '%' && s[k] != '_'
  }

  /** Without wildcards, the pattern text before rest reads as literals. */
  lemma {:induction false} PlainTokensOfLiteral(s: string, rest: string)
    requires NoWildcard(s)
    ensures PlainLikeTokens(s + rest) == Lits(s) + PlainLikeTokens(rest)
  {
    if s == [] {
      assert s + rest == rest;
    } else {
      assert (s + rest)[0] == s[0] && (s + rest)[1..] == s[1..] + rest;
      PlainTokensOfLiteral(s[1..], rest);
    }
  }

  /** `t LIKE '%' || q || '%'` with no ESCAPE is containment exactly when q
      holds no wildcard. */
  lemma PlainContainsIff(q: string, t: string)
    requires NoWildcard(q)
    ensures LikeMatch(PlainLikeTokens("%" + q + "%"), t) <==> Contains(t, q)
  {
    PlainTokensOfLiteral(q, "%");
    assert "%" + q + "%" == "%" + (q + "%");
    assert PlainLikeTokens("%" + q + "%") == [AnyRun] + (Lits(q) + [AnyRun]);
    assert [AnyRun] + (Lits(q) + [AnyRun]) == [AnyRun] + Lits(q) + [AnyRun];
    RunLitsRun(q, t);
  }

  /** `t LIKE q || '%'` with no ESCAPE is a prefix test exactly when q holds
      no wildcard. */
  lemma PlainPrefixIff(q: string, t: string)
    requires NoWildcard(q)
    ensures LikeMatch(PlainLikeTokens(q + "%"), t) <==> StartsWith(t, q)
  {
    PlainTokensOfLiteral(q, "%");
    assert PlainLikeTokens("%") == [AnyRun];
    LitsThenRun(q, t);
  }

  /** What LIKE reads out of an escaped string is the string itself. */
  function Unescape(t: string): string
    decreases |t|
  {
    if t == [] then []
    else if t[0] == '\\' && |t| >= 2 then [t[1]] + Unescape(t[2..])
    else [t[0]] + Unescape(t[1..])
  }

  lemma {:induction false} UnescapeEach(s: string)
    ensures Unescape(EscapeEach(s)) == s
  {
    if s != [] {
      UnescapeEach(s[1..]);
      var e := EscChar(s[0]);
      if |e| == 2 {
        assert (e + EscapeEach(s[1..]))[2..] == EscapeEach(s[1..]);
      } else {
        assert (e + EscapeEach(s[1..]))[1..] == EscapeEach(s[1..]);
      }
    }
  }

  /** Escaping round-trips: unescaping _escape_like's output gives its input. */
  lemma EscapeRoundTrip(s: string)
    ensures Unescape(EscapeLike(s)) == s
  {
    EscapeLikeEach(s);
    UnescapeEach(s);
  }

  // ---------------------------------------------------------------------------
  // The tables search_notes_tables and build_notes_table_context query
  // ---------------------------------------------------------------------------

  /** A rag_tables row. */
  datatype TableRow = TableRow(tableId: string, sectionId: string, tableTitle: Option<string>,
                               statementType: Option<string>)

  /** A report_sections row. */
  datatype SectionRow = SectionRow(sectionId: string, reportId: string, sectionType: string,
                                   sectionCode: Option<string>, titleKo: Option<string>, noteNo: Option<int>)

  /** A rag_table_cells row. */
  datatype CellRow = CellRow(tableId: string, rowIdx: int, colIdx: int, textValue: Option<string>,
                             numValue: Option<real>)

  /** A rag_table_cols row. */
  datatype ColRow = ColRow(tableId: string, colIdx: int, headerKo: Option<string>)

  /** A rag_table_rows row. */
  datatype RowRow = RowRow(tableId: string, rowIdx: int, labelKo: Option<string>, parentRowIdx: Option<int>)

  datatype Db = Db(tables: seq<TableRow>, sections: seq<SectionRow>, cells: seq<CellRow>,
                   cols: seq<ColRow>, rows: seq<RowRow>)

  /** One row of the `tbl` CTE: a table joined with its section. */
  datatype NoteTable = NoteTable(table: TableRow, section: SectionRow)

  /** One search hit as the dict search_notes_tables returns. */
  datatype Hit = Hit(tableId: string, sectionId: string, sectionCode: string, sectionTitle: string,
                     noteNo: Option<int>, tableTitle: string, rowIdx: int, colIdx: int,
                     textValue: string, numValue: Option<real>)

  /** str(x) of a nullable text column. */
  function StrOrNone(x: Option<string>): string {
    if x.Some? then x.value else "None"
  }

  /** str(x) if x is not None else "". */
  function StrOrEmpty(x: Option<string>): string {
    if x.Some? then x.value else ""
  }

  /** The filters of the `tbl` CTE: a notes section of the report, the
      section asked for when one is given, and the statement type when one
      is given (a NULL column never equals the bound value). */
  predicate InTbl(t: NoteTable, reportId: string, sectionId: Option<string>, onlyStatementType: string) {
    t.section.sectionId == t.table.sectionId
    && t.section.reportId == reportId
    && t.section.sectionType == "notes"
    && (sectionId.Some? && sectionId.value != "" ==> t.table.sectionId == sectionId.value)
    && (onlyStatementType != "" ==> t.table.statementType == Some(onlyStatementType))
  }

  /** The `tbl` CTE: every (table, section) pair passing the filters. */
  function Tbl(db: Db, reportId: string, sectionId: Option<string>, onlyStatementType: string): seq<NoteTable> {
    FlatMap(db.tables, (rt: TableRow) =>
      Filter(FlatMap(db.sections, (rs: SectionRow) => [NoteTable(rt, rs)]),
             (t: NoteTable) => InTbl(t, reportId, sectionId, onlyStatementType)))
  }

  /** The condition of the `hits` CTE on one cell. */
  predicate CellHits(c: CellRow, q: string) {
    c.textValue.Some? && c.textValue.value != "" && ILikeMatch(SearchPattern(q), c.textValue.value)
  }

  /** The `hits` CTE before LIMIT: each matching cell joined with its table. */
  function HitRows(db: Db, tbl: seq<NoteTable>, q: string): seq<(CellRow, NoteTable)> {
    FlatMap(db.cells, (c: CellRow) =>
      if CellHits(c, q) then FlatMap(Filter(tbl, (t: NoteTable) => t.table.tableId == c.tableId),
                                      (t: NoteTable) => [(c, t)])
      else [])
  }

  /** The dict one result row becomes. */
  function HitOf(row: (CellRow, NoteTable)): Hit
    requires row.0.textValue.Some?
  {
    var (c, t) := row;
    Hit(t.table.tableId, t.table.sectionId, StrOrNone(t.section.sectionCode), StrOrEmpty(t.section.titleKo),
        t.section.noteNo, StrOrEmpty(t.table.tableTitle), c.rowIdx, c.colIdx, c.textValue.value, c.numValue)
  }

  /** The rows search_notes_tables fetches: none for a blank query, else the
      first topk rows of the join (LIMIT without ORDER BY keeps whichever
      rows the engine yields first; the model takes them in table order). */
  function SearchRows(db: Db, reportId: string, query: string, topk: int, sectionId: Option<string>,
                      onlyStatementType: string): seq<(CellRow, NoteTable)> {
    var q := NormalizeSpace(query);
    if q == "" then []
    else Take(HitRows(db, Tbl(db, reportId, sectionId, onlyStatementType), q), topk)
  }

  /** A joined hit row has the cell's text. */
  lemma HitRowShape(db: Db, tbl: seq<NoteTable>, q: string, row: (CellRow, NoteTable))
    requires row in HitRows(db, tbl, q)
    ensures row.0 in db.cells && CellHits(row.0, q)
    ensures row.1 in tbl && row.1.table.tableId == row.0.tableId
  {
    var f := (c: CellRow) =>
      if CellHits(c, q) then FlatMap(Filter(tbl, (t: NoteTable) => t.table.tableId == c.tableId),
                                      (t: NoteTable) => [(c, t)])
      else [];
    FlatMapMember(db.cells, f, row);
    var c :| c in db.cells && row in f(c);
    var g := (t: NoteTable) => [(c, t)];
    var ts := Filter(tbl, (t: NoteTable) => t.table.tableId == c.tableId);
    FlatMapMember(ts, g, row);
  }

  /** Every cell that matches, joined with any table that passes the filters,
      is a row of the join. */
  lemma HitRowComplete(db: Db, tbl: seq<NoteTable>, q: string, c: CellRow, t: NoteTable)
    requires c in db.cells && CellHits(c, q) && t in tbl && t.table.tableId == c.tableId
    ensures (c, t) in HitRows(db, tbl, q)
  {
    var f := (c: CellRow) =>
      if CellHits(c, q) then FlatMap(Filter(tbl, (t: NoteTable) => t.table.tableId == c.tableId),
                                      (t: NoteTable) => [(c, t)])
      else [];
    var ts := Filter(tbl, (t': NoteTable) => t'.table.tableId == c.tableId);
    FlatMapMember(ts, (t': NoteTable) => [(c, t')], (c, t));
    FlatMapMember(db.cells, f, (c, t));
  }

  lemma TblMember(db: Db, reportId: string, sectionId: Option<string>, onlyStatementType: string, t: NoteTable)
    ensures t in Tbl(db, reportId, sectionId, onlyStatementType) <==>
      t.table in db.tables && t.section in db.sections && InTbl(t, reportId, sectionId, onlyStatementType)
  {
    var p := (t: NoteTable) => InTbl(t, reportId, sectionId, onlyStatementType);
    var f := (rt: TableRow) => Filter(FlatMap(db.sections, (rs: SectionRow) => [NoteTable(rt, rs)]), p);
    FlatMapMember(db.tables, f, t);
    FlatMapMember(db.sections, (rs: SectionRow) => [NoteTable(t.table, rs)], t);
    if t in Tbl(db, reportId, sectionId, onlyStatementType) {
      var rt :| rt in db.tables && t in f(rt);
      FlatMapMember(db.sections, (rs: SectionRow) => [NoteTable(rt, rs)], t);
    }
  }

  /** search_notes_tables: a blank query finds nothing; each hit is a cell of
      a notes table of the report whose lower-cased text contains the
      lower-cased query; at most topk rows come back, and when fewer than
      topk cells match, every one of them does. */
  lemma SearchSpec(db: Db, reportId: string, query: string, topk: int, sectionId: Option<string>,
                   onlyStatementType: string)
    ensures NormalizeSpace(query) == "" ==> SearchRows(db, reportId, query, topk, sectionId, onlyStatementType) == []
    ensures var r := SearchRows(db, reportId, query, topk, sectionId, onlyStatementType);
      |r| <= Max(topk, 0)
      && forall i :: 0 <= i < |r| ==>
           r[i].0 in db.cells && r[i].1.table in db.tables && r[i].1.section in db.sections
           && r[i].0.tableId == r[i].1.table.tableId
           && InTbl(r[i].1, reportId, sectionId, onlyStatementType)
           && r[i].0.textValue.Some? && r[i].0.textValue.value != ""
           && Contains(Lower(r[i].0.textValue.value), Lower(NormalizeSpace(query)))
    ensures var q := NormalizeSpace(query);
      var all := HitRows(db, Tbl(db, reportId, sectionId, onlyStatementType), q);
      q != "" && |all| <= topk ==>
        forall c: CellRow, t: NoteTable ::
          (c in db.cells && t.table in db.tables && t.section in db.sections
           && InTbl(t, reportId, sectionId, onlyStatementType) && t.table.tableId == c.tableId
           && c.textValue.Some? && c.textValue.value != "" && Contains(Lower(c.textValue.value), Lower(q)))
          ==>
          (c, t) in SearchRows(db, reportId, query, topk, sectionId, onlyStatementType)
  {
    var q := NormalizeSpace(query);
    var tbl := Tbl(db, reportId, sectionId, onlyStatementType);
    var r := SearchRows(db, reportId, query, topk, sectionId, onlyStatementType);
    if q != "" {
      forall i | 0 <= i < |r|
        ensures r[i].0 in db.cells && r[i].1.table in db.tables && r[i].1.section in db.sections
           && r[i].0.tableId == r[i].1.table.tableId
           && InTbl(r[i].1, reportId, sectionId, onlyStatementType)
           && r[i].0.textValue.Some? && r[i].0.textValue.value != ""
           && Contains(Lower(r[i].0.textValue.value), Lower(q))
      {
        assert r[i] in HitRows(db, tbl, q);
        HitRowShape(db, tbl, q, r[i]);
        TblMember(db, reportId, sectionId, onlyStatementType, r[i].1);
        SearchMatchIff(q, r[i].0.textValue.value);
      }
      var all := HitRows(db, tbl, q);
      if |all| <= topk {
        assert r == all;
        forall c: CellRow, t: NoteTable | c in db.cells && t.table in db.tables && t.section in db.sections
          && InTbl(t, reportId, sectionId, onlyStatementType) && t.table.tableId == c.tableId
          && c.textValue.Some? && c.textValue.value != "" && Contains(Lower(c.textValue.value), Lower(q))
          ensures (c, t) in r
        {
          SearchMatchIff(q, c.textValue.value);
          TblMember(db, reportId, sectionId, onlyStatementType, t);
          HitRowComplete(db, tbl, q, c, t);
        }
      }
    }
  }

  /** search_notes_tables with its result loop. */
  method SearchNotesTables(db: Db, reportId: string, query: string, topk: int, sectionId: Option<string>,
                           onlyStatementType: string) returns (out: seq<Hit>)
    ensures |out| == |SearchRows(db, reportId, query, topk, sectionId, onlyStatementType)|
    ensures forall i :: 0 <= i < |out| ==>
      var row := SearchRows(db, reportId, query, topk, sectionId, onlyStatementType)[i];
      row.0.textValue.Some? && out[i] == HitOf(row)
  {
    var rows := SearchRows(db, reportId, query, topk, sectionId, onlyStatementType);
    SearchRowsHaveText(db, reportId, query, topk, sectionId, onlyStatementType);
    out := [];
    for i := 0 to |rows|
      invariant |out| == i
      invariant forall k :: 0 <= k < i ==> rows[k].0.textValue.Some? && out[k] == HitOf(rows[k])
    {
      out := out + [HitOf(rows[i])];
    }
  }

  /** Every searched cell has a text value (the part of SearchSpec HitOf needs). */
  lemma SearchRowsHaveText(db: Db, reportId: string, query: string, topk: int, sectionId: Option<string>,
                           onlyStatementType: string)
    ensures var r := SearchRows(db, reportId, query, topk, sectionId, onlyStatementType);
      forall i :: 0 <= i < |r| ==> r[i].0.textValue.Some?
  {
    SearchSpec(db, reportId, query, topk, sectionId, onlyStatementType);
  }

  /** The hits as a function of the database, for the context builders. */
  function SearchHits(db: Db, reportId: string, query: string, topk: int): (r: seq<Hit>)
    ensures |r| == |SearchRows(db, reportId, query, topk, None, "NOTE")|
  {
    var rows := SearchRows(db, reportId, query, topk, None, "NOTE");
    SearchRowsHaveText(db, reportId, query, topk, None, "NOTE");
    seq(|rows|, i requires 0 <= i < |rows| => HitOf(rows[i]))
  }

  // ---------------------------------------------------------------------------
  // _build_table_header_paths
  // ---------------------------------------------------------------------------

  /** A column's label: its whitespace-normalised header, or COL_<idx> when
      that is blank. */
  function ColLabel(colIdx: int, header: string): (r: string)
    ensures r != ""
    ensures NormalizeSpace(header) != "" ==> r == NormalizeSpace(header)
  {
    var hh := NormalizeSpace(header);
    if hh == "" then "COL_" + IntToString(colIdx) else hh
  }

  predicate ColBefore(a: ColRow, b: ColRow) {
    a.colIdx <= b.colIdx
  }

  /** The columns query: the table's rag_table_cols rows ORDER BY col_idx. */
  function TableCols(db: Db, tableId: string): seq<ColRow> {
    SortBy(Filter(db.cols, (c: ColRow) => c.tableId == tableId), ColBefore)
  }

  /** A dict filled in order from xs: a later element with the same key
      overwrites an earlier one. */
  function LastWins<T, K, V>(xs: seq<T>, key: T -> K, val: T -> V): map<K, V> {
    if xs == [] then map[]
    else
      var x := xs[|xs| - 1];
      LastWins(xs[..|xs| - 1], key, val)[key(x) := val(x)]
  }

  lemma {:induction false} LastWinsSnoc<T, K, V>(xs: seq<T>, i: nat, key: T -> K, val: T -> V)
    requires i < |xs|
    ensures LastWins(xs[..i + 1], key, val) == LastWins(xs[..i], key, val)[key(xs[i]) := val(xs[i])]
  {
    assert xs[..i + 1][..i] == xs[..i];
  }

  /** Every key of xs is in the dict, nothing else is, and its value is that
      of the last element with that key. */
  lemma {:induction false} LastWinsSpec<T, K, V>(xs: seq<T>, key: T -> K, val: T -> V)
    ensures forall i :: 0 <= i < |xs| ==> key(xs[i]) in LastWins(xs, key, val)
    ensures forall k :: k in LastWins(xs, key, val) ==>
      exists i :: 0 <= i < |xs| && key(xs[i]) == k && LastWins(xs, key, val)[k] == val(xs[i])
        && forall j :: i < j < |xs| ==> key(xs[j]) != k
  {
    if xs != [] {
      var n := |xs| - 1;
      var init := xs[..n];
      LastWinsSpec(init, key, val);
      assert xs == init + [xs[n]];
      var m := LastWins(xs, key, val);
      forall i | 0 <= i < |xs| ensures key(xs[i]) in m {
        if i < n { assert xs[i] == init[i]; }
      }
      forall k | k in m
        ensures exists i :: 0 <= i < |xs| && key(xs[i]) == k && m[k] == val(xs[i])
                  && forall j :: i < j < |xs| ==> key(xs[j]) != k
      {
        if k == key(xs[n]) {
          assert key(xs[n]) == k && m[k] == val(xs[n]);
        } else {
          var i :| 0 <= i < |init| && key(init[i]) == k && LastWins(init, key, val)[k] == val(init[i])
            && forall j :: i < j < |init| ==> key(init[j]) != k;
          assert xs[i] == init[i];
        }
      }
    }
  }

  /** The dict the loop fills: a later column of the same index overwrites. */
  function HeaderMap(cols: seq<ColRow>): map<int, string> {
    LastWins(cols, (c: ColRow) => c.colIdx, (c: ColRow) => ColLabel(c.colIdx, StrOrEmpty(c.headerKo)))
  }

  /** Every column index has a label, nothing else has one, and the label is
      that of the last column with that index. */
  lemma HeaderMapSpec(cols: seq<ColRow>)
    ensures forall i :: 0 <= i < |cols| ==> cols[i].colIdx in HeaderMap(cols)
    ensures forall k :: k in HeaderMap(cols) ==>
      exists i :: 0 <= i < |cols| && cols[i].colIdx == k
        && HeaderMap(cols)[k] == ColLabel(k, StrOrEmpty(cols[i].headerKo))
        && forall j :: i < j < |cols| ==> cols[j].colIdx != k
  {
    LastWinsSpec(cols, (c: ColRow) => c.colIdx, (c: ColRow) => ColLabel(c.colIdx, StrOrEmpty(c.headerKo)));
  }

  /** _build_table_header_paths. */
  method BuildTableHeaderPaths(db: Db, tableId: string) returns (out: map<int, string>)
    ensures out == HeaderMap(TableCols(db, tableId))
  {
    var cols := TableCols(db, tableId);
    out := map[];
    for i := 0 to |cols|
      invariant out == HeaderMap(cols[..i])
    {
      LastWinsSnoc(cols, i, (c: ColRow) => c.colIdx, (c: ColRow) => ColLabel(c.colIdx, StrOrEmpty(c.headerKo)));
      out := out[cols[i].colIdx := ColLabel(cols[i].colIdx, StrOrEmpty(cols[i].headerKo))];
    }
    assert cols[..|cols|] == cols;
  }

  // ---------------------------------------------------------------------------
  // _build_row_label_paths and its path_of
  // ---------------------------------------------------------------------------

  /** One entry of by_id. */
  datatype RowNode = RowNode(text: string, parent: Option<int>)

  /** The rows query (no ORDER BY: table order). */
  function TableRows(db: Db, tableId: string): seq<RowRow> {
    Filter(db.rows, (r: RowRow) => r.tableId == tableId)
  }

  /** by_id: a later row of the same index overwrites an earlier one. */
  function ById(rows: seq<RowRow>): map<int, RowNode> {
    LastWins(rows, (r: RowRow) => r.rowIdx, (r: RowRow) => RowNode(NormalizeSpace(StrOrEmpty(r.labelKo)), r.parentRowIdx))
  }

  /** A row's part of a path: its label, or ROW_<idx> when that is empty. */
  function PartLabel(byId: map<int, RowNode>, id: int): (r: string)
    requires id in byId
    ensures r != ""
  {
    if byId[id].text != "" then byId[id].text else "ROW_" + IntToString(id)
  }

  /** The rows path_of visits from cur: while the row exists and has not
      been seen yet, record it and step to its parent. */
  function Chain(byId: map<int, RowNode>, cur: Option<int>, seen: set<int>): seq<int>
    decreases byId.Keys - seen
  {
    if cur.Some? && cur.value in byId && cur.value !in seen then
      assert byId.Keys - (seen + {cur.value}) < byId.Keys - seen;
      [cur.value] + Chain(byId, byId[cur.value].parent, seen + {cur.value})
    else []
  }

  /** The chain starts at cur, follows parent links, never repeats a row,
      stops only at a missing parent, a dangling one or one already visited,
      and is no longer than the number of unseen rows. */
  lemma {:induction false} ChainShape(byId: map<int, RowNode>, cur: Option<int>, seen: set<int>)
    ensures var c := Chain(byId, cur, seen);
      (c != [] <==> cur.Some? && cur.value in byId && cur.value !in seen)
      && (c != [] ==> c[0] == cur.value)
      && (forall k :: 0 <= k < |c| ==> c[k] in byId && c[k] !in seen)
      && (forall k :: 0 <= k < |c| - 1 ==> byId[c[k]].parent == Some(c[k + 1]))
      && (forall i, j :: 0 <= i < j < |c| ==> c[i] != c[j])
      && (c != [] ==>
            var p := byId[c[|c| - 1]].parent;
            p.None? || p.value !in byId || p.value in seen || p.value in c)
      && |c| <= |byId.Keys - seen|
    decreases byId.Keys - seen
  {
    var c := Chain(byId, cur, seen);
    if cur.Some? && cur.value in byId && cur.value !in seen {
      var v := cur.value;
      var seen' := seen + {v};
      assert byId.Keys - seen' < byId.Keys - seen;
      var rest := Chain(byId, byId[v].parent, seen');
      ChainShape(byId, byId[v].parent, seen');
      assert c == [v] + rest;
      assert (byId.Keys - seen) - {v} == byId.Keys - seen';
      assert |byId.Keys - seen'| == |byId.Keys - seen| - 1;
      forall k | 0 <= k < |c| - 1 ensures byId[c[k]].parent == Some(c[k + 1]) {
        if k > 0 { assert c[k] == rest[k - 1] && c[k + 1] == rest[k]; }
      }
      forall i, j | 0 <= i < j < |c| ensures c[i] != c[j] {
        assert c[j] == rest[j - 1];
        if i > 0 { assert c[i] == rest[i - 1]; }
      }
      if rest != [] {
        assert c[|c| - 1] == rest[|rest| - 1];
        var p := byId[c[|c| - 1]].parent;
        assert p.Some? && p.value in rest ==> p.value in c;
      }
    }
  }

  /** The labels of the visited rows, in visiting order. */
  function Labels(byId: map<int, RowNode>, ids: seq<int>): (r: seq<string>)
    requires forall k :: 0 <= k < |ids| ==> ids[k] in byId
    ensures |r| == |ids|
    ensures forall k :: 0 <= k < |ids| ==> r[k] == PartLabel(byId, ids[k])
  {
    if ids == [] then [] else Labels(byId, ids[..|ids| - 1]) + [PartLabel(byId, ids[|ids| - 1])]
  }

  lemma ChainInById(byId: map<int, RowNode>, rid: int)
    ensures forall k :: 0 <= k < |Chain(byId, Some(rid), {})| ==> Chain(byId, Some(rid), {})[k] in byId
  {
    ChainShape(byId, Some(rid), {});
  }

  /** path_of(rid): the visited labels root first, joined by " > ". */
  function PathOf(byId: map<int, RowNode>, rid: int): string {
    ChainInById(byId, rid);
    Join(Reverse(Labels(byId, Chain(byId, Some(rid), {}))), " > ")
  }

  /** The row's own label closes its path, the topmost ancestor reached opens
      it, and a row without a parent is its own path. */
  lemma PathOfSpec(byId: map<int, RowNode>, rid: int)
    requires rid in byId
    ensures EndsWith(PathOf(byId, rid), PartLabel(byId, rid))
    ensures var c := Chain(byId, Some(rid), {});
      |c| >= 1 && c[|c| - 1] in byId && StartsWith(PathOf(byId, rid), PartLabel(byId, c[|c| - 1]))
    ensures byId[rid].parent.None? ==> PathOf(byId, rid) == PartLabel(byId, rid)
  {
    ChainShape(byId, Some(rid), {});
    var c := Chain(byId, Some(rid), {});
    assert byId.Keys - {} == byId.Keys;
    var parts := Reverse(Labels(byId, c));
    JoinEndsWith(parts, " > ");
    JoinStartsWith(parts, " > ");
    if byId[rid].parent.None? {
      assert Chain(byId, None, {rid}) == [];
      assert c == [rid];
    }
  }

  /** path_of with its while loop. */
  method PathOfRow(byId: map<int, RowNode>, rid: int) returns (p: string)
    ensures p == PathOf(byId, rid)
  {
    var seen: set<int> := {};
    var parts: seq<string> := [];
    var cur: Option<int> := Some(rid);
    ghost var done: seq<int> := [];
    while cur.Some? && cur.value in byId && cur.value !in seen
      invariant forall k :: 0 <= k < |done| ==> done[k] in byId
      invariant Chain(byId, Some(rid), {}) == done + Chain(byId, cur, seen)
      invariant parts == Labels(byId, done)
      decreases byId.Keys - seen
    {
      var id := cur.value;
      assert Chain(byId, cur, seen) == [id] + Chain(byId, byId[id].parent, seen + {id});
      assert byId.Keys - (seen + {id}) < byId.Keys - seen;
      seen := seen + {id};
      parts := parts + [PartLabel(byId, id)];
      assert (done + [id])[..|done|] == done;
      done := done + [id];
      cur := byId[id].parent;
    }
    assert Chain(byId, Some(rid), {}) == done;
    p := Join(Reverse(parts), " > ");
  }

  /** _build_row_label_paths: the dict comprehension over by_id. */
  function RowPathMap(byId: map<int, RowNode>): map<int, string> {
    map rid | rid in byId :: PathOf(byId, rid)
  }

  /** rowPaths.get(r, f"ROW_{r}"). */
  function PathOr(rowPaths: map<int, string>, r: int): string {
    if r in rowPaths then rowPaths[r] else "ROW_" + IntToString(r)
  }

  // ---------------------------------------------------------------------------
  // _format_one_row_context
  // ---------------------------------------------------------------------------

  /** One (col_idx, text, num) triple of a fetched row. */
  datatype RowItem = RowItem(colIdx: int, text: string, num: Option<real>)

  /** col_headers.get(col_idx, f"COL_{col_idx}"). */
  function HeaderOf(colHeaders: map<int, string>, colIdx: int): string {
    if colIdx in colHeaders then colHeaders[colIdx] else "COL_" + IntToString(colIdx)
  }

  /** The part one item contributes: nothing when its whitespace-normalised
      text is empty, else "header: text", followed by " (num=...)" when the
      cell carries a number; fmtG stands for Python's `:g` float format. */
  function KeyValueOf(colHeaders: map<int, string>, fmtG: real -> string, it: RowItem): seq<string> {
    var tv := NormalizeSpace(it.text);
    if tv == "" then []
    else if it.num.Some? then [HeaderOf(colHeaders, it.colIdx) + ": " + tv + " (num=" + fmtG(it.num.value) + ")"]
    else [HeaderOf(colHeaders, it.colIdx) + ": " + tv]
  }

  function KeyValues(items: seq<RowItem>, colHeaders: map<int, string>, fmtG: real -> string): seq<string> {
    FlatMap(items, (it: RowItem) => KeyValueOf(colHeaders, fmtG, it))
  }

  predicate BlankItem(it: RowItem) {
    NormalizeSpace(it.text) == ""
  }

  /** A FlatMap whose images have at most one element each is no longer
      than its input, and empty exactly when every image is. */
  lemma {:induction false} FlatMapAtMostOne<T, U>(xs: seq<T>, f: T -> seq<U>)
    requires forall x :: |f(x)| <= 1
    ensures |FlatMap(xs, f)| <= |xs|
    ensures FlatMap(xs, f) == [] <==> forall i :: 0 <= i < |xs| ==> f(xs[i]) == []
  {
    if xs != [] {
      var n := |xs| - 1;
      FlatMapAtMostOne(xs[..n], f);
      assert forall i :: 0 <= i < n ==> xs[..n][i] == xs[i];
    }
  }

  /** Only blank items are skipped: there is no part exactly when every
      item's text is blank, and never more parts than items. */
  lemma KeyValuesSpec(items: seq<RowItem>, colHeaders: map<int, string>, fmtG: real -> string)
    ensures KeyValues(items, colHeaders, fmtG) == [] <==> forall i :: 0 <= i < |items| ==> BlankItem(items[i])
    ensures |KeyValues(items, colHeaders, fmtG)| <= |items|
  {
    var f := (it: RowItem) => KeyValueOf(colHeaders, fmtG, it);
    FlatMapAtMostOne(items, f);
    assert forall it :: f(it) == [] <==> BlankItem(it);
  }

  /** "- row[<idx>] <path> | ". */
  function RowPrefix(rowIdx: int, rowPath: string): string {
    "- row[" + IntToString(rowIdx) + "] " + rowPath + " | "
  }

  /** The context line of one row: its parts joined by " ; ", or "(empty)". */
  function RowContext(rowIdx: int, rowPath: string, items: seq<RowItem>, colHeaders: map<int, string>,
                      fmtG: real -> string): string {
    var kvs := KeyValues(items, colHeaders, fmtG);
    if kvs == [] then RowPrefix(rowIdx, rowPath) + "(empty)" else RowPrefix(rowIdx, rowPath) + Join(kvs, " ; ")
  }

  /** Every row line opens with the row index and path; a row whose texts are
      all blank reads "(empty)", any other lists its non-blank parts. */
  lemma RowContextSpec(rowIdx: int, rowPath: string, items: seq<RowItem>, colHeaders: map<int, string>,
                       fmtG: real -> string)
    ensures StartsWith(RowContext(rowIdx, rowPath, items, colHeaders, fmtG), RowPrefix(rowIdx, rowPath))
    ensures (forall i :: 0 <= i < |items| ==> BlankItem(items[i])) ==>
      RowContext(rowIdx, rowPath, items, colHeaders, fmtG) == RowPrefix(rowIdx, rowPath) + "(empty)"
    ensures (exists i :: 0 <= i < |items| && !BlankItem(items[i])) ==>
      var kvs := KeyValues(items, colHeaders, fmtG);
      kvs != [] && RowContext(rowIdx, rowPath, items, colHeaders, fmtG) == RowPrefix(rowIdx, rowPath) + Join(kvs, " ; ")
  {
    KeyValuesSpec(items, colHeaders, fmtG);
    var pre := RowPrefix(rowIdx, rowPath);
    var r := RowContext(rowIdx, rowPath, items, colHeaders, fmtG);
    assert r[..|pre|] == pre;
  }

  /** _format_one_row_context with its loop over the row's items. */
  method FormatOneRowContext(rowIdx: int, rowPath: string, items: seq<RowItem>, colHeaders: map<int, string>,
                             fmtG: real -> string) returns (line: string)
    ensures line == RowContext(rowIdx, rowPath, items, colHeaders, fmtG)
  {
    var kvs: seq<string> := [];
    for i := 0 to |items|
      invariant kvs == KeyValues(items[..i], colHeaders, fmtG)
    {
      FlatMapPrefix(items, i, (it: RowItem) => KeyValueOf(colHeaders, fmtG, it));
      var tv := NormalizeSpace(items[i].text);
      if tv == "" {
        continue;
      }
      if items[i].num.Some? {
        kvs := kvs + [HeaderOf(colHeaders, items[i].colIdx) + ": " + tv + " (num=" + fmtG(items[i].num.value) + ")"];
      } else {
        kvs := kvs + [HeaderOf(colHeaders, items[i].colIdx) + ": " + tv];
      }
    }
    assert items[..|items|] == items;
    if kvs == [] {
      line := RowPrefix(rowIdx, rowPath) + "(empty)";
    } else {
      line := RowPrefix(rowIdx, rowPath) + Join(kvs, " ; ");
    }
  }

  // ---------------------------------------------------------------------------
  // build_notes_table_context: the row window around the hits
  // ---------------------------------------------------------------------------

  /** The integers lo..hi (range(lo, hi + 1) as a set). */
  function Range(lo: int, hi: int): set<int>
    decreases hi - lo
  {
    if hi < lo then {} else Range(lo, hi - 1) + {hi}
  }

  lemma {:induction false} RangeSpec(lo: int, hi: int)
    ensures forall x :: x in Range(lo, hi) <==> lo <= x <= hi
    decreases hi - lo
  {
    if hi >= lo {
      RangeSpec(lo, hi - 1);
    }
  }

  /** range(max(0, r - w), r + w + 1) as a set. */
  function Window(r: int, w: int): set<int> {
    Range(Max(0, r - w), r + w)
  }

  /** rows_to_fetch: the union of the windows around the hit rows. */
  function RowsToFetch(hitRows: seq<int>, w: int): set<int> {
    if hitRows == [] then {} else RowsToFetch(hitRows[..|hitRows| - 1], w) + Window(hitRows[|hitRows| - 1], w)
  }

  /** A row is fetched exactly when it lies within w rows of some hit row
      (and is not negative). */
  lemma {:induction false} RowsToFetchSpec(hitRows: seq<int>, w: int)
    ensures forall x :: x in RowsToFetch(hitRows, w) <==>
      exists i :: 0 <= i < |hitRows| && Max(0, hitRows[i] - w) <= x <= hitRows[i] + w
  {
    if hitRows != [] {
      var n := |hitRows| - 1;
      RowsToFetchSpec(hitRows[..n], w);
      RangeSpec(Max(0, hitRows[n] - w), hitRows[n] + w);
      forall x ensures x in RowsToFetch(hitRows, w) <==>
        exists i :: 0 <= i < |hitRows| && Max(0, hitRows[i] - w) <= x <= hitRows[i] + w
      {
        if x in RowsToFetch(hitRows[..n], w) {
          var i :| 0 <= i < n && Max(0, hitRows[..n][i] - w) <= x <= hitRows[..n][i] + w;
          assert hitRows[i] == hitRows[..n][i];
        }
        if exists i :: 0 <= i < |hitRows| && Max(0, hitRows[i] - w) <= x <= hitRows[i] + w {
          var i :| 0 <= i < |hitRows| && Max(0, hitRows[i] - w) <= x <= hitRows[i] + w;
          if i < n {
            assert hitRows[..n][i] == hitRows[i];
          }
        }
      }
    }
  }

  /** The nested loop that fills rows_to_fetch. */
  method CollectRowsToFetch(hitRows: seq<int>, w: int) returns (rows: set<int>)
    ensures rows == RowsToFetch(hitRows, w)
  {
    rows := {};
    for i := 0 to |hitRows|
      invariant rows == RowsToFetch(hitRows[..i], w)
    {
      var r := hitRows[i];
      var rr := Max(0, r - w);
      ghost var before := rows;
      while rr <= r + w
        invariant rows == before + Range(Max(0, r - w), rr - 1)
        invariant Max(0, r - w) <= rr <= Max(Max(0, r - w), r + w + 1)
        decreases r + w - rr
      {
        rows := rows + {rr};
        rr := rr + 1;
      }
      assert Range(Max(0, r - w), rr - 1) == Window(r, w);
      assert hitRows[..i + 1][..i] == hitRows[..i];
    }
    assert hitRows[..|hitRows|] == hitRows;
  }

  // ---------------------------------------------------------------------------
  // build_notes_table_context: the fetched cells, grouped by row
  // ---------------------------------------------------------------------------

  /** The items of one row as the grouping loop collects them. */
  datatype Run<U> = Run(row: int, items: seq<U>)

  /** The loop's grouping: consecutive elements with the same row form one run. */
  function Runs<T, U>(xs: seq<T>, row: T -> int, val: T -> U): (rs: seq<Run<U>>)
    ensures xs == [] <==> rs == []
    ensures rs != [] ==> rs[|rs| - 1].row == row(xs[|xs| - 1])
  {
    if xs == [] then []
    else
      var rs := Runs(xs[..|xs| - 1], row, val);
      var x := xs[|xs| - 1];
      if rs != [] && rs[|rs| - 1].row == row(x) then rs[..|rs| - 1] + [Run(row(x), rs[|rs| - 1].items + [val(x)])]
      else rs + [Run(row(x), [val(x)])]
  }

  function AllItems<U>(rs: seq<Run<U>>): seq<U> {
    if rs == [] then [] else AllItems(rs[..|rs| - 1]) + rs[|rs| - 1].items
  }

  function Values<T, U>(xs: seq<T>, val: T -> U): (r: seq<U>)
    ensures |r| == |xs| && forall i :: 0 <= i < |xs| ==> r[i] == val(xs[i])
  {
    seq(|xs|, i requires 0 <= i < |xs| => val(xs[i]))
  }

  lemma ValuesSnoc<T, U>(xs: seq<T>, i: nat, val: T -> U)
    requires i < |xs|
    ensures Values(xs[..i + 1], val) == Values(xs[..i], val) + [val(xs[i])]
  {
  }

  /** Every element lands in exactly one run, in order. */
  lemma {:induction false} RunsItems<T, U>(xs: seq<T>, row: T -> int, val: T -> U)
    ensures AllItems(Runs(xs, row, val)) == Values(xs, val)
  {
    if xs != [] {
      var n := |xs| - 1;
      var init := xs[..n];
      var x := xs[n];
      RunsItems(init, row, val);
      var rs := Runs(init, row, val);
      assert Values(xs, val) == Values(init, val) + [val(x)];
      if rs != [] && rs[|rs| - 1].row == row(x) {
        var m := |rs| - 1;
        assert rs[..m] + [rs[m]] == rs;
        AllItemsMerge(rs[..m], rs[m], row(x), val(x));
      } else {
        AllItemsSnoc(rs, Run(row(x), [val(x)]));
      }
    }
  }

  /** Appending an item to the last run appends it to the items. */
  lemma AllItemsMerge<U>(init: seq<Run<U>>, last: Run<U>, r: int, v: U)
    ensures AllItems(init + [Run(r, last.items + [v])]) == AllItems(init + [last]) + [v]
  {
    AllItemsSnoc(init, last);
    AllItemsSnoc(init, Run(r, last.items + [v]));
  }

  lemma AllItemsSnoc<U>(rs: seq<Run<U>>, r: Run<U>)
    ensures AllItems(rs + [r]) == AllItems(rs) + r.items
  {
    assert (rs + [r])[..|rs|] == rs;
  }

  /** No run is empty, and two neighbouring runs belong to different rows. */
  lemma {:induction false} RunsShape<T, U>(xs: seq<T>, row: T -> int, val: T -> U)
    ensures forall k :: 0 <= k < |Runs(xs, row, val)| ==> Runs(xs, row, val)[k].items != []
    ensures forall k :: 0 <= k < |Runs(xs, row, val)| - 1 ==> Runs(xs, row, val)[k].row != Runs(xs, row, val)[k + 1].row
  {
    if xs != [] {
      RunsShape(xs[..|xs| - 1], row, val);
    }
  }

  /** When the elements come ordered by row, each row has one run: the run
      rows strictly increase. */
  lemma {:induction false} RunsOnePerRow<T, U>(xs: seq<T>, row: T -> int, val: T -> U)
    requires forall i, j :: 0 <= i < j < |xs| ==> row(xs[i]) <= row(xs[j])
    ensures forall k, l :: 0 <= k < l < |Runs(xs, row, val)| ==> Runs(xs, row, val)[k].row < Runs(xs, row, val)[l].row
  {
    if xs != [] {
      var n := |xs| - 1;
      var init := xs[..n];
      RunsOnePerRow(init, row, val);
      var rs := Runs(init, row, val);
      if rs != [] {
        assert rs[|rs| - 1].row == row(init[n - 1]) == row(xs[n - 1]) <= row(xs[n]);
      }
    }
  }

  /** Runs of one more element: the last run continued, or a new one. */
  lemma RunsStep<T, U>(xs: seq<T>, row: T -> int, val: T -> U, i: nat, done: seq<Run<U>>, cur: int, items: seq<U>)
    requires i < |xs|
    requires i > 0 ==> Runs(xs[..i], row, val) == done + [Run(cur, items)]
    requires i == 0 ==> done == [] && items == []
    ensures var x := xs[i];
      if i == 0 then Runs(xs[..i + 1], row, val) == [Run(row(x), [val(x)])]
      else if row(x) == cur then Runs(xs[..i + 1], row, val) == done + [Run(cur, items + [val(x)])]
      else Runs(xs[..i + 1], row, val) == (done + [Run(cur, items)]) + [Run(row(x), [val(x)])]
  {
    assert xs[..i + 1][..i] == xs[..i];
    if i > 0 {
      var rs := done + [Run(cur, items)];
      assert rs[..|rs| - 1] == done;
    }
  }

  /** ORDER BY row_idx, col_idx. */
  predicate CellBefore(a: CellRow, b: CellRow) {
    a.rowIdx < b.rowIdx || (a.rowIdx == b.rowIdx && a.colIdx <= b.colIdx)
  }

  /** The cells query: the table's cells in the fetched rows, by row then column. */
  function FetchedCells(db: Db, tableId: string, rows: set<int>): seq<CellRow> {
    SortBy(Filter(db.cells, (c: CellRow) => c.tableId == tableId && c.rowIdx in rows), CellBefore)
  }

  /** The sorted cells come ordered by row, and they are the table's cells
      in the fetched rows. */
  lemma FetchedCellsSpec(db: Db, tableId: string, rows: set<int>)
    ensures var cs := FetchedCells(db, tableId, rows);
      (forall i, j :: 0 <= i < j < |cs| ==> cs[i].rowIdx <= cs[j].rowIdx)
      && (forall c :: c in cs <==> c in db.cells && c.tableId == tableId && c.rowIdx in rows)
  {
    var xs := Filter(db.cells, (c: CellRow) => c.tableId == tableId && c.rowIdx in rows);
    assert TotalPreorder(CellBefore);
    SortBySorted(xs, CellBefore);
    SortByMembers(xs, CellBefore);
  }

  function CellRowIdx(c: CellRow): int { c.rowIdx }

  /** (col_idx, coalesce(text_value, ''), num_value). */
  function ItemOf(c: CellRow): RowItem {
    RowItem(c.colIdx, StrOrEmpty(c.textValue), c.numValue)
  }

  /** The context line of one run of cells. */
  function RunLine(rowPaths: map<int, string>, colHeaders: map<int, string>, fmtG: real -> string,
                   r: Run<RowItem>): string {
    RowContext(r.row, PathOr(rowPaths, r.row), r.items, colHeaders, fmtG)
  }

  /** One context line per run. */
  function RunLines(rs: seq<Run<RowItem>>, rowPaths: map<int, string>, colHeaders: map<int, string>,
                    fmtG: real -> string): (r: seq<string>)
    ensures |r| == |rs|
    ensures forall k :: 0 <= k < |rs| ==> r[k] == RunLine(rowPaths, colHeaders, fmtG, rs[k])
  {
    seq(|rs|, k requires 0 <= k < |rs| => RunLine(rowPaths, colHeaders, fmtG, rs[k]))
  }

  lemma RunLinesSnoc(rs: seq<Run<RowItem>>, r: Run<RowItem>, rowPaths: map<int, string>,
                     colHeaders: map<int, string>, fmtG: real -> string)
    ensures RunLines(rs + [r], rowPaths, colHeaders, fmtG)
      == RunLines(rs, rowPaths, colHeaders, fmtG) + [RunLine(rowPaths, colHeaders, fmtG, r)]
  {
  }

  /** Closes the current run: its line is appended. */
  method CloseRun(lines: seq<string>, ghost done: seq<Run<RowItem>>, cur: int, items: seq<RowItem>,
                  rowPaths: map<int, string>, colHeaders: map<int, string>, fmtG: real -> string)
    returns (lines': seq<string>)
    requires lines == RunLines(done, rowPaths, colHeaders, fmtG)
    ensures lines' == RunLines(done + [Run(cur, items)], rowPaths, colHeaders, fmtG)
  {
    var line := FormatOneRowContext(cur, PathOr(rowPaths, cur), items, colHeaders, fmtG);
    RunLinesSnoc(done, Run(cur, items), rowPaths, colHeaders, fmtG);
    lines' := lines + [line];
  }

  /** The loop state after i cells: the closed runs and the open one. */
  predicate Grouped(cells: seq<CellRow>, i: nat, done: seq<Run<RowItem>>, cur: int, items: seq<RowItem>)
    requires i <= |cells|
  {
    if i == 0 then done == [] && items == []
    else Runs(cells[..i], CellRowIdx, ItemOf) == done + [Run(cur, items)]
  }

  lemma GroupedStep(cells: seq<CellRow>, i: nat, done: seq<Run<RowItem>>, cur: int, items: seq<RowItem>)
    requires i < |cells| && Grouped(cells, i, done, cur, items)
    ensures var c := cells[i];
      (i == 0 ==> Grouped(cells, i + 1, [], c.rowIdx, [ItemOf(c)]))
      && (i > 0 && c.rowIdx == cur ==> Grouped(cells, i + 1, done, cur, items + [ItemOf(c)]))
      && (i > 0 && c.rowIdx != cur ==> Grouped(cells, i + 1, done + [Run(cur, items)], c.rowIdx, [ItemOf(c)]))
  {
    RunsStep(cells, CellRowIdx, ItemOf, i, done, cur, items);
  }

  lemma GroupedEnd(cells: seq<CellRow>, done: seq<Run<RowItem>>, cur: int, items: seq<RowItem>)
    requires Grouped(cells, |cells|, done, cur, items)
    ensures cells == [] ==> Runs(cells, CellRowIdx, ItemOf) == done
    ensures cells != [] ==> Runs(cells, CellRowIdx, ItemOf) == done + [Run(cur, items)]
  {
    assert cells[..|cells|] == cells;
  }

  /** The grouping loop of build_notes_table_context: it closes a row's line
      when the row index changes, and the last one after the loop. */
  method RowContextLines(cells: seq<CellRow>, rowPaths: map<int, string>, colHeaders: map<int, string>,
                         fmtG: real -> string) returns (lines: seq<string>)
    ensures lines == RunLines(Runs(cells, CellRowIdx, ItemOf), rowPaths, colHeaders, fmtG)
  {
    var cur: Option<int> := None;
    var items: seq<RowItem> := [];
    lines := [];
    ghost var done: seq<Run<RowItem>> := [];
    for i := 0 to |cells|
      invariant cur.None? <==> i == 0
      invariant Grouped(cells, i, done, if cur.Some? then cur.value else 0, items)
      invariant lines == RunLines(done, rowPaths, colHeaders, fmtG)
    {
      var c := cells[i];
      GroupedStep(cells, i, done, if cur.Some? then cur.value else 0, items);
      if cur.None? {
        cur := Some(c.rowIdx);
      }
      if c.rowIdx != cur.value {
        lines := CloseRun(lines, done, cur.value, items, rowPaths, colHeaders, fmtG);
        done := done + [Run(cur.value, items)];
        cur := Some(c.rowIdx);
        items := [];
      }
      assert items == [] ==> items + [ItemOf(c)] == [ItemOf(c)];
      items := items + [ItemOf(c)];
    }
    GroupedEnd(cells, done, if cur.Some? then cur.value else 0, items);
    if cur.Some? {
      lines := CloseRun(lines, done, cur.value, items, rowPaths, colHeaders, fmtG);
    }
  }

  // ---------------------------------------------------------------------------
  // build_notes_table_context: one block per table, and the whole context
  // ---------------------------------------------------------------------------

  /** str(note_no) in an f-string: the number, or "None". */
  function NoteNoText(n: Option<int>): string {
    if n.Some? then IntToString(n.value) else "None"
  }

  /** The three-line header of a table's block, taken from its first hit. */
  function TableHeader(meta: Hit, tableId: string): string {
    "[NOTE TABLE] " + meta.sectionCode + " (note_no=" + NoteNoText(meta.noteNo) + ") / " + meta.sectionTitle
      + "\n- table_title: " + meta.tableTitle + "\n- table_id: " + tableId
  }

  /** A matched cell's text, cut to 140 characters plus an ellipsis. */
  function Clip140(t: string): (r: string)
    ensures |r| <= 141
    ensures |t| <= 140 ==> r == t
    ensures |t| > 140 ==> r == t[..140] + "…"
  {
    if |t| > 140 then t[..140] + "…" else t
  }

  /** "  - (<row path>) / (<column header>) = <text>". */
  function MatchedLine(rowPaths: map<int, string>, colHeaders: map<int, string>, h: Hit): string {
    "  - (" + PathOr(rowPaths, h.rowIdx) + ") / (" + HeaderOf(colHeaders, h.colIdx) + ") = "
      + Clip140(NormalizeSpace(h.textValue))
  }

  function MatchedLines(hs: seq<Hit>, rowPaths: map<int, string>, colHeaders: map<int, string>): seq<string> {
    Values(hs, (h: Hit) => MatchedLine(rowPaths, colHeaders, h))
  }

  function HitRow(h: Hit): int { h.rowIdx }

  /** The rows fetched for one table: the window around each hit row. */
  function TableFetchRows(hs: seq<Hit>, w: int): set<int> {
    RowsToFetch(Values(hs, HitRow), w)
  }

  /** The context lines of a table's fetched rows. */
  function TableRowLines(db: Db, tableId: string, hs: seq<Hit>, w: int, fmtG: real -> string): seq<string> {
    RunLines(Runs(FetchedCells(db, tableId, TableFetchRows(hs, w)), CellRowIdx, ItemOf),
             RowPathMap(ById(TableRows(db, tableId))), HeaderMap(TableCols(db, tableId)), fmtG)
  }

  /** hs[:min(len(hs), topk_cells)] (a negative stop drops from the end). */
  function MatchedHits(hs: seq<Hit>, topk: int): seq<Hit> {
    SliceTo(hs, Min(|hs|, topk))
  }

  /** The chunks one table contributes: header, one line per fetched row,
      the matched-cells list and an empty line. */
  function TableBlock(db: Db, tableId: string, hs: seq<Hit>, topk: int, w: int, fmtG: real -> string): seq<string> {
    if hs == [] then []
    else
      [TableHeader(hs[0], tableId)] + TableRowLines(db, tableId, hs, w, fmtG) + ["- matched_cells:"]
        + MatchedLines(MatchedHits(hs, topk), RowPathMap(ById(TableRows(db, tableId))), HeaderMap(TableCols(db, tableId)))
        + [""]
  }

  /** The block opens with the header of its first hit and closes with an
      empty line; between them come one line per run of fetched cells, then
      "- matched_cells:" and one line per matched hit, at most topk. */
  lemma TableBlockShape(db: Db, tableId: string, hs: seq<Hit>, topk: int, w: int, fmtG: real -> string)
    requires hs != []
    ensures var b := TableBlock(db, tableId, hs, topk, w, fmtG);
      var n := |Runs(FetchedCells(db, tableId, TableFetchRows(hs, w)), CellRowIdx, ItemOf)|;
      var m := |MatchedHits(hs, topk)|;
      |b| == n + m + 3
      && b[0] == TableHeader(hs[0], tableId)
      && b[n + 1] == "- matched_cells:"
      && b[|b| - 1] == ""
      && (topk >= 0 ==> m == Min(|hs|, topk))
  {
  }

  /** The fetched rows get one line each, in strictly increasing row order,
      and each lies within the window of some hit. */
  lemma TableRowsSpec(db: Db, tableId: string, hs: seq<Hit>, w: int)
    ensures var runs := Runs(FetchedCells(db, tableId, TableFetchRows(hs, w)), CellRowIdx, ItemOf);
      (forall k, l :: 0 <= k < l < |runs| ==> runs[k].row < runs[l].row)
      && (forall k :: 0 <= k < |runs| ==>
            exists i :: 0 <= i < |hs| && Max(0, hs[i].rowIdx - w) <= runs[k].row <= hs[i].rowIdx + w)
  {
    var rows := TableFetchRows(hs, w);
    var cells := FetchedCells(db, tableId, rows);
    var runs := Runs(cells, CellRowIdx, ItemOf);
    FetchedCellsSpec(db, tableId, rows);
    RunsOnePerRow(cells, CellRowIdx, ItemOf);
    RunRowsFrom(cells, rows);
    RowsToFetchSpec(Values(hs, HitRow), w);
    forall k | 0 <= k < |runs|
      ensures exists i :: 0 <= i < |hs| && Max(0, hs[i].rowIdx - w) <= runs[k].row <= hs[i].rowIdx + w
    {
      assert runs[k].row in rows;
      var i :| 0 <= i < |hs| && Max(0, Values(hs, HitRow)[i] - w) <= runs[k].row <= Values(hs, HitRow)[i] + w;
      assert Values(hs, HitRow)[i] == hs[i].rowIdx;
    }
  }

  /** Every run belongs to a row of the cells it groups. */
  lemma {:induction false} RunRowsFrom(cells: seq<CellRow>, rows: set<int>)
    requires forall i :: 0 <= i < |cells| ==> cells[i].rowIdx in rows
    ensures forall k :: 0 <= k < |Runs(cells, CellRowIdx, ItemOf)| ==> Runs(cells, CellRowIdx, ItemOf)[k].row in rows
  {
    if cells != [] {
      var n := |cells| - 1;
      assert forall i :: 0 <= i < n ==> cells[..n][i] == cells[i];
      RunRowsFrom(cells[..n], rows);
      assert CellRowIdx(cells[n]) in rows;
    }
  }

  /** The per-table part of build_notes_table_context's loop. */
  method BuildTableBlock(db: Db, tableId: string, hs: seq<Hit>, topk: int, w: int, fmtG: real -> string)
    returns (chunks: seq<string>)
    requires hs != []
    ensures chunks == TableBlock(db, tableId, hs, topk, w, fmtG)
  {
    var colHeaders := BuildTableHeaderPaths(db, tableId);
    var rowPaths := RowPathMap(ById(TableRows(db, tableId)));
    chunks := [TableHeader(hs[0], tableId)];
    var rows := CollectRowsToFetch(Values(hs, HitRow), w);
    var lines := RowContextLines(FetchedCells(db, tableId, rows), rowPaths, colHeaders, fmtG);
    chunks := chunks + lines + ["- matched_cells:"];
    var mlines := BuildMatchedLines(MatchedHits(hs, topk), rowPaths, colHeaders);
    chunks := chunks + mlines + [""];
  }

  /** The matched_cells loop. */
  method BuildMatchedLines(matched: seq<Hit>, rowPaths: map<int, string>, colHeaders: map<int, string>)
    returns (mlines: seq<string>)
    ensures mlines == MatchedLines(matched, rowPaths, colHeaders)
  {
    mlines := [];
    for k := 0 to |matched|
      invariant mlines == MatchedLines(matched[..k], rowPaths, colHeaders)
    {
      ValuesSnoc(matched, k, (h: Hit) => MatchedLine(rowPaths, colHeaders, h));
      mlines := mlines + [MatchedLine(rowPaths, colHeaders, matched[k])];
    }
    assert matched[..|matched|] == matched;
  }

  /** The keys of xs in order of first appearance (a dict's insertion order). */
  function KeyOrder<T, K(==)>(xs: seq<T>, key: T -> K): seq<K> {
    Values(DedupFirst(xs, key), key)
  }

  /** Each key appears once, every element's key appears, and every key
      listed belongs to some element. */
  lemma KeyOrderSpec<T, K>(xs: seq<T>, key: T -> K)
    ensures var ks := KeyOrder(xs, key);
      (forall i, j :: 0 <= i < j < |ks| ==> ks[i] != ks[j])
      && (forall i :: 0 <= i < |xs| ==> key(xs[i]) in ks)
      && (forall i :: 0 <= i < |ks| ==> exists k :: 0 <= k < |xs| && key(xs[k]) == ks[i])
  {
    var d := DedupFirst(xs, key);
    DedupFirstKeys(xs, key);
    var ks := KeyOrder(xs, key);
    forall i | 0 <= i < |xs| ensures key(xs[i]) in ks {
      assert key(xs[i]) in KeysOf(d, key);
      var k :| 0 <= k < |d| && key(d[k]) == key(xs[i]);
      assert ks[k] == key(xs[i]);
    }
    forall i | 0 <= i < |ks| ensures exists k :: 0 <= k < |xs| && key(xs[k]) == ks[i] {
      assert key(d[i]) in KeysOf(xs, key);
    }
  }

  function HitTable(h: Hit): string { h.tableId }

  /** by_table's keys: the tables of the hits, in order of first hit. */
  function TableOrder(hits: seq<Hit>): seq<string> {
    KeyOrder(hits, HitTable)
  }

  /** by_table[t]: the hits of table t, in order. */
  function HitsOf(hits: seq<Hit>, t: string): seq<Hit> {
    Filter(hits, (h: Hit) => h.tableId == t)
  }

  /** Each table appears once, every hit's table appears, and every table
      listed has at least one hit. */
  lemma TableOrderSpec(hits: seq<Hit>)
    ensures var ts := TableOrder(hits);
      (forall i, j :: 0 <= i < j < |ts| ==> ts[i] != ts[j])
      && (forall i :: 0 <= i < |hits| ==> hits[i].tableId in ts)
      && (forall i :: 0 <= i < |ts| ==> HitsOf(hits, ts[i]) != [])
  {
    KeyOrderSpec(hits, HitTable);
    var ts := TableOrder(hits);
    forall i | 0 <= i < |ts| ensures HitsOf(hits, ts[i]) != [] {
      TableHasHits(hits, ts, i);
    }
  }

  lemma TableHasHits(hits: seq<Hit>, ts: seq<string>, i: nat)
    requires i < |ts|
    requires exists k :: 0 <= k < |hits| && HitTable(hits[k]) == ts[i]
    ensures HitsOf(hits, ts[i]) != []
  {
    var k :| 0 <= k < |hits| && HitTable(hits[k]) == ts[i];
    assert hits[k] in hits;
  }

  /** The hits of a listed table. */
  lemma TableOrderHits(hits: seq<Hit>, i: nat)
    requires i < |TableOrder(hits)|
    ensures HitsOf(hits, TableOrder(hits)[i]) != []
  {
    KeyOrderSpec(hits, HitTable);
    TableHasHits(hits, TableOrder(hits), i);
  }

  function BlockOf(db: Db, hits: seq<Hit>, topk: int, w: int, fmtG: real -> string, t: string): seq<string> {
    TableBlock(db, t, HitsOf(hits, t), topk, w, fmtG)
  }

  /** The block of each table, as a function of the table id. */
  function Blocks(db: Db, hits: seq<Hit>, topk: int, w: int, fmtG: real -> string): string -> seq<string> {
    (t: string) => BlockOf(db, hits, topk, w, fmtG, t)
  }

  /** build_notes_table_context: "" without hits; otherwise the blocks of the
      tables in order of first hit, joined by newlines and stripped. */
  function NotesTableContext(db: Db, reportId: string, query: string, topk: int, w: int, fmtG: real -> string): string {
    var hits := SearchHits(db, reportId, query, topk);
    if hits == [] then ""
    else Strip(Join(FlatMap(TableOrder(hits), Blocks(db, hits, topk, w, fmtG)), "\n"))
  }

  /** A blank query yields no context at all. */
  lemma NotesTableContextBlank(db: Db, reportId: string, query: string, topk: int, w: int, fmtG: real -> string)
    requires NormalizeSpace(query) == ""
    ensures NotesTableContext(db, reportId, query, topk, w, fmtG) == ""
  {
    SearchSpec(db, reportId, query, topk, None, "NOTE");
  }

  lemma TableHeaderStart(meta: Hit, tableId: string)
    ensures StartsWith(TableHeader(meta, tableId), "[NOTE TABLE]")
  {
    var h := TableHeader(meta, tableId);
    assert h == "[NOTE TABLE]" + (" " + meta.sectionCode + " (note_no=" + NoteNoText(meta.noteNo) + ") / " + meta.sectionTitle
      + "\n- table_title: " + meta.tableTitle + "\n- table_id: " + tableId);
  }

  lemma FlatMapFirst<T, U>(xs: seq<T>, f: T -> seq<U>)
    requires xs != []
    ensures FlatMap(xs, f) == f(xs[0]) + FlatMap(xs[1..], f)
  {
    assert xs == [xs[0]] + xs[1..];
    FlatMapAppend([xs[0]], xs[1..], f);
    assert FlatMap([xs[0]], f) == FlatMap([], f) + f(xs[0]);
  }

  /** The first block's first line opens the stripped, joined chunks when
      it starts with text that has no surrounding blanks. */
  lemma JoinFlatStart<T>(ts: seq<T>, f: T -> seq<string>, p: string)
    requires ts != [] && f(ts[0]) != [] && StartsWith(f(ts[0])[0], p)
    requires p != [] && !IsSpace(p[0]) && !IsSpace(p[|p| - 1])
    ensures StartsWith(Strip(Join(FlatMap(ts, f), "\n")), p)
  {
    FlatMapFirst(ts, f);
    var all := FlatMap(ts, f);
    assert all[0] == f(ts[0])[0];
    JoinStartsWith(all, "\n");
    var j := Join(all, "\n");
    assert j[..|p|] == all[0][..|p|];
    StripKeepsPrefix(j, p);
  }

  /** The joined blocks open with the header block of the first hit's table. */
  lemma BlocksStart(db: Db, hits: seq<Hit>, topk: int, w: int, fmtG: real -> string)
    requires hits != []
    ensures StartsWith(Strip(Join(FlatMap(TableOrder(hits), Blocks(db, hits, topk, w, fmtG)), "\n")), "[NOTE TABLE]")
  {
    var ts := FirstTableBlock(db, hits, topk, w, fmtG);
    JoinFlatStart(ts, Blocks(db, hits, topk, w, fmtG), "[NOTE TABLE]");
  }

  /** The first table in order has a block, and it opens with its header. */
  lemma FirstTableBlock(db: Db, hits: seq<Hit>, topk: int, w: int, fmtG: real -> string) returns (ts: seq<string>)
    requires hits != []
    ensures ts == TableOrder(hits) && ts != []
    ensures Blocks(db, hits, topk, w, fmtG)(ts[0]) != []
    ensures StartsWith(Blocks(db, hits, topk, w, fmtG)(ts[0])[0], "[NOTE TABLE]")
  {
    ts := TableOrder(hits);
    KeyOrderSpec(hits, HitTable);
    assert HitTable(hits[0]) in ts;
    TableOrderHits(hits, 0);
    var hs := HitsOf(hits, ts[0]);
    TableBlockShape(db, ts[0], hs, topk, w, fmtG);
    TableHeaderStart(hs[0], ts[0]);
  }

  /** The context opens with the header block of the table of the first hit. */
  lemma NotesTableContextStart(db: Db, reportId: string, query: string, topk: int, w: int, fmtG: real -> string)
    requires SearchHits(db, reportId, query, topk) != []
    ensures StartsWith(NotesTableContext(db, reportId, query, topk, w, fmtG), "[NOTE TABLE]")
  {
    BlocksStart(db, SearchHits(db, reportId, query, topk), topk, w, fmtG);
  }

  /** build_notes_table_context with its loop over the tables. */
  method BuildNotesTableContext(db: Db, reportId: string, query: string, topk: int, w: int, fmtG: real -> string)
    returns (ctx: string)
    ensures ctx == NotesTableContext(db, reportId, query, topk, w, fmtG)
  {
    var hits := SearchNotesTables(db, reportId, query, topk, None, "NOTE");
    assert hits == SearchHits(db, reportId, query, topk);
    if hits == [] {
      return "";
    }
    var chunks := BuildBlocks(db, hits, topk, w, fmtG);
    ctx := Strip(Join(chunks, "\n"));
  }

  /** The loop over by_table: each table's block, in order of first hit. */
  method BuildBlocks(db: Db, hits: seq<Hit>, topk: int, w: int, fmtG: real -> string) returns (chunks: seq<string>)
    ensures chunks == FlatMap(TableOrder(hits), Blocks(db, hits, topk, w, fmtG))
  {
    var tables := TableOrder(hits);
    chunks := [];
    for i := 0 to |tables|
      invariant chunks == FlatMap(tables[..i], Blocks(db, hits, topk, w, fmtG))
    {
      chunks := AppendBlock(chunks, db, hits, tables, i, topk, w, fmtG);
    }
    assert tables[..|tables|] == tables;
  }

  lemma SliceSnoc<T>(xs: seq<T>, i: nat)
    requires i < |xs|
    ensures xs[..i + 1] == xs[..i] + [xs[i]]
  {
  }

  /** One round of the loop over by_table. */
  method AppendBlock(chunks: seq<string>, db: Db, hits: seq<Hit>, tables: seq<string>, i: nat, topk: int, w: int,
                     fmtG: real -> string) returns (chunks': seq<string>)
    requires tables == TableOrder(hits) && i < |tables|
    requires chunks == FlatMap(tables[..i], Blocks(db, hits, topk, w, fmtG))
    ensures chunks' == FlatMap(tables[..i + 1], Blocks(db, hits, topk, w, fmtG))
  {
    SliceSnoc(tables, i);
    FlatMapPrefix(tables, i, Blocks(db, hits, topk, w, fmtG));
    TableOrderHits(hits, i);
    var block := BuildTableBlock(db, tables[i], HitsOf(hits, tables[i]), topk, w, fmtG);
    chunks' := chunks + block;
  }

  // ---------------------------------------------------------------------------
  // build_context_with_notes_tables
  // ---------------------------------------------------------------------------

  const TEXT_HEADING := "### Retrieved Text (FAISS)"
  const NOTES_HEADING := "### Retrieved Notes Tables (SQL)"

  /** The parts: the vector-search text, then the notes-table context, each
      only when not empty. */
  function ContextParts(faissText: string, notesCtx: string): (r: seq<string>)
    ensures |r| == (if faissText != "" then 1 else 0) + (if notesCtx != "" then 1 else 0)
  {
    (if faissText != "" then [TEXT_HEADING + "\n" + Strip(faissText)] else [])
      + (if notesCtx != "" then [NOTES_HEADING + "\n" + Strip(notesCtx)] else [])
  }

  function CombinedContext(faissText: string, notesCtx: string): string {
    Strip(Join(ContextParts(faissText, notesCtx), "\n\n"))
  }

  /** Nothing to combine gives ""; otherwise the context opens with the
      heading of the first non-empty part. */
  lemma CombinedContextSpec(faissText: string, notesCtx: string)
    ensures faissText == "" && notesCtx == "" ==> CombinedContext(faissText, notesCtx) == ""
    ensures faissText != "" ==> StartsWith(CombinedContext(faissText, notesCtx), TEXT_HEADING)
    ensures faissText == "" && notesCtx != "" ==>
      StartsWith(CombinedContext(faissText, notesCtx), NOTES_HEADING)
  {
    var parts := ContextParts(faissText, notesCtx);
    if parts != [] {
      JoinStartsWith(parts, "\n\n");
      var j := Join(parts, "\n\n");
      var h := if faissText != "" then TEXT_HEADING else NOTES_HEADING;
      assert StartsWith(parts[0], h) by {
        assert parts[0][..|h|] == h;
      }
      assert j[..|h|] == parts[0][..|h|];
      StripKeepsPrefix(j, h);
    }
  }

  /** build_context_with_notes_tables (a window of one row around each hit). */
  method BuildContextWithNotesTables(db: Db, reportId: string, userQuery: string, faissText: string,
                                     topk: int, fmtG: real -> string) returns (ctx: string)
    ensures ctx == CombinedContext(faissText, NotesTableContext(db, reportId, userQuery, topk, 1, fmtG))
  {
    var notesCtx := BuildNotesTableContext(db, reportId, userQuery, topk, 1, fmtG);
    ctx := CombinedContext(faissText, notesCtx);
  }
}
