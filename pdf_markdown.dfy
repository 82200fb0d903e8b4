/** The small Markdown renderer of scripts/build_report_pdf.py: inline
    escaping and bold, pipe tables, the removal of lone '#' lines, the
    heading-token normalisation and the line dispatch that turns a section's
    text into paragraphs, spacers and tables. Fonts, styles and the drawing
    itself are outside the model. */
module PdfMarkdown {
  import opened Common
  import Templates
  import ReportPdf

  // ---------------------------------------------------------------------------
  // md_inline_to_html
  // ---------------------------------------------------------------------------

  /** xml.sax.saxutils.escape on one character. The library replaces '&'
      first and then '>' and '<', so no replacement text is rewritten again
      and the three replacements act character by character. */
  function EscapeChar(c: char): string {
    if c == '&' then "&amp;" else if c == '<' then "&lt;" else if c == '>' then "&gt;" else [c]
  }

  function Escape(s: string): string {
    if s == [] then [] else EscapeChar(s[0]) + Escape(s[1..])
  }

  /** Reads the three entities back; the reference for Escape. */
  function Unescape(t: string): string
    decreases |t|
  {
    if t == [] then []
    else if StartsWith(t, "&amp;") then "&" + Unescape(t[5..])
    else if StartsWith(t, "&lt;") then "<" + Unescape(t[4..])
    else if StartsWith(t, "&gt;") then ">" + Unescape(t[4..])
    else [t[0]] + Unescape(t[1..])
  }

  lemma {:induction false} EscapeAppend(a: string, b: string)
    ensures Escape(a + b) == Escape(a) + Escape(b)
  {
    if a != [] {
      assert (a + b)[0] == a[0] && (a + b)[1..] == a[1..] + b;
      EscapeAppend(a[1..], b);
    } else {
      assert a + b == b;
    }
  }

  /** Escaping loses nothing: the entities read back to the text. */
  lemma {:induction false} UnescapeEscape(s: string)
    ensures Unescape(Escape(s)) == s
  {
    if s != [] {
      UnescapeEscape(s[1..]);
      UnescapeHead(s[0], Escape(s[1..]));
      assert s == [s[0]] + s[1..];
    }
  }

  lemma UnescapeHead(c: char, rest: string)
    ensures Unescape(EscapeChar(c) + rest) == [c] + Unescape(rest)
  {
    if c == '&' {
      UnescapeAmp(rest);
    } else if c == '<' {
      UnescapeLt(rest);
    } else if c == '>' {
      UnescapeGt(rest);
    } else {
      var t := [c] + rest;
      assert t[0] == c && t[1..] == rest;
    }
  }

  lemma UnescapeAmp(rest: string)
    ensures Unescape("&amp;" + rest) == "&" + Unescape(rest)
  {
    var t := "&amp;" + rest;
    assert t[..5] == "&amp;" && t[5..] == rest;
  }

  lemma UnescapeLt(rest: string)
    ensures Unescape("&lt;" + rest) == "<" + Unescape(rest)
  {
    var t := "&lt;" + rest;
    assert t[..4] == "&lt;" && t[4..] == rest;
    assert !StartsWith(t, "&amp;") by {
      if |t| >= 5 { assert t[1] == 'l'; }
    }
  }

  lemma UnescapeGt(rest: string)
    ensures Unescape("&gt;" + rest) == ">" + Unescape(rest)
  {
    var t := "&gt;" + rest;
    assert t[..4] == "&gt;" && t[4..] == rest;
    assert !StartsWith(t, "&amp;") by {
      if |t| >= 5 { assert t[1] == 'g'; }
    }
    assert !StartsWith(t, "&lt;") by {
      assert t[1] == 'g';
    }
  }

  /** The escaped text has no '<' or '>' of its own. */
  lemma {:induction false} EscapeNoBrackets(s: string)
    ensures forall k :: 0 <= k < |Escape(s)| ==> Escape(s)[k] != '<' && Escape(s)[k] != '>'
  {
    if s != [] {
      EscapeNoBrackets(s[1..]);
      var h := EscapeChar(s[0]);
      var rest := Escape(s[1..]);
      assert forall k :: 0 <= k < |h| ==> h[k] != '<' && h[k] != '>';
      assert forall k :: |h| <= k < |h + rest| ==> (h + rest)[k] == rest[k - |h|];
    }
  }

  /** A character other than '&', '<' and '>' escapes to itself, so a text
      without them is left unchanged. */
  lemma {:induction false} EscapePlain(s: string)
    requires forall k :: 0 <= k < |s| ==> s[k] != '&' && s[k] != '<' && s[k] != '>'
    ensures Escape(s) == s
  {
    if s != [] {
      EscapePlain(s[1..]);
      assert s == [s[0]] + s[1..];
    }
  }

  /** No two adjacent '*' from position i on. */
  predicate NoDoubleStar(s: string, i: nat) {
    forall k :: i <= k && k + 1 < |s| ==> !(s[k] == '*' && s[k + 1] == '*')
  }

  /** The escape adds no '*' and puts none next to another. */
  lemma {:induction false} EscapeNoDoubleStar(s: string)
    requires NoDoubleStar(s, 0)
    ensures NoDoubleStar(Escape(s), 0)
  {
    if s != [] {
      assert NoDoubleStar(s[1..], 0) by {
        forall k | 0 <= k && k + 1 < |s[1..]| ensures !(s[1..][k] == '*' && s[1..][k + 1] == '*') {
          assert s[1..][k] == s[k + 1] && s[1..][k + 1] == s[k + 2];
        }
      }
      EscapeNoDoubleStar(s[1..]);
      var h := EscapeChar(s[0]);
      var rest := Escape(s[1..]);
      var t := h + rest;
      assert s[0] != '*' ==> forall k :: 0 <= k < |h| ==> h[k] != '*';
      assert rest != [] && rest[0] == '*' ==> s[1] == '*' by {
        if rest != [] {
          assert s[1..] != [];
          assert rest == EscapeChar(s[1]) + Escape(s[2..]) by {
            assert s[1..][0] == s[1] && s[1..][1..] == s[2..];
          }
        }
      }
      forall k | 0 <= k && k + 1 < |t| ensures !(t[k] == '*' && t[k + 1] == '*') {
        if k + 1 < |h| {
        } else if k + 1 == |h| {
          assert t[k + 1] == rest[0];
        } else {
          assert t[k] == rest[k - |h|] && t[k + 1] == rest[k + 1 - |h|];
        }
      }
    }
  }

  /** The close of the lazy group `(.+?)` that began at g, its last
      character being s[k - 1]: the first k with "**" at k and no line break
      ('.' without DOTALL) in s[g..k]. */
  function CloseAt(s: string, g: nat, k: nat): (r: Option<nat>)
    requires g < k <= |s|
    ensures r.Some? ==> k <= r.value && r.value + 2 <= |s|
    decreases |s| - k
  {
    if s[k - 1] == '\n' then None
    else if k + 2 <= |s| && s[k] == '*' && s[k + 1] == '*' then Some(k)
    else if k == |s| then None
    else CloseAt(s, g, k + 1)
  }

  /** BOLD_RE.sub(r"<b>\1</b>", s) from position i. */
  function BoldFrom(s: string, i: nat): string
    requires i <= |s|
    decreases |s| - i
  {
    if i == |s| then []
    else if i + 3 <= |s| && s[i] == '*' && s[i + 1] == '*' then
      match CloseAt(s, i + 2, i + 3)
      case Some(k) => "<b>" + s[i + 2..k] + "</b>" + BoldFrom(s, k + 2)
      case None => [s[i]] + BoldFrom(s, i + 1)
    else [s[i]] + BoldFrom(s, i + 1)
  }

  /** md_inline_to_html: escape, then bold. */
  function MdInline(s: string): string {
    BoldFrom(Escape(s), 0)
  }

  lemma {:induction false} BoldFromPlain(s: string, i: nat)
    requires i <= |s| && NoDoubleStar(s, i)
    ensures BoldFrom(s, i) == s[i..]
    decreases |s| - i
  {
    if i < |s| {
      BoldFromPlain(s, i + 1);
      assert s[i..] == [s[i]] + s[i + 1..];
    }
  }

  /** A text without "**" is only escaped. */
  lemma MdInlinePlain(s: string)
    requires NoDoubleStar(s, 0)
    ensures MdInline(s) == Escape(s)
  {
    EscapeNoDoubleStar(s);
    BoldFromPlain(Escape(s), 0);
  }

  lemma {:induction false} CloseAtFirst(s: string, g: nat, k: nat, e: nat)
    requires g < k <= e && e + 2 <= |s| && s[e] == '*' && s[e + 1] == '*'
    requires forall j :: g <= j < e ==> s[j] != '\n' && s[j] != '*'
    ensures CloseAt(s, g, k) == Some(e)
    decreases e - k
  {
    if k < e {
      CloseAtFirst(s, g, k + 1, e);
    }
  }

  /** "**x**" becomes "<b>x</b>", x escaped, when x is a non-empty line
      without '*'. */
  lemma MdInlineBold(x: string)
    requires x != [] && forall k :: 0 <= k < |x| ==> x[k] != '*' && x[k] != '\n'
    ensures MdInline("**" + x + "**") == "<b>" + Escape(x) + "</b>"
  {
    EscapeStars(x);
    EscapeKeeps(x);
    BoldWhole("**" + Escape(x) + "**", Escape(x));
  }

  lemma EscapeStars(x: string)
    ensures Escape("**" + x + "**") == "**" + Escape(x) + "**"
  {
    EscapeAppend("**" + x, "**");
    EscapeAppend("**", x);
    assert Escape("**") == "**";
  }

  lemma BoldWhole(t: string, ex: string)
    requires ex != [] && forall k :: 0 <= k < |ex| ==> ex[k] != '*' && ex[k] != '\n'
    requires t == "**" + ex + "**"
    ensures BoldFrom(t, 0) == "<b>" + ex + "</b>"
  {
    var e := 2 + |ex|;
    assert forall j :: 2 <= j < e ==> t[j] == ex[j - 2];
    CloseAtFirst(t, 2, 3, e);
    assert t[2..e] == ex;
    assert BoldFrom(t, e + 2) == [];
  }

  /** The escape of a non-empty text without '*' or line breaks is one too. */
  lemma {:induction false} EscapeKeeps(x: string)
    requires forall k :: 0 <= k < |x| ==> x[k] != '*' && x[k] != '\n'
    ensures |Escape(x)| >= |x|
    ensures forall k :: 0 <= k < |Escape(x)| ==> Escape(x)[k] != '*' && Escape(x)[k] != '\n'
  {
    if x != [] {
      EscapeKeeps(x[1..]);
      var h := EscapeChar(x[0]);
      var rest := Escape(x[1..]);
      assert forall k :: |h| <= k < |h + rest| ==> (h + rest)[k] == rest[k - |h|];
    }
  }

  // ---------------------------------------------------------------------------
  // _is_md_table_separator, _split_md_table_row
  // ---------------------------------------------------------------------------

  /** t.startswith("|") and t.endswith("|"). */
  predicate PipeWrapped(t: string) {
    |t| >= 1 && t[0] == '|' && t[|t| - 1] == '|'
  }

  /** str.rstrip("|"). */
  function RStripBars(s: string): (r: string)
    ensures |r| <= |s| && r == s[..|r|]
    ensures r == [] || r[|r| - 1] != '|'
  {
    if s != [] && s[|s| - 1] == '|' then RStripBars(s[..|s| - 1]) else s
  }

  /** str.strip("|"). */
  function StripBars(s: string): string {
    RStripBars(LStripSet(s, {'|'}))
  }

  /** [c.strip() for c in xs]. */
  function StripAll(xs: seq<string>): (r: seq<string>)
    ensures |r| == |xs|
    ensures forall i :: 0 <= i < |xs| ==> r[i] == Strip(xs[i])
  {
    seq(|xs|, i requires 0 <= i < |xs| => Strip(xs[i]))
  }

  /** _split_md_table_row: the stripped cells between the outer bars. */
  function SplitRow(line: string): seq<string> {
    StripAll(Split(StripBars(Strip(line)), '|'))
  }

  /** A separator cell: non-empty, and nothing but blanks once every ':'
      and '-' is removed. */
  predicate SeparatorCell(c: string) {
    c != [] && Strip(RemoveChar(RemoveChar(c, ':'), '-')) == []
  }

  /** _is_md_table_separator. The cells are computed exactly as
      _split_md_table_row computes them; the `if not cells` test cannot fire
      because str.split always yields at least one piece. */
  predicate IsSeparator(line: string) {
    var cells := SplitRow(line);
    PipeWrapped(Strip(line)) && cells != []
    && forall i :: 0 <= i < |cells| ==> SeparatorCell(cells[i])
  }

  predicate AllSpace(s: string) {
    forall k :: 0 <= k < |s| ==> IsSpace(s[k])
  }

  /** A string strips to "" exactly when it is all blanks. */
  lemma StripEmpty(s: string)
    ensures Strip(s) == [] <==> AllSpace(s)
  {
    if AllSpace(s) {
      StripAllSpace(s);
    }
    if Strip(s) == [] {
      assert LStrip(s) == [];
    }
  }

  /** Every character passes p. */
  predicate All(s: string, p: char -> bool) {
    forall k :: 0 <= k < |s| ==> p(s[k])
  }

  lemma AllAppend(a: string, b: string, p: char -> bool)
    ensures All(a + b, p) <==> All(a, p) && All(b, p)
  {
    if All(a + b, p) {
      forall k | 0 <= k < |b| ensures p(b[k]) {
        assert (a + b)[|a| + k] == b[k];
      }
      forall k | 0 <= k < |a| ensures p(a[k]) {
        assert (a + b)[k] == a[k];
      }
    }
  }

  lemma AllCons(s: string, p: char -> bool)
    requires s != []
    ensures All(s, p) <==> p(s[0]) && All(s[1..], p)
  {
    assert s == [s[0]] + s[1..];
    AllAppend([s[0]], s[1..], p);
  }

  /** Is c or passes p. */
  function OrIs(c: char, p: char -> bool): char -> bool {
    (x: char) => x == c || p(x)
  }

  /** After removing c, every character passes p exactly when every
      character of the original is c or passes p. */
  lemma {:induction false} RemovedAll(s: string, c: char, p: char -> bool)
    ensures All(RemoveChar(s, c), p) <==> All(s, OrIs(c, p))
  {
    if s != [] {
      RemovedAll(s[1..], c, p);
      var h := if s[0] == c then [] else [s[0]];
      AllAppend(h, RemoveChar(s[1..], c), p);
      AllCons(s, OrIs(c, p));
    }
  }

  /** Only '-', ':' and blanks. */
  predicate DashColonBlank(c: string) {
    forall k :: 0 <= k < |c| ==> c[k] == '-' || c[k] == ':' || IsSpace(c[k])
  }

  /** A separator cell is a non-empty run of '-', ':' and blanks. */
  lemma SeparatorCellSpec(c: string)
    ensures SeparatorCell(c) <==> c != [] && DashColonBlank(c)
  {
    var r1 := RemoveChar(c, ':');
    var r2 := RemoveChar(r1, '-');
    StripEmpty(r2);
    RemovedAll(r1, '-', IsSpace);
    RemovedAll(c, ':', OrIs('-', IsSpace));
    assert AllSpace(r2) <==> All(r2, IsSpace);
    assert DashColonBlank(c) <==> All(c, OrIs(':', OrIs('-', IsSpace)));
  }

  /** _is_md_table_separator holds exactly when the stripped line is wrapped
      in '|' and every cell between the bars is a non-empty run of '-', ':'
      and blanks. */
  lemma IsSeparatorSpec(line: string)
    ensures IsSeparator(line) <==>
      PipeWrapped(Strip(line))
      && forall i :: 0 <= i < |SplitRow(line)| ==> SplitRow(line)[i] != [] && DashColonBlank(SplitRow(line)[i])
  {
    forall i | 0 <= i < |SplitRow(line)| {
      SeparatorCellSpec(SplitRow(line)[i]);
    }
  }

  /** A trailing separator adds one empty piece. */
  lemma {:induction false} SplitSnoc(x: string, c: char)
    ensures Split(x + [c], c) == Split(x, c) + [[]]
  {
    if x == [] {
      assert [] + [c] == [c] && [c][1..] == [];
    } else {
      SplitSnoc(x[1..], c);
      assert (x + [c])[0] == x[0] && (x + [c])[1..] == x[1..] + [c];
    }
  }

  lemma {:induction false} LStripAppend(c: string, d: string, k: nat)
    requires k < |c| && !IsSpace(c[k])
    ensures LStrip(c + d) == LStrip(c) + d
  {
    if IsSpace(c[0]) {
      assert c[1..][k - 1] == c[k];
      LStripAppend(c[1..], d, k - 1);
      LStripHead(c, d);
    } else {
      assert (c + d)[0] == c[0];
    }
  }

  lemma LStripHead(c: string, d: string)
    requires c != [] && IsSpace(c[0])
    ensures LStrip(c + d) == LStrip(c[1..] + d)
  {
    assert (c + d)[0] == c[0];
    assert (c + d)[1..] == c[1..] + d;
  }

  /** Padding a cell with one blank on each side does not change its strip. */
  lemma StripPadded(c: string)
    ensures Strip(" " + c + " ") == Strip(c)
  {
    var t := " " + c + " ";
    if AllSpace(c) {
      StripEmpty(c);
      assert AllSpace(t) by {
        forall k | 0 <= k < |t| ensures IsSpace(t[k]) {
          if 0 < k < |t| - 1 { assert t[k] == c[k - 1]; }
        }
      }
      StripEmpty(t);
    } else {
      var k :| 0 <= k < |c| && !IsSpace(c[k]);
      PaddedLStrip(c, k);
      RStripBlank(LStrip(c));
    }
  }

  lemma PaddedLStrip(c: string, k: nat)
    requires k < |c| && !IsSpace(c[k])
    ensures LStrip(" " + c + " ") == LStrip(c) + " "
  {
    var t := " " + c + " ";
    assert t == " " + (c + " ");
    LStripHead(" ", c + " ");
    assert (" ")[1..] + (c + " ") == c + " ";
    LStripAppend(c, " ", k);
  }

  lemma RStripBlank(l: string)
    ensures RStrip(l + " ") == RStrip(l)
  {
    assert (l + " ")[..|l|] == l;
  }

  /** Stripping the bars of "|" + mid + "|" leaves mid when mid neither
      starts nor ends with a bar. */
  lemma BarsAround(mid: string)
    requires mid != [] && mid[0] != '|' && mid[|mid| - 1] != '|'
    ensures StripBars("|" + mid + "|") == mid
  {
    var line := "|" + mid + "|";
    assert line[0] == '|' && line[1..] == mid + "|";
    assert LStripSet(mid + "|", {'|'}) == mid + "|" by {
      assert (mid + "|")[0] == mid[0];
    }
    assert LStripSet(line, {'|'}) == mid + "|";
    assert (mid + "|")[..|mid|] == mid;
    assert RStripBars(mid + "|") == RStripBars(mid);
  }

  /** A line rendered by the Markdown table template: its bars stripped. */
  lemma LineBars(cells: seq<string>)
    ensures Strip(Templates.Line(cells)) == Templates.Line(cells)
    ensures PipeWrapped(Templates.Line(cells))
    ensures StripBars(Templates.Line(cells)) == " " + Join(cells, " | ") + " "
  {
    var mid := " " + Join(cells, " | ") + " ";
    var line := Templates.Line(cells);
    assert line == "|" + mid + "|";
    StripOfStripped(line);
    BarsAround(mid);
  }

  /** _split_md_table_row reads back the cells of a line rendered by the
      Markdown table template, each stripped, when no cell holds a bar. */
  lemma SplitRenderedRow(cells: seq<string>)
    requires |cells| >= 1 && Templates.AllFree(cells, '|')
    ensures SplitRow(Templates.Line(cells)) == StripAll(cells)
    ensures PipeWrapped(Strip(Templates.Line(cells)))
  {
    LineBars(cells);
    var line := Templates.Line(cells);
    var mid := " " + Join(cells, " | ") + " ";
    assert StripBars(Strip(line)) == mid;
    var pieces := SplitMid(cells);
    var r := StripAll(pieces);
    assert SplitRow(line) == r;
    forall i | 0 <= i < |cells| ensures r[i] == StripAll(cells)[i] {
      StripPadded(cells[i]);
    }
  }

  /** Between the outer bars, each cell is one piece padded by blanks. */
  lemma SplitMid(cells: seq<string>) returns (pieces: seq<string>)
    requires |cells| >= 1 && Templates.AllFree(cells, '|')
    ensures pieces == Split(" " + Join(cells, " | ") + " ", '|')
    ensures |pieces| == |cells| && forall i :: 0 <= i < |cells| ==> pieces[i] == " " + cells[i] + " "
  {
    var mid := " " + Join(cells, " | ") + " ";
    Templates.TailCells(cells);
    assert " " + Join(cells, " | ") + " |" == mid + ['|'];
    SplitSnoc(mid, '|');
    pieces := Split(mid, '|');
    var want := seq(|cells|, i requires 0 <= i < |cells| => " " + cells[i] + " ");
    assert pieces + [[]] == want + [""];
    assert pieces == (pieces + [[]])[..|cells|];
  }

  /** The template's separator line is recognised as a separator. */
  lemma RenderedSeparator(n: nat)
    requires n >= 1
    ensures IsSeparator(Templates.Line(Templates.Dashes(n)))
  {
    var d := Templates.Dashes(n);
    DashFree();
    assert Templates.AllFree(d, '|');
    SplitRenderedRow(d);
    DashCell();
    DashCells(Templates.Line(d), d);
  }

  lemma DashCells(line: string, d: seq<string>)
    requires d != [] && forall i :: 0 <= i < |d| ==> d[i] == "---"
    requires SplitRow(line) == StripAll(d) && PipeWrapped(Strip(line))
    requires Strip("---") == "---" && SeparatorCell("---")
    ensures IsSeparator(line)
  {
    var cells := SplitRow(line);
    forall i | 0 <= i < |cells| ensures SeparatorCell(cells[i]) {
      assert cells[i] == Strip(d[i]);
    }
  }

  lemma DashFree()
    ensures Templates.Free("---", '|')
  {
  }

  lemma DashCell()
    ensures Strip("---") == "---" && SeparatorCell("---")
  {
    StripOfStripped("---");
    SeparatorCellSpec("---");
  }

  // ---------------------------------------------------------------------------
  // parse_md_table
  // ---------------------------------------------------------------------------

  /** line.strip() starts and ends with "|". */
  predicate PipeLine(line: string) {
    PipeWrapped(Strip(line))
  }

  /** lines[i].rstrip() is a pipe line. */
  predicate PipeRow(line: string) {
    PipeLine(RStrip(line))
  }

  /** lines[i].rstrip() is a separator line. */
  predicate SeparatorRow(line: string) {
    IsSeparator(RStrip(line))
  }

  /** The cells of lines[i].rstrip(). */
  function CellsOf(line: string): seq<string> {
    SplitRow(RStrip(line))
  }

  /** The end of the run of pipe lines (after rstrip) starting at i. */
  function PipeRunEnd(lines: seq<string>, i: nat): (j: nat)
    requires i <= |lines|
    ensures i <= j <= |lines|
    ensures forall k :: i <= k < j ==> PipeRow(lines[k])
    ensures j == |lines| || !PipeRow(lines[j])
    decreases |lines| - i
  {
    if i < |lines| && PipeRow(lines[i]) then PipeRunEnd(lines, i + 1) else i
  }

  /** f applied to each of lines[lo..hi]. */
  function MapRange<T>(lines: seq<string>, lo: nat, hi: nat, f: string -> T): (r: seq<T>)
    requires lo <= hi <= |lines|
    ensures |r| == hi - lo
    ensures forall k :: 0 <= k < hi - lo ==> r[k] == f(lines[lo + k])
    decreases hi - lo
  {
    if lo == hi then [] else MapRange(lines, lo, hi - 1, f) + [f(lines[hi - 1])]
  }

  /** The split rows of lines[lo..hi], each rstripped first. */
  function RowsOf(lines: seq<string>, lo: nat, hi: nat): (r: seq<seq<string>>)
    requires lo <= hi <= |lines|
  {
    MapRange(lines, lo, hi, CellsOf)
  }

  /** The largest row width (0 for no rows). */
  function Widest(rows: seq<seq<string>>): (w: nat)
    ensures forall i :: 0 <= i < |rows| ==> |rows[i]| <= w
    ensures rows != [] ==> exists i :: 0 <= i < |rows| && |rows[i]| == w
    ensures rows == [] ==> w == 0
  {
    if rows == [] then 0
    else
      var w := Widest(rows[1..]);
      assert forall i :: 1 <= i < |rows| ==> rows[i] == rows[1..][i - 1];
      if |rows[0]| >= w then |rows[0]| else w
  }

  /** (r + [""] * (n - len(r)))[:n]. */
  function Pad(r: seq<string>, n: nat): (p: seq<string>)
    ensures |p| == n
    ensures forall k :: 0 <= k < n ==> p[k] == (if k < |r| then r[k] else "")
  {
    if |r| >= n then r[..n] else r + seq(n - |r|, _ => "")
  }

  /** Every row padded to n cells. */
  function PadAll(rows: seq<seq<string>>, n: nat): (p: seq<seq<string>>)
    ensures |p| == |rows|
    ensures forall k :: 0 <= k < |rows| ==> p[k] == Pad(rows[k], n)
  {
    seq(|rows|, k requires 0 <= k < |rows| => Pad(rows[k], n))
  }

  lemma PadAllCons(header: seq<string>, rows: seq<seq<string>>, n: nat)
    ensures [Pad(header, n)] + PadAll(rows, n) == PadAll([header] + rows, n)
  {
    var a := [Pad(header, n)] + PadAll(rows, n);
    var b := PadAll([header] + rows, n);
    forall k | 0 <= k < |a| ensures a[k] == b[k] {
      if k > 0 {
        assert ([header] + rows)[k] == rows[k - 1];
      }
    }
  }

  /** parse_md_table(lines, start): the table's cell texts (header first)
      and the index after it, or None and start. */
  function ParseTable(lines: seq<string>, start: nat): (r: (Option<seq<seq<string>>>, nat))
    ensures r.0.None? ==> r.1 == start
    ensures r.0.Some? ==> start + 2 <= r.1 <= |lines|
  {
    if start >= |lines| || !PipeRow(lines[start]) then (None, start)
    else if start + 1 >= |lines| || !SeparatorRow(lines[start + 1]) then (None, start)
    else
      var next := PipeRunEnd(lines, start + 2);
      var all := [CellsOf(lines[start])] + RowsOf(lines, start + 2, next);
      var ncols := Widest(all);
      if ncols == 0 then (None, start)
      else (Some(PadAll(all, ncols)), next)
  }

  /** A table starts at start: a pipe line followed by a separator line. */
  predicate TableStarts(lines: seq<string>, start: nat) {
    start + 1 < |lines| && PipeRow(lines[start]) && SeparatorRow(lines[start + 1])
  }

  /** The run of pipe lines is the unique maximal one. */
  lemma {:induction false} PipeRunEndAt(lines: seq<string>, i: nat, j: nat)
    requires i <= j <= |lines|
    requires forall k :: i <= k < j ==> PipeRow(lines[k])
    requires j == |lines| || !PipeRow(lines[j])
    ensures PipeRunEnd(lines, i) == j
    decreases j - i
  {
    if i < j {
      PipeRunEndAt(lines, i + 1, j);
    }
  }

  /** The source line of table row i: the header, then the lines after the separator. */
  function SourceLine(start: nat, i: nat): nat {
    if i == 0 then start else start + 1 + i
  }

  /** Every row of data is src padded with "" to the common width, which is
      at least the source row's width. */
  predicate PaddedRows(data: seq<seq<string>>, all: seq<seq<string>>)
    requires |data| == |all|
  {
    forall i :: 0 <= i < |data| ==>
      |data[i]| == |data[0]| >= |all[i]| && data[i][..|all[i]|] == all[i]
      && forall k :: |all[i]| <= k < |data[i]| ==> data[i][k] == ""
  }

  /** Padding to the widest row keeps every cell and fills with "". */
  lemma PadAllWidest(all: seq<seq<string>>)
    requires all != []
    ensures PaddedRows(PadAll(all, Widest(all)), all)
  {
    var n := Widest(all);
    var data := PadAll(all, n);
    forall i | 0 <= i < |data|
      ensures |data[i]| == |data[0]| >= |all[i]| && data[i][..|all[i]|] == all[i]
    {
      assert |all[i]| <= n;
    }
  }

  /** Row i of all is f of its source line: the header line, then the
      lines after the separator. */
  ghost predicate RowsFrom<T>(lines: seq<string>, start: nat, all: seq<T>, f: string -> T)
  {
    forall i :: 0 <= i < |all| ==> SourceLine(start, i) < |lines| && all[i] == f(lines[SourceLine(start, i)])
  }

  /** The header's row followed by those of lines[start + 2..next]. */
  lemma ConsRange<T>(lines: seq<string>, start: nat, next: nat, f: string -> T)
    requires start + 2 <= next <= |lines|
    ensures RowsFrom(lines, start, [f(lines[start])] + MapRange(lines, start + 2, next, f), f)
  {
  }

  /** parse_md_table finds a table exactly when a pipe line is followed by
      a separator; otherwise it returns (None, start). A table's rows are the
      header and every following pipe line up to the first other line (or
      the end), so the index it returns is at least start + 2; every row is
      padded to the widest row, and no cell is cut. */
  lemma ParseTableSpec(lines: seq<string>, start: nat)
    ensures ParseTable(lines, start).0.None? <==> !TableStarts(lines, start)
    ensures ParseTable(lines, start).0.None? ==> ParseTable(lines, start).1 == start
    ensures ParseTable(lines, start).0.Some? ==>
      var data := ParseTable(lines, start).0.value;
      var next := ParseTable(lines, start).1;
      start + 2 <= next <= |lines|
      && (forall k :: start + 2 <= k < next ==> PipeRow(lines[k]))
      && (next == |lines| || !PipeRow(lines[next]))
      && |data| == next - start - 1
      && exists all :: |all| == |data| && RowsFrom(lines, start, all, CellsOf) && PaddedRows(data, all)
  {
    if TableStarts(lines, start) {
      var next := PipeRunEnd(lines, start + 2);
      var all := [CellsOf(lines[start])] + RowsOf(lines, start + 2, next);
      assert |all[0]| >= 1;
      assert Widest(all) >= 1 by {
        assert |all[0]| <= Widest(all);
      }
      PadAllWidest(all);
      ConsRange(lines, start, next, CellsOf);
    }
  }

  /** The row loop of parse_md_table: the cells of every pipe line from
      `from` on, up to the first other line. */
  method CollectRows(lines: seq<string>, from: nat) returns (rows: seq<seq<string>>, i: nat)
    requires from <= |lines|
    ensures i == PipeRunEnd(lines, from)
    ensures rows == RowsOf(lines, from, i)
  {
    rows := [];
    i := from;
    while i < |lines| && PipeRow(lines[i])
      invariant from <= i <= |lines|
      invariant PipeRunEnd(lines, i) == PipeRunEnd(lines, from)
      invariant rows == RowsOf(lines, from, i)
      decreases |lines| - i
    {
      rows := rows + [CellsOf(lines[i])];
      i := i + 1;
    }
  }

  /** parse_md_table: a header line, a separator line, then the rows;
      every row is padded to the widest. */
  method ParseMdTable(lines: seq<string>, start: nat) returns (tbl: Option<seq<seq<string>>>, next: nat)
    ensures (tbl, next) == ParseTable(lines, start)
  {
    if start >= |lines| || !PipeRow(lines[start]) {
      return None, start;
    }
    if start + 1 >= |lines| || !SeparatorRow(lines[start + 1]) {
      return None, start;
    }
    var header := CellsOf(lines[start]);
    var rows, i := CollectRows(lines, start + 2);
    var ncols := Widest([header] + rows);
    if ncols == 0 {
      return None, start;
    }
    var data := [Pad(header, ncols)] + PadAll(rows, ncols);
    PadAllCons(header, rows, ncols);
    return Some(data), i;
  }

  // ---------------------------------------------------------------------------
  // remove_lonely_hash_lines and the line split
  // ---------------------------------------------------------------------------

  /** md.replace("\r\n", "\n").replace("\r", "\n"). */
  function NormalizeNewlines(s: string): string {
    Replace(Replace(s, "\r\n", "\n"), "\r", "\n")
  }

  /** Replacing every c by another character leaves no c. */
  lemma {:induction false} ReplaceRemoves(s: string, c: char, d: char)
    requires c != d
    ensures Templates.Free(Replace(s, [c], [d]), c)
    decreases |s|
  {
    if |s| >= 1 {
      ReplaceRemoves(s[1..], c, d);
      var rest := Replace(s[1..], [c], [d]);
      if s[..1] == [c] {
        assert Replace(s, [c], [d]) == [d] + rest;
      } else {
        assert Replace(s, [c], [d]) == [s[0]] + rest;
      }
    }
  }

  /** A pattern whose first character is absent does not occur. */
  lemma {:induction false} NotContains(s: string, pat: string)
    requires pat != [] && Templates.Free(s, pat[0])
    ensures !Contains(s, pat)
    decreases |s|
  {
    if s != [] {
      assert s[0] != pat[0];
      NotContains(s[1..], pat);
    }
  }

  /** The newline normalisation leaves no '\r', and changes nothing in a
      text that has none. */
  lemma NormalizeNewlinesSpec(s: string)
    ensures Templates.Free(NormalizeNewlines(s), '\r')
    ensures Templates.Free(s, '\r') ==> NormalizeNewlines(s) == s
  {
    ReplaceRemoves(Replace(s, "\r\n", "\n"), '\r', '\n');
    if Templates.Free(s, '\r') {
      NotContains(s, "\r\n");
      NotContains(s, "\r");
    }
  }

  /** The number of '#' at the start of t. */
  function HashRun(t: string): (n: nat)
    ensures n <= |t|
    ensures forall k :: 0 <= k < n ==> t[k] == '#'
    ensures n == |t| || t[n] != '#'
  {
    if t != [] && t[0] == '#' then 1 + HashRun(t[1..]) else 0
  }

  /** `\s*#{1,6}\s*` matches the whole line: blanks, one to six '#', blanks. */
  predicate LonelyHash(line: string) {
    var t := LStrip(line);
    1 <= HashRun(t) <= 6 && AllSpace(t[HashRun(t)..])
  }

  predicate KeepLine(line: string) {
    !LonelyHash(line)
  }

  /** remove_lonely_hash_lines. An empty text is returned as it is. */
  function RemoveLonelyHashLines(md: string): string {
    if md == [] then md
    else Join(Filter(Split(NormalizeNewlines(md), '\n'), KeepLine), "\n")
  }

  /** LonelyHash is the full match of the pattern: some blanks, a run of one
      to six '#', some blanks, and nothing else. */
  lemma LonelyHashSpec(a: nat, n: nat, b: nat, line: string)
    requires line == seq(a, _ => ' ') + seq(n, _ => '#') + seq(b, _ => ' ')
    ensures LonelyHash(line) <==> 1 <= n <= 6
  {
    if n == 0 {
      assert line == seq(a + b, _ => ' ') + [];
      LStripBlanks(a + b, []);
    } else {
      var hs := seq(n, _ => '#') + seq(b, _ => ' ');
      assert line == seq(a, _ => ' ') + hs;
      LStripBlanks(a, hs);
      HashRunOf(n, seq(b, _ => ' '));
      assert hs[n..] == seq(b, _ => ' ');
    }
  }

  lemma {:induction false} LStripBlanks(a: nat, rest: string)
    requires rest == [] || !IsSpace(rest[0])
    ensures LStrip(seq(a, _ => ' ') + rest) == rest
  {
    if a > 0 {
      var s := seq(a, _ => ' ') + rest;
      assert s[1..] == seq(a - 1, _ => ' ') + rest;
      LStripBlanks(a - 1, rest);
    } else {
      assert seq(a, _ => ' ') + rest == rest;
    }
  }

  lemma {:induction false} HashRunOf(n: nat, rest: string)
    requires rest == [] || rest[0] != '#'
    ensures HashRun(seq(n, _ => '#') + rest) == n
  {
    if n > 0 {
      var s := seq(n, _ => '#') + rest;
      assert s[1..] == seq(n - 1, _ => '#') + rest;
      HashRunOf(n - 1, rest);
    } else {
      assert seq(n, _ => '#') + rest == rest;
    }
  }

  /** After the removal no line is a lonely hash line; a non-empty result is
      the kept lines joined by newlines, which split back to those lines. */
  lemma RemoveLonelySpec(md: string)
    requires md != [] && RemoveLonelyHashLines(md) != []
    ensures Split(RemoveLonelyHashLines(md), '\n') == Filter(Split(NormalizeNewlines(md), '\n'), KeepLine)
    ensures forall k :: 0 <= k < |Split(RemoveLonelyHashLines(md), '\n')| ==>
      !LonelyHash(Split(RemoveLonelyHashLines(md), '\n')[k])
  {
    KeptSplit(Filter(Split(NormalizeNewlines(md), '\n'), KeepLine));
  }

  /** Kept lines joined by newlines split back to themselves. */
  lemma KeptSplit(kept: seq<string>)
    requires kept != [] && Templates.AllFree(kept, '\n')
    ensures Split(Join(kept, "\n"), '\n') == kept
  {
    Templates.SplitJoin(kept, '\n');
  }

  /** Removing the lonely hash lines twice removes nothing more. */
  lemma RemoveLonelyIdempotent(md: string)
    ensures RemoveLonelyHashLines(RemoveLonelyHashLines(md)) == RemoveLonelyHashLines(md)
  {
    var r := RemoveLonelyHashLines(md);
    if md != [] && r != [] {
      var kept := Filter(Split(NormalizeNewlines(md), '\n'), KeepLine);
      NormalizeNewlinesSpec(md);
      assert Templates.AllFree(kept, '\n');
      assert Templates.AllFree(kept, '\r') by {
        forall i | 0 <= i < |kept| ensures Templates.Free(kept[i], '\r') {
          SplitKeepsFree(NormalizeNewlines(md), '\n', '\r', kept[i]);
        }
      }
      JoinFree(kept, '\r');
      NormalizeNewlinesSpec(r);
      Templates.SplitJoin(kept, '\n');
      FilterAll(kept, KeepLine);
    }
  }

  /** The pieces of a split hold no character the text lacks. */
  lemma {:induction false} SplitKeepsFree(s: string, c: char, d: char, piece: string)
    requires Templates.Free(s, d) && piece in Split(s, c)
    ensures Templates.Free(piece, d)
    decreases |s|
  {
    if s != [] {
      var rest := Split(s[1..], c);
      assert Templates.Free(s[1..], d);
      if s[0] == c {
        if piece != [] {
          SplitKeepsFree(s[1..], c, d, piece);
        }
      } else if piece == [s[0]] + rest[0] {
        SplitKeepsFree(s[1..], c, d, rest[0]);
      } else {
        assert piece in rest[1..];
        SplitKeepsFree(s[1..], c, d, piece);
      }
    }
  }

  /** Joining d-free parts with '\n' gives a d-free text (d is not '\n'). */
  lemma {:induction false} JoinFree(parts: seq<string>, d: char)
    requires d != '\n' && Templates.AllFree(parts, d)
    ensures Templates.Free(Join(parts, "\n"), d)
  {
    if |parts| > 1 {
      JoinFree(parts[1..], d);
    }
  }

  /** A filter every element passes keeps everything. */
  lemma {:induction false} FilterAll<T>(xs: seq<T>, p: T -> bool)
    requires forall i :: 0 <= i < |xs| ==> p(xs[i])
    ensures Filter(xs, p) == xs
  {
    if xs != [] {
      FilterAll(xs[1..], p);
    }
  }

  /** str.splitlines's line boundaries. */
  predicate LineBreak(c: char) {
    c == '\n' || c == '\r' || c == '\U{000B}' || c == '\U{000C}'
    || ('\U{001C}' <= c <= '\U{001E}') || c == '\U{0085}' || c == '\U{2028}' || c == '\U{2029}'
  }

  /** The first line boundary at or after i, or |s|. */
  function LineEnd(s: string, i: nat): (j: nat)
    requires i <= |s|
    ensures i <= j <= |s|
    ensures forall k :: i <= k < j ==> !LineBreak(s[k])
    ensures j < |s| ==> LineBreak(s[j])
    decreases |s| - i
  {
    if i == |s| || LineBreak(s[i]) then i else LineEnd(s, i + 1)
  }

  /** str.splitlines(): the lines without their boundaries ("\r\n" is one
      boundary); a final boundary does not start another line, and "" has
      no lines. */
  function SplitLines(s: string): (r: seq<string>)
    decreases |s|
  {
    if s == [] then []
    else
      var j := LineEnd(s, 0);
      if j == |s| then [s]
      else
        var k := if s[j] == '\r' && j + 1 < |s| && s[j + 1] == '\n' then j + 2 else j + 1;
        [s[..j]] + SplitLines(s[k..])
  }

  predicate NoBreaks(line: string) {
    forall k :: 0 <= k < |line| ==> !LineBreak(line[k])
  }

  /** A line without boundaries is its own only line. */
  lemma OneLine(x: string)
    requires x != [] && NoBreaks(x)
    ensures SplitLines(x) == [x]
  {
    assert LineEnd(x, 0) == |x|;
  }

  /** One line and a newline in front of the rest. */
  lemma SplitLinesCons(x: string, rest: string)
    requires NoBreaks(x)
    ensures SplitLines(x + "\n" + rest) == [x] + SplitLines(rest)
  {
    var s := x + "\n" + rest;
    assert s[|x|] == '\n';
    assert forall k :: 0 <= k < |x| ==> s[k] == x[k];
    assert LineEnd(s, 0) == |x|;
    assert s[..|x|] == x && s[|x| + 1..] == rest;
  }

  /** splitlines undoes "\n".join for lines without boundaries whose last
      line is not empty. */
  lemma {:induction false} SplitLinesJoin(parts: seq<string>)
    requires |parts| >= 1 && parts[|parts| - 1] != []
    requires forall i :: 0 <= i < |parts| ==> NoBreaks(parts[i])
    ensures SplitLines(Join(parts, "\n")) == parts
  {
    if |parts| == 1 {
      OneLine(parts[0]);
    } else {
      SplitLinesJoin(parts[1..]);
      SplitLinesCons(parts[0], Join(parts[1..], "\n"));
      assert parts == [parts[0]] + parts[1..];
    }
  }

  // ---------------------------------------------------------------------------
  // normalize_markdown_for_pdf
  // ---------------------------------------------------------------------------

  /** `<tok>\s+` at i: the end of the greedy blank run after tok. */
  function TokenRun(s: string, i: nat, tok: string): (r: Option<nat>)
    requires i <= |s|
    ensures r.Some? ==> i + |tok| < r.value <= |s|
  {
    if i + |tok| < |s| && s[i..i + |tok|] == tok && IsSpace(s[i + |tok|])
    then Some(ReportPdf.SkipSpace(s, i + |tok|))
    else None
  }

  /** Where a token match may break the line. As written, the look-behind
      `(?<!\n)` only refuses a position right after a newline, so a heading
      at the start of the text, and the inner "##" and "#" of a heading's own
      "###", qualify too. Corrected, the token must be glued to text: there
      is a character before it that is neither a newline nor a '#'. */
  predicate BreaksAt(s: string, i: nat, corrected: bool)
    requires i <= |s|
  {
    if corrected then i > 0 && s[i - 1] != '\n' && s[i - 1] != '#'
    else !(i > 0 && s[i - 1] == '\n')
  }

  /** re.sub(r"(?<!\n)(<tok>\s+)", r"\n\1", s) from i: every match gets a
      newline in front; the scan goes on after the match. */
  function BreakFrom(s: string, i: nat, tok: string, corrected: bool): string
    requires i <= |s|
    decreases |s| - i
  {
    if i == |s| then []
    else
      match TokenRun(s, i, tok)
      case Some(e) =>
        if BreaksAt(s, i, corrected) then "\n" + s[i..e] + BreakFrom(s, e, tok, corrected)
        else [s[i]] + BreakFrom(s, i + 1, tok, corrected)
      case None => [s[i]] + BreakFrom(s, i + 1, tok, corrected)
  }

  /** The three passes, "###" first, after the evidence labels are rewritten. */
  function BreakHeadings(md: string, corrected: bool): string {
    if md == [] then md
    else
      var t := ReportPdf.SanitizeEvidenceLabels(md);
      BreakFrom(BreakFrom(BreakFrom(t, 0, "###", corrected), 0, "##", corrected), 0, "#", corrected)
  }

  /** normalize_markdown_for_pdf as written. */
  function NormalizeAsWritten(md: string): string {
    BreakHeadings(md, false)
  }

  /** normalize_markdown_for_pdf as intended: only a heading token glued to
      preceding text is moved to a line of its own. */
  function NormalizeHeadings(md: string): string {
    BreakHeadings(md, true)
  }

  lemma {:induction false} RemoveCharAppend(a: string, b: string, c: char)
    ensures RemoveChar(a + b, c) == RemoveChar(a, c) + RemoveChar(b, c)
  {
    if a != [] {
      assert (a + b)[1..] == a[1..] + b;
      RemoveCharAppend(a[1..], b, c);
    } else {
      assert a + b == b;
    }
  }

  /** A pass only inserts newlines: with every newline removed, its output
      is its input. */
  lemma {:induction false} BreakOnlyInserts(s: string, i: nat, tok: string, corrected: bool)
    requires i <= |s|
    ensures RemoveChar(BreakFrom(s, i, tok, corrected), '\n') == RemoveChar(s[i..], '\n')
    decreases |s| - i
  {
    if i < |s| {
      match TokenRun(s, i, tok)
      case Some(e) =>
        if BreaksAt(s, i, corrected) {
          BreakOnlyInserts(s, e, tok, corrected);
          NewlineInserted(s[i..e], BreakFrom(s, e, tok, corrected), s[e..]);
          assert s[i..] == s[i..e] + s[e..];
        } else {
          CopyStep(s, i, tok, corrected);
        }
      case None =>
        CopyStep(s, i, tok, corrected);
    }
  }

  lemma NewlineInserted(x: string, z: string, w: string)
    requires RemoveChar(z, '\n') == RemoveChar(w, '\n')
    ensures RemoveChar("\n" + x + z, '\n') == RemoveChar(x + w, '\n')
  {
    RemoveCharAppend("\n" + x, z, '\n');
    RemoveCharAppend("\n", x, '\n');
    RemoveCharAppend(x, w, '\n');
  }

  lemma CopyStep(s: string, i: nat, tok: string, corrected: bool)
    requires i < |s|
    requires RemoveChar(BreakFrom(s, i, tok, corrected), '\n') == RemoveChar([s[i]] + BreakFrom(s, i + 1, tok, corrected), '\n')
    ensures RemoveChar(BreakFrom(s, i, tok, corrected), '\n') == RemoveChar(s[i..], '\n')
    decreases |s| - i, 0
  {
    BreakOnlyInserts(s, i + 1, tok, corrected);
    RemoveCharAppend([s[i]], BreakFrom(s, i + 1, tok, corrected), '\n');
    RemoveCharAppend([s[i]], s[i + 1..], '\n');
    assert s[i..] == [s[i]] + s[i + 1..];
  }

  /** No '#' is glued to text: each stands at the start of the text, after
      a newline or after another '#'. */
  predicate HashesPlaced(s: string) {
    forall i :: 0 <= i < |s| && s[i] == '#' ==> i == 0 || s[i - 1] == '\n' || s[i - 1] == '#'
  }

  /** The corrected pass leaves a text without glued tokens as it is. */
  lemma {:induction false} BreakPlaced(s: string, i: nat, tok: string)
    requires i <= |s| && tok != [] && tok[0] == '#' && HashesPlaced(s)
    ensures BreakFrom(s, i, tok, true) == s[i..]
    decreases |s| - i
  {
    if i < |s| {
      BreakPlaced(s, i + 1, tok);
      if TokenRun(s, i, tok).Some? {
        assert s[i] == tok[0];
      }
      assert s[i..] == [s[i]] + s[i + 1..];
    }
  }

  /** The three passes only insert newlines into the label-rewritten text. */
  lemma NormalizeOnlyInserts(md: string, corrected: bool)
    requires md != []
    ensures RemoveChar(BreakHeadings(md, corrected), '\n')
      == RemoveChar(ReportPdf.SanitizeEvidenceLabels(md), '\n')
  {
    var t := ReportPdf.SanitizeEvidenceLabels(md);
    var t1 := BreakFrom(t, 0, "###", corrected);
    var t2 := BreakFrom(t1, 0, "##", corrected);
    BreakOnlyInserts(t, 0, "###", corrected);
    BreakOnlyInserts(t1, 0, "##", corrected);
    BreakOnlyInserts(t2, 0, "#", corrected);
    assert t[0..] == t && t1[0..] == t1 && t2[0..] == t2;
  }

  /** No evidence label opens in a text without '('. */
  lemma NoLabelOpens(s: string)
    requires Templates.Free(s, '(')
    ensures forall i :: 0 <= i < |s| ==> !ReportPdf.OpensAt(s, i)
  {
    forall i | 0 <= i < |s| ensures !ReportPdf.OpensAt(s, i) {
      assert s[i] != '(';
    }
  }

  /** The corrected normalisation leaves alone a text without evidence
      labels whose '#' all stand at line starts or in a run of '#'. */
  lemma NormalizePlaced(md: string)
    requires Templates.Free(md, '(') && HashesPlaced(md)
    ensures NormalizeHeadings(md) == md
  {
    if md != [] {
      NoLabelOpens(md);
      ReportPdf.SanitizeNoLabel(md);
      BreakPlaced(md, 0, "###");
      BreakPlaced(md, 0, "##");
      BreakPlaced(md, 0, "#");
    }
  }

  // ---------------------------------------------------------------------------
  // append_markdown_story
  // ---------------------------------------------------------------------------

  datatype Style = Heading1 | Heading2 | Heading3 | BodyText

  /** What the renderer appends to the story: a vertical gap, a paragraph
      of inline HTML in a style, or a table whose cells are inline HTML. */
  datatype Flowable =
    | Spacer(height: nat)
    | Para(html: string, style: Style)
    | TableBlock(cells: seq<seq<string>>)

  /** convert_table_cells_to_paragraphs: every cell through md_inline_to_html. */
  function InlineCells(data: seq<seq<string>>): (r: seq<seq<string>>)
    ensures |r| == |data|
  {
    seq(|data|, i requires 0 <= i < |data| => seq(|data[i]|, k requires 0 <= k < |data[i]| => MdInline(data[i][k])))
  }

  /** A blank line: `not line.strip()` for the rstripped line (BlankSpec). */
  predicate Blank(line: string) {
    AllSpace(line)
  }

  lemma BlankSpec(line: string)
    ensures Blank(line) <==> |Strip(RStrip(line))| == 0
  {
    var r := RStrip(line);
    StripEmpty(r);
    if AllSpace(r) {
      forall k | 0 <= k < |line| ensures IsSpace(line[k]) {
        if k < |r| { assert line[k] == r[k]; }
      }
    }
  }

  /** A table framed by gaps. */
  function TableFlowables(data: seq<seq<string>>): seq<Flowable> {
    [Spacer(3), TableBlock(InlineCells(data)), Spacer(6)]
  }

  /** A non-blank line that does not start a table: "### ", "## " and "# "
      are headings followed by a gap, "- " is a bullet paragraph, anything
      else a body paragraph. */
  function TextFlowables(line: string): seq<Flowable> {
    if StartsWith(line, "### ") then [Para(MdInline(line[4..]), Heading3), Spacer(3)]
    else if StartsWith(line, "## ") then [Para(MdInline(line[3..]), Heading2), Spacer(4)]
    else if StartsWith(line, "# ") then [Para(MdInline(line[2..]), Heading1), Spacer(6)]
    else if StartsWith(line, "- ") then [Para("• " + MdInline(line[2..]), BodyText)]
    else [Para(MdInline(line), BodyText)]
  }

  /** What one step of the loop appends for lines[i], and where the next
      step starts: a blank line is a small gap, a table the table, any
      other line its text flowables. */
  function LineStep(lines: seq<string>, i: nat): (r: (seq<Flowable>, nat))
    requires i < |lines|
    ensures i < r.1 <= |lines|
  {
    if Blank(lines[i]) then ([Spacer(4)], i + 1)
    else
      var (tbl, next) := ParseTable(lines, i);
      if tbl.Some? && next > i then (TableFlowables(tbl.value), next)
      else (TextFlowables(RStrip(lines[i])), i + 1)
  }

  /** The flowables for lines[i..]. */
  function StoryFrom(lines: seq<string>, i: nat): seq<Flowable>
    requires i <= |lines|
    decreases |lines| - i
  {
    if i == |lines| then []
    else LineStep(lines, i).0 + StoryFrom(lines, LineStep(lines, i).1)
  }

  /** Walking on from a step: what is done so far, this step's flowables
      and the story after it make up the story. */
  lemma StoryStep(lines: seq<string>, i: nat, done: seq<Flowable>)
    requires i < |lines|
    requires done + StoryFrom(lines, i) == StoryFrom(lines, 0)
    ensures (done + LineStep(lines, i).0) + StoryFrom(lines, LineStep(lines, i).1) == StoryFrom(lines, 0)
  {
    ConcatAssoc(done, LineStep(lines, i).0, StoryFrom(lines, LineStep(lines, i).1));
  }

  /** The lines the renderer walks once the text is normalised. */
  function MdLines(normalized: string): seq<string> {
    SplitLines(NormalizeNewlines(RemoveLonelyHashLines(normalized)))
  }

  /** The flowables append_markdown_story adds for md, with the corrected
      heading normalisation. */
  function MarkdownStory(md: string): seq<Flowable> {
    StoryFrom(MdLines(NormalizeHeadings(md)), 0)
  }

  /** The same with normalize_markdown_for_pdf as written. */
  function MarkdownStoryAsWritten(md: string): seq<Flowable> {
    StoryFrom(MdLines(NormalizeAsWritten(md)), 0)
  }

  /** The report's flowables, which append_markdown_story extends. */
  class Story {
    var items: seq<Flowable>

    constructor()
      ensures items == []
    {
      items := [];
    }

    /** append_markdown_story: normalise, drop lonely '#' lines, split into
        lines and append the flowables of each step. */
    method AppendMarkdown(md: string)
      modifies this
      ensures items == old(items) + MarkdownStory(md)
    {
      var text := NormalizeHeadings(md);
      text := RemoveLonelyHashLines(text);
      var lines := SplitLines(NormalizeNewlines(text));
      AppendLines(lines);
    }

    /** The loop of append_markdown_story over the lines. */
    method AppendLines(lines: seq<string>)
      modifies this
      ensures items == old(items) + StoryFrom(lines, 0)
    {
      ghost var start := items;
      ghost var done: seq<Flowable> := [];
      var i := 0;
      while i < |lines|
        invariant i <= |lines|
        invariant items == start + done
        invariant done + StoryFrom(lines, i) == StoryFrom(lines, 0)
        decreases |lines| - i
      {
        ghost var step := LineStep(lines, i).0;
        StoryStep(lines, i, done);
        i := AppendStep(lines, i);
        ConcatAssoc(start, done, step);
        done := done + step;
      }
    }

    /** One pass of the loop body for lines[i]. */
    method AppendStep(lines: seq<string>, i: nat) returns (next: nat)
      requires i < |lines|
      modifies this
      ensures items == old(items) + LineStep(lines, i).0
      ensures next == LineStep(lines, i).1
    {
      var line := RStrip(lines[i]);
      BlankSpec(lines[i]);
      if |Strip(line)| == 0 {
        items := items + [Spacer(4)];
        return i + 1;
      }
      var tbl, j := ParseMdTable(lines, i);
      if tbl.Some? && j > i {
        items := items + [Spacer(3), TableBlock(InlineCells(tbl.value)), Spacer(6)];
        return j;
      }
      if StartsWith(line, "### ") {
        items := items + [Para(MdInline(line[4..]), Heading3), Spacer(3)];
      } else if StartsWith(line, "## ") {
        items := items + [Para(MdInline(line[3..]), Heading2), Spacer(4)];
      } else if StartsWith(line, "# ") {
        items := items + [Para(MdInline(line[2..]), Heading1), Spacer(6)];
      } else if StartsWith(line, "- ") {
        items := items + [Para("• " + MdInline(line[2..]), BodyText)];
      } else {
        items := items + [Para(MdInline(line), BodyText)];
      }
      return i + 1;
    }
  }

  // ---------------------------------------------------------------------------
  // A heading at the start of a line, through the whole pipeline
  // ---------------------------------------------------------------------------

  /** A heading's text: not empty, no blanks at its ends, and no '#', '('
      or line boundary in it. */
  predicate TitleText(t: string) {
    t != [] && !IsSpace(t[0]) && !IsSpace(t[|t| - 1])
    && Templates.Free(t, '#') && Templates.Free(t, '(') && NoBreaks(t)
  }

  lemma CopyAt(s: string, i: nat, tok: string, corrected: bool)
    requires i < |s| && (TokenRun(s, i, tok).None? || !BreaksAt(s, i, corrected))
    ensures BreakFrom(s, i, tok, corrected) == [s[i]] + BreakFrom(s, i + 1, tok, corrected)
  {
  }

  lemma BreakAt(s: string, i: nat, tok: string, corrected: bool, e: nat)
    requires i < |s| && TokenRun(s, i, tok) == Some(e) && BreaksAt(s, i, corrected)
    ensures BreakFrom(s, i, tok, corrected) == "\n" + s[i..e] + BreakFrom(s, e, tok, corrected)
  {
  }

  /** A pass copies a stretch with no '#'. */
  lemma {:induction false} BreakNoHash(s: string, i: nat, tok: string, corrected: bool)
    requires i <= |s| && tok != [] && tok[0] == '#'
    requires forall k :: i <= k < |s| ==> s[k] != '#'
    ensures BreakFrom(s, i, tok, corrected) == s[i..]
    decreases |s| - i
  {
    if i < |s| {
      BreakNoHash(s, i + 1, tok, corrected);
      assert s[i..] == [s[i]] + s[i + 1..];
    }
  }

  /** The text after a prefix of length n is t, which holds no '#'. */
  lemma TitleTail(s: string, n: nat, t: string, tok: string, corrected: bool)
    requires TitleText(t) && |s| == n + |t| && s[n..] == t && tok != [] && tok[0] == '#'
    ensures BreakFrom(s, n, tok, corrected) == t
  {
    forall k | n <= k < |s| ensures s[k] != '#' {
      assert s[k] == t[k - n];
    }
    BreakNoHash(s, n, tok, corrected);
  }

  /** Pass "###" on "### t": the heading at the start of the text gets a
      newline in front. */
  lemma PassThreeHashes(s: string, t: string)
    requires TitleText(t) && s == "### " + t
    ensures BreakFrom(s, 0, "###", false) == "\n### " + t
  {
    assert s[..3] == "###" && s[3] == ' ' && s[4] == t[0];
    assert ReportPdf.SkipSpace(s, 3) == 4;
    BreakAt(s, 0, "###", false, 4);
    TitleTail(s, 4, t, "###", false);
    assert s[0..4] == "### ";
  }

  /** Pass "##" on "\n### t": the inner "##" of "###" counts as a token. */
  lemma PassTwoHashes(s: string, t: string)
    requires TitleText(t) && s == "\n### " + t
    ensures BreakFrom(s, 0, "##", false) == "\n#\n## " + t
  {
    assert s[0] == '\n' && s[1] == '#' && s[2] == '#' && s[3] == '#' && s[4] == ' ' && s[5] == t[0];
    assert TokenRun(s, 0, "##").None? by { assert s[0..2] != "##"; }
    CopyAt(s, 0, "##", false);
    assert TokenRun(s, 1, "##").None? by { assert !IsSpace(s[3]); }
    CopyAt(s, 1, "##", false);
    assert s[2..4] == "##";
    assert ReportPdf.SkipSpace(s, 4) == 5;
    BreakAt(s, 2, "##", false, 5);
    TitleTail(s, 5, t, "##", false);
    assert s[2..5] == "## ";
  }

  /** Pass "#" on "\n#\n## t": the second '#' of "##" counts as a token. */
  lemma PassOneHash(s: string, t: string)
    requires TitleText(t) && s == "\n#\n## " + t
    ensures BreakFrom(s, 0, "#", false) == "\n#\n#\n# " + t
  {
    assert s[0] == '\n' && s[1] == '#' && s[2] == '\n' && s[3] == '#' && s[4] == '#' && s[5] == ' ' && s[6] == t[0];
    assert TokenRun(s, 0, "#").None? by { assert s[0..1] != "#"; }
    CopyAt(s, 0, "#", false);
    assert !BreaksAt(s, 1, false);
    CopyAt(s, 1, "#", false);
    assert TokenRun(s, 2, "#").None? by { assert s[2..3] != "#"; }
    CopyAt(s, 2, "#", false);
    assert TokenRun(s, 3, "#").None? by { assert !IsSpace(s[4]); }
    CopyAt(s, 3, "#", false);
    assert s[4..5] == "#";
    assert ReportPdf.SkipSpace(s, 5) == 6;
    BreakAt(s, 4, "#", false, 6);
    TitleTail(s, 6, t, "#", false);
    assert s[4..6] == "# ";
  }

  /** As written, "### t" comes out of normalize_markdown_for_pdf as three
      lines "#", "#" and "# t" after an empty one. */
  lemma NormalizeFlattens(t: string)
    requires TitleText(t)
    ensures NormalizeAsWritten("### " + t) == "\n#\n#\n# " + t
  {
    var md := "### " + t;
    NoLabelFree(md, t, 4);
    NoLabelOpens(md);
    ReportPdf.SanitizeNoLabel(md);
    PassThreeHashes(md, t);
    PassTwoHashes("\n### " + t, t);
    PassOneHash("\n#\n## " + t, t);
  }

  /** A prefix without '(' in front of t leaves no '('. */
  lemma NoLabelFree(s: string, t: string, n: nat)
    requires TitleText(t) && |s| == n + |t| && s[n..] == t
    requires forall k :: 0 <= k < n ==> s[k] != '('
    ensures Templates.Free(s, '(')
  {
    forall k | n <= k < |s| ensures s[k] != '(' {
      assert s[k] == t[k - n];
    }
  }

  /** A text with no line boundary has no '\r'; NormalizeNewlines keeps it. */
  lemma NoBreaksKept(s: string)
    requires NoBreaks(s)
    ensures NormalizeNewlines(s) == s
  {
    assert Templates.Free(s, '\r') by {
      forall k | 0 <= k < |s| ensures s[k] != '\r' {
        assert !LineBreak(s[k]);
      }
    }
    NormalizeNewlinesSpec(s);
  }

  /** A heading line "#...# t" is kept. */
  lemma HeadingKept(x: string, n: nat, t: string)
    requires TitleText(t) && 1 <= n && x == seq(n, _ => '#') + (" " + t)
    ensures KeepLine(x)
  {
    assert x[0] == '#';
    assert LStrip(x) == x;
    HashRunOf(n, " " + t);
    assert x[n..] == " " + t;
    assert !IsSpace(x[n..][1]);
  }

  lemma HashOnlyLonely()
    ensures !KeepLine("#")
  {
    LonelyHashSpec(0, 1, 0, "#");
  }

  lemma EmptyKept()
    ensures KeepLine("")
  {
    assert LStrip("") == "";
  }

  /** A title has no '\n' or '\r'. */
  lemma TitleFree(t: string)
    requires TitleText(t)
    ensures Templates.Free(t, '\n') && Templates.Free(t, '\r')
  {
    assert forall k :: 0 <= k < |t| ==> !LineBreak(t[k]);
  }

  lemma FreeAppend(p: string, t: string, c: char)
    requires Templates.Free(p, c) && Templates.Free(t, c)
    ensures Templates.Free(p + t, c)
  {
    assert forall k :: |p| <= k < |p + t| ==> (p + t)[k] == t[k - |p|];
  }

  lemma FlattenedShape(t: string)
    ensures "\n#\n#\n# " + t == [] + ['\n'] + ("#" + ['\n'] + ("#" + ['\n'] + ("# " + t)))
  {
  }

  /** The four lines of "\n#\n#\n# t". */
  lemma SplitFlattened(x: string, r2: string, r1: string, md: string)
    requires Templates.Free(x, '\n')
    requires r2 == "#" + ['\n'] + x && r1 == "#" + ['\n'] + r2 && md == [] + ['\n'] + r1
    ensures Split(md, '\n') == ["", "#", "#", x]
  {
    calc {
      Split(md, '\n');
      { Templates.SplitAfter("", '\n', r1); }
      [""] + Split(r1, '\n');
      { Templates.SplitAfter("#", '\n', r2); }
      [""] + (["#"] + Split(r2, '\n'));
      { Templates.SplitAfter("#", '\n', x); Templates.SplitFree(x, '\n'); }
      [""] + (["#"] + (["#"] + [x]));
    }
  }

  /** Dropping the two lonely "#" lines leaves "\n# t". */
  lemma RemoveFlattened(t: string, md: string)
    requires TitleText(t) && md == "\n#\n#\n# " + t
    ensures RemoveLonelyHashLines(md) == "\n# " + t
  {
    var x := "# " + t;
    KeptFlattened(t, x, md);
    RemoveOf(md, ["", x]);
    assert Join(["", x], "\n") == "" + "\n" + x;
  }

  /** remove_lonely_hash_lines joins the kept lines of a non-empty text. */
  lemma RemoveOf(md: string, kept: seq<string>)
    requires md != [] && Filter(Split(NormalizeNewlines(md), '\n'), KeepLine) == kept
    ensures RemoveLonelyHashLines(md) == Join(kept, "\n")
  {
  }

  lemma KeptFlattened(t: string, x: string, md: string)
    requires TitleText(t) && x == "# " + t && md == "\n#\n#\n# " + t
    ensures Filter(Split(NormalizeNewlines(md), '\n'), KeepLine) == ["", x]
  {
    var r2 := "#" + ['\n'] + x;
    var r1 := "#" + ['\n'] + r2;
    FlattenedShape(t);
    TitleFree(t);
    FreeAppend("# ", t, '\n');
    FreeAppend("\n#\n#\n# ", t, '\r');
    NormalizeNewlinesSpec(md);
    SplitFlattened(x, r2, r1, md);
    LevelOneKept(t, x);
    HashOnlyLonely();
    EmptyKept();
    KeepFirstLast("", "#", x);
  }

  lemma KeepFirstLast(e: string, h: string, x: string)
    requires KeepLine(e) && !KeepLine(h) && KeepLine(x)
    ensures Filter([e, h, h, x], KeepLine) == [e, x]
  {
    FilterFour([e, h, h, x], KeepLine);
  }

  lemma LevelOneKept(t: string, x: string)
    requires TitleText(t) && x == "# " + t
    ensures KeepLine(x)
  {
    assert x == seq(1, _ => '#') + (" " + t);
    HeadingKept(x, 1, t);
  }

  /** A filter over four elements that keeps the first and the last. */
  lemma FilterFour<T>(xs: seq<T>, p: T -> bool)
    requires |xs| == 4 && p(xs[0]) && !p(xs[1]) && !p(xs[2]) && p(xs[3])
    ensures Filter(xs, p) == [xs[0], xs[3]]
  {
    var a := xs[1..];
    var b := a[1..];
    var c := b[1..];
    assert c[1..] == [];
    assert Filter(c, p) == [xs[3]] + Filter(c[1..], p);
    assert Filter(b, p) == Filter(c, p);
    assert Filter(a, p) == Filter(b, p);
    assert Filter(xs, p) == [xs[0]] + Filter(a, p);
  }

  lemma StepBlank(lines: seq<string>, i: nat)
    requires i < |lines| && Blank(lines[i])
    ensures LineStep(lines, i) == ([Spacer(4)], i + 1)
  {
  }

  lemma StepText(lines: seq<string>, i: nat)
    requires i < |lines| && !Blank(lines[i]) && !PipeRow(lines[i])
    ensures LineStep(lines, i) == (TextFlowables(RStrip(lines[i])), i + 1)
  {
  }

  /** A non-blank line whose last character is not a blank, starting with
      neither a blank nor '|', is neither blank nor a table row. */
  lemma PlainLine(x: string)
    requires x != [] && !IsSpace(x[0]) && !IsSpace(x[|x| - 1]) && x[0] != '|'
    ensures RStrip(x) == x && !Blank(x) && !PipeRow(x)
  {
    StripOfStripped(x);
  }

  lemma HeadingOne(x: string, t: string)
    requires x == "# " + t
    ensures TextFlowables(x) == [Para(MdInline(t), Heading1), Spacer(6)]
  {
    assert !StartsWith(x, "### ") && !StartsWith(x, "## ") by { assert x[1] == ' '; }
    assert StartsWith(x, "# ") && x[2..] == t;
  }

  /** The story of the two lines "" and "# t": a gap, then a level-one heading. */
  lemma StoryFlattened(t: string)
    requires TitleText(t)
    ensures StoryFrom(["", "# " + t], 0) == [Spacer(4), Para(MdInline(t), Heading1), Spacer(6)]
  {
    var x := "# " + t;
    var lines := ["", x];
    assert Blank(lines[0]);
    StepBlank(lines, 0);
    PlainLine(x);
    StepText(lines, 1);
    HeadingOne(x, t);
    assert StoryFrom(lines, 1) == [Para(MdInline(t), Heading1), Spacer(6)] + StoryFrom(lines, 2);
  }

  /** The story of the one line "### t": a level-three heading and a gap. */
  lemma StoryKept(t: string)
    requires TitleText(t)
    ensures StoryFrom(["### " + t], 0) == [Para(MdInline(t), Heading3), Spacer(3)]
  {
    var x := "### " + t;
    PlainLine(x);
    StepText([x], 0);
    assert StartsWith(x, "### ") && x[4..] == t;
  }

  /** "#...# t" has no line boundary, and neither has it a '\r'. */
  lemma HeadingNoBreaks(x: string, n: nat, t: string)
    requires TitleText(t) && |x| == n + |t| && x[n..] == t
    requires forall k :: 0 <= k < n ==> x[k] == '#' || x[k] == ' '
    ensures NoBreaks(x) && Templates.Free(x, '\r') && Templates.Free(x, '\n')
  {
    forall k | 0 <= k < |x| ensures !LineBreak(x[k]) {
      if k >= n { assert x[k] == t[k - n]; }
    }
  }

  /** The lines walked for "\n# t": an empty one and "# t". */
  lemma LinesFlattened(t: string, md: string)
    requires TitleText(t) && md == "\n# " + t
    ensures SplitLines(NormalizeNewlines(md)) == ["", "# " + t]
  {
    var x := "# " + t;
    HeadingNoBreaks(x, 2, t);
    assert md == "" + "\n" + x;
    TitleFree(t);
    FreeAppend("\n# ", t, '\r');
    NormalizeNewlinesSpec(md);
    SplitLinesCons("", x);
    OneLine(x);
  }

  /** FINDING, as written: a level-three heading at the start of a section
      comes out as an empty line followed by a level-one heading, because
      the "##" and "#" passes match inside "###" and the lonely '#' lines
      they leave are dropped. */
  lemma HeadingFlattenedAsWritten(t: string)
    requires TitleText(t)
    ensures MarkdownStoryAsWritten("### " + t) == [Spacer(4), Para(MdInline(t), Heading1), Spacer(6)]
  {
    NormalizeFlattens(t);
    RemoveFlattened(t, "\n#\n#\n# " + t);
    LinesFlattened(t, "\n# " + t);
    StoryFlattened(t);
  }

  /** Every '#' of "### t" stands at the start or after another '#'. */
  lemma TitleHashesPlaced(t: string, md: string)
    requires TitleText(t) && md == "### " + t
    ensures HashesPlaced(md) && Templates.Free(md, '(')
  {
    forall i | 0 <= i < |md| && md[i] == '#' ensures i == 0 || md[i - 1] == '\n' || md[i - 1] == '#' {
    }
    NoLabelFree(md, t, 4);
  }

  /** remove_lonely_hash_lines keeps the single line "### t". */
  lemma RemoveKeeps(t: string, md: string)
    requires TitleText(t) && md == "### " + t
    ensures RemoveLonelyHashLines(md) == md
    ensures SplitLines(NormalizeNewlines(md)) == [md]
  {
    HeadingNoBreaks(md, 4, t);
    NormalizeNewlinesSpec(md);
    Templates.SplitFree(md, '\n');
    assert md == seq(3, _ => '#') + (" " + t);
    HeadingKept(md, 3, t);
    FilterAll([md], KeepLine);
    RemoveOf(md, [md]);
    OneLine(md);
  }

  /** The corrected normalisation keeps "### t" a level-three heading. */
  lemma HeadingKeptCorrected(t: string)
    requires TitleText(t)
    ensures MarkdownStory("### " + t) == [Para(MdInline(t), Heading3), Spacer(3)]
  {
    var md := "### " + t;
    TitleHashesPlaced(t, md);
    NormalizePlaced(md);
    RemoveKeeps(t, md);
    StoryKept(t);
  }
}
