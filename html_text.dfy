/** The HTML-to-text helpers of src/utils/html.py: tag stripping that keeps
    the line structure, and the label helpers behind indent detection. Each
    `re.sub` pass is a left-to-right scan that replaces the leftmost match and
    resumes after it. */
module HtmlText {
  import opened Common
  import opened Normalize

  // ---------------------------------------------------------------------------
  // strip_html_keep_lines
  // ---------------------------------------------------------------------------

  /** The block tags whose closing tag becomes a line break. */
  const BLOCK_TAGS: seq<string> := ["p", "tr", "th", "td", "div", "section", "title", "li", "ul", "ol"]

  /** s starts with name, letters compared case-insensitively. */
  predicate NameAt(s: string, name: string) {
    |name| <= |s| && Lower(s[..|name|]) == name
  }

  /** Length of the run of `\s` at the start of s. */
  function WsLen(s: string): (n: nat)
    ensures n <= |s|
  {
    if s != [] && IsSpace(s[0]) then 1 + WsLen(s[1..]) else 0
  }

  /** Length of a match of `</(name)\s*>` at the start of s, trying the
      names in order; 0 when none matches. */
  function CloseTagLen(s: string, names: seq<string>): (n: nat)
    ensures n <= |s|
    ensures n > 0 ==> n >= 3 && s[0] == '<' && s[n - 1] == '>'
  {
    if names == [] || |s| < 2 || s[..2] != "</" then 0
    else
      var rest := s[2..];
      var name := names[0];
      if NameAt(rest, name) then
        var e := |name| + WsLen(rest[|name|..]);
        if e < |rest| && rest[e] == '>' then e + 3 else CloseTagLen(s, names[1..])
      else CloseTagLen(s, names[1..])
  }

  /** Pass 1: `</(p|tr|th|td|div|section|title|li|ul|ol)\s*>` becomes "\n". */
  function CloseTags(s: string): string
    decreases |s|
  {
    if s == [] then []
    else
      var n := CloseTagLen(s, BLOCK_TAGS);
      if n > 0 then "\n" + CloseTags(s[n..]) else [s[0]] + CloseTags(s[1..])
  }

  /** Length of a match of the line-break tag pattern (`<br`, blanks, an
      optional slash, `>`) at the start of s, or 0. */
  function BrLen(s: string): (n: nat)
    ensures n <= |s|
  {
    if |s| < 3 || s[0] != '<' || Lower(s[1..3]) != "br" then 0
    else
      var e := 3 + WsLen(s[3..]);
      var f := if e < |s| && s[e] == '/' then e + 1 else e;
      if f < |s| && s[f] == '>' then f + 1 else 0
  }

  /** Pass 2: `<br>`, `<br>` with a slash and `<BR >` become "\n". */
  function BrTags(s: string): string
    decreases |s|
  {
    if s == [] then []
    else
      var n := BrLen(s);
      if n > 0 then "\n" + BrTags(s[n..]) else [s[0]] + BrTags(s[1..])
  }

  /** Index of the first '>' in s, or |s|. */
  function GtIndex(s: string): (k: nat)
    ensures k <= |s|
    ensures forall j :: 0 <= j < k ==> s[j] != '>'
    ensures k < |s| ==> s[k] == '>'
  {
    if s == [] || s[0] == '>' then 0 else 1 + GtIndex(s[1..])
  }

  /** Length of a match of `<[^>]+>` at the start of s, or 0. */
  function TagLen(s: string): (n: nat)
    ensures n <= |s|
  {
    if s != [] && s[0] == '<' then
      var k := GtIndex(s[1..]);
      if 0 < k < |s| - 1 then k + 2 else 0
    else 0
  }

  /** Pass 3: every remaining tag is dropped. */
  function DropTags(s: string): string
    decreases |s|
  {
    if s == [] then []
    else
      var n := TagLen(s);
      if n > 0 then DropTags(s[n..]) else [s[0]] + DropTags(s[1..])
  }

  /** Length of the run of ' ' and '\t' at the start of s. */
  function BlankLen(s: string): (n: nat)
    ensures n <= |s|
    ensures forall k :: 0 <= k < n ==> s[k] == ' ' || s[k] == '\t'
  {
    if s != [] && (s[0] == ' ' || s[0] == '\t') then 1 + BlankLen(s[1..]) else 0
  }

  /** Length of a match of `[ \t]+\n` at the start of s, or 0. */
  function TrimLen(s: string): (n: nat)
    ensures n <= |s|
  {
    var b := BlankLen(s);
    if 0 < b < |s| && s[b] == '\n' then b + 1 else 0
  }

  /** Pass 4: blanks right before a line break are dropped. */
  function TrimBeforeNewlines(s: string): string
    decreases |s|
  {
    if s == [] then []
    else
      var n := TrimLen(s);
      if n > 0 then "\n" + TrimBeforeNewlines(s[n..]) else [s[0]] + TrimBeforeNewlines(s[1..])
  }

  /** Length of the run of '\n' at the start of s. */
  function NewlineLen(s: string): (n: nat)
    ensures n <= |s|
    ensures forall k :: 0 <= k < n ==> s[k] == '\n'
    ensures n < |s| ==> s[n] != '\n'
  {
    if s != [] && s[0] == '\n' then 1 + NewlineLen(s[1..]) else 0
  }

  /** Pass 5: `\n{3,}` becomes "\n\n". A run of one or two line breaks is no
      match at any of its positions, so it is copied whole. */
  function SqueezeNewlines(s: string): string
    decreases |s|
  {
    if s == [] then []
    else
      var r := NewlineLen(s);
      if r >= 3 then "\n\n" + SqueezeNewlines(s[r..])
      else if r > 0 then s[..r] + SqueezeNewlines(s[r..])
      else [s[0]] + SqueezeNewlines(s[1..])
  }

  /** strip_html_keep_lines: the five passes, then str.strip(). */
  function StripHtmlKeepLines(html: string): string {
    Strip(SqueezeNewlines(TrimBeforeNewlines(DropTags(BrTags(CloseTags(html))))))
  }

  /** A match of `<[^>]+>` spans t[i..j + 1]. */
  predicate TagAt(t: string, i: int, j: int) {
    0 <= i && i + 2 <= j < |t| && t[i] == '<' && t[j] == '>' && forall k :: i < k < j ==> t[k] != '>'
  }

  /** Every '<' is followed directly by '>' or by no '>' at all. */
  predicate TagFree(t: string) {
    forall i :: 0 <= i < |t| && t[i] == '<' ==> (i + 1 < |t| && t[i + 1] == '>') || '>' !in t[i + 1..]
  }

  /** `\n\n\n` does not occur. */
  predicate NoTripleNewline(t: string) {
    forall i :: 0 <= i < |t| - 2 ==> !(t[i] == '\n' && t[i + 1] == '\n' && t[i + 2] == '\n')
  }

  /** Between a '<' and a later '>' with something in between lies another
      '>', so no tag match exists. */
  lemma TagFreeNoTag(t: string)
    requires TagFree(t)
    ensures forall i, j :: !TagAt(t, i, j)
  {
    forall i, j ensures !TagAt(t, i, j) {
      if 0 <= i && i + 2 <= j < |t| && t[i] == '<' && t[j] == '>' {
        assert t[i + 1..][j - i - 1] == t[j];
        assert t[i + 1] == '>';
      }
    }
  }

  lemma TagFreeCons(c: char, r: string)
    requires TagFree(r)
    requires c == '<' ==> (r != [] && r[0] == '>') || '>' !in r
    ensures TagFree([c] + r)
  {
    var t := [c] + r;
    assert t[1..] == r;
    forall i | 1 <= i < |t| ensures t[i] == r[i - 1] && t[i + 1..] == r[i..] {
    }
  }

  lemma TagFreeSuffix(s: string, k: nat)
    requires TagFree(s) && k <= |s|
    ensures TagFree(s[k..])
  {
    var t := s[k..];
    forall i | 0 <= i < |t| && t[i] == '<'
      ensures (i + 1 < |t| && t[i + 1] == '>') || '>' !in t[i + 1..]
    {
      assert s[k + i] == '<';
      assert t[i + 1..] == s[k + i + 1..];
    }
  }

  lemma {:induction false} DropTagsKeepsNoGt(s: string)
    requires '>' !in s
    ensures '>' !in DropTags(s)
    decreases |s|
  {
    if s != [] {
      var n := TagLen(s);
      if n > 0 {
        assert s[n..] == s[n..];
        assert forall c :: c in s[n..] ==> c in s;
        DropTagsKeepsNoGt(s[n..]);
      } else {
        assert forall c :: c in s[1..] ==> c in s;
        DropTagsKeepsNoGt(s[1..]);
      }
    }
  }

  /** After pass 3 no tag is left. */
  lemma {:induction false} DropTagsTagFree(s: string)
    ensures TagFree(DropTags(s))
    decreases |s|
  {
    if s != [] {
      var n := TagLen(s);
      if n > 0 {
        DropTagsTagFree(s[n..]);
      } else {
        DropTagsTagFree(s[1..]);
        var r := DropTags(s[1..]);
        if s[0] == '<' {
          var k := GtIndex(s[1..]);
          if k == 0 && |s| > 1 {
            assert TagLen(s[1..]) == 0;
            assert r == [s[1]] + DropTags(s[2..]);
          } else {
            assert '>' !in s[1..];
            DropTagsKeepsNoGt(s[1..]);
          }
        }
        TagFreeCons(s[0], r);
      }
    }
  }

  lemma {:induction false} TrimKeepsNoGt(s: string)
    requires '>' !in s
    ensures '>' !in TrimBeforeNewlines(s)
    decreases |s|
  {
    if s != [] {
      var n := TrimLen(s);
      if n > 0 {
        assert forall c :: c in s[n..] ==> c in s;
        TrimKeepsNoGt(s[n..]);
      } else {
        assert forall c :: c in s[1..] ==> c in s;
        TrimKeepsNoGt(s[1..]);
      }
    }
  }

  /** Pass 4 only removes blanks, so it keeps the text tag-free. */
  lemma {:induction false} TrimTagFree(s: string)
    requires TagFree(s)
    ensures TagFree(TrimBeforeNewlines(s))
    decreases |s|
  {
    if s != [] {
      var n := TrimLen(s);
      if n > 0 {
        TagFreeSuffix(s, n);
        TrimTagFree(s[n..]);
        TagFreeCons('\n', TrimBeforeNewlines(s[n..]));
      } else {
        TagFreeSuffix(s, 1);
        TrimTagFree(s[1..]);
        var r := TrimBeforeNewlines(s[1..]);
        if s[0] == '<' {
          if |s| > 1 && s[1] == '>' {
            assert TrimLen(s[1..]) == 0;
            assert r == [s[1]] + TrimBeforeNewlines(s[2..]);
          } else {
            assert '>' !in s[1..];
            TrimKeepsNoGt(s[1..]);
          }
        }
        TagFreeCons(s[0], r);
      }
    }
  }

  lemma {:induction false} SqueezeKeepsNoGt(s: string)
    requires '>' !in s
    ensures '>' !in SqueezeNewlines(s)
    decreases |s|
  {
    if s != [] {
      var r := NewlineLen(s);
      if r > 0 {
        assert forall c :: c in s[r..] ==> c in s;
        SqueezeKeepsNoGt(s[r..]);
        assert forall c :: c in s[..r] ==> c == '\n';
      } else {
        assert forall c :: c in s[1..] ==> c in s;
        SqueezeKeepsNoGt(s[1..]);
      }
    }
  }

  /** A prefix of line breaks in front of a tag-free text. */
  lemma NewlinesTagFree(nl: string, r: string)
    requires TagFree(r) && forall k :: 0 <= k < |nl| ==> nl[k] == '\n'
    ensures TagFree(nl + r)
  {
    var t := nl + r;
    forall i | 0 <= i < |t| && t[i] == '<'
      ensures (i + 1 < |t| && t[i + 1] == '>') || '>' !in t[i + 1..]
    {
      assert i >= |nl| && t[i] == r[i - |nl|];
      assert t[i + 1..] == r[i - |nl| + 1..];
    }
  }

  /** Pass 5 keeps the text tag-free. */
  lemma {:induction false} SqueezeTagFree(s: string)
    requires TagFree(s)
    ensures TagFree(SqueezeNewlines(s))
    decreases |s|
  {
    if s != [] {
      var r := NewlineLen(s);
      if r > 0 {
        TagFreeSuffix(s, r);
        SqueezeTagFree(s[r..]);
        var nl: string := if r >= 3 then "\n\n" else s[..r];
        NewlinesTagFree(nl, SqueezeNewlines(s[r..]));
      } else {
        TagFreeSuffix(s, 1);
        SqueezeTagFree(s[1..]);
        var t := SqueezeNewlines(s[1..]);
        if s[0] == '<' {
          if |s| > 1 && s[1] == '>' {
            assert NewlineLen(s[1..]) == 0;
            assert t == [s[1]] + SqueezeNewlines(s[2..]);
          } else {
            assert '>' !in s[1..];
            SqueezeKeepsNoGt(s[1..]);
          }
        }
        TagFreeCons(s[0], t);
      }
    }
  }

  /** A slice of a tag-free text is tag-free. */
  lemma TagFreeSlice(s: string, a: nat, b: nat)
    requires TagFree(s) && a <= b <= |s|
    ensures TagFree(s[a..b])
  {
    var t := s[a..b];
    forall i | 0 <= i < |t| && t[i] == '<'
      ensures (i + 1 < |t| && t[i + 1] == '>') || '>' !in t[i + 1..]
    {
      assert s[a + i] == '<';
      if '>' in t[i + 1..] {
        var j :| i + 1 <= j < |t| && t[j] == '>';
        assert s[a + i + 1..][j - i - 1] == '>';
      }
    }
  }

  lemma NoTripleSlice(s: string, a: nat, b: nat)
    requires NoTripleNewline(s) && a <= b <= |s|
    ensures NoTripleNewline(s[a..b])
  {
    var t := s[a..b];
    assert forall i :: 0 <= i < |t| ==> t[i] == s[a + i];
  }


  /** After pass 5 no run of three line breaks is left, and the first
      character is kept when it is no line break. */
  lemma {:induction false} SqueezeNoTriple(s: string)
    ensures NoTripleNewline(SqueezeNewlines(s))
    ensures s != [] && s[0] != '\n' ==> SqueezeNewlines(s) != [] && SqueezeNewlines(s)[0] == s[0]
    decreases |s|
  {
    if s != [] {
      var r := NewlineLen(s);
      if r > 0 {
        SqueezeNoTriple(s[r..]);
        var nl: string := if r >= 3 then "\n\n" else s[..r];
        var rest := SqueezeNewlines(s[r..]);
        var t := nl + rest;
        assert |nl| <= 2 && forall k :: 0 <= k < |nl| ==> nl[k] == '\n';
        assert rest != [] ==> rest[0] != '\n';
        forall i | 0 <= i < |t| - 2 ensures !(t[i] == '\n' && t[i + 1] == '\n' && t[i + 2] == '\n') {
          if i >= |nl| {
            assert t[i] == rest[i - |nl|] && t[i + 1] == rest[i - |nl| + 1] && t[i + 2] == rest[i - |nl| + 2];
          } else {
            assert t[|nl|] == rest[0];
          }
        }
      } else {
        SqueezeNoTriple(s[1..]);
        var rest := SqueezeNewlines(s[1..]);
        var t := [s[0]] + rest;
        forall i | 0 <= i < |t| - 2 ensures !(t[i] == '\n' && t[i + 1] == '\n' && t[i + 2] == '\n') {
          if i >= 1 {
            assert t[i] == rest[i - 1] && t[i + 1] == rest[i] && t[i + 2] == rest[i + 1];
          }
        }
      }
    }
  }

  /** strip_html_keep_lines leaves no `<...>` tag, no run of three line
      breaks and no whitespace at either end. */
  lemma StripHtmlKeepLinesShape(html: string)
    ensures var r := StripHtmlKeepLines(html);
      (forall i, j :: !TagAt(r, i, j))
      && NoTripleNewline(r)
      && (r == [] || (!IsSpace(r[0]) && !IsSpace(r[|r| - 1])))
  {
    var d := DropTags(BrTags(CloseTags(html)));
    DropTagsTagFree(BrTags(CloseTags(html)));
    TrimTagFree(d);
    var q := SqueezeNewlines(TrimBeforeNewlines(d));
    SqueezeTagFree(TrimBeforeNewlines(d));
    SqueezeNoTriple(TrimBeforeNewlines(d));
    var a, b := StripIsSlice(q);
    TagFreeSlice(q, a, b);
    NoTripleSlice(q, a, b);
    TagFreeNoTag(Strip(q));
  }

  // ---------------------------------------------------------------------------
  // get_label_preserve_indent, normalize_label_clean, count_indent
  // ---------------------------------------------------------------------------

  predicate IsTrailBlank(c: char) { c == ' ' || c == NBSP }

  /** s without its trailing run of ' ' and NBSP. */
  function TrimTrailBlanks(s: string): (r: string)
    ensures |r| <= |s| && r == s[..|r|]
    ensures forall k :: |r| <= k < |s| ==> IsTrailBlank(s[k])
    ensures r == [] || !IsTrailBlank(r[|r| - 1])
  {
    if s != [] && IsTrailBlank(s[|s| - 1]) then TrimTrailBlanks(s[..|s| - 1]) else s
  }

  /** `re.sub(r"[ \u00A0]+$", "", s)`: `$` also matches right before a final
      line break, so the run removed is the one in front of it then. */
  function DropTrailingBlanks(s: string): string {
    if s != [] && s[|s| - 1] == '\n' then TrimTrailBlanks(s[..|s| - 1]) + "\n"
    else TrimTrailBlanks(s)
  }

  /** `re.sub(r"\n+", " ", s)`: every run of line breaks becomes one space. */
  function NewlinesToSpace(s: string): (r: string)
    ensures '\n' !in r
    ensures '\n' !in s ==> r == s
    decreases |s|
  {
    if s == [] then []
    else if s[0] == '\n' then
      var n := NewlineLen(s);
      " " + NewlinesToSpace(s[n..])
    else
      [s[0]] + NewlinesToSpace(s[1..])
  }

  /** The text transform of get_label_preserve_indent on the tag's text. */
  function LabelText(s: string): string {
    NewlinesToSpace(DropTrailingBlanks(RemoveChar(RemoveChar(s, '\r'), '\t')))
  }

  lemma {:induction false} RemoveCharSubset(s: string, c: char, d: char)
    requires d !in s
    ensures d !in RemoveChar(s, c)
  {
    if s != [] {
      assert forall x :: x in s[1..] ==> x in s;
      RemoveCharSubset(s[1..], c, d);
    }
  }

  lemma {:induction false} NewlinesToSpaceSubset(s: string, d: char)
    requires d !in s && d != ' '
    ensures d !in NewlinesToSpace(s)
    decreases |s|
  {
    if s != [] {
      if s[0] == '\n' {
        var n := NewlineLen(s);
        assert forall x :: x in s[n..] ==> x in s;
        NewlinesToSpaceSubset(s[n..], d);
      } else {
        assert forall x :: x in s[1..] ==> x in s;
        NewlinesToSpaceSubset(s[1..], d);
      }
    }
  }

  lemma DropTrailingBlanksSubset(s: string, d: char)
    requires d !in s && d != '\n'
    ensures d !in DropTrailingBlanks(s)
  {
    if s != [] && s[|s| - 1] == '\n' {
      var t := TrimTrailBlanks(s[..|s| - 1]);
      assert forall x :: x in t ==> x in s;
    } else {
      var t := TrimTrailBlanks(s);
      assert forall x :: x in t ==> x in s;
    }
  }

  /** The label keeps no carriage return, tab or line break. */
  lemma LabelTextChars(s: string)
    ensures '\r' !in LabelText(s) && '\t' !in LabelText(s) && '\n' !in LabelText(s)
  {
    var a := RemoveChar(s, '\r');
    RemoveCharGone(s, '\r');
    var b := RemoveChar(a, '\t');
    RemoveCharSubset(a, '\t', '\r');
    RemoveCharGone(a, '\t');
    DropTrailingBlanksSubset(b, '\r');
    DropTrailingBlanksSubset(b, '\t');
    NewlinesToSpaceSubset(DropTrailingBlanks(b), '\r');
    NewlinesToSpaceSubset(DropTrailingBlanks(b), '\t');
  }

  /** A one-line label keeps its leading indentation and loses only its
      trailing spaces and NBSPs. */
  lemma LabelTextOneLine(s: string)
    requires '\n' !in s && '\r' !in s && '\t' !in s
    ensures var r := LabelText(s);
      |r| <= |s| && r == s[..|r|]
      && (forall k :: |r| <= k < |s| ==> IsTrailBlank(s[k]))
      && (r == [] || !IsTrailBlank(r[|r| - 1]))
  {
    RemoveCharAbsent(s, '\r');
    RemoveCharAbsent(s, '\t');
    assert s != [] ==> s[|s| - 1] in s;
    var t := TrimTrailBlanks(s);
    assert forall x :: x in t ==> x in s;
  }

  /** A trailing line break keeps a trailing space: the run before it goes,
      the line break itself becomes ' '. */
  lemma LabelTextTrailingBreak()
    ensures LabelText("ab \n") == "ab "
  {
    var t := "ab \n";
    RemoveCharAbsent(t, '\r');
    RemoveCharAbsent(t, '\t');
    calc {
      LabelText(t);
      NewlinesToSpace(DropTrailingBlanks(t));
      { TrailingRunDropped(); }
      NewlinesToSpace("ab\n");
      { BreakToSpace(); }
      "ab ";
    }
  }

  lemma TrailingRunDropped()
    ensures DropTrailingBlanks("ab \n") == "ab\n"
  {
    assert "ab \n"[..3] == "ab ";
    assert "ab "[..2] == "ab";
    assert TrimTrailBlanks("ab") == "ab";
  }

  lemma BreakToSpace()
    ensures NewlinesToSpace("ab\n") == "ab "
  {
    assert "ab\n"[1..] == "b\n" && "b\n"[1..] == "\n";
    assert NewlinesToSpace("\n") == " ";
  }

  /** The characters lstrip removes in normalize_label_clean and count_indent. */
  const LEAD_BLANKS: set<char> := {' ', '\t', '\r', '\n', NBSP}

  /** normalize_label_clean. */
  function NormalizeLabelClean(s: string): string {
    if s == [] then []
    else NormalizeSpace(LStripSet(LStripSet(s, LEAD_BLANKS), {FULLWIDTH_SPACE}))
  }

  /** A leading space makes no difference to str.strip(). */
  lemma StripLeadSpace(x: string)
    ensures Strip(" " + x) == Strip(x)
  {
    assert (" " + x)[1..] == x;
    assert LStrip(" " + x) == LStrip(x);
  }

  /** The substitution after whitespace in front. */
  lemma CollapseAfterLead(w: string, s: string)
    requires w != [] && forall k :: 0 <= k < |w| ==> IsSpace(w[k])
    ensures CollapseSpace(w + s) == " " + CollapseSpace(LStrip(s))
  {
    assert (w + s)[0] == w[0];
    LStripAppend(w, s);
  }

  /** normalize_space only sees the text after its leading whitespace. */
  lemma NormalizeSpaceOfLStrip(s: string)
    ensures NormalizeSpace(s) == NormalizeSpace(LStrip(s))
  {
    if s != [] && IsSpace(s[0]) {
      var l := LStrip(s);
      assert CollapseSpace(s) == " " + CollapseSpace(l);
      StripLeadSpace(CollapseSpace(l));
      assert LStrip(l) == l;
      if l != [] {
        assert !IsSpace(l[0]);
      }
    } else {
      assert LStrip(s) == s;
    }
  }

  /** Whitespace in front does not change normalize_space. */
  lemma NormalizeSpaceDropLead(w: string, s: string)
    requires forall k :: 0 <= k < |w| ==> IsSpace(w[k])
    ensures NormalizeSpace(w + s) == NormalizeSpace(s)
  {
    if w == [] {
      assert w + s == s;
    } else {
      CollapseAfterLead(w, s);
      StripLeadSpace(CollapseSpace(LStrip(s)));
      NormalizeSpaceOfLStrip(s);
      var l := LStrip(s);
      assert LStrip(l) == l;
      NormalizeSpaceOfLStrip(l);
    }
  }

  lemma {:induction false} LStripAppend(w: string, s: string)
    requires forall k :: 0 <= k < |w| ==> IsSpace(w[k])
    ensures LStrip(w + s) == LStrip(s)
  {
    if w != [] {
      assert (w + s)[1..] == w[1..] + s;
      LStripAppend(w[1..], s);
    } else {
      assert w + s == s;
    }
  }

  /** Stripping leading whitespace characters does not change normalize_space. */
  lemma NormalizeSpaceOfLStripSet(s: string, chars: set<char>)
    requires forall c :: c in chars ==> IsSpace(c)
    ensures NormalizeSpace(LStripSet(s, chars)) == NormalizeSpace(s)
  {
    var r := LStripSet(s, chars);
    var w := s[..|s| - |r|];
    assert s == w + r;
    assert forall k :: 0 <= k < |w| ==> w[k] == s[k];
    NormalizeSpaceDropLead(w, r);
  }

  lemma LeadBlanksAreSpace()
    ensures forall c :: c in LEAD_BLANKS ==> IsSpace(c)
    ensures forall c :: c in {FULLWIDTH_SPACE} ==> IsSpace(c)
  {
  }

  /** normalize_label_clean is normalize_space: both lstrip passes only
      remove whitespace. Its result is therefore stripped and single-spaced. */
  lemma NormalizeLabelCleanIsNormalizeSpace(s: string)
    ensures NormalizeLabelClean(s) == NormalizeSpace(s)
    ensures SpaceNormal(NormalizeLabelClean(s))
  {
    LeadBlanksAreSpace();
    if s != [] {
      var a := LStripSet(s, LEAD_BLANKS);
      NormalizeSpaceOfLStripSet(s, LEAD_BLANKS);
      NormalizeSpaceOfLStripSet(a, {FULLWIDTH_SPACE});
    }
    NormalizeSpaceShape(s);
  }

  /** count_indent: the full-width spaces that follow the leading blanks. */
  method CountIndent(text: string) returns (n: nat)
    ensures var s := LStripSet(text, LEAD_BLANKS);
      n <= |s| && (forall k :: 0 <= k < n ==> s[k] == FULLWIDTH_SPACE)
      && (n < |s| ==> s[n] != FULLWIDTH_SPACE)
  {
    if text == [] {
      return 0;
    }
    var s := LStripSet(text, LEAD_BLANKS);
    n := CountLeading(s, FULLWIDTH_SPACE);
  }

  /** The length of the run of c that s starts with. */
  method CountLeading(s: string, c: char) returns (n: nat)
    ensures n <= |s| && (forall k :: 0 <= k < n ==> s[k] == c) && (n < |s| ==> s[n] != c)
  {
    n := 0;
    while n < |s| && s[n] == c
      invariant n <= |s| && forall k :: 0 <= k < n ==> s[k] == c
    {
      n := n + 1;
    }
  }
}
