/** Document slicing and report selection of src/utils/dart.py. The regular
    expressions are given by their match results (positions, or whether a
    text matches), since the regex engine is not part of this model. */
module Dart {
  import opened Common
  import opened Normalize

  // ---------------------------------------------------------------------------
  // pick_xml_with_iii
  // ---------------------------------------------------------------------------

  /** texts[i] is the first of the longest texts (Python's max with a key). */
  predicate FirstLongest(texts: seq<string>, n: nat, i: int)
    requires n <= |texts|
  {
    0 <= i < n
    && (forall j :: 0 <= j < n ==> |texts[j]| <= |texts[i]|)
    && (forall j :: 0 <= j < i ==> |texts[j]| < |texts[i]|)
  }

  /** The first text with the "III. 재무에 관한 사항" title, else the first
      longest text, else "". */
  method PickXmlWithIii(texts: seq<string>, hasIii: string -> bool) returns (r: string)
    ensures FirstIndex(texts, hasIii).Some? ==> r == texts[FirstIndex(texts, hasIii).value]
    ensures FirstIndex(texts, hasIii).None? && texts != [] ==>
      exists i :: FirstLongest(texts, |texts|, i) && r == texts[i]
    ensures texts == [] ==> r == ""
  {
    for i := 0 to |texts|
      invariant forall j :: 0 <= j < i ==> !hasIii(texts[j])
    {
      if hasIii(texts[i]) {
        FirstIndexAt(texts, hasIii, i);
        return texts[i];
      }
    }
    FirstIndexNone(texts, hasIii);
    if texts == [] {
      return "";
    }
    var best := 0;
    for i := 1 to |texts|
      invariant FirstLongest(texts, i, best)
    {
      if |texts[i]| > |texts[best]| {
        best := i;
      }
    }
    r := texts[best];
  }

  /** Only one index is the first longest: the fallback is determined. */
  lemma FirstLongestUnique(texts: seq<string>, i: nat, j: nat)
    requires FirstLongest(texts, |texts|, i) && FirstLongest(texts, |texts|, j)
    ensures i == j
  {
    assert |texts[i]| == |texts[j]|;
  }

  // ---------------------------------------------------------------------------
  // find_block
  // ---------------------------------------------------------------------------

  /** A match of a pattern: [start, end). */
  datatype Span = Span(start: nat, end: nat)

  /** e is where the block ends: the earliest end-pattern match after the
      start match's end (hits are offsets into text[afterStart..]), or the
      end of the text. */
  predicate BlockEnd(textLen: nat, afterStart: nat, hits: seq<Option<nat>>, e: int) {
    afterStart <= e <= textLen
    && (forall k :: 0 <= k < |hits| && hits[k].Some? ==> e <= afterStart + hits[k].value)
    && (e == textLen || exists k :: 0 <= k < |hits| && hits[k].Some? && e == afterStart + hits[k].value)
  }

  /** text[start:end].strip() of the block, or an error when the start
      pattern does not match. */
  method FindBlock(text: string, startMatch: Option<Span>, endHits: seq<Option<nat>>)
    returns (r: Result<string>)
    requires startMatch.Some? ==> startMatch.value.start <= startMatch.value.end <= |text|
    requires startMatch.Some? ==>
      forall k :: 0 <= k < |endHits| && endHits[k].Some? ==> endHits[k].value <= |text| - startMatch.value.end
    ensures r.Err? <==> startMatch.None?
    ensures startMatch.Some? ==>
      exists e :: (BlockEnd(|text|, startMatch.value.end, endHits, e)
                   && r == Ok(Strip(text[startMatch.value.start..e])))
  {
    if startMatch.None? {
      return Err("start pattern not found");
    }
    var m := startMatch.value;
    var end := |text|;
    for k := 0 to |endHits|
      invariant BlockEnd(|text|, m.end, endHits[..k], end)
    {
      assert endHits[..k + 1] == endHits[..k] + [endHits[k]];
      if endHits[k].Some? {
        end := Min(end, m.end + endHits[k].value);
      }
    }
    assert endHits[..|endHits|] == endHits;
    r := Ok(Strip(text[m.start..end]));
  }

  /** The block end is unique, so the block is determined. */
  lemma BlockEndUnique(textLen: nat, afterStart: nat, hits: seq<Option<nat>>, e1: int, e2: int)
    requires BlockEnd(textLen, afterStart, hits, e1) && BlockEnd(textLen, afterStart, hits, e2)
    ensures e1 == e2
  {
  }

  /** Without any end match the block runs to the end of the text. */
  lemma BlockEndNoHits(textLen: nat, afterStart: nat, hits: seq<Option<nat>>, e: int)
    requires BlockEnd(textLen, afterStart, hits, e)
    requires forall k :: 0 <= k < |hits| ==> hits[k].None?
    ensures e == textLen
  {
  }

  // ---------------------------------------------------------------------------
  // split_sections_by_titles
  // ---------------------------------------------------------------------------

  /** A <TITLE> match of re.finditer: its span and the captured title. */
  datatype TitleMatch = TitleMatch(start: nat, end: nat, title: string)

  /** finditer matches lie in the text, in order and without overlap. */
  predicate Ordered(ms: seq<TitleMatch>, n: nat) {
    (forall k :: 0 <= k < |ms| ==> ms[k].start <= ms[k].end <= n)
    && (forall k :: 0 <= k < |ms| - 1 ==> ms[k].end <= ms[k + 1].start)
  }

  /** The matches whose normalised title passes the filter, with that
      normalised title; `norm` is normalize_space. */
  function Kept(ms: seq<TitleMatch>, keep: string -> bool, norm: string -> string): seq<TitleMatch> {
    if ms == [] then []
    else
      var m := ms[|ms| - 1];
      var t := norm(m.title);
      Kept(ms[..|ms| - 1], keep, norm) + (if keep(t) then [TitleMatch(m.start, m.end, t)] else [])
  }

  /** Filtering keeps the matches ordered and inside the text. */
  lemma {:induction false} KeptOrdered(ms: seq<TitleMatch>, keep: string -> bool, norm: string -> string, n: nat)
    requires Ordered(ms, n)
    ensures Ordered(Kept(ms, keep, norm), n)
    ensures Kept(ms, keep, norm) != [] ==> Kept(ms, keep, norm)[|Kept(ms, keep, norm)| - 1].end <= ms[|ms| - 1].end
  {
    if ms != [] {
      var init := ms[..|ms| - 1];
      var m := ms[|ms| - 1];
      var t := norm(m.title);
      assert Ordered(init, n) by {
        forall k | 0 <= k < |init| ensures init[k] == ms[k] { }
      }
      KeptOrdered(init, keep, norm, n);
      var ki := Kept(init, keep, norm);
      if keep(t) {
        var x := TitleMatch(m.start, m.end, t);
        assert Kept(ms, keep, norm) == ki + [x];
        if ki != [] {
          assert ki[|ki| - 1].end <= m.start by {
            assert init[|init| - 1] == ms[|ms| - 2];
          }
        }
        OrderedSnoc(ki, x, n);
      } else {
        assert Kept(ms, keep, norm) == ki;
        if ki != [] {
          assert init[|init| - 1] == ms[|ms| - 2];
        }
      }
    }
  }

  lemma OrderedSnoc(ms: seq<TitleMatch>, x: TitleMatch, n: nat)
    requires Ordered(ms, n) && x.start <= x.end <= n
    requires ms != [] ==> ms[|ms| - 1].end <= x.start
    ensures Ordered(ms + [x], n)
  {
  }

  /** Every kept title passed the filter. */
  lemma {:induction false} KeptPass(ms: seq<TitleMatch>, keep: string -> bool, norm: string -> string)
    ensures forall k :: 0 <= k < |Kept(ms, keep, norm)| ==> keep(Kept(ms, keep, norm)[k].title)
  {
    if ms != [] {
      KeptPass(ms[..|ms| - 1], keep, norm);
    }
  }

  /** Where section i ends: at the next kept title, or at the end. */
  function NextStart(kept: seq<TitleMatch>, i: nat, n: nat): nat {
    if i + 1 < |kept| then kept[i + 1].start else n
  }

  /** Section i runs from its title to the next kept title. */
  predicate SectionsOf(sections: seq<(string, string)>, block: string, kept: seq<TitleMatch>)
    requires Ordered(kept, |block|)
  {
    |sections| == |kept|
    && forall i :: 0 <= i < |kept| ==>
      sections[i] == (kept[i].title, block[kept[i].start..NextStart(kept, i, |block|)])
  }

  /** (title, html) per kept title; [] when none is kept. */
  method SplitSectionsByTitles(block: string, ms: seq<TitleMatch>, keep: string -> bool)
    returns (sections: seq<(string, string)>)
    requires Ordered(ms, |block|)
    ensures Ordered(Kept(ms, keep, NormalizeSpace), |block|)
    ensures SectionsOf(sections, block, Kept(ms, keep, NormalizeSpace))
  {
    var matches: seq<TitleMatch> := [];
    for k := 0 to |ms|
      invariant matches == Kept(ms[..k], keep, NormalizeSpace)
    {
      var title := NormalizeSpace(ms[k].title);
      assert ms[..k + 1][..k] == ms[..k];
      if keep(title) {
        matches := matches + [TitleMatch(ms[k].start, ms[k].end, title)];
      }
    }
    assert ms[..|ms|] == ms;
    KeptOrdered(ms, keep, NormalizeSpace, |block|);
    sections := [];
    for i := 0 to |matches|
      invariant |sections| == i
      invariant forall i2 :: 0 <= i2 < i ==>
        sections[i2] == (matches[i2].title, block[matches[i2].start..NextStart(matches, i2, |block|)])
    {
      var nxt := if i + 1 < |matches| then matches[i + 1].start else |block|;
      sections := sections + [(matches[i].title, block[matches[i].start..nxt])];
    }
  }

  function HtmlOf(sections: seq<(string, string)>): string {
    if sections == [] then [] else HtmlOf(sections[..|sections| - 1]) + sections[|sections| - 1].1
  }

  /** The sections tile the block from the first kept title to its end:
      in order, contiguous and without overlap. */
  lemma SectionsTile(sections: seq<(string, string)>, block: string, kept: seq<TitleMatch>)
    requires Ordered(kept, |block|) && SectionsOf(sections, block, kept) && kept != []
    ensures HtmlOf(sections) == block[kept[0].start..]
  {
    SectionsTilePrefix(sections, block, kept, |kept|);
    assert sections[..|kept|] == sections;
  }

  lemma {:induction false} SectionsTilePrefix(sections: seq<(string, string)>, block: string,
                                              kept: seq<TitleMatch>, i: nat)
    requires Ordered(kept, |block|) && SectionsOf(sections, block, kept) && 0 < i <= |kept|
    ensures kept[0].start <= NextStart(kept, i - 1, |block|) <= |block|
      && HtmlOf(sections[..i]) == block[kept[0].start..NextStart(kept, i - 1, |block|)]
  {
    var n := |block|;
    assert sections[..i][..i - 1] == sections[..i - 1];
    var a, b, c := kept[0].start, kept[i - 1].start, NextStart(kept, i - 1, n);
    OrderedStarts(kept, n, 0, i - 1);
    assert b <= c;
    if i > 1 {
      SectionsTilePrefix(sections, block, kept, i - 1);
      assert block[a..b] + block[b..c] == block[a..c];
    }
  }

  lemma {:induction false} OrderedStarts(ms: seq<TitleMatch>, n: nat, i: nat, j: nat)
    requires Ordered(ms, n) && i <= j < |ms|
    ensures ms[i].start <= ms[j].start
    decreases j - i
  {
    if i < j {
      OrderedStarts(ms, n, i + 1, j);
    }
  }

  /** No kept title gives no sections; otherwise each section starts with its
      title's match. */
  lemma SectionsEmpty(sections: seq<(string, string)>, block: string, kept: seq<TitleMatch>)
    requires Ordered(kept, |block|) && SectionsOf(sections, block, kept)
    ensures sections == [] <==> kept == []
    ensures forall i :: 0 <= i < |kept| ==> sections[i].0 == kept[i].title
  {
  }

  // ---------------------------------------------------------------------------
  // find_business_report_rcept_no_odr: choosing the receipt
  // ---------------------------------------------------------------------------

  /** A dart.list row, its cells as strings (astype(str)). */
  datatype ListRow = ListRow(rceptNo: string, reportNm: string, bsnsYear: string, rceptDt: string)

  /** The listing and which of its columns exist. */
  datatype ListFrame = ListFrame(rows: seq<ListRow>, hasRceptNo: bool, hasReportNm: bool,
                                 hasBsnsYear: bool, hasRceptDt: bool)

  function BusinessRows(rows: seq<ListRow>): (r: seq<ListRow>)
    ensures forall k :: 0 <= k < |r| ==> Contains(r[k].reportNm, BUSINESS_REPORT)
    ensures forall x :: x in r <==> x in rows && Contains(x.reportNm, BUSINESS_REPORT)
  {
    if rows == [] then []
    else
      var init := BusinessRows(rows[..|rows| - 1]);
      var x := rows[|rows| - 1];
      assert rows == rows[..|rows| - 1] + [x];
      init + (if Contains(x.reportNm, BUSINESS_REPORT) then [x] else [])
  }

  function YearRows(rows: seq<ListRow>, year: string): (r: seq<ListRow>)
    ensures forall x :: x in r <==> x in rows && x.bsnsYear == year
  {
    if rows == [] then []
    else
      var init := YearRows(rows[..|rows| - 1], year);
      var x := rows[|rows| - 1];
      assert rows == rows[..|rows| - 1] + [x];
      init + (if x.bsnsYear == year then [x] else [])
  }

  /** The business-report candidates: those of bsns_year when the column
      exists and some are left, else all business reports. */
  function Candidates(df: ListFrame, bsnsYear: int): seq<ListRow> {
    var biz := BusinessRows(df.rows);
    var cand := if df.hasBsnsYear then YearRows(biz, IntToString(bsnsYear)) else biz;
    if cand == [] then biz else cand
  }

  /** pd.to_numeric on the receipt date with '-' removed: a digit string is
      its value, anything else NaN. */
  function ReceiptDay(dt: string): Option<nat> {
    var s := RemoveChar(dt, '-');
    if IsDigits(s) then Some(DigitsValue(s)) else None
  }

  function Distance(x: ListRow, rceptDate: int): Option<nat> {
    match ReceiptDay(x.rceptDt)
    case None => None
    case Some(d) => Some(if d >= rceptDate then d - rceptDate else rceptDate - d)
  }

  /** a sorts strictly before b in an ascending sort with NaN last. */
  predicate Closer(a: Option<nat>, b: Option<nat>) {
    a.Some? && (b.None? || a.value < b.value)
  }

  /** The first row of an ascending sort on dist. Among equally near rows
      the model takes the first in input order; pandas' default sort is not
      stable, so the source may pick another of them. */
  predicate NearestAt(c: seq<ListRow>, rceptDate: int, i: int) {
    0 <= i < |c|
    && (forall j :: 0 <= j < |c| ==> !Closer(Distance(c[j], rceptDate), Distance(c[i], rceptDate)))
    && (forall j :: 0 <= j < i ==> Closer(Distance(c[i], rceptDate), Distance(c[j], rceptDate)))
  }

  function Nearest(c: seq<ListRow>, rceptDate: int): (i: nat)
    requires c != []
    ensures NearestAt(c, rceptDate, i)
  {
    if |c| == 1 then 0
    else
      var j := Nearest(c[..|c| - 1], rceptDate);
      assert forall k :: 0 <= k < |c| - 1 ==> c[..|c| - 1][k] == c[k];
      if Closer(Distance(c[|c| - 1], rceptDate), Distance(c[j], rceptDate)) then |c| - 1 else j
  }

  /** The first row of a descending sort on rcept_no. */
  predicate LatestAt(c: seq<ListRow>, i: int) {
    0 <= i < |c|
    && (forall j :: 0 <= j < |c| ==> !LexLess(c[i].rceptNo, c[j].rceptNo))
    && (forall j :: 0 <= j < i ==> LexLess(c[j].rceptNo, c[i].rceptNo))
  }

  function Latest(c: seq<ListRow>): (i: nat)
    requires c != []
    ensures LatestAt(c, i)
  {
    if |c| == 1 then
      LexLessTotal(c[0].rceptNo, c[0].rceptNo);
      0
    else
      var n := |c| - 1;
      var j := Latest(c[..n]);
      assert forall k :: 0 <= k < n ==> c[..n][k] == c[k];
      LexLessTotal(c[n].rceptNo, c[j].rceptNo);
      if LexLess(c[j].rceptNo, c[n].rceptNo) then
        LatestStep(c, j);
        n
      else
        LatestKeep(c, j);
        j
  }

  lemma LatestStep(c: seq<ListRow>, j: nat)
    requires |c| >= 2 && LatestAt(c[..|c| - 1], j) && LexLess(c[j].rceptNo, c[|c| - 1].rceptNo)
    ensures LatestAt(c, |c| - 1)
  {
    var n := |c| - 1;
    forall k | 0 <= k < |c| ensures !LexLess(c[n].rceptNo, c[k].rceptNo) && (k < n ==> LexLess(c[k].rceptNo, c[n].rceptNo)) {
      if k < n {
        assert c[..n][k] == c[k];
        LexLessTotal(c[k].rceptNo, c[j].rceptNo);
        if LexLess(c[k].rceptNo, c[j].rceptNo) {
          LexLessTransitive(c[k].rceptNo, c[j].rceptNo, c[n].rceptNo);
        }
        LexLessTotal(c[n].rceptNo, c[k].rceptNo);
      } else {
        LexLessTotal(c[n].rceptNo, c[n].rceptNo);
      }
    }
  }

  lemma LatestKeep(c: seq<ListRow>, j: nat)
    requires |c| >= 2 && LatestAt(c[..|c| - 1], j) && !LexLess(c[j].rceptNo, c[|c| - 1].rceptNo)
    ensures LatestAt(c, j)
  {
    var n := |c| - 1;
    forall k | 0 <= k < j ensures LexLess(c[k].rceptNo, c[j].rceptNo) {
      assert c[..n][k] == c[k];
    }
    forall k | 0 <= k < n ensures !LexLess(c[j].rceptNo, c[k].rceptNo) {
      assert c[..n][k] == c[k];
    }
  }

  /** The receipt number chosen among the listed reports, or the error the
      source raises: empty listing, a missing rcept_no or report_nm column,
      or no 사업보고서 row. With rcept_dt the row nearest to rcept_date wins,
      otherwise the largest rcept_no. */
  function ChooseRceptNo(df: ListFrame, bsnsYear: int, rceptDate: int): Result<string> {
    if df.rows == [] then Err("empty listing")
    else if !df.hasRceptNo then Err("missing column rcept_no")
    else if !df.hasReportNm then Err("missing column report_nm")
    else
      var cand := Candidates(df, bsnsYear);
      if cand == [] then Err("no business report candidate")
      else if df.hasRceptDt then Ok(cand[Nearest(cand, rceptDate)].rceptNo)
      else Ok(cand[Latest(cand)].rceptNo)
  }

  /** An error exactly in the cases the source raises. */
  lemma ChooseRceptNoErrors(df: ListFrame, bsnsYear: int, rceptDate: int)
    ensures ChooseRceptNo(df, bsnsYear, rceptDate).Err? <==>
      df.rows == [] || !df.hasRceptNo || !df.hasReportNm
      || forall k :: 0 <= k < |df.rows| ==> !Contains(df.rows[k].reportNm, BUSINESS_REPORT)
  {
    var biz := BusinessRows(df.rows);
    if biz != [] {
      assert biz[0] in df.rows;
    }
    if exists k :: 0 <= k < |df.rows| && Contains(df.rows[k].reportNm, BUSINESS_REPORT) {
      var k :| 0 <= k < |df.rows| && Contains(df.rows[k].reportNm, BUSINESS_REPORT);
      assert df.rows[k] in biz;
    }
  }

  /** The candidates are business reports; they are those of bsns_year
      whenever the column exists and such a report is listed. */
  lemma CandidatesSpec(df: ListFrame, bsnsYear: int)
    ensures forall x :: x in Candidates(df, bsnsYear) ==>
      x in df.rows && Contains(x.reportNm, BUSINESS_REPORT)
    ensures df.hasBsnsYear && (exists x :: x in df.rows && Contains(x.reportNm, BUSINESS_REPORT)
                                && x.bsnsYear == IntToString(bsnsYear)) ==>
      forall x :: x in Candidates(df, bsnsYear) ==> x.bsnsYear == IntToString(bsnsYear)
  {
    var biz := BusinessRows(df.rows);
    var y := IntToString(bsnsYear);
    if df.hasBsnsYear && exists x :: x in df.rows && Contains(x.reportNm, BUSINESS_REPORT) && x.bsnsYear == y {
      var x :| x in df.rows && Contains(x.reportNm, BUSINESS_REPORT) && x.bsnsYear == y;
      assert x in YearRows(biz, y);
    }
  }

  /** With rcept_dt the chosen receipt is one whose date is nearest (no
      candidate is strictly nearer); without it, no candidate has a larger
      rcept_no. */
  lemma ChooseRceptNoBest(df: ListFrame, bsnsYear: int, rceptDate: int)
    requires ChooseRceptNo(df, bsnsYear, rceptDate).Ok?
    ensures var cand := Candidates(df, bsnsYear);
      exists i :: 0 <= i < |cand| && cand[i].rceptNo == ChooseRceptNo(df, bsnsYear, rceptDate).value
        && (df.hasRceptDt ==> NearestAt(cand, rceptDate, i))
        && (!df.hasRceptDt ==> LatestAt(cand, i))
  {
    var cand := Candidates(df, bsnsYear);
    if df.hasRceptDt {
      var i := Nearest(cand, rceptDate);
      assert cand[i].rceptNo == ChooseRceptNo(df, bsnsYear, rceptDate).value;
    } else {
      var i := Latest(cand);
      assert cand[i].rceptNo == ChooseRceptNo(df, bsnsYear, rceptDate).value;
    }
  }
}
