/** The section writers' metrics builder
    (src/sections/_common/builders/create_metrics.py): a metrics spec names a
    statement type, a period mode and a list of items; each item is looked up
    among the line items (by IFRS code, else by the shortest label containing
    label_like) and, when found, carries its facts of the latest one or two
    periods with table/row/column traces. */
module SectionMetrics {
  import opened Common
  import opened Json
  import CompanyData
  import PromptEvidence
  import Retrieve

  /** An fs_line_items row. */
  datatype LineItem = LineItem(lineItemId: string, statementType: string, ifrsCode: Option<string>,
                               labelKo: Option<string>, labelClean: Option<string>)

  /** An fs_facts row. */
  datatype Fact = Fact(reportId: string, lineItemId: string, periodEnd: Option<string>, fiscalYear: Option<int>,
                       value: Option<real>, unitMultiplier: Option<int>, currency: Option<string>,
                       tableId: Option<string>, rowIdx: Option<int>, colIdx: Option<int>)

  /** The two tables the builder reads, in table order. */
  datatype Db = Db(lineItems: seq<LineItem>, facts: seq<Fact>)

  // ---------------------------------------------------------------------------
  // _pick_latest_periods
  // ---------------------------------------------------------------------------

  /** JOIN fs_line_items ON line_item_id WHERE statement_type=?. */
  predicate OfStatement(db: Db, f: Fact, stype: string) {
    exists li :: li in db.lineItems && li.lineItemId == f.lineItemId && li.statementType == stype
  }

  /** WHERE report_id=? AND statement_type=? AND period_end IS NOT NULL. */
  predicate PeriodFact(db: Db, reportId: string, stype: string, f: Fact) {
    f.reportId == reportId && f.periodEnd.Some? && OfStatement(db, f, stype)
  }

  /** The period_end values of the report's facts of that statement type. */
  function PeriodEnds(db: Db, reportId: string, stype: string): (r: seq<string>)
    ensures forall i :: 0 <= i < |r| ==> exists f :: f in db.facts && PeriodFact(db, reportId, stype, f) && f.periodEnd == Some(r[i])
    ensures forall f :: f in db.facts && PeriodFact(db, reportId, stype, f) ==> f.periodEnd.value in r
  {
    var fs := Filter(db.facts, (f: Fact) => PeriodFact(db, reportId, stype, f));
    var r := seq(|fs|, i requires 0 <= i < |fs| => fs[i].periodEnd.value);
    assert forall i :: 0 <= i < |r| ==> fs[i] in db.facts && PeriodFact(db, reportId, stype, fs[i]) && fs[i].periodEnd == Some(r[i]);
    forall f | f in db.facts && PeriodFact(db, reportId, stype, f)
      ensures f.periodEnd.value in r
    {
      var i :| 0 <= i < |fs| && fs[i] == f;
      assert r[i] == f.periodEnd.value;
    }
    r
  }

  /** SELECT DISTINCT … ORDER BY DESC LIMIT 2: the largest value and, when
      there is another one, the largest of the others. */
  function Latest2(ds: seq<string>): seq<string> {
    if ds == [] then []
    else
      var m := CompanyData.MaxLex(ds);
      var rest := Filter(ds, (d: string) => d != m);
      if rest == [] then [m] else [m, CompanyData.MaxLex(rest)]
  }

  /** _pick_latest_periods: "current_only" keeps the first of the two. */
  function PickLatestPeriods(db: Db, reportId: string, stype: string, mode: string): seq<string> {
    var top := Latest2(PeriodEnds(db, reportId, stype));
    if mode == "current_only" then Take(top, 1) else top
  }

  /** At most two distinct values of ds, strictly descending: the first is
      the largest, the second the largest of the rest; two are taken
      whenever ds holds two different values. */
  lemma Latest2Spec(ds: seq<string>)
    ensures var r := Latest2(ds);
            |r| <= 2
            && (forall i :: 0 <= i < |r| ==> r[i] in ds)
            && (ds != [] <==> |r| >= 1)
            && (|r| >= 1 ==> forall d :: d in ds ==> !LexLess(r[0], d))
            && (|r| == 2 ==> LexLess(r[1], r[0]) && forall d :: d in ds && d != r[0] ==> !LexLess(r[1], d))
            && (forall a, b :: a in ds && b in ds && a != b ==> |r| == 2)
  {
    if ds != [] {
      var m := CompanyData.MaxLex(ds);
      var rest := Filter(ds, (d: string) => d != m);
      forall d | d in ds ensures !LexLess(m, d) {
        var k :| 0 <= k < |ds| && ds[k] == d;
      }
      if rest != [] {
        var m2 := CompanyData.MaxLex(rest);
        assert m2 in rest;
        LexLessTotal(m, m2);
        forall d | d in ds && d != m ensures !LexLess(m2, d) {
          assert d in rest;
          var k :| 0 <= k < |rest| && rest[k] == d;
        }
      } else {
        forall d | d in ds ensures d == m {
          assert d != m ==> d in rest;
        }
      }
    }
  }

  /** The periods picked are distinct period_end values of the report's facts
      of that statement type, latest first; "current_only" gives at most one
      and "latest_two" at most two, and none only when there is no such fact. */
  lemma PickLatestSpec(db: Db, reportId: string, stype: string, mode: string)
    ensures var r := PickLatestPeriods(db, reportId, stype, mode);
            var ds := PeriodEnds(db, reportId, stype);
            |r| <= (if mode == "current_only" then 1 else 2)
            && (forall i :: 0 <= i < |r| ==> r[i] in ds)
            && (|r| >= 1 ==> forall f :: f in db.facts && PeriodFact(db, reportId, stype, f) ==> !LexLess(r[0], f.periodEnd.value))
            && (|r| == 2 ==> LexLess(r[1], r[0]))
            && (r == [] <==> forall f :: f in db.facts ==> !PeriodFact(db, reportId, stype, f))
  {
    var ds := PeriodEnds(db, reportId, stype);
    Latest2Spec(ds);
    var top := Latest2(ds);
    if ds != [] {
      var f :| f in db.facts && PeriodFact(db, reportId, stype, f) && f.periodEnd == Some(ds[0]);
    }
  }

  // ---------------------------------------------------------------------------
  // The line item lookup
  // ---------------------------------------------------------------------------

  /** WHERE statement_type=? AND ifrs_code=?. */
  predicate IfrsMatch(li: LineItem, stype: string, code: string) {
    li.statementType == stype && li.ifrsCode == Some(code)
  }

  /** WHERE statement_type=? AND label_clean LIKE '%like%', with no ESCAPE
      clause: a '%' or '_' inside label_like is a wildcard too. */
  predicate LabelMatch(li: LineItem, stype: string, like: string) {
    li.statementType == stype && li.labelClean.Some?
    && Retrieve.LikeMatch(Retrieve.PlainLikeTokens("%" + like + "%"), li.labelClean.value)
  }

  /** A label_like without wildcards matches exactly the labels containing it. */
  lemma LabelMatchLiteral(li: LineItem, stype: string, like: string)
    requires Retrieve.NoWildcard(like)
    ensures LabelMatch(li, stype, like) <==>
            li.statementType == stype && li.labelClean.Some? && Contains(li.labelClean.value, like)
  {
    if li.labelClean.Some? {
      Retrieve.PlainContainsIff(like, li.labelClean.value);
    }
  }

  /** A '_' in label_like stands for any one character: "매출_가" finds the
      label "매출원가", which does not contain it as text. */
  lemma LabelWildcardMatches(stype: string)
    ensures LabelMatch(LineItem("li", stype, None, None, Some("매출원가")), stype, "매출_가")
    ensures !Contains("매출원가", "매출_가")
  {
    WildcardTokens();
    WildcardRun();
    if Contains("매출원가", "매출_가") {
      ContainsHas("매출원가", "매출_가", 2);
      assert false;
    }
  }

  lemma WildcardTokens()
    ensures Retrieve.PlainLikeTokens("%" + "매출_가" + "%")
            == [Retrieve.AnyRun, Retrieve.Lit('매'), Retrieve.Lit('출'), Retrieve.AnyOne, Retrieve.Lit('가'), Retrieve.AnyRun]
  {
    var r: seq<Retrieve.LikeTok> := [Retrieve.AnyRun];
    assert Retrieve.PlainLikeTokens("%") == r;
    assert Retrieve.PlainLikeTokens("가%") == [Retrieve.Lit('가')] + r by { assert "가%"[1..] == "%"; }
    assert Retrieve.PlainLikeTokens("_가%") == [Retrieve.AnyOne, Retrieve.Lit('가')] + r by { assert "_가%"[1..] == "가%"; }
    assert Retrieve.PlainLikeTokens("출_가%") == [Retrieve.Lit('출'), Retrieve.AnyOne, Retrieve.Lit('가')] + r by { assert "출_가%"[1..] == "_가%"; }
    assert Retrieve.PlainLikeTokens("매출_가%") == [Retrieve.Lit('매'), Retrieve.Lit('출'), Retrieve.AnyOne, Retrieve.Lit('가')] + r by { assert "매출_가%"[1..] == "출_가%"; }
    assert ("%" + "매출_가" + "%")[1..] == "매출_가%";
  }

  lemma WildcardRun()
    ensures Retrieve.LikeMatch([Retrieve.AnyRun, Retrieve.Lit('매'), Retrieve.Lit('출'), Retrieve.AnyOne, Retrieve.Lit('가'), Retrieve.AnyRun], "매출원가")
  {
    var r: seq<Retrieve.LikeTok> := [Retrieve.AnyRun];
    assert Retrieve.LikeMatch(r, []);
    var t4 := [Retrieve.Lit('가')] + r;
    assert Retrieve.LikeMatch(t4, "가") by { assert "가"[1..] == []; }
    var t3 := [Retrieve.AnyOne] + t4;
    assert Retrieve.LikeMatch(t3, "원가") by { assert "원가"[1..] == "가"; }
    var t2 := [Retrieve.Lit('출')] + t3;
    assert Retrieve.LikeMatch(t2, "출원가") by { assert "출원가"[1..] == "원가"; }
    var t1 := [Retrieve.Lit('매')] + t2;
    assert Retrieve.LikeMatch(t1, "매출원가") by { assert "매출원가"[1..] == "출원가"; }
    var t0 := [Retrieve.AnyRun] + t1;
    assert t0[1..] == t1;
    assert t0 == [Retrieve.AnyRun, Retrieve.Lit('매'), Retrieve.Lit('출'), Retrieve.AnyOne, Retrieve.Lit('가'), Retrieve.AnyRun];
  }

  /** Every character of a contained string occurs in the text. */
  lemma {:induction false} ContainsHas(s: string, sub: string, k: nat)
    requires Contains(s, sub) && k < |sub|
    ensures sub[k] in s
    decreases |s|
  {
    if StartsWith(s, sub) {
      assert s[k] == sub[k];
    } else {
      ContainsHas(s[1..], sub, k);
      assert sub[k] in s[1..];
    }
  }

  function LabelLength(li: LineItem): nat {
    if li.labelClean.Some? then |li.labelClean.value| else 0
  }

  /** LIMIT 1 without ORDER BY: the first match in table order. */
  function FindByIfrs(db: Db, stype: string, code: string): Option<LineItem> {
    match FirstIndex(db.lineItems, (li: LineItem) => IfrsMatch(li, stype, code))
    case Some(i) => Some(db.lineItems[i])
    case None => None
  }

  /** ORDER BY length(label_clean) ASC LIMIT 1. */
  function FindByLabel(db: Db, stype: string, like: string): Option<LineItem> {
    FirstMin(Filter(db.lineItems, (li: LineItem) => LabelMatch(li, stype, like)), LabelLength)
  }

  /** A truthy ifrs_code decides the lookup; otherwise the pattern is
      f"%{label_like}%", so a missing label_like searches for "None". */
  function FindItem(db: Db, stype: string, it: Dict, show: Show): Option<LineItem> {
    var code := Lookup(it, "ifrs_code");
    if code.Some? && Truthy(code.value) then FindByIfrs(db, stype, PyStr(code.value, show))
    else FindByLabel(db, stype, PyStr(Lookup(it, "label_like").GetOr(JNull), show))
  }

  /** With a truthy ifrs_code the item is the first line item of the statement
      type with that code, and there is none when no line item has it, whatever
      label_like says. */
  lemma IfrsLookupSpec(db: Db, stype: string, it: Dict, show: Show)
    requires Lookup(it, "ifrs_code").Some? && Truthy(Lookup(it, "ifrs_code").value)
    ensures var code := PyStr(Lookup(it, "ifrs_code").value, show);
            var r := FindItem(db, stype, it, show);
            (r.None? <==> forall li :: li in db.lineItems ==> !IfrsMatch(li, stype, code))
            && (r.Some? ==> exists i :: 0 <= i < |db.lineItems| && r.value == db.lineItems[i]
                              && IfrsMatch(r.value, stype, code)
                              && forall j :: 0 <= j < i ==> !IfrsMatch(db.lineItems[j], stype, code))
  {
    var code := PyStr(Lookup(it, "ifrs_code").value, show);
    var p := (li: LineItem) => IfrsMatch(li, stype, code);
    var k := FirstIndex(db.lineItems, p);
    if k.None? {
      forall li | li in db.lineItems ensures !IfrsMatch(li, stype, code) {
        var j :| 0 <= j < |db.lineItems| && db.lineItems[j] == li;
        assert !p(db.lineItems[j]);
      }
    } else {
      assert p(db.lineItems[k.value]);
      forall j | 0 <= j < k.value ensures !IfrsMatch(db.lineItems[j], stype, code) {
        assert !p(db.lineItems[j]);
      }
    }
  }

  /** Without a truthy ifrs_code the item is a line item of the statement type
      whose label_clean contains the pattern, no longer than any other such
      one, and there is none only when no label contains it. */
  lemma LabelLookupSpec(db: Db, stype: string, it: Dict, show: Show)
    requires !(Lookup(it, "ifrs_code").Some? && Truthy(Lookup(it, "ifrs_code").value))
    ensures var like := PyStr(Lookup(it, "label_like").GetOr(JNull), show);
            var r := FindItem(db, stype, it, show);
            (r.None? <==> forall li :: li in db.lineItems ==> !LabelMatch(li, stype, like))
            && (r.Some? ==> r.value in db.lineItems && LabelMatch(r.value, stype, like)
                            && forall li :: li in db.lineItems && LabelMatch(li, stype, like)
                                 ==> |r.value.labelClean.value| <= |li.labelClean.value|)
  {
    var like := PyStr(Lookup(it, "label_like").GetOr(JNull), show);
    var fs := Filter(db.lineItems, (li: LineItem) => LabelMatch(li, stype, like));
    if fs != [] {
      assert fs[0] in db.lineItems && LabelMatch(fs[0], stype, like);
    }
  }

  /** An item without label_like looks for label_clean containing "None". */
  lemma MissingLabelLike(db: Db, stype: string, it: Dict, show: Show)
    requires Lookup(it, "ifrs_code").None? && Lookup(it, "label_like").None?
    ensures FindItem(db, stype, it, show) == FindByLabel(db, stype, "None")
  {
  }

  // ---------------------------------------------------------------------------
  // The facts of a found item
  // ---------------------------------------------------------------------------

  /** a may come before b under ORDER BY period_end DESC (NULLs last). */
  predicate PeriodGe(a: Option<string>, b: Option<string>) {
    b.None? || (a.Some? && !LexLess(a.value, b.value))
  }

  lemma PeriodGeTotal(a: Option<string>, b: Option<string>)
    ensures PeriodGe(a, b) || PeriodGe(b, a)
  {
    if a.Some? && b.Some? { LexLessTotal(a.value, b.value); }
  }

  lemma PeriodGeTransitive(a: Option<string>, b: Option<string>, c: Option<string>)
    requires PeriodGe(a, b) && PeriodGe(b, c)
    ensures PeriodGe(a, c)
  {
    if c.Some? {
      LexLessTotal(a.value, c.value);
      LexLessTotal(a.value, b.value);
      if LexLess(a.value, c.value) {
        if LexLess(b.value, a.value) { LexLessTransitive(b.value, a.value, c.value); }
      }
    }
  }

  /** ORDER BY period_end DESC over facts. */
  predicate FactLater(a: Fact, b: Fact) {
    PeriodGe(a.periodEnd, b.periodEnd)
  }

  lemma FactLaterOrders()
    ensures TotalPreorder(FactLater)
  {
    forall a: Fact, b: Fact ensures FactLater(a, b) || FactLater(b, a) {
      PeriodGeTotal(a.periodEnd, b.periodEnd);
    }
    forall a: Fact, b: Fact, c: Fact | FactLater(a, b) && FactLater(b, c) ensures FactLater(a, c) {
      PeriodGeTransitive(a.periodEnd, b.periodEnd, c.periodEnd);
    }
  }

  function SortByPeriod(fs: seq<Fact>): seq<Fact> {
    SortBy(fs, FactLater)
  }

  predicate FactOf(f: Fact, reportId: string, lineItemId: string) {
    f.reportId == reportId && f.lineItemId == lineItemId
  }

  /** periods[i], or None (p_cur, p_prev). */
  function PeriodAt(periods: seq<string>, i: nat): Option<string> {
    if i < |periods| then Some(periods[i]) else None
  }

  /** The period condition AS WRITTEN:
      (p_cur IS NULL OR period_end=p_cur) OR (p_prev IS NULL OR period_end=p_prev);
      a NULL period_end equals nothing. */
  predicate WindowAsWritten(pe: Option<string>, pCur: Option<string>, pPrev: Option<string>) {
    (pCur.None? || (pe.Some? && pe == pCur)) || (pPrev.None? || (pe.Some? && pe == pPrev))
  }

  /** The facts query as written. */
  function ItemFactsAsWritten(db: Db, reportId: string, lineItemId: string, periods: seq<string>): seq<Fact> {
    SortByPeriod(Filter(db.facts, (f: Fact) => FactOf(f, reportId, lineItemId)
                                              && WindowAsWritten(f.periodEnd, PeriodAt(periods, 0), PeriodAt(periods, 1))))
  }

  /** The period condition as intended: the fact's period is one of the
      picked periods; with no period picked nothing is filtered. */
  predicate InPeriods(pe: Option<string>, periods: seq<string>) {
    periods == [] || (pe.Some? && pe.value in periods)
  }

  /** The facts of a found item, latest period first (the corrected query). */
  function ItemFacts(db: Db, reportId: string, lineItemId: string, periods: seq<string>): seq<Fact> {
    SortByPeriod(Filter(db.facts, (f: Fact) => FactOf(f, reportId, lineItemId) && InPeriods(f.periodEnd, periods)))
  }

  /** The facts of a found item are exactly that item's facts of the report
      in the picked periods (all of them when no period was picked), latest
      period first. */
  lemma ItemFactsSpec(db: Db, reportId: string, lineItemId: string, periods: seq<string>)
    ensures var r := ItemFacts(db, reportId, lineItemId, periods);
            SortedBy(r, FactLater)
            && (forall i :: 0 <= i < |r| ==> r[i] in db.facts && FactOf(r[i], reportId, lineItemId) && InPeriods(r[i].periodEnd, periods))
            && (forall f :: f in db.facts && FactOf(f, reportId, lineItemId) && InPeriods(f.periodEnd, periods) ==> f in r)
  {
    var fs := Filter(db.facts, (f: Fact) => FactOf(f, reportId, lineItemId) && InPeriods(f.periodEnd, periods));
    FactLaterOrders();
    SortBySorted(fs, FactLater);
    SortByMembers(fs, FactLater);
    var r := SortBy(fs, FactLater);
    forall i | 0 <= i < |r| ensures r[i] in fs {
      assert r[i] in r;
    }
  }

  /** The two conditions agree whenever two periods were picked, and whenever
      none were. */
  lemma WindowAgrees(pe: Option<string>, periods: seq<string>)
    requires |periods| == 2 || periods == []
    ensures WindowAsWritten(pe, PeriodAt(periods, 0), PeriodAt(periods, 1)) <==> InPeriods(pe, periods)
  {
  }

  /** A WHERE clause over equivalent conditions keeps the same rows. */
  lemma {:induction false} FilterSame<T>(xs: seq<T>, p: T -> bool, q: T -> bool)
    requires forall x :: x in xs ==> p(x) == q(x)
    ensures Filter(xs, p) == Filter(xs, q)
  {
    if xs != [] {
      assert forall x :: x in xs[1..] ==> x in xs;
      FilterSame(xs[1..], p, q);
    }
  }

  /** So whenever two periods were picked, or none, the query as written and
      the corrected one return the same facts in the same order. */
  lemma ItemFactsAgree(db: Db, reportId: string, lineItemId: string, periods: seq<string>)
    requires |periods| == 2 || periods == []
    ensures ItemFactsAsWritten(db, reportId, lineItemId, periods) == ItemFacts(db, reportId, lineItemId, periods)
  {
    forall f: Fact ensures WindowAsWritten(f.periodEnd, PeriodAt(periods, 0), PeriodAt(periods, 1)) <==> InPeriods(f.periodEnd, periods) {
      WindowAgrees(f.periodEnd, periods);
    }
    FilterSame(db.facts, (f: Fact) => FactOf(f, reportId, lineItemId) && WindowAsWritten(f.periodEnd, PeriodAt(periods, 0), PeriodAt(periods, 1)),
                         (f: Fact) => FactOf(f, reportId, lineItemId) && InPeriods(f.periodEnd, periods));
  }

  /** As written, with one period picked (mode "current_only", or a single
      period in the report) the condition holds for every fact: facts of
      the earlier periods, and those without a period, are returned too. */
  lemma WindowAsWrittenSinglePeriod(pe: Option<string>, p: string)
    ensures WindowAsWritten(pe, Some(p), None)
    ensures InPeriods(pe, [p]) <==> pe == Some(p)
  {
  }

  const LEAK_ITEM := LineItem("L1", "BS", None, Some("부채총계"), Some("부채총계"))
  const LEAK_2023 := Fact("R", "L1", Some("2023-12-31"), Some(2023), Some(10.0), Some(1), Some("KRW"), Some("T"), Some(1), Some(1))
  const LEAK_2022 := Fact("R", "L1", Some("2022-12-31"), Some(2022), Some(8.0), Some(1), Some("KRW"), Some("T"), Some(1), Some(2))
  const LEAK_DB := Db([LEAK_ITEM], [LEAK_2023, LEAK_2022])

  lemma EarlierYearEnd()
    ensures LexLess("2022-12-31", "2023-12-31") && !LexLess("2023-12-31", "2022-12-31")
  {
    var a, b := "2022-12-31", "2023-12-31";
    assert LexLess(a[3..], b[3..]);
    assert LexLess(a[2..], b[2..]);
    assert LexLess(a[1..], b[1..]);
    LexLessTotal(a, b);
  }

  lemma LeakEnds()
    ensures PeriodEnds(LEAK_DB, "R", "BS") == ["2023-12-31", "2022-12-31"]
  {
    assert PeriodFact(LEAK_DB, "R", "BS", LEAK_2023) && PeriodFact(LEAK_DB, "R", "BS", LEAK_2022);
    assert Filter(LEAK_DB.facts, (f: Fact) => PeriodFact(LEAK_DB, "R", "BS", f)) == [LEAK_2023, LEAK_2022];
  }

  /** In that report "current_only" picks only 2023-12-31. */
  lemma LeakPeriods()
    ensures PickLatestPeriods(LEAK_DB, "R", "BS", "current_only") == ["2023-12-31"]
  {
    LeakEnds();
    EarlierYearEnd();
    CurrentOnlyOfTwo(LEAK_DB, "R", "BS", "2023-12-31", "2022-12-31");
  }

  /** With two period ends, "current_only" picks the later one. */
  lemma CurrentOnlyOfTwo(db: Db, reportId: string, stype: string, a: string, b: string)
    requires PeriodEnds(db, reportId, stype) == [a, b] && LexLess(b, a)
    ensures PickLatestPeriods(db, reportId, stype, "current_only") == [a]
  {
    var ds := [a, b];
    Latest2Spec(ds);
    var top := Latest2(ds);
    assert a in ds;
    assert !LexLess(top[0], a);
    assert top[0] == a;
    assert Take(top, 1) == [top[0]];
  }

  lemma LeakFiltered(periods: seq<string>)
    requires periods == ["2023-12-31"]
    ensures Filter(LEAK_DB.facts, (f: Fact) => FactOf(f, "R", "L1") && WindowAsWritten(f.periodEnd, PeriodAt(periods, 0), PeriodAt(periods, 1)))
            == [LEAK_2023, LEAK_2022]
    ensures Filter(LEAK_DB.facts, (f: Fact) => FactOf(f, "R", "L1") && InPeriods(f.periodEnd, periods)) == [LEAK_2023]
  {
  }

  lemma LeakSorted()
    ensures SortByPeriod([LEAK_2023, LEAK_2022]) == [LEAK_2023, LEAK_2022]
    ensures SortByPeriod([LEAK_2023]) == [LEAK_2023]
  {
    EarlierYearEnd();
    assert SortByPeriod([LEAK_2022]) == [LEAK_2022];
    assert PeriodGe(LEAK_2023.periodEnd, LEAK_2022.periodEnd);
    assert [LEAK_2023, LEAK_2022][1..] == [LEAK_2022];
  }

  /** A report with a balance sheet line of 2023 and 2022: with mode
      "current_only" only 2023-12-31 is picked, yet the query as written
      returns both facts, where the corrected one returns the 2023 fact. */
  lemma CurrentOnlyLeak()
    ensures var periods := PickLatestPeriods(LEAK_DB, "R", "BS", "current_only");
            ItemFactsAsWritten(LEAK_DB, "R", "L1", periods) == [LEAK_2023, LEAK_2022]
            && ItemFacts(LEAK_DB, "R", "L1", periods) == [LEAK_2023]
  {
    LeakPeriods();
    LeakFiltered(["2023-12-31"]);
    LeakSorted();
  }

  // ---------------------------------------------------------------------------
  // build_metrics_for_section
  // ---------------------------------------------------------------------------

  datatype Trace = Trace(tableId: Option<string>, rowIdx: Option<int>, colIdx: Option<int>)

  /** One entry of a row's periods. */
  datatype PeriodValue = PeriodValue(periodEnd: Option<string>, fiscalYear: Option<int>, value: Option<real>,
                                     unitMultiplier: Option<int>, currency: Option<string>, trace: Trace)

  /** One output row; key is the item's "key" value as given. */
  datatype Row = Row(key: Value, found: bool, lineItemId: Option<string>, labelKo: Option<string>,
                     labelClean: Option<string>, periods: seq<PeriodValue>)

  /** The metrics JSON; statementType is absent on the early returns. */
  datatype SectionMetricsJson = SectionMetricsJson(reportId: string, statementType: Option<Value>, rows: seq<Row>)

  function PeriodValueOf(f: Fact): PeriodValue {
    PeriodValue(f.periodEnd, f.fiscalYear, f.value, f.unitMultiplier, f.currency, Trace(f.tableId, f.rowIdx, f.colIdx))
  }

  function PeriodValues(fs: seq<Fact>): (r: seq<PeriodValue>)
    ensures |r| == |fs|
  {
    seq(|fs|, i requires 0 <= i < |fs| => PeriodValueOf(fs[i]))
  }

  function NotFound(key: Value): Row {
    Row(key, false, None, None, None, [])
  }

  /** The row of one spec item: None when its key is falsy; `.get` on a
      non-dict item raises. */
  function ItemRow(db: Db, reportId: string, stype: string, periods: seq<string>, it: Value, show: Show): Result<Option<Row>> {
    if !it.JObj? then Err("AttributeError: object has no attribute 'get'")
    else
      var key := Lookup(it.fields, "key");
      if key.None? || !Truthy(key.value) then Ok(None)
      else match FindItem(db, stype, it.fields, show)
        case None => Ok(Some(NotFound(key.value)))
        case Some(li) =>
          Ok(Some(Row(key.value, true, Some(li.lineItemId), li.labelKo, li.labelClean,
                      PeriodValues(ItemFacts(db, reportId, li.lineItemId, periods)))))
  }

  /** The rows of the items, in item order; the first failing item decides. */
  function ItemRows(db: Db, reportId: string, stype: string, periods: seq<string>, items: seq<Value>, show: Show): Result<seq<Row>> {
    if items == [] then Ok([])
    else match ItemRows(db, reportId, stype, periods, items[..|items| - 1], show)
      case Err(e) => Err(e)
      case Ok(rows) =>
        match ItemRow(db, reportId, stype, periods, items[|items| - 1], show)
        case Err(e) => Err(e)
        case Ok(None) => Ok(rows)
        case Ok(Some(r)) => Ok(rows + [r])
  }

  /** (spec.get("periods") or "latest_two").strip(). */
  function Mode(d: Dict): Result<string> {
    var p := Lookup(d, "periods");
    if p.None? || !Truthy(p.value) then Ok("latest_two")
    else if p.value.JStr? then Ok(Strip(p.value.s))
    else Err("AttributeError: object has no attribute 'strip'")
  }

  function NoRows(reportId: string): SectionMetricsJson {
    SectionMetricsJson(reportId, None, [])
  }

  function BuildMetrics(db: Db, reportId: string, spec: Value, show: Show): Result<SectionMetricsJson> {
    if !Truthy(spec) then Ok(NoRows(reportId))
    else BuildMetricsOfSpec(db, reportId, PromptEvidence.FirstIfList(spec), show)
  }

  /** The builder after a truthy spec has been narrowed to its first element. */
  function BuildMetricsOfSpec(db: Db, reportId: string, s: Value, show: Show): Result<SectionMetricsJson> {
    if !s.JObj? then Ok(NoRows(reportId))
    else
      var stype := Lookup(s.fields, "statement_type");
      match Mode(s.fields)
      case Err(e) => Err(e)
      case Ok(mode) =>
        var items := Lookup(s.fields, "keys");
        if stype.None? || !Truthy(stype.value) || items.None? || !Truthy(items.value) then Ok(NoRows(reportId))
        else
          var st := PyStr(stype.value, show);
          var periods := PickLatestPeriods(db, reportId, st, mode);
          match Iterate(items.value)
          case Err(e) => Err(e)
          case Ok(xs) =>
            match ItemRows(db, reportId, st, periods, xs, show)
            case Err(e) => Err(e)
            case Ok(rows) => Ok(SectionMetricsJson(reportId, Some(stype.value), rows))
  }

  /** The loop building periods_out. */
  method CollectPeriods(facts: seq<Fact>) returns (out: seq<PeriodValue>)
    ensures out == PeriodValues(facts)
  {
    out := [];
    for i := 0 to |facts|
      invariant |out| == i && forall j :: 0 <= j < i ==> out[j] == PeriodValueOf(facts[j])
    {
      var f := facts[i];
      out := out + [PeriodValue(f.periodEnd, f.fiscalYear, f.value, f.unitMultiplier, f.currency,
                                Trace(f.tableId, f.rowIdx, f.colIdx))];
    }
  }

  /** The loop over the spec items appending to out_rows. */
  method CollectRows(db: Db, reportId: string, stype: string, periods: seq<string>, items: seq<Value>, show: Show)
    returns (r: Result<seq<Row>>)
    ensures r == ItemRows(db, reportId, stype, periods, items, show)
  {
    var out: seq<Row> := [];
    for i := 0 to |items|
      invariant ItemRows(db, reportId, stype, periods, items[..i], show) == Ok(out)
    {
      assert items[..i + 1][..i] == items[..i];
      var it := items[i];
      if !it.JObj? {
        assert ItemRows(db, reportId, stype, periods, items[..i + 1], show).Err?;
        ItemRowsErrSticky(db, reportId, stype, periods, items, show, i + 1);
        assert items[..|items|] == items;
        return Err("AttributeError: object has no attribute 'get'");
      }
      var key := Lookup(it.fields, "key");
      if key.None? || !Truthy(key.value) {
        continue;
      }
      var li := FindItem(db, stype, it.fields, show);
      if li.None? {
        out := out + [NotFound(key.value)];
        continue;
      }
      var facts := ItemFacts(db, reportId, li.value.lineItemId, periods);
      var periodsOut := CollectPeriods(facts);
      out := out + [Row(key.value, true, Some(li.value.lineItemId), li.value.labelKo, li.value.labelClean, periodsOut)];
    }
    assert items[..|items|] == items;
    r := Ok(out);
  }

  /** Once a prefix of the items fails, the whole list fails with that error. */
  lemma {:induction false} ItemRowsErrSticky(db: Db, reportId: string, stype: string, periods: seq<string>,
                                             items: seq<Value>, show: Show, n: nat)
    requires n <= |items|
    requires ItemRows(db, reportId, stype, periods, items[..n], show).Err?
    ensures ItemRows(db, reportId, stype, periods, items, show) == ItemRows(db, reportId, stype, periods, items[..n], show)
    decreases |items| - n
  {
    if n < |items| {
      assert items[..n + 1][..n] == items[..n];
      ItemRowsErrSticky(db, reportId, stype, periods, items, show, n + 1);
    } else {
      assert items[..n] == items;
    }
  }

  method BuildMetricsForSection(db: Db, reportId: string, spec: Value, show: Show) returns (r: Result<SectionMetricsJson>)
    ensures r == BuildMetrics(db, reportId, spec, show)
  {
    if !Truthy(spec) {
      return Ok(NoRows(reportId));
    }
    var s := PromptEvidence.FirstIfList(spec);
    if !s.JObj? {
      return Ok(NoRows(reportId));
    }
    var stype := Lookup(s.fields, "statement_type");
    var mode := Mode(s.fields);
    if mode.Err? {
      return Err(mode.msg);
    }
    var items := Lookup(s.fields, "keys");
    if stype.None? || !Truthy(stype.value) || items.None? || !Truthy(items.value) {
      return Ok(NoRows(reportId));
    }
    var st := PyStr(stype.value, show);
    var periods := PickLatestPeriods(db, reportId, st, mode.value);
    var xs := Iterate(items.value);
    if xs.Err? {
      return Err(xs.msg);
    }
    var rows := CollectRows(db, reportId, st, periods, xs.value, show);
    if rows.Err? {
      return Err(rows.msg);
    }
    r := Ok(SectionMetricsJson(reportId, Some(stype.value), rows.value));
  }

  // ---------------------------------------------------------------------------
  // Properties of build_metrics_for_section
  // ---------------------------------------------------------------------------

  /** The keys of the items that produce a row: dict items with a truthy key. */
  function RowKeys(items: seq<Value>): seq<Value> {
    if items == [] then []
    else
      var it := items[|items| - 1];
      var key := if it.JObj? then Lookup(it.fields, "key") else None;
      RowKeys(items[..|items| - 1]) + (if key.Some? && Truthy(key.value) then [key.value] else [])
  }

  /** One item yields an error exactly when it is not a dict, no row exactly
      when its key is falsy, and otherwise a row carrying its key. */
  lemma ItemRowShape(db: Db, reportId: string, stype: string, periods: seq<string>, it: Value, show: Show)
    ensures var r := ItemRow(db, reportId, stype, periods, it, show);
            var key := if it.JObj? then Lookup(it.fields, "key") else None;
            (r.Ok? <==> it.JObj?)
            && (r.Ok? ==> (r.value.None? <==> !(key.Some? && Truthy(key.value))))
            && (r.Ok? && r.value.Some? ==> r.value.value.key == key.value)
  {
  }

  /** The rows succeed exactly when every item is a dict. */
  lemma {:induction false} RowsOkIff(db: Db, reportId: string, stype: string, periods: seq<string>, items: seq<Value>, show: Show)
    ensures ItemRows(db, reportId, stype, periods, items, show).Ok? <==> forall i :: 0 <= i < |items| ==> items[i].JObj?
  {
    if items != [] {
      var init := items[..|items| - 1];
      var last := items[|items| - 1];
      RowsOkIff(db, reportId, stype, periods, init, show);
      ItemRowOkIff(db, reportId, stype, periods, last, show);
      AllObjectsSnoc(items, init);
    }
  }

  lemma ItemRowOkIff(db: Db, reportId: string, stype: string, periods: seq<string>, it: Value, show: Show)
    ensures ItemRow(db, reportId, stype, periods, it, show).Ok? <==> it.JObj?
  {
    ItemRowShape(db, reportId, stype, periods, it, show);
  }

  lemma AllObjectsSnoc(items: seq<Value>, init: seq<Value>)
    requires items != [] && init == items[..|items| - 1]
    ensures (forall i :: 0 <= i < |items| ==> items[i].JObj?)
            <==> (forall i :: 0 <= i < |init| ==> init[i].JObj?) && items[|items| - 1].JObj?
  {
    assert forall i :: 0 <= i < |init| ==> init[i] == items[i];
  }

  /** Successful rows are one per item with a truthy key, in item order,
      carrying that key. */
  lemma {:induction false} RowsFollowItems(db: Db, reportId: string, stype: string, periods: seq<string>, items: seq<Value>, show: Show)
    requires ItemRows(db, reportId, stype, periods, items, show).Ok?
    ensures var rows := ItemRows(db, reportId, stype, periods, items, show).value;
            |rows| == |RowKeys(items)| && forall i :: 0 <= i < |rows| ==> rows[i].key == RowKeys(items)[i]
  {
    if items != [] {
      var init := items[..|items| - 1];
      RowsFollowItems(db, reportId, stype, periods, init, show);
      ItemRowShape(db, reportId, stype, periods, items[|items| - 1], show);
    }
  }

  /** A row is found exactly when the lookup finds a line item. A row not
      found has no line item, no labels and no periods; a found row carries
      the line item's id and labels and one entry per fact of its periods,
      with that fact's table, row and column as trace. */
  lemma ItemRowSpec(db: Db, reportId: string, stype: string, periods: seq<string>, it: Value, show: Show)
    requires it.JObj? && Lookup(it.fields, "key").Some? && Truthy(Lookup(it.fields, "key").value)
    ensures var r := ItemRow(db, reportId, stype, periods, it, show);
            var li := FindItem(db, stype, it.fields, show);
            r.Ok? && r.value.Some? && r.value.value.key == Lookup(it.fields, "key").value
            && (r.value.value.found <==> li.Some?)
            && (li.None? ==> r.value.value.lineItemId.None? && r.value.value.labelKo.None?
                             && r.value.value.labelClean.None? && r.value.value.periods == [])
            && (li.Some? ==> var facts := ItemFacts(db, reportId, li.value.lineItemId, periods);
                             r.value.value.lineItemId == Some(li.value.lineItemId)
                             && r.value.value.labelKo == li.value.labelKo && r.value.value.labelClean == li.value.labelClean
                             && |r.value.value.periods| == |facts|
                             && forall i :: 0 <= i < |facts| ==>
                                  r.value.value.periods[i].periodEnd == facts[i].periodEnd
                                  && r.value.value.periods[i].value == facts[i].value
                                  && r.value.value.periods[i].trace == Trace(facts[i].tableId, facts[i].rowIdx, facts[i].colIdx))
  {
  }

  /** An item whose key is missing or falsy produces no row. */
  lemma FalsyKeySkipped(db: Db, reportId: string, stype: string, periods: seq<string>, it: Value, show: Show)
    requires it.JObj? && !(Lookup(it.fields, "key").Some? && Truthy(Lookup(it.fields, "key").value))
    ensures ItemRow(db, reportId, stype, periods, it, show) == Ok(None)
  {
  }

  /** rows is [] (and statement_type absent) for a falsy spec, a spec that is
      not a dict after taking a list's first element, and a dict without a
      truthy statement_type or keys. */
  lemma NoRowsCases(db: Db, reportId: string, spec: Value, show: Show)
    ensures !Truthy(spec) ==> BuildMetrics(db, reportId, spec, show) == Ok(NoRows(reportId))
    ensures Truthy(spec) && !PromptEvidence.FirstIfList(spec).JObj? ==> BuildMetrics(db, reportId, spec, show) == Ok(NoRows(reportId))
    ensures var s := PromptEvidence.FirstIfList(spec);
            Truthy(spec) && s.JObj? && Mode(s.fields).Ok? && !HasTruthy(s.fields, "statement_type")
            ==> BuildMetrics(db, reportId, spec, show) == Ok(NoRows(reportId))
    ensures var s := PromptEvidence.FirstIfList(spec);
            Truthy(spec) && s.JObj? && Mode(s.fields).Ok? && !HasTruthy(s.fields, "keys")
            ==> BuildMetrics(db, reportId, spec, show) == Ok(NoRows(reportId))
  {
  }

  /** A list spec is read through its first element. */
  lemma ListSpecFirst(db: Db, reportId: string, first: Value, rest: seq<Value>, show: Show)
    requires first.JObj?
    ensures BuildMetrics(db, reportId, JList([first] + rest), show) == BuildMetrics(db, reportId, first, show)
  {
    var spec := JList([first] + rest);
    assert Truthy(spec) && PromptEvidence.FirstIfList(spec) == first;
    if Truthy(first) {
      assert PromptEvidence.FirstIfList(first) == first;
    } else {
      assert first.fields == [];
      assert Lookup(first.fields, "statement_type").None? && Lookup(first.fields, "periods").None?;
    }
  }

  /** A full result names the statement type of the spec and holds one row
      per item with a truthy key, in order. */
  lemma FullResultSpec(db: Db, reportId: string, d: Dict, items: seq<Value>, show: Show)
    requires HasTruthy(d, "statement_type") && Mode(d).Ok?
    requires Lookup(d, "keys") == Some(JList(items)) && items != []
    requires forall i :: 0 <= i < |items| ==> items[i].JObj?
    ensures var r := BuildMetrics(db, reportId, JObj(d), show);
            r.Ok? && r.value.statementType == Lookup(d, "statement_type")
            && |r.value.rows| == |RowKeys(items)|
            && forall i :: 0 <= i < |r.value.rows| ==> r.value.rows[i].key == RowKeys(items)[i]
  {
    var st := PyStr(Lookup(d, "statement_type").value, show);
    var periods := PickLatestPeriods(db, reportId, st, Mode(d).value);
    RowsOkIff(db, reportId, st, periods, items, show);
    RowsFollowItems(db, reportId, st, periods, items, show);
    BuildMetricsOfRows(db, reportId, d, items, show);
  }

  /** With list-valued keys whose rows all build, the result holds those rows. */
  lemma BuildMetricsOfRows(db: Db, reportId: string, d: Dict, items: seq<Value>, show: Show)
    requires HasTruthy(d, "statement_type") && Mode(d).Ok?
    requires Lookup(d, "keys") == Some(JList(items)) && items != []
    requires var st := PyStr(Lookup(d, "statement_type").value, show);
             ItemRows(db, reportId, st, PickLatestPeriods(db, reportId, st, Mode(d).value), items, show).Ok?
    ensures var st := PyStr(Lookup(d, "statement_type").value, show);
            var rows := ItemRows(db, reportId, st, PickLatestPeriods(db, reportId, st, Mode(d).value), items, show).value;
            BuildMetrics(db, reportId, JObj(d), show) == Ok(SectionMetricsJson(reportId, Lookup(d, "statement_type"), rows))
  {
    assert Truthy(JObj(d));
    assert PromptEvidence.FirstIfList(JObj(d)) == JObj(d);
    assert Truthy(JList(items));
    assert Iterate(JList(items)) == Ok(items);
    var st := PyStr(Lookup(d, "statement_type").value, show);
    var periods := PickLatestPeriods(db, reportId, st, Mode(d).value);
    assert BuildMetrics(db, reportId, JObj(d), show)
           == match ItemRows(db, reportId, st, periods, items, show)
              case Err(e) => Err(e)
              case Ok(rows) => Ok(SectionMetricsJson(reportId, Some(Lookup(d, "statement_type").value), rows));
  }

  /** A periods value that is truthy but not a string raises before anything
      is looked up. */
  lemma BadModeRaises(db: Db, reportId: string, d: Dict, show: Show)
    requires Lookup(d, "periods").Some? && Truthy(Lookup(d, "periods").value) && !Lookup(d, "periods").value.JStr?
    ensures BuildMetrics(db, reportId, JObj(d), show).Err?
  {
  }
}
