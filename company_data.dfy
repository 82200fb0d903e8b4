/** Market-sample preparation of resources/company_data.py: code padding,
    blank tests, the receipt-date lookup over DART listing windows, the
    40/30/30 tier sampling and the static benchmark table. */
module CompanyData {
  import opened Common

  // ---------------------------------------------------------------------------
  // Code padding (fix_corp_code_8, fix_stock_code_6)
  // ---------------------------------------------------------------------------

  /** str(x) of a pandas cell: a missing value (NaN) reads "nan". */
  function CellStr(x: Option<string>): string {
    if x.None? then "nan" else x.value
  }

  /** re.sub(r"\.0$", "", s). `$` also matches just before a final newline,
      so "12.0\n" loses its ".0" too. */
  function DropDotZero(s: string): (r: string)
    ensures |r| <= |s|
  {
    if EndsWith(s, ".0") then s[..|s| - 2]
    else if EndsWith(s, ".0\n") then s[..|s| - 3] + "\n"
    else s
  }

  /** One cell of fix_corp_code_8: str, drop ".0", keep digits, zfill(8). */
  function FixCorpCode8(x: Option<string>): string {
    ZFill(DigitsOnly(DropDotZero(CellStr(x))), 8)
  }

  /** One cell of fix_stock_code_6: NaN becomes "" first, then as above with zfill(6). */
  function FixStockCode6(x: Option<string>): string {
    ZFill(DigitsOnly(DropDotZero(if x.None? then "" else x.value)), 6)
  }

  predicate AllDigits(s: string) {
    forall k :: 0 <= k < |s| ==> IsDigit(s[k])
  }

  /** The padded code is all digits, at least 8 long, and ends with the digits
      of the cell once a trailing ".0" is gone. */
  lemma FixCorpCode8Shape(x: Option<string>)
    ensures AllDigits(FixCorpCode8(x))
    ensures |FixCorpCode8(x)| == Max(8, |DigitsOnly(DropDotZero(CellStr(x)))|)
    ensures EndsWith(FixCorpCode8(x), DigitsOnly(DropDotZero(CellStr(x))))
  {
  }

  lemma FixStockCode6Shape(x: Option<string>)
    ensures AllDigits(FixStockCode6(x))
    ensures |FixStockCode6(x)| == Max(6, |DigitsOnly(DropDotZero(if x.None? then "" else x.value))|)
  {
  }

  lemma DigitsOnlyOfNan()
    ensures DigitsOnly("nan") == ""
  {
    assert DigitsOnly("nan") == DigitsOnly("an") == DigitsOnly("n") == DigitsOnly("");
  }

  /** A missing corp code pads to all zeros. */
  lemma FixCorpCode8OfMissing()
    ensures FixCorpCode8(None) == "00000000"
  {
    DigitsOnlyOfNan();
    assert DropDotZero("nan") == "nan";
    ZerosOfEmpty(8);
  }

  /** A missing or empty stock code pads to all zeros. */
  lemma FixStockCode6OfMissing()
    ensures FixStockCode6(None) == "000000"
    ensures FixStockCode6(Some("")) == "000000"
  {
    assert DropDotZero("") == "";
    ZerosOfEmpty(6);
  }

  lemma ZerosOfEmpty(w: nat)
    ensures ZFill("", w) == seq(w, _ => '0')
  {
  }

  /** A digit string read back as a float ("1234.0") pads like the string itself. */
  lemma FixCorpCode8OfFloat(d: string)
    requires IsDigits(d)
    ensures FixCorpCode8(Some(d + ".0")) == FixCorpCode8(Some(d)) == ZFill(d, 8)
  {
    assert (d + ".0")[|d|..] == ".0";
    assert (d + ".0")[..|d + ".0"| - 2] == d;
    DigitStringKept(d);
  }

  lemma DigitStringKept(s: string)
    requires AllDigits(s)
    ensures DropDotZero(s) == s
    ensures DigitsOnly(s) == s
  {
    NoDigitSuffix(s, ".0");
    NoDigitSuffix(s, ".0\n");
  }

  /** A digit string does not end with a suffix that starts with '.'. */
  lemma NoDigitSuffix(s: string, p: string)
    requires AllDigits(s) && p != [] && p[0] == '.'
    ensures !EndsWith(s, p)
  {
    if |p| <= |s| {
      var i := |s| - |p|;
      assert s[i..][0] == s[i];
    }
  }

  /** Padding twice is padding once (the pipeline pads codes at every step). */
  lemma FixCorpCode8Idempotent(x: Option<string>)
    ensures FixCorpCode8(Some(FixCorpCode8(x))) == FixCorpCode8(x)
  {
    FixCorpCode8Shape(x);
    DigitStringKept(FixCorpCode8(x));
  }

  lemma FixStockCode6Idempotent(x: Option<string>)
    ensures FixStockCode6(Some(FixStockCode6(x))) == FixStockCode6(x)
  {
    FixStockCode6Shape(x);
    DigitStringKept(FixStockCode6(x));
  }

  // ---------------------------------------------------------------------------
  // nonempty / is_blank
  // ---------------------------------------------------------------------------

  /** nonempty(x): not None, and its stripped text is neither "" nor "nan"/"none" in any case. */
  predicate Nonempty(x: Option<string>) {
    x.Some? && (var s := Strip(x.value); s != "" && Lower(s) != "nan" && Lower(s) != "none")
  }

  /** is_blank(x): None, or stripped and lowered it is "", "nan" or "none". */
  predicate IsBlank(x: Option<string>) {
    x.None? || (var s := Lower(Strip(x.value)); s == "" || s == "nan" || s == "none")
  }

  /** The two tests are exact complements. */
  lemma NonemptyIffNotBlank(x: Option<string>)
    ensures Nonempty(x) <==> !IsBlank(x)
  {
    if x.Some? {
      var s := Strip(x.value);
      assert s == "" <==> Lower(s) == "" by {
        assert |Lower(s)| == |s|;
      }
    }
  }

  /** Trimming and case do not matter. */
  lemma BlankPaddedNan()
    ensures IsBlank(Some(" NaN "))
  {
    StripPaddedNaN();
    LowerNaN();
  }

  lemma StripPaddedNaN()
    ensures Strip(" NaN ") == "NaN"
  {
    StripPadded("NaN");
    assert " " + "NaN" + " " == " NaN ";
  }

  /** One space on each side of a stripped word is what strip removes. */
  lemma StripPadded(w: string)
    requires w != [] && !IsSpace(w[0]) && !IsSpace(w[|w| - 1])
    ensures Strip(" " + w + " ") == w
  {
    var p := " " + w + " ";
    assert p[1..] == w + " ";
    assert LStrip(p) == LStrip(w + " ") == w + " ";
    assert (w + " ")[..|w|] == w;
    assert RStrip(w + " ") == RStrip(w) == w;
  }

  lemma LowerNaN()
    ensures Lower("NaN") == "nan"
  {
    assert Lower("N") == "n";
    assert Lower("aN") == "a" + Lower("N");
    assert Lower("NaN") == "n" + Lower("aN");
  }

  /** "0" is a value, not a blank. */
  lemma NonemptyZero()
    ensures Nonempty(Some(" 0 "))
  {
    StripPadded("0");
    assert " " + "0" + " " == " 0 ";
    assert Lower("0") == "0";
  }

  // ---------------------------------------------------------------------------
  // _fallback_dates
  // ---------------------------------------------------------------------------

  const FALLBACK_OFFSETS: seq<int> := [0, -1, -2, 1, 2, -3, 3, -4, 4]

  /** The nine candidate days around a receipt date, as day numbers. */
  function FallbackDays(base: int): (r: seq<int>)
    ensures |r| == |FALLBACK_OFFSETS|
  {
    seq(|FALLBACK_OFFSETS|, i requires 0 <= i < |FALLBACK_OFFSETS| => base + FALLBACK_OFFSETS[i])
  }

  /** The date itself first, then ever farther days, the earlier day of each
      distance first: nine distinct days covering base - 4 .. base + 4. */
  lemma FallbackDaysSpec(base: int)
    ensures FallbackDays(base) == [base, base - 1, base - 2, base + 1, base + 2, base - 3, base + 3, base - 4, base + 4]
    ensures forall i, j :: 0 <= i < j < 9 ==> FallbackDays(base)[i] != FallbackDays(base)[j]
    ensures forall d :: d in FallbackDays(base) <==> base - 4 <= d <= base + 4
    ensures seq(9, i requires 0 <= i < 9 => Distance(FallbackDays(base)[i], base)) == [0, 1, 2, 1, 2, 3, 3, 4, 4]
  {
    var r := FallbackDays(base);
    assert r == [base, base - 1, base - 2, base + 1, base + 2, base - 3, base + 3, base - 4, base + 4];
    forall d | base - 4 <= d <= base + 4 ensures d in r {
      var o := d - base;
      var k := if o == 0 then 0 else if o == -1 then 1 else if o == -2 then 2 else if o == 1 then 3
        else if o == 2 then 4 else if o == -3 then 5 else if o == 3 then 6 else if o == -4 then 7 else 8;
      assert 0 <= k < 9 && r[k] == d;
    }
  }

  function Distance(a: int, b: int): nat {
    if a >= b then a - b else b - a
  }

  // ---------------------------------------------------------------------------
  // pick_latest_business_report
  // ---------------------------------------------------------------------------

  /** One item of a DART list.json page; a key the item lacks is NaN. */
  datatype ListItem = ListItem(reportNm: Option<string>, rceptDt: Option<string>)

  /** str.match(r"^\d{8}$"): eight digits, optionally followed by a final newline. */
  predicate Is8Digits(s: string) {
    (|s| == 8 || (|s| == 9 && s[8] == '\n')) && EightDigits(s)
  }

  /** The first eight characters are ASCII digits. */
  predicate EightDigits(s: string)
    requires |s| >= 8
  {
    IsDigit(s[0]) && IsDigit(s[1]) && IsDigit(s[2]) && IsDigit(s[3])
    && IsDigit(s[4]) && IsDigit(s[5]) && IsDigit(s[6]) && IsDigit(s[7])
  }

  /** An 8-digit date string whose first four digits are the year y. */
  predicate DateOfYear(d: string, y: int) {
    Is8Digits(d) && YearOf(d) == y
  }

  /** int(d[:4]) of an 8-digit date string. */
  function YearOf(d: string): int
    requires Is8Digits(d)
  {
    DigitValue(d[0]) * 1000 + DigitValue(d[1]) * 100 + DigitValue(d[2]) * 10 + DigitValue(d[3])
  }

  /** A business report received in bsnsYear. */
  predicate Qualifies(it: ListItem, bsnsYear: int) {
    ReportYear(it) == Some(bsnsYear)
  }

  /** The receipt year of a business report with an 8-digit rcept_dt, and
      None for any other item. */
  function ReportYear(it: ListItem): (r: Option<int>)
    ensures r.Some? <==> Contains(CellStr(it.reportNm), BUSINESS_REPORT) && Is8Digits(CellStr(it.rceptDt))
    ensures r.Some? ==> DateOfYear(CellStr(it.rceptDt), r.value)
  {
    var d := CellStr(it.rceptDt);
    if Contains(CellStr(it.reportNm), BUSINESS_REPORT) && Is8Digits(d) then Some(YearOf(d)) else None
  }

  /** The rcept_dt of the qualifying items, in order. */
  function QualifyingDates(items: seq<ListItem>, bsnsYear: int): (r: seq<string>)
    ensures |r| <= |items|
  {
    if items == [] then []
    else
      var n := |items| - 1;
      var init := QualifyingDates(items[..n], bsnsYear);
      if Qualifies(items[n], bsnsYear) then init + [CellStr(items[n].rceptDt)] else init
  }

  predicate DateOf(items: seq<ListItem>, y: int, d: string) {
    exists i :: 0 <= i < |items| && Qualifies(items[i], y) && CellStr(items[i].rceptDt) == d
  }

  /** The list holds exactly the dates of the qualifying items. */
  lemma QualifyingDatesSpec(items: seq<ListItem>, y: int)
    ensures forall k :: 0 <= k < |QualifyingDates(items, y)| ==> DateOf(items, y, QualifyingDates(items, y)[k])
    ensures forall i :: 0 <= i < |items| && Qualifies(items[i], y) ==> CellStr(items[i].rceptDt) in QualifyingDates(items, y)
  {
    QualifyingDatesSound(items, y);
    QualifyingDatesComplete(items, y);
  }

  lemma {:induction false} QualifyingDatesSound(items: seq<ListItem>, y: int)
    ensures forall k :: 0 <= k < |QualifyingDates(items, y)| ==> DateOf(items, y, QualifyingDates(items, y)[k])
  {
    if items != [] {
      var n := |items| - 1;
      var init := items[..n];
      QualifyingDatesSound(init, y);
      var q0 := QualifyingDates(init, y);
      var q := QualifyingDates(items, y);
      forall k | 0 <= k < |q| ensures DateOf(items, y, q[k]) {
        if k < |q0| {
          assert q[k] == q0[k];
          var i :| 0 <= i < |init| && Qualifies(init[i], y) && CellStr(init[i].rceptDt) == q0[k];
          assert init[i] == items[i];
        } else {
          assert Qualifies(items[n], y) && q[k] == CellStr(items[n].rceptDt);
        }
      }
    }
  }

  lemma {:induction false} QualifyingDatesComplete(items: seq<ListItem>, y: int)
    ensures forall i :: 0 <= i < |items| && Qualifies(items[i], y) ==> CellStr(items[i].rceptDt) in QualifyingDates(items, y)
  {
    if items != [] {
      var n := |items| - 1;
      var init := items[..n];
      QualifyingDatesComplete(init, y);
      var q0 := QualifyingDates(init, y);
      var q := QualifyingDates(items, y);
      forall i | 0 <= i < |items| && Qualifies(items[i], y) ensures CellStr(items[i].rceptDt) in q {
        if i < n {
          assert init[i] == items[i];
          assert CellStr(init[i].rceptDt) in q0;
        } else {
          assert q == q0 + [CellStr(items[n].rceptDt)];
        }
      }
    }
  }

  lemma {:induction false} QualifyingDatesAppend(a: seq<ListItem>, b: seq<ListItem>, y: int)
    ensures QualifyingDates(a + b, y) == QualifyingDates(a, y) + QualifyingDates(b, y)
    decreases |b|
  {
    if b == [] {
      assert a + b == a;
    } else {
      var n := |b| - 1;
      var ab := a + b;
      assert ab[..|ab| - 1] == a + b[..n];
      assert ab[|ab| - 1] == b[n];
      var tail := if Qualifies(b[n], y) then [CellStr(b[n].rceptDt)] else [];
      assert QualifyingDates(ab, y) == QualifyingDates(a + b[..n], y) + tail;
      assert QualifyingDates(b, y) == QualifyingDates(b[..n], y) + tail;
      QualifyingDatesAppend(a, b[..n], y);
    }
  }

  /** The largest string of a non-empty list (the first row of a descending sort). */
  function MaxLex(ds: seq<string>): (r: string)
    requires ds != []
    ensures r in ds
    ensures forall k :: 0 <= k < |ds| ==> !LexLess(r, ds[k])
  {
    if |ds| == 1 then
      LexLessTotal(ds[0], ds[0]);
      ds[0]
    else
      var m := MaxLex(ds[1..]);
      assert forall k :: 1 <= k < |ds| ==> ds[k] == ds[1..][k - 1];
      LexLessTotal(m, ds[0]);
      if LexLess(m, ds[0]) then
        MaxLexStep(ds, m);
        ds[0]
      else m
  }

  lemma MaxLexStep(ds: seq<string>, m: string)
    requires |ds| >= 2
    requires forall k :: 1 <= k < |ds| ==> !LexLess(m, ds[k])
    requires LexLess(m, ds[0])
    ensures forall k :: 0 <= k < |ds| ==> !LexLess(ds[0], ds[k])
  {
    forall k | 0 <= k < |ds| ensures !LexLess(ds[0], ds[k]) {
      LexLessTotal(ds[0], ds[k]);
      if k == 0 {
      } else if LexLess(ds[0], ds[k]) {
        LexLessTransitive(m, ds[0], ds[k]);
      }
    }
  }

  /** pick_latest_business_report: the latest rcept_dt among the business
      reports of bsnsYear, or None. */
  function PickLatest(items: seq<ListItem>, bsnsYear: int): Option<string> {
    var ds := QualifyingDates(items, bsnsYear);
    if ds == [] then None else Some(MaxLex(ds))
  }

  /** A hit exactly when some item qualifies; the hit is the date of a
      qualifying item that no qualifying item's date exceeds. */
  lemma PickLatestSpec(items: seq<ListItem>, bsnsYear: int)
    ensures PickLatest(items, bsnsYear).Some? <==> exists i :: 0 <= i < |items| && Qualifies(items[i], bsnsYear)
    ensures PickLatest(items, bsnsYear).Some? ==>
      (exists i :: 0 <= i < |items| && Qualifies(items[i], bsnsYear) && CellStr(items[i].rceptDt) == PickLatest(items, bsnsYear).value)
    ensures PickLatest(items, bsnsYear).Some? ==>
      forall i :: 0 <= i < |items| && Qualifies(items[i], bsnsYear) ==> !LexLess(PickLatest(items, bsnsYear).value, CellStr(items[i].rceptDt))
  {
    var ds := QualifyingDates(items, bsnsYear);
    QualifyingDatesSpec(items, bsnsYear);
    if ds != [] {
      var m := MaxLex(ds);
      var k :| 0 <= k < |ds| && ds[k] == m;
      assert DateOf(items, bsnsYear, ds[k]);
      forall i | 0 <= i < |items| && Qualifies(items[i], bsnsYear)
        ensures !LexLess(m, CellStr(items[i].rceptDt))
      {
        var d := CellStr(items[i].rceptDt);
        var j :| 0 <= j < |ds| && ds[j] == d;
      }
    }
  }

  /** A hit is an 8-digit date string of bsnsYear, so never the empty (falsy) string. */
  lemma PickLatestShape(items: seq<ListItem>, bsnsYear: int)
    ensures PickLatest(items, bsnsYear).Some? ==>
      DateOfYear(PickLatest(items, bsnsYear).value, bsnsYear) && PickLatest(items, bsnsYear).value != ""
  {
    PickLatestSpec(items, bsnsYear);
  }

  /** The pick over two pages together hits exactly when one of them does. */
  lemma PickLatestAppend(a: seq<ListItem>, b: seq<ListItem>, y: int)
    ensures PickLatest(a + b, y).Some? <==> PickLatest(a, y).Some? || PickLatest(b, y).Some?
  {
    QualifyingDatesAppend(a, b, y);
  }

  // ---------------------------------------------------------------------------
  // find_rcept_dt_windowed
  // ---------------------------------------------------------------------------

  /** A list.json answer: its "status" and its "list" (either may be absent). */
  datatype Page = Page(status: Option<string>, list: Option<seq<ListItem>>)

  /** js.get("list") or [] */
  function ItemsOf(js: Page): seq<ListItem> {
    if js.list.None? then [] else js.list.value
  }

  /** dart_list_raw(corp_code, bgn_de, end_de, page_no) with page_count 100. */
  type ListApi = (string, string, string, nat) -> Page

  /** Month-day bounds of the receipt windows, tried in this order. */
  const RCEPT_WINDOWS: seq<(string, string)> := [("0201", "0630"), ("0101", "0930"), ("0101", "1231")]

  /** The page loop stops after this page. */
  const MAX_PAGES: nat := 6

  /** Python truthiness of an Optional[str]. */
  predicate Truthy(h: Option<string>) {
    h.Some? && h.value != ""
  }

  /** How the page loop of one window ends: a hit to return, or the items seen. */
  datatype Scan = Scan(hit: Option<string>, seen: seq<ListItem>)

  /** A per-page pick: _pick_latest for one business year. */
  type Pick = seq<ListItem> -> Option<string>

  function Picker(y: int): Pick {
    items => PickLatest(items, y)
  }

  /** The page loop from `page` on, with the items already collected, each
      page picked with `pick`. */
  function PageScan(api: ListApi, corp: string, bgn: string, end: string, pick: Pick, page: nat, seen: seq<ListItem>): Scan
    requires 1 <= page <= MAX_PAGES
    decreases MAX_PAGES - page
  {
    var js := api(corp, bgn, end, page);
    if js.status != Some("000") then Scan(None, seen)
    else if ItemsOf(js) == [] then Scan(None, seen)
    else
      var hit := pick(ItemsOf(js));
      if Truthy(hit) then Scan(hit, seen + ItemsOf(js))
      else if page + 1 > MAX_PAGES then Scan(None, seen + ItemsOf(js))
      else PageScan(api, corp, bgn, end, pick, page + 1, seen + ItemsOf(js))
  }

  function WindowBounds(y: int, w: (string, string)): (string, string) {
    (IntToString(y) + w.0, IntToString(y) + w.1)
  }

  /** One window: a page hit, else the pick over all its pages' items. */
  function WindowHit(api: ListApi, corp: string, y: int, w: (string, string)): Option<string> {
    var (bgn, end) := WindowBounds(y, w);
    var s := PageScan(api, corp, bgn, end, Picker(y), 1, []);
    if Truthy(s.hit) then s.hit
    else if s.seen != [] && Truthy(PickLatest(s.seen, y)) then PickLatest(s.seen, y)
    else None
  }

  /** The hit of the first window of ws that hits. */
  function FirstHit(ws: seq<(string, string)>, hit: ((string, string)) -> Option<string>): Option<string> {
    if ws == [] then None
    else if hit(ws[0]).Some? then hit(ws[0])
    else FirstHit(ws[1..], hit)
  }

  function HitOf(api: ListApi, corp: string, y: int): ((string, string)) -> Option<string> {
    w => WindowHit(api, corp, y, w)
  }

  function WindowsFrom(api: ListApi, corp: string, y: int, ws: seq<(string, string)>): Option<string> {
    FirstHit(ws, HitOf(api, corp, y))
  }

  /** find_rcept_dt_windowed as a value. */
  function Windowed(api: ListApi, corpCode: string, y: int): Option<string> {
    WindowsFrom(api, ZFill(corpCode, 8), y, RCEPT_WINDOWS)
  }

  /** find_rcept_dt_windowed: the windows in order, at most MAX_PAGES pages each. */
  method FindRceptDtWindowed(api: ListApi, corpCode: string, bsnsYear: int) returns (r: Option<string>)
    ensures r == Windowed(api, corpCode, bsnsYear)
  {
    var corp := ZFill(corpCode, 8);
    for wi := 0 to |RCEPT_WINDOWS|
      invariant WindowsFrom(api, corp, bsnsYear, RCEPT_WINDOWS[wi..]) == Windowed(api, corpCode, bsnsYear)
    {
      var (bgn, end) := WindowBounds(bsnsYear, RCEPT_WINDOWS[wi]);
      var scan := ScanPages(api, corp, bgn, end, bsnsYear);
      if Truthy(scan.hit) {
        return scan.hit;
      }
      if scan.seen != [] {
        var hit := PickLatest(scan.seen, bsnsYear);
        if Truthy(hit) {
          return hit;
        }
      }
      assert RCEPT_WINDOWS[wi..][1..] == RCEPT_WINDOWS[wi + 1..];
    }
    return None;
  }

  /** The `while True` page loop of one window. */
  method ScanPages(api: ListApi, corp: string, bgn: string, end: string, y: int) returns (s: Scan)
    ensures s == PageScan(api, corp, bgn, end, Picker(y), 1, [])
  {
    var page := 1;
    var itemsAll: seq<ListItem> := [];
    while true
      invariant 1 <= page <= MAX_PAGES
      invariant PageScan(api, corp, bgn, end, Picker(y), page, itemsAll) == PageScan(api, corp, bgn, end, Picker(y), 1, [])
      decreases MAX_PAGES - page
    {
      var js := api(corp, bgn, end, page);
      if js.status != Some("000") {
        return Scan(None, itemsAll);
      }
      var items := ItemsOf(js);
      if items == [] {
        return Scan(None, itemsAll);
      }
      itemsAll := itemsAll + items;
      var hit := PickLatest(items, y);
      if Truthy(hit) {
        return Scan(hit, itemsAll);
      }
      page := page + 1;
      if page > MAX_PAGES {
        return Scan(None, itemsAll);
      }
    }
  }

  /** No item of xs qualifies. */
  predicate NoneQualify(xs: seq<ListItem>, y: int) {
    forall i :: 0 <= i < |xs| ==> !Qualifies(xs[i], y)
  }

  /** A pick that misses only when no item qualifies. */
  ghost predicate MissMeansNone(pick: Pick, y: int) {
    forall xs :: !Truthy(pick(xs)) ==> NoneQualify(xs, y)
  }

  /** A pick whose hits are 8-digit dates of the year, never the empty string. */
  ghost predicate HitsAreDates(pick: Pick, y: int) {
    forall xs :: pick(xs).Some? ==> DateOfYear(pick(xs).value, y) && pick(xs).value != ""
  }

  /** _pick_latest misses only when no item qualifies, and hits with a date of the year. */
  lemma PickerSpec(y: int)
    ensures MissMeansNone(Picker(y), y) && HitsAreDates(Picker(y), y)
  {
    forall xs ensures !Truthy(Picker(y)(xs)) ==> NoneQualify(xs, y) {
      PickLatestSpec(xs, y);
      PickLatestShape(xs, y);
    }
    forall xs ensures Picker(y)(xs).Some? ==> DateOfYear(Picker(y)(xs).value, y) && Picker(y)(xs).value != "" {
      PickLatestShape(xs, y);
    }
  }

  lemma NoneQualifyAppend(a: seq<ListItem>, b: seq<ListItem>, y: int)
    requires NoneQualify(a, y) && NoneQualify(b, y)
    ensures NoneQualify(a + b, y)
  {
    forall i | 0 <= i < |a + b| ensures !Qualifies((a + b)[i], y) {
      if i >= |a| {
        assert (a + b)[i] == b[i - |a|];
      }
    }
  }

  /** The loop ended without a hit and saw no qualifying item. */
  predicate Missed(s: Scan, y: int) {
    !Truthy(s.hit) ==> NoneQualify(s.seen, y)
  }

  /** A page loop that ends without a hit has seen no qualifying item. */
  lemma {:induction false} PageScanMiss(api: ListApi, corp: string, bgn: string, end: string, pick: Pick, y: int, page: nat, seen: seq<ListItem>)
    requires 1 <= page <= MAX_PAGES
    requires MissMeansNone(pick, y) && NoneQualify(seen, y)
    ensures Missed(PageScan(api, corp, bgn, end, pick, page, seen), y)
    decreases MAX_PAGES - page, 1
  {
    var js := api(corp, bgn, end, page);
    var items := ItemsOf(js);
    if js.status == Some("000") && items != [] && !Truthy(pick(items)) {
      PageScanMissStep(api, corp, bgn, end, pick, y, page, seen);
    }
  }

  /** The step of PageScanMiss over a listed page without a hit. */
  lemma {:induction false} PageScanMissStep(api: ListApi, corp: string, bgn: string, end: string, pick: Pick, y: int, page: nat, seen: seq<ListItem>)
    requires 1 <= page <= MAX_PAGES
    requires MissMeansNone(pick, y) && NoneQualify(seen, y)
    requires var js := api(corp, bgn, end, page);
      js.status == Some("000") && ItemsOf(js) != [] && !Truthy(pick(ItemsOf(js)))
    ensures Missed(PageScan(api, corp, bgn, end, pick, page, seen), y)
    decreases MAX_PAGES - page, 0
  {
    var items := ItemsOf(api(corp, bgn, end, page));
    NoneQualifyAppend(seen, items, y);
    if page + 1 > MAX_PAGES {
      assert PageScan(api, corp, bgn, end, pick, page, seen) == Scan(None, seen + items);
    } else {
      assert PageScan(api, corp, bgn, end, pick, page, seen) == PageScan(api, corp, bgn, end, pick, page + 1, seen + items);
      PageScanMiss(api, corp, bgn, end, pick, y, page + 1, seen + items);
    }
  }

  /** With no qualifying item there is nothing to pick. */
  lemma NoneQualifyPick(xs: seq<ListItem>, y: int)
    requires NoneQualify(xs, y)
    ensures PickLatest(xs, y).None?
  {
    PickLatestSpec(xs, y);
  }

  /** A page-loop hit is truthy, and a non-truthy outcome is no hit at all. */
  lemma {:induction false} PageScanHit(api: ListApi, corp: string, bgn: string, end: string, pick: Pick, y: int, page: nat, seen: seq<ListItem>)
    requires 1 <= page <= MAX_PAGES
    requires HitsAreDates(pick, y)
    ensures var s := PageScan(api, corp, bgn, end, pick, page, seen);
      s.hit.Some? <==> Truthy(s.hit)
    ensures var s := PageScan(api, corp, bgn, end, pick, page, seen);
      s.hit.Some? ==> DateOfYear(s.hit.value, y)
    decreases MAX_PAGES - page
  {
    var js := api(corp, bgn, end, page);
    var items := ItemsOf(js);
    if js.status == Some("000") && items != [] && !Truthy(pick(items)) && page + 1 <= MAX_PAGES {
      PageScanHit(api, corp, bgn, end, pick, y, page + 1, seen + items);
    }
  }

  /** The second pick over all of a window's items never finds what the
      per-page picks missed: a window hits exactly when one of its pages does. */
  lemma WindowHitIsPageHit(api: ListApi, corp: string, y: int, w: (string, string))
    ensures WindowHit(api, corp, y, w) == PageScan(api, corp, WindowBounds(y, w).0, WindowBounds(y, w).1, Picker(y), 1, []).hit
  {
    var (bgn, end) := WindowBounds(y, w);
    var s := PageScan(api, corp, bgn, end, Picker(y), 1, []);
    PickerSpec(y);
    PageScanHit(api, corp, bgn, end, Picker(y), y, 1, []);
    if !Truthy(s.hit) {
      PageScanMiss(api, corp, bgn, end, Picker(y), y, 1, []);
      NoneQualifyPick(s.seen, y);
    }
  }

  /** A window's hit is an 8-digit date of the business year. */
  lemma WindowHitShape(api: ListApi, corp: string, y: int, w: (string, string))
    ensures WindowHit(api, corp, y, w).Some? ==> DateOfYear(WindowHit(api, corp, y, w).value, y)
  {
    var (bgn, end) := WindowBounds(y, w);
    WindowHitIsPageHit(api, corp, y, w);
    PickerSpec(y);
    PageScanHit(api, corp, bgn, end, Picker(y), y, 1, []);
  }

  /** The result comes from one of the windows. */
  lemma {:induction false} FirstHitIn(ws: seq<(string, string)>, hit: ((string, string)) -> Option<string>)
    ensures FirstHit(ws, hit).Some? ==> exists j :: 0 <= j < |ws| && FirstHit(ws, hit) == hit(ws[j])
  {
    if ws != [] && hit(ws[0]).None? {
      FirstHitIn(ws[1..], hit);
      if FirstHit(ws[1..], hit).Some? {
        var j :| 0 <= j < |ws[1..]| && FirstHit(ws[1..], hit) == hit(ws[1..][j]);
        assert ws[1..][j] == ws[j + 1];
      }
    }
  }

  /** A receipt date found is an 8-digit date of the business year. */
  lemma WindowsFromShape(api: ListApi, corp: string, y: int, ws: seq<(string, string)>)
    ensures WindowsFrom(api, corp, y, ws).Some? ==> DateOfYear(WindowsFrom(api, corp, y, ws).value, y)
  {
    FirstHitIn(ws, HitOf(api, corp, y));
    if WindowsFrom(api, corp, y, ws).Some? {
      var j :| 0 <= j < |ws| && WindowsFrom(api, corp, y, ws) == HitOf(api, corp, y)(ws[j]);
      WindowHitShape(api, corp, y, ws[j]);
    }
  }

  lemma WindowedShape(api: ListApi, corpCode: string, y: int)
    ensures Windowed(api, corpCode, y).Some? ==> DateOfYear(Windowed(api, corpCode, y).value, y)
  {
    WindowsFromShape(api, ZFill(corpCode, 8), y, RCEPT_WINDOWS);
  }

  /** Two listing services that agree on pages 1..MAX_PAGES give the same page loop. */
  lemma {:induction false} PageScanFrame(a1: ListApi, a2: ListApi, corp: string, bgn: string, end: string, pick: Pick, page: nat, seen: seq<ListItem>)
    requires 1 <= page <= MAX_PAGES
    requires forall p :: 1 <= p <= MAX_PAGES ==> a1(corp, bgn, end, p) == a2(corp, bgn, end, p)
    ensures PageScan(a1, corp, bgn, end, pick, page, seen) == PageScan(a2, corp, bgn, end, pick, page, seen)
    decreases MAX_PAGES - page
  {
    if page + 1 <= MAX_PAGES {
      var js := a1(corp, bgn, end, page);
      PageScanFrame(a1, a2, corp, bgn, end, pick, page + 1, seen + ItemsOf(js));
    }
  }

  lemma {:induction false} FirstHitFrame(ws: seq<(string, string)>, h1: ((string, string)) -> Option<string>, h2: ((string, string)) -> Option<string>)
    requires forall j :: 0 <= j < |ws| ==> h1(ws[j]) == h2(ws[j])
    ensures FirstHit(ws, h1) == FirstHit(ws, h2)
  {
    if ws != [] {
      assert forall j :: 0 <= j < |ws[1..]| ==> ws[1..][j] == ws[j + 1];
      FirstHitFrame(ws[1..], h1, h2);
    }
  }

  /** Only pages 1..MAX_PAGES of the padded code's windows are ever asked for. */
  lemma WindowsFromFrame(a1: ListApi, a2: ListApi, corp: string, y: int, ws: seq<(string, string)>)
    requires forall b, e, p :: 1 <= p <= MAX_PAGES ==> a1(corp, b, e, p) == a2(corp, b, e, p)
    ensures WindowsFrom(a1, corp, y, ws) == WindowsFrom(a2, corp, y, ws)
  {
    forall j | 0 <= j < |ws| ensures HitOf(a1, corp, y)(ws[j]) == HitOf(a2, corp, y)(ws[j]) {
      var (bgn, end) := WindowBounds(y, ws[j]);
      PageScanFrame(a1, a2, corp, bgn, end, Picker(y), 1, []);
    }
    FirstHitFrame(ws, HitOf(a1, corp, y), HitOf(a2, corp, y));
  }

  lemma {:induction false} FirstHitAt(ws: seq<(string, string)>, hit: ((string, string)) -> Option<string>, k: nat)
    requires k < |ws| && hit(ws[k]).Some?
    requires forall j :: 0 <= j < k ==> hit(ws[j]).None?
    ensures FirstHit(ws, hit) == hit(ws[k])
  {
    if k > 0 {
      assert forall j :: 0 <= j < k - 1 ==> ws[1..][j] == ws[j + 1];
      FirstHitAt(ws[1..], hit, k - 1);
    }
  }

  lemma {:induction false} FirstHitNone(ws: seq<(string, string)>, hit: ((string, string)) -> Option<string>)
    ensures FirstHit(ws, hit).None? <==> forall j :: 0 <= j < |ws| ==> hit(ws[j]).None?
  {
    if ws != [] {
      FirstHitNone(ws[1..], hit);
      assert forall j :: 1 <= j < |ws| ==> ws[j] == ws[1..][j - 1];
    }
  }

  /** Windows are tried in order: the result is the hit of the first window
      that hits. */
  lemma WindowsFromFirstHit(api: ListApi, corp: string, y: int, ws: seq<(string, string)>, k: nat)
    requires k < |ws| && WindowHit(api, corp, y, ws[k]).Some?
    requires forall j :: 0 <= j < k ==> WindowHit(api, corp, y, ws[j]).None?
    ensures WindowsFrom(api, corp, y, ws) == WindowHit(api, corp, y, ws[k])
  {
    FirstHitAt(ws, HitOf(api, corp, y), k);
  }

  /** None exactly when every window misses. */
  lemma WindowsFromNone(api: ListApi, corp: string, y: int, ws: seq<(string, string)>)
    ensures WindowsFrom(api, corp, y, ws).None? <==> forall j :: 0 <= j < |ws| ==> WindowHit(api, corp, y, ws[j]).None?
  {
    FirstHitNone(ws, HitOf(api, corp, y));
  }

  // ---------------------------------------------------------------------------
  // pick_top of sample_100_from_eligible
  // ---------------------------------------------------------------------------

  const BIG_THRESHOLD: real := 5_000_000_000_000.0
  const N_BIG: nat := 40
  const N_MID: nat := 30
  const N_SMALL: nat := 30

  /** The padded candidates not yet used, each once, in candidate order. */
  function Fresh(used: set<string>, cands: seq<string>): (r: seq<string>)
    ensures forall k :: 0 <= k < |r| ==> r[k] !in used
    decreases |cands|
  {
    if cands == [] then []
    else
      var cc := ZFill(cands[0], 8);
      if cc in used then Fresh(used, cands[1..])
      else [cc] + Fresh(used + {cc}, cands[1..])
  }

  lemma {:induction false} FreshDistinct(used: set<string>, cands: seq<string>)
    ensures Distinct(Fresh(used, cands))
    decreases |cands|
  {
    if cands != [] {
      var cc := ZFill(cands[0], 8);
      if cc in used {
        FreshDistinct(used, cands[1..]);
      } else {
        FreshDistinct(used + {cc}, cands[1..]);
        var f := Fresh(used + {cc}, cands[1..]);
        assert forall k :: 0 <= k < |f| ==> f[k] != cc;
        DistinctCons(cc, f);
      }
    }
  }

  lemma DistinctCons(x: string, f: seq<string>)
    requires Distinct(f) && forall k :: 0 <= k < |f| ==> f[k] != x
    ensures Distinct([x] + f)
  {
    var r := [x] + f;
    forall i, j | 0 <= i < j < |r| ensures r[i] != r[j] {
      assert r[j] == f[j - 1];
      if i > 0 {
        assert r[i] == f[i - 1];
      }
    }
  }

  /** Every fresh code is a padded candidate. */
  lemma {:induction false} FreshFrom(used: set<string>, cands: seq<string>)
    ensures forall k :: 0 <= k < |Fresh(used, cands)| ==> PaddedIn(Fresh(used, cands)[k], cands)
    decreases |cands|
  {
    if cands != [] {
      var cc := ZFill(cands[0], 8);
      var tl := cands[1..];
      var u := if cc in used then used else used + {cc};
      FreshFrom(u, tl);
      forall x | PaddedIn(x, tl) ensures PaddedIn(x, cands) {
        var j :| 0 <= j < |tl| && x == ZFill(tl[j], 8);
        assert tl[j] == cands[j + 1];
      }
      assert PaddedIn(cc, cands) by {
        assert cc == ZFill(cands[0], 8);
      }
    }
  }

  predicate PaddedIn(x: string, cands: seq<string>) {
    exists j :: 0 <= j < |cands| && x == ZFill(cands[j], 8)
  }

  /** What pick_top's loop has done: the codes taken and the shared `used` set. */
  datatype Picked = Picked(out: seq<string>, used: set<string>)

  /** pick_top's loop from candidate `cands[0]` on. */
  function PickLoop(used: set<string>, cands: seq<string>, n: nat, out: seq<string>): Picked
    decreases |cands|
  {
    if cands == [] then Picked(out, used)
    else
      var cc := ZFill(cands[0], 8);
      if cc in used then PickLoop(used, cands[1..], n, out)
      else if |out + [cc]| >= n then Picked(out + [cc], used + {cc})
      else PickLoop(used + {cc}, cands[1..], n, out + [cc])
  }

  function SetOf(xs: seq<string>): set<string> {
    set x | x in xs
  }

  lemma {:induction false} PickLoopOut(used: set<string>, cands: seq<string>, n: nat, out: seq<string>)
    requires |out| < Max(n, 1)
    ensures PickLoop(used, cands, n, out).out == out + Take(Fresh(used, cands), Max(n, 1) - |out|)
    decreases |cands|
  {
    if cands != [] {
      var cc := ZFill(cands[0], 8);
      if cc in used {
        PickLoopOut(used, cands[1..], n, out);
      } else {
        var f := Fresh(used + {cc}, cands[1..]);
        assert Fresh(used, cands) == [cc] + f;
        var m := Max(n, 1) - |out|;
        TakeCons(cc, f, m);
        if |out + [cc]| < n {
          PickLoopOut(used + {cc}, cands[1..], n, out + [cc]);
        }
      }
    }
  }

  lemma {:induction false} PickLoopPrefix(used: set<string>, cands: seq<string>, n: nat, out: seq<string>)
    ensures out <= PickLoop(used, cands, n, out).out
    decreases |cands|
  {
    if cands != [] {
      var cc := ZFill(cands[0], 8);
      if cc in used {
        PickLoopPrefix(used, cands[1..], n, out);
      } else if |out + [cc]| < n {
        PickLoopPrefix(used + {cc}, cands[1..], n, out + [cc]);
      }
    }
  }

  lemma TakenStaysTaken(used: set<string>, cands: seq<string>, n: nat, out: seq<string>, cc: string)
    ensures cc in SetOf(PickLoop(used, cands, n, out + [cc]).out)
  {
    PickLoopPrefix(used, cands, n, out + [cc]);
    var r := PickLoop(used, cands, n, out + [cc]).out;
    assert r[|out|] == cc;
  }

  /** The shared set grows by exactly the codes taken. */
  lemma {:induction false} PickLoopUsed(used: set<string>, cands: seq<string>, n: nat, out: seq<string>)
    requires SetOf(out) <= used
    ensures PickLoop(used, cands, n, out).used == used + SetOf(PickLoop(used, cands, n, out).out)
    decreases |cands|
  {
    if cands != [] {
      var cc := ZFill(cands[0], 8);
      var out1 := out + [cc];
      assert SetOf(out1) == SetOf(out) + {cc};
      if cc in used {
        PickLoopUsed(used, cands[1..], n, out);
      } else if |out1| < n {
        PickLoopUsed(used + {cc}, cands[1..], n, out1);
        TakenStaysTaken(used + {cc}, cands[1..], n, out, cc);
      }
    }
  }

  /** pick_top takes the first max(n, 1) fresh candidates (the length test
      runs after an append, so n = 0 still takes one) and marks them used. */
  lemma PickLoopSpec(used: set<string>, cands: seq<string>, n: nat)
    ensures PickLoop(used, cands, n, []).out == Take(Fresh(used, cands), Max(n, 1))
    ensures PickLoop(used, cands, n, []).used == used + SetOf(Take(Fresh(used, cands), Max(n, 1)))
  {
    PickLoopOut(used, cands, n, []);
    assert SetOf([]) == {};
    PickLoopUsed(used, cands, n, []);
  }

  lemma TakeCons(x: string, f: seq<string>, m: int)
    requires m >= 1
    ensures Take([x] + f, m) == [x] + Take(f, m - 1)
  {
  }

  lemma SetOfCons(x: string, f: seq<string>)
    ensures SetOf([x] + f) == {x} + SetOf(f)
  {
  }

  /** pick_top as a value: the picks from a given used set. */
  function PickTopOf(used: set<string>, cands: seq<string>, n: nat): Picked {
    PickLoop(used, cands, n, [])
  }

  /** The sampler's shared state: the codes already taken by an earlier tier. */
  class Sampler {
    var used: set<string>

    constructor ()
      ensures used == {}
    {
      used := {};
    }

    /** pick_top(df, n) over the tier's candidate codes, in their sorted order. */
    method PickTop(cands: seq<string>, n: nat) returns (out: seq<string>)
      modifies this
      ensures Picked(out, used) == PickTopOf(old(used), cands, n)
    {
      out := [];
      var i := 0;
      while i < |cands|
        invariant 0 <= i <= |cands|
        invariant PickLoop(used, cands[i..], n, out) == PickTopOf(old(used), cands, n)
        decreases |cands| - i
      {
        var cc := ZFill(cands[i], 8);
        assert cands[i..][1..] == cands[i + 1..];
        if cc in used {
          i := i + 1;
          continue;
        }
        used := used + {cc};
        out := out + [cc];
        if |out| >= n {
          return;
        }
        i := i + 1;
      }
    }
  }

  /** The three tiers and the scale of every picked code. */
  datatype Tiers = Tiers(large: seq<string>, mid: seq<string>, small: seq<string>)

  /** The 40/30/30 selection as a value: each tier picks from what the
      earlier tiers left, and a short tier is an error. */
  function SampleOf(large: seq<string>, mid: seq<string>, small: seq<string>): Result<Tiers> {
    var l := PickTopOf({}, large, N_BIG);
    var m := PickTopOf(l.used, mid, N_MID);
    var s := PickTopOf(m.used, small, N_SMALL);
    if |l.out| < N_BIG then Err("large 부족")
    else if |m.out| < N_MID then Err("mid 부족")
    else if |s.out| < N_SMALL then Err("small 부족")
    else Ok(Tiers(l.out, m.out, s.out))
  }

  /** sample_100_from_eligible after the market-cap split: the candidate code
      lists of the three tiers, each already in its sort order. */
  method SampleTiers(large: seq<string>, mid: seq<string>, small: seq<string>) returns (r: Result<Tiers>)
    ensures r == SampleOf(large, mid, small)
  {
    var sampler := new Sampler();
    var pickedLarge := sampler.PickTop(large, N_BIG);
    var pickedMid := sampler.PickTop(mid, N_MID);
    var pickedSmall := sampler.PickTop(small, N_SMALL);
    if |pickedLarge| < N_BIG {
      return Err("large 부족");
    }
    if |pickedMid| < N_MID {
      return Err("mid 부족");
    }
    if |pickedSmall| < N_SMALL {
      return Err("small 부족");
    }
    return Ok(Tiers(pickedLarge, pickedMid, pickedSmall));
  }

  predicate Disjoint(a: seq<string>, b: seq<string>) {
    forall i, j :: 0 <= i < |a| && 0 <= j < |b| ==> a[i] != b[j]
  }

  predicate Distinct(a: seq<string>) {
    forall i, j :: 0 <= i < j < |a| ==> a[i] != a[j]
  }

  /** A tier's picks: distinct, none used before, padded candidates, at most
      max(n, 1) of them, and the shared set grows by exactly them. */
  lemma PickTopSpec(used: set<string>, cands: seq<string>, n: nat)
    ensures var p := PickTopOf(used, cands, n);
      Distinct(p.out) && |p.out| <= Max(n, 1)
      && (forall k :: 0 <= k < |p.out| ==> p.out[k] !in used && PaddedIn(p.out[k], cands))
      && p.used == used + SetOf(p.out)
  {
    PickLoopSpec(used, cands, n);
    var f := Fresh(used, cands);
    var t := Take(f, Max(n, 1));
    FreshDistinct(used, cands);
    FreshFrom(used, cands);
    assert forall k :: 0 <= k < |t| ==> t[k] == f[k];
  }

  /** A sample that succeeds has exactly 40, 30 and 30 distinct codes, no
      code in two tiers. */
  lemma SampleSpec(large: seq<string>, mid: seq<string>, small: seq<string>)
    ensures var r := SampleOf(large, mid, small);
      r.Ok? ==>
        |r.value.large| == N_BIG && |r.value.mid| == N_MID && |r.value.small| == N_SMALL
        && Distinct(r.value.large) && Distinct(r.value.mid) && Distinct(r.value.small)
        && Disjoint(r.value.large, r.value.mid) && Disjoint(r.value.large, r.value.small)
        && Disjoint(r.value.mid, r.value.small)
  {
    var l := PickTopOf({}, large, N_BIG);
    var m := PickTopOf(l.used, mid, N_MID);
    var s := PickTopOf(m.used, small, N_SMALL);
    PickTopSpec({}, large, N_BIG);
    PickTopSpec(l.used, mid, N_MID);
    PickTopSpec(m.used, small, N_SMALL);
    UsedApart(l.out, l.used, m.out);
    UsedApart(l.out, m.used, s.out);
    UsedApart(m.out, m.used, s.out);
  }

  lemma UsedApart(a: seq<string>, used: set<string>, b: seq<string>)
    requires SetOf(a) <= used
    requires forall k :: 0 <= k < |b| ==> b[k] !in used
    ensures Disjoint(a, b)
  {
    forall i, j | 0 <= i < |a| && 0 <= j < |b| ensures a[i] != b[j] {
      assert a[i] in SetOf(a);
    }
  }

  /** With enough fresh candidates a tier is full. */
  lemma PickTopFull(used: set<string>, cands: seq<string>, n: nat)
    requires |Fresh(used, cands)| >= n
    ensures n >= 1 ==> |PickTopOf(used, cands, n).out| == n
  {
    PickLoopSpec(used, cands, n);
  }

  /** code_to_scale: later tiers are assigned last. */
  function CodeToScale(t: Tiers): map<string, string> {
    AssignScale(AssignScale(AssignScale(map[], t.large, "large"), t.mid, "mid"), t.small, "small")
  }

  function AssignScale(m: map<string, string>, codes: seq<string>, scale: string): (r: map<string, string>)
    ensures r.Keys == m.Keys + SetOf(codes)
    ensures forall c :: c in r && c !in SetOf(codes) ==> r[c] == m[c]
    ensures forall c :: c in SetOf(codes) ==> r[c] == scale
  {
    if codes == [] then m
    else
      var n := |codes| - 1;
      assert SetOf(codes) == SetOf(codes[..n]) + {codes[n]} by {
        assert forall k :: 0 <= k < n ==> codes[..n][k] == codes[k];
      }
      AssignScale(m, codes[..n], scale)[codes[n] := scale]
  }

  /** With the tiers apart, every picked code carries its own tier's scale. */
  lemma CodeToScaleSpec(t: Tiers)
    requires Disjoint(t.large, t.mid) && Disjoint(t.large, t.small) && Disjoint(t.mid, t.small)
    ensures CodeToScale(t).Keys == SetOf(t.large) + SetOf(t.mid) + SetOf(t.small)
    ensures forall k :: 0 <= k < |t.large| ==> CodeToScale(t)[t.large[k]] == "large"
    ensures forall k :: 0 <= k < |t.mid| ==> CodeToScale(t)[t.mid[k]] == "mid"
    ensures forall k :: 0 <= k < |t.small| ==> CodeToScale(t)[t.small[k]] == "small"
  {
    forall k | 0 <= k < |t.large| ensures CodeToScale(t)[t.large[k]] == "large" {
      NotInSetOf(t.large[k], t.mid);
      NotInSetOf(t.large[k], t.small);
      LargeScale(t, t.large[k]);
    }
    forall k | 0 <= k < |t.mid| ensures CodeToScale(t)[t.mid[k]] == "mid" {
      NotInSetOf(t.mid[k], t.small);
      MidScale(t, t.mid[k]);
    }
    forall k | 0 <= k < |t.small| ensures CodeToScale(t)[t.small[k]] == "small" {
      assert t.small[k] in SetOf(t.small);
    }
  }

  lemma LargeScale(t: Tiers, c: string)
    requires c in SetOf(t.large) && c !in SetOf(t.mid) && c !in SetOf(t.small)
    ensures CodeToScale(t)[c] == "large"
  {
    var m1 := AssignScale(map[], t.large, "large");
    var m2 := AssignScale(m1, t.mid, "mid");
    assert m1[c] == "large";
    assert m2[c] == "large";
  }

  lemma MidScale(t: Tiers, c: string)
    requires c in SetOf(t.mid) && c !in SetOf(t.small)
    ensures CodeToScale(t)[c] == "mid"
  {
    var m1 := AssignScale(map[], t.large, "large");
    var m2 := AssignScale(m1, t.mid, "mid");
    assert m2[c] == "mid";
  }

  lemma NotInSetOf(x: string, a: seq<string>)
    requires forall j :: 0 <= j < |a| ==> a[j] != x
    ensures x !in SetOf(a)
  {
  }

  /** So in a successful sample each code's scale is the tier it was picked for. */
  lemma SampleScales(large: seq<string>, mid: seq<string>, small: seq<string>)
    requires SampleOf(large, mid, small).Ok?
    ensures var t := SampleOf(large, mid, small).value;
      (forall k :: 0 <= k < |t.large| ==> CodeToScale(t)[t.large[k]] == "large")
      && (forall k :: 0 <= k < |t.mid| ==> CodeToScale(t)[t.mid[k]] == "mid")
      && (forall k :: 0 <= k < |t.small| ==> CodeToScale(t)[t.small[k]] == "small")
  {
    SampleSpec(large, mid, small);
    CodeToScaleSpec(SampleOf(large, mid, small).value);
  }

  // ---------------------------------------------------------------------------
  // BENCHMARK_BY_TARGET
  // ---------------------------------------------------------------------------

  /** The hand-made peer table: target corp_name_kr to benchmark corp_name_kr. */
  const BENCHMARK_BY_TARGET: seq<(string, string)> := [
    ("삼성전자", "SK하이닉스"), ("SK하이닉스", "삼성전자"), ("LG전자", "삼성전자"),
    ("LG디스플레이", "LG이노텍"), ("LG이노텍", "LG디스플레이"), ("삼성SDI", "LG에너지솔루션"),
    ("LG에너지솔루션", "삼성SDI"), ("HD현대일렉트릭", "엘에스일렉트릭"), ("엘에스일렉트릭", "HD현대일렉트릭"),
    ("포스코퓨처엠", "에코프로머티"), ("에코프로머티", "포스코퓨처엠"),
    ("삼성바이오로직스", "셀트리온"), ("셀트리온", "삼성바이오로직스"), ("한미약품", "유한양행"),
    ("SK바이오사이언스", "녹십자"), ("차AI헬스케어", "포스코DX"),
    ("현대자동차", "기아"), ("기아", "현대자동차"), ("현대모비스", "HL만도"),
    ("두산밥캣", "HD현대건설기계"), ("현대오토에버", "포스코DX"),
    ("NAVER", "카카오"), ("카카오", "NAVER"), ("크래프톤", "엔씨소프트"),
    ("엔씨소프트", "크래프톤"), ("넷마블", "엔씨소프트"), ("카카오페이", "포스코DX"),
    ("SK텔레콤", "케이티"), ("케이티", "SK텔레콤"), ("LG유플러스", "케이티"),
    ("KB금융", "신한지주"), ("신한지주", "KB금융"), ("하나금융지주", "(주)우리금융지주"),
    ("우리금융지주", "하나금융지주"), ("NH투자증권", "미래에셋증권"), ("미래에셋증권", "NH투자증권"),
    ("삼성증권", "키움증권"), ("메리츠금융지주", "한국금융지주"), ("한국금융지주", "메리츠금융지주"),
    ("삼성생명", "한화생명"), ("삼성화재해상보험", "DB손해보험"), ("삼성카드", "KB금융"),
    ("기업은행", "KB금융")
  ]

  /** BENCHMARK_BY_TARGET.get(name) (Series.map gives NaN for a name not in the table). */
  function BenchmarkOf(name: string): (r: Option<string>)
    ensures r.Some? <==> exists k :: 0 <= k < |BENCHMARK_BY_TARGET| && BENCHMARK_BY_TARGET[k].0 == name
  {
    match FirstIndex(BENCHMARK_BY_TARGET, (p: (string, string)) => p.0 == name)
    case None => None
    case Some(k) => Some(BENCHMARK_BY_TARGET[k].1)
  }

  predicate NoSelfPair(t: seq<(string, string)>) {
    forall k :: 0 <= k < |t| ==> t[k].0 != t[k].1
  }

  lemma NoSelfPairTable()
    ensures NoSelfPair(BENCHMARK_BY_TARGET)
  {
  }

  /** No company is its own benchmark. */
  lemma BenchmarkNotSelf(name: string)
    ensures BenchmarkOf(name).Some? ==> BenchmarkOf(name).value != name
  {
    NoSelfPairTable();
  }

  /** The set of benchmark names (set(BENCHMARK_BY_TARGET.values())). */
  function BenchmarkNames(): (r: set<string>)
    ensures forall b :: b in r <==> exists k :: 0 <= k < |BENCHMARK_BY_TARGET| && BENCHMARK_BY_TARGET[k].1 == b
  {
    set k | 0 <= k < |BENCHMARK_BY_TARGET| :: BENCHMARK_BY_TARGET[k].1
  }

  /** The 하나금융지주 peer is spelled "(주)우리금융지주", which is not a key:
      the table's "우리금융지주" entry spells it without the prefix. */
  lemma HanaPeerSpelling()
    ensures BenchmarkOf("하나금융지주") == Some("(주)우리금융지주")
  {
    assert BENCHMARK_BY_TARGET[32] == ("하나금융지주", "(주)우리금융지주");
    var p := (q: (string, string)) => q.0 == "하나금융지주";
    assert forall j :: 0 <= j < 32 ==> !p(BENCHMARK_BY_TARGET[j]);
    FirstIndexAt(BENCHMARK_BY_TARGET, p, 32);
  }

  lemma PrefixedNameNotTarget()
    ensures BenchmarkOf("(주)우리금융지주").None?
  {
    var p := (q: (string, string)) => q.0 == "(주)우리금융지주";
    assert forall j :: 0 <= j < |BENCHMARK_BY_TARGET| ==> !p(BENCHMARK_BY_TARGET[j]);
  }
}
