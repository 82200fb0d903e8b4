/** src/seed_market.py: company_meta.csv (or with_benchmark.csv) becomes the
    market_data and benchmark_map tables. */
module SeedMarket {
  import opened Common
  import opened MarketData
  import CompanyData
  import Normalize

  /** One CSV row as pandas reads it. A text cell is None for NaN and otherwise
      the text str() gives for the value (a float column renders 126380 as
      "126380.0"); dates and prices are the numbers pandas parsed. */
  datatype CsvRow = CsvRow(
    corpCode: Option<string>,
    corpNameKr: Option<string>,
    corpNameEn: Option<string>,
    stockCode: Option<string>,
    year: Option<string>,
    rceptDate: Option<int>,
    stockPrice: Option<real>,
    sharesOutstanding: Option<real>,
    scale: Option<string>,
    benchCorpCode: Option<string>,
    benchmarkNameKr: Option<string>,
    benchStockCode: Option<string>,
    benchRceptDate: Option<int>,
    benchStockPrice: Option<real>,
    benchSharesOutstanding: Option<real>)

  /** The CSV: the names in its header and its rows. A row's cell for a
      column the header lacks is never read. */
  datatype Csv = Csv(columns: set<string>, rows: seq<CsvRow>)

  const REQUIRED_COLS: seq<string> := ["corp_code", "corp_name_kr", "stock_code", "year", "rcept_date"]

  /** The required columns the header lacks, in the order of the list. */
  function Missing(names: seq<string>, columns: set<string>): seq<string> {
    if names == [] then []
    else (if names[0] in columns then [] else [names[0]]) + Missing(names[1..], columns)
  }

  /** The message of the ValueError, listing the missing names as Python prints a list. */
  function MissingMessage(missing: seq<string>): string {
    "CSV에 필수 컬럼이 없습니다: [" + Join(Quoted(missing), ", ") + "]"
  }

  function Quoted(names: seq<string>): (r: seq<string>)
    ensures |r| == |names|
  {
    if names == [] then [] else ["'" + names[0] + "'"] + Quoted(names[1..])
  }

  /** df["corp_code"].astype(str).str.replace(".0", "", regex=False).str.zfill(8):
      every ".0", not only a final one, is removed; NaN is the text "nan". */
  function CorpCodeOf(c: Option<string>): string {
    ZFill(Replace(CompanyData.CellStr(c), ".0", ""), 8)
  }

  /** pd.to_numeric(errors="coerce") followed by astype(int): the integer part
      of a decimal numeral, None for NaN or anything else. */
  function YearOf(c: Option<string>): Option<int> {
    if c.Some? && Normalize.NumberSyntax(c.value) then Some(IntPart(c.value)) else None
  }

  /** The value of a numeral truncated toward zero. */
  function IntPart(t: string): int
    requires Normalize.NumberSyntax(t)
  {
    if StartsWith(t, "-") then 0 - Whole(t[1..]) else Whole(t)
  }

  function Whole(u: string): nat
    requires Normalize.UnsignedSyntax(u)
  {
    DigitsValue(u[..Normalize.FirstDot(u)])
  }

  /** bench_corp_code: ".0" removed, "nan", "None" and "<NA>" read as NA, the
      rest zero-padded to 8; NA throughout when the column is absent. */
  function BenchCodeOf(columns: set<string>, c: Option<string>): Option<string> {
    if "bench_corp_code" !in columns then None
    else
      var t := Replace(CompanyData.CellStr(c), ".0", "");
      if t == "nan" || t == "None" || t == "<NA>" then None else Some(ZFill(t, 8))
  }

  /** An optional column: its cell when the header has it, else NA. */
  function Col<T>(columns: set<string>, name: string, v: Option<T>): Option<T> {
    if name in columns then v else None
  }

  /** The target row of a kept CSV row. */
  function TargetRowOf(columns: set<string>, r: CsvRow, year: int): MarketRow {
    MarketRow(CorpCodeOf(r.corpCode), r.corpNameKr, Col(columns, "corp_name_en", r.corpNameEn), r.stockCode,
              year, r.rceptDate, Col(columns, "stock_price", r.stockPrice),
              Col(columns, "shares_outstanding", r.sharesOutstanding), Col(columns, "scale", r.scale),
              "rcept_date", "target")
  }

  /** The benchmark row of a kept CSV row with bench code `code`. */
  function BenchRowOf(columns: set<string>, r: CsvRow, year: int, code: string): MarketRow {
    MarketRow(code, r.benchmarkNameKr, None, r.benchStockCode, year, r.benchRceptDate,
              Col(columns, "bench_stock_price", r.benchStockPrice),
              Col(columns, "bench_shares_outstanding", r.benchSharesOutstanding), None,
              "rcept_date", "benchmark")
  }

  /** The benchmark_map row of a kept CSV row with bench code `code`. */
  function MapRowOf(columns: set<string>, r: CsvRow, year: int, code: string): BenchmarkMapRow {
    BenchmarkMapRow(CorpCodeOf(r.corpCode), year, Col(columns, "benchmark_name_kr", r.benchmarkNameKr), Some(code))
  }

  /** bench_cols_min all present ("year" is required anyway). */
  predicate HasBenchPayload(columns: set<string>) {
    "bench_corp_code" in columns && "benchmark_name_kr" in columns && "bench_stock_code" in columns
    && "year" in columns && "bench_rcept_date" in columns
  }

  /** The rows left by the year filter, each with its integer year, in order. */
  function Kept(rows: seq<CsvRow>): seq<(CsvRow, int)> {
    if rows == [] then []
    else
      var y := YearOf(rows[0].year);
      (if y.Some? then [(rows[0], y.value)] else []) + Kept(rows[1..])
  }

  function TargetRows(columns: set<string>, kept: seq<(CsvRow, int)>): seq<MarketRow> {
    if kept == [] then []
    else [TargetRowOf(columns, kept[0].0, kept[0].1)] + TargetRows(columns, kept[1..])
  }

  /** bench_market_df: the kept rows with a bench code, when the payload columns exist. */
  function BenchRows(columns: set<string>, kept: seq<(CsvRow, int)>): seq<MarketRow> {
    if kept == [] || !HasBenchPayload(columns) then []
    else
      var (r, y) := kept[0];
      var code := BenchCodeOf(columns, r.benchCorpCode);
      (if code.Some? then [BenchRowOf(columns, r, y, code.value)] else []) + BenchRows(columns, kept[1..])
  }

  /** bench_map_df before deduplication: the kept rows with a bench code. */
  function MapRows(columns: set<string>, kept: seq<(CsvRow, int)>): seq<BenchmarkMapRow> {
    if kept == [] then []
    else
      var (r, y) := kept[0];
      var code := BenchCodeOf(columns, r.benchCorpCode);
      (if code.Some? then [MapRowOf(columns, r, y, code.value)] else []) + MapRows(columns, kept[1..])
  }

  function MarketKey(m: MarketRow): (string, int, string) {
    (m.corpCode, m.year, m.corpRole)
  }

  function MapKey(m: BenchmarkMapRow): (string, int) {
    (m.corpCode, m.year)
  }

  /** all_market before deduplication: target rows, then benchmark rows. */
  function AllMarket(csv: Csv): seq<MarketRow> {
    var kept := Kept(csv.rows);
    TargetRows(csv.columns, kept) + BenchRows(csv.columns, kept)
  }

  datatype Seeded = Seeded(market: seq<MarketRow>, benchMap: seq<BenchmarkMapRow>)

  /** The two tables as the transforms compute them, keep-last deduplicated. */
  function SeedOf(csv: Csv): Result<Seeded> {
    var missing := Missing(REQUIRED_COLS, csv.columns);
    if missing != [] then Err(MissingMessage(missing))
    else
      Ok(Seeded(DedupLast(AllMarket(csv), MarketKey),
                DedupLast(MapRows(csv.columns, Kept(csv.rows)), MapKey)))
  }

  /** The two tables of the database file. */
  class MarketDb {
    var marketData: seq<MarketRow>
    var benchmarkMap: seq<BenchmarkMapRow>

    constructor()
      ensures marketData == [] && benchmarkMap == []
    {
      marketData := [];
      benchmarkMap := [];
    }

    /** seed_market_from_csv. With overwrite both tables are dropped first,
        otherwise the new rows are appended; a CSV lacking a required column
        changes nothing. */
    method SeedMarketFromCsv(csv: Csv, overwrite: bool) returns (r: Result<Seeded>)
      modifies this
      ensures r == SeedOf(csv)
      ensures r.Err? ==> marketData == old(marketData) && benchmarkMap == old(benchmarkMap)
      ensures r.Ok? ==> marketData == (if overwrite then [] else old(marketData)) + r.value.market
      ensures r.Ok? ==> benchmarkMap == (if overwrite then [] else old(benchmarkMap)) + r.value.benchMap
    {
      r := SeedOf(csv);
      if r.Err? {
        return;
      }
      if overwrite {
        marketData := [];
        benchmarkMap := [];
      }
      marketData := marketData + r.value.market;
      benchmarkMap := benchmarkMap + r.value.benchMap;
    }
  }

  // ---------------------------------------------------------------------------
  // Properties
  // ---------------------------------------------------------------------------

  lemma {:induction false} MissingSpec(names: seq<string>, columns: set<string>)
    ensures forall x :: x in Missing(names, columns) <==> x in names && x !in columns
  {
    if names != [] {
      MissingSpec(names[1..], columns);
      assert names == [names[0]] + names[1..];
    }
  }

  /** The seeding fails exactly when a required column is missing. */
  lemma SeedFailsIff(csv: Csv)
    ensures SeedOf(csv).Err? <==>
      !("corp_code" in csv.columns && "corp_name_kr" in csv.columns && "stock_code" in csv.columns
        && "year" in csv.columns && "rcept_date" in csv.columns)
  {
    MissingSpec(REQUIRED_COLS, csv.columns);
    var ms := Missing(REQUIRED_COLS, csv.columns);
    assert ms == [] || ms[0] in ms;
    if "corp_code" !in csv.columns {
      assert "corp_code" in Missing(REQUIRED_COLS, csv.columns);
    } else if "corp_name_kr" !in csv.columns {
      assert "corp_name_kr" in Missing(REQUIRED_COLS, csv.columns);
    } else if "stock_code" !in csv.columns {
      assert "stock_code" in Missing(REQUIRED_COLS, csv.columns);
    } else if "year" !in csv.columns {
      assert "year" in Missing(REQUIRED_COLS, csv.columns);
    } else if "rcept_date" !in csv.columns {
      assert "rcept_date" in Missing(REQUIRED_COLS, csv.columns);
    }
  }

  /** The year filter keeps exactly the rows whose year is a number, with that
      number truncated to an int. */
  lemma {:induction false} KeptSpec(rows: seq<CsvRow>)
    ensures forall p :: p in Kept(rows) <==>
      exists k :: 0 <= k < |rows| && rows[k] == p.0 && YearOf(rows[k].year) == Some(p.1)
  {
    if rows != [] {
      KeptSpec(rows[1..]);
      forall p ensures p in Kept(rows) <==>
        exists k :: 0 <= k < |rows| && rows[k] == p.0 && YearOf(rows[k].year) == Some(p.1)
      {
        if p in Kept(rows[1..]) {
          var k :| 0 <= k < |rows[1..]| && rows[1..][k] == p.0 && YearOf(rows[1..][k].year) == Some(p.1);
          assert rows[k + 1] == rows[1..][k];
        }
        if exists k :: 0 <= k < |rows| && rows[k] == p.0 && YearOf(rows[k].year) == Some(p.1) {
          var k :| 0 <= k < |rows| && rows[k] == p.0 && YearOf(rows[k].year) == Some(p.1);
          if k > 0 {
            assert rows[1..][k - 1] == rows[k];
          }
        }
      }
    }
  }

  /** A digit string gives its value as the year. */
  lemma YearOfInteger(d: string)
    requires IsDigits(d)
    ensures YearOf(Some(d)) == Some(DigitsValue(d))
  {
    FirstDotOfDigits(d);
    assert d[..|d|] == d;
    assert Normalize.UnsignedSyntax(d);
    assert !StartsWith(d, "-") by {
      assert IsDigit(d[0]);
    }
    assert Normalize.NumberSyntax(d);
    assert Whole(d) == DigitsValue(d);
  }

  /** The float rendering of a digit string gives the same year. */
  lemma YearOfFloat(d: string)
    requires IsDigits(d)
    ensures YearOf(Some(d + ".0")) == Some(DigitsValue(d))
  {
    FirstDotOfDigits(d);
    var u := d + ".0";
    assert u[..|d|] == d;
    assert u[|d| + 1..] == "0";
    assert Normalize.UnsignedSyntax(u);
    assert !StartsWith(u, "-") by {
      assert u[0] == d[0];
      assert IsDigit(d[0]);
    }
    assert Normalize.NumberSyntax(u);
    assert Whole(u) == DigitsValue(d);
  }

  lemma FirstDotOfDigits(d: string)
    requires IsDigits(d)
    ensures Normalize.FirstDot(d) == |d|
    ensures Normalize.FirstDot(d + ".0") == |d|
  {
    var u := d + ".0";
    assert u[|d|] == '.';
    assert forall k :: 0 <= k < |d| ==> u[k] == d[k];
  }

  /** NaN and text that is no numeral give no year. */
  lemma YearOfNonNumeric()
    ensures YearOf(None) == None
    ensures YearOf(Some("n/a")) == None
  {
    assert Normalize.FirstDot("n/a") == 3;
  }

  /** Replace leaves alone a text without '.' and strips the ".0" after it. */
  lemma {:induction false} ReplaceDotZero(d: string)
    requires forall k :: 0 <= k < |d| ==> d[k] != '.'
    ensures Replace(d + ".0", ".0", "") == d
  {
    if d != [] {
      ReplaceDotZero(d[1..]);
      assert (d + ".0")[1..] == d[1..] + ".0";
      assert (d + ".0")[0] == d[0];
    }
  }

  /** A code read from a float column loses its ".0" and is padded. */
  lemma CorpCodeOfFloat(d: string)
    requires IsDigits(d)
    ensures CorpCodeOf(Some(d + ".0")) == ZFill(d, 8)
  {
    ReplaceDotZero(d);
  }

  /** Every ".0" goes, not only a final one; a NaN code becomes "00000nan". */
  lemma CorpCodeOfExamples()
    ensures CorpCodeOf(Some("1.02.0")) == "00000012"
    ensures CorpCodeOf(None) == "00000nan"
  {
    assert "1.02.0"[..2] == "1.";
    assert "1.02.0"[1..] == ".02.0";
    assert ".02.0"[..2] == ".0";
    assert ".02.0"[2..] == "2.0";
    assert "2.0"[1..] == ".0";
    ReplaceDotZero("2");
    assert Replace("1.02.0", ".0", "") == "12";
    assert Replace("nan", ".0", "") == "nan" by {
      assert "nan"[1..] == "an";
      assert "an"[1..] == "n";
    }
  }

  /** A bench code is NA for the NaN spellings and otherwise padded to at least 8. */
  lemma BenchCodeSpec(columns: set<string>, c: Option<string>)
    ensures "bench_corp_code" !in columns ==> BenchCodeOf(columns, c) == None
    ensures c.None? ==> BenchCodeOf(columns, c) == None
    ensures BenchCodeOf(columns, c).Some? ==> |BenchCodeOf(columns, c).value| >= 8
  {
    assert Replace("nan", ".0", "") == "nan" by {
      assert "nan"[1..] == "an";
      assert "an"[1..] == "n";
    }
  }

  /** Each target row comes from a kept row. */
  lemma {:induction false} TargetRowsFrom(columns: set<string>, kept: seq<(CsvRow, int)>)
    ensures forall m :: m in TargetRows(columns, kept) ==>
      exists p :: p in kept && m == TargetRowOf(columns, p.0, p.1)
  {
    if kept != [] {
      TargetRowsFrom(columns, kept[1..]);
    }
  }

  /** m is the benchmark row of a kept row with a bench code. */
  predicate BenchFrom(columns: set<string>, kept: seq<(CsvRow, int)>, m: MarketRow) {
    exists p :: p in kept && BenchCodeOf(columns, p.0.benchCorpCode) == Some(m.corpCode)
      && m == BenchRowOf(columns, p.0, p.1, m.corpCode)
  }

  /** m is the map row of a kept row with a bench code. */
  predicate MapFrom(columns: set<string>, kept: seq<(CsvRow, int)>, m: BenchmarkMapRow) {
    m.benchCorpCode.Some? &&
    exists p :: p in kept && BenchCodeOf(columns, p.0.benchCorpCode) == m.benchCorpCode
      && m == MapRowOf(columns, p.0, p.1, m.benchCorpCode.value)
  }

  /** Each benchmark row comes from a kept row with a bench code. */
  lemma {:induction false} BenchRowsFrom(columns: set<string>, kept: seq<(CsvRow, int)>)
    ensures forall m :: m in BenchRows(columns, kept) ==>
      HasBenchPayload(columns) && BenchFrom(columns, kept, m)
  {
    if kept != [] && HasBenchPayload(columns) {
      BenchRowsFrom(columns, kept[1..]);
    }
  }

  /** Each map row comes from a kept row with a bench code. */
  lemma {:induction false} MapRowsFrom(columns: set<string>, kept: seq<(CsvRow, int)>)
    ensures forall m :: m in MapRows(columns, kept) ==> MapFrom(columns, kept, m)
  {
    if kept != [] {
      MapRowsFrom(columns, kept[1..]);
    }
  }

  /** Every kept row yields its target row, and its benchmark and map rows
      whenever it has a bench code (the benchmark row also needs the payload columns). */
  lemma {:induction false} RowsOfKept(columns: set<string>, kept: seq<(CsvRow, int)>, k: nat)
    requires k < |kept|
    ensures TargetRowOf(columns, kept[k].0, kept[k].1) in TargetRows(columns, kept)
    ensures BenchCodeOf(columns, kept[k].0.benchCorpCode).Some? ==>
      MapRowOf(columns, kept[k].0, kept[k].1, BenchCodeOf(columns, kept[k].0.benchCorpCode).value) in MapRows(columns, kept)
    ensures BenchCodeOf(columns, kept[k].0.benchCorpCode).Some? && HasBenchPayload(columns) ==>
      BenchRowOf(columns, kept[k].0, kept[k].1, BenchCodeOf(columns, kept[k].0.benchCorpCode).value) in BenchRows(columns, kept)
  {
    if k > 0 {
      RowsOfKept(columns, kept[1..], k - 1);
      assert kept[1..][k - 1] == kept[k];
    }
  }

  /** Without a bench_corp_code column nothing but target rows is written. */
  lemma {:induction false} NoBenchColumn(columns: set<string>, kept: seq<(CsvRow, int)>)
    requires "bench_corp_code" !in columns
    ensures BenchRows(columns, kept) == [] && MapRows(columns, kept) == []
  {
    if kept != [] {
      NoBenchColumn(columns, kept[1..]);
    }
  }

  /** One row per key remains in each table, and no key is lost. */
  lemma SeedKeys(csv: Csv)
    requires SeedOf(csv).Ok?
    ensures var s := SeedOf(csv).value;
      KeysDistinct(s.market, MarketKey) && KeysOf(s.market, MarketKey) == KeysOf(AllMarket(csv), MarketKey)
      && KeysDistinct(s.benchMap, MapKey)
      && KeysOf(s.benchMap, MapKey) == KeysOf(MapRows(csv.columns, Kept(csv.rows)), MapKey)
  {
    DedupLastKeys(AllMarket(csv), MarketKey);
    DedupLastKeys(MapRows(csv.columns, Kept(csv.rows)), MapKey);
  }

  /** The last row of each key is the one written, and only last rows are. */
  lemma SeedLastWins(csv: Csv)
    requires SeedOf(csv).Ok?
    ensures var all := AllMarket(csv);
      forall k :: 0 <= k < |all| && LastOfKey(all, MarketKey, k) ==> all[k] in SeedOf(csv).value.market
    ensures var all := AllMarket(csv);
      forall m :: m in SeedOf(csv).value.market ==> exists k :: 0 <= k < |all| && all[k] == m && LastOfKey(all, MarketKey, k)
    ensures var maps := MapRows(csv.columns, Kept(csv.rows));
      forall k :: 0 <= k < |maps| && LastOfKey(maps, MapKey, k) ==> maps[k] in SeedOf(csv).value.benchMap
  {
    DedupLastAllLast(AllMarket(csv), MarketKey);
    DedupLastOnlyLast(AllMarket(csv), MarketKey);
    DedupLastAllLast(MapRows(csv.columns, Kept(csv.rows)), MapKey);
  }

  /** Every written market row is a target row, or a benchmark row when the
      payload columns exist. */
  lemma SeedMarketShape(csv: Csv)
    requires SeedOf(csv).Ok?
    ensures forall m :: m in SeedOf(csv).value.market ==>
      m.priceBasis == "rcept_date" && (m.corpRole == "target" || (m.corpRole == "benchmark" && HasBenchPayload(csv.columns)))
  {
    var kept := Kept(csv.rows);
    TargetRowsFrom(csv.columns, kept);
    BenchRowsFrom(csv.columns, kept);
    DedupLastIn(AllMarket(csv), MarketKey);
  }

  /** Every benchmark_map row has a bench code. */
  lemma SeedMapShape(csv: Csv)
    requires SeedOf(csv).Ok?
    ensures forall m :: m in SeedOf(csv).value.benchMap ==> m.benchCorpCode.Some?
  {
    MapRowsFrom(csv.columns, Kept(csv.rows));
    DedupLastIn(MapRows(csv.columns, Kept(csv.rows)), MapKey);
  }
}
