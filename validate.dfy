/** src/validate.py: the quality checks over the market tables and the
    per-report ingest counts. Each query is a function of the tables. */
module Validate {
  import opened Common
  import opened MarketData
  import SeedMarket

  /** The number of elements of xs with key k (COUNT(*) of one group). */
  function CountKey<T, K(==)>(xs: seq<T>, key: T -> K, k: K): (n: nat)
    ensures n <= |xs|
  {
    if xs == [] then 0
    else CountKey(xs[..|xs| - 1], key, k) + (if key(xs[|xs| - 1]) == k then 1 else 0)
  }

  // ---------------------------------------------------------------------------
  // dup_market, dup_map: GROUP BY ... HAVING COUNT(*) > 1
  // ---------------------------------------------------------------------------

  /** The groups of a key with more than one row, each with its count. */
  function Dups<T, K(==)>(xs: seq<T>, key: T -> K): set<(K, nat)> {
    set k | k in KeysOf(xs, key) && CountKey(xs, key, k) > 1 :: (k, CountKey(xs, key, k))
  }

  function DupMarket(market: seq<MarketRow>): set<((string, int, string), nat)> {
    Dups(market, SeedMarket.MarketKey)
  }

  function DupMap(bmap: seq<BenchmarkMapRow>): set<((string, int), nat)> {
    Dups(bmap, SeedMarket.MapKey)
  }

  // ---------------------------------------------------------------------------
  // missing_bench_in_market_data: LEFT JOIN ... WHERE m.corp_code IS NULL
  // ---------------------------------------------------------------------------

  /** A market row that a map row's bench code matches (a NULL code matches nothing). */
  predicate BenchMatch(m: MarketRow, b: BenchmarkMapRow) {
    b.benchCorpCode == Some(m.corpCode) && m.year == b.year && m.corpRole == "benchmark"
  }

  predicate HasBenchRow(market: seq<MarketRow>, b: BenchmarkMapRow) {
    exists j :: 0 <= j < |market| && BenchMatch(market[j], b)
  }

  /** The first market row that matches b, if any. */
  function FirstBenchRow(market: seq<MarketRow>, b: BenchmarkMapRow): Option<nat> {
    FirstIndex(market, (m: MarketRow) => BenchMatch(m, b))
  }

  /** (corp_code, year, bench_corp_code) of every map row without a matching
      benchmark market row, in table order. */
  function MissingBench(bmap: seq<BenchmarkMapRow>, market: seq<MarketRow>): seq<(string, int, Option<string>)> {
    if bmap == [] then []
    else
      var b := bmap[0];
      (if FirstBenchRow(market, b).None? then [(b.corpCode, b.year, b.benchCorpCode)] else [])
      + MissingBench(bmap[1..], market)
  }

  // ---------------------------------------------------------------------------
  // null_stats: AVG(CASE WHEN c IS NULL THEN 1 ELSE 0 END)
  // ---------------------------------------------------------------------------

  /** The columns of null_stats that can be NULL in a market row. */
  datatype NullableCol = StockCode | AsofDate | StockPrice | SharesOutstanding

  predicate IsNullIn(c: NullableCol, m: MarketRow) {
    match c
    case StockCode => m.stockCode.None?
    case AsofDate => m.asofDate.None?
    case StockPrice => m.stockPrice.None?
    case SharesOutstanding => m.sharesOutstanding.None?
  }

  function NullCount(market: seq<MarketRow>, c: NullableCol): (n: nat)
    ensures n <= |market|
  {
    if market == [] then 0
    else NullCount(market[1..], c) + (if IsNullIn(c, market[0]) then 1 else 0)
  }

  /** The share of NULLs in a column; AVG over no row is NULL. corp_code,
      year and corp_role are never NULL in the model, so their share is 0. */
  function NullShare(market: seq<MarketRow>, c: NullableCol): Option<real> {
    if market == [] then None else Some(NullCount(market, c) as real / |market| as real)
  }

  // ---------------------------------------------------------------------------
  // invalid_price_shares, self_benchmark: WHERE ... LIMIT 50
  // ---------------------------------------------------------------------------

  const ROW_LIMIT := 50

  predicate InvalidPrice(m: MarketRow) {
    m.stockPrice.None? || m.sharesOutstanding.None? || m.stockPrice.value <= 0.0 || m.sharesOutstanding.value <= 0.0
  }

  function InvalidRows(market: seq<MarketRow>): seq<MarketRow> {
    if market == [] then []
    else (if InvalidPrice(market[0]) then [market[0]] else []) + InvalidRows(market[1..])
  }

  /** invalid_price_shares, the first 50 in table order. */
  function InvalidPriceShares(market: seq<MarketRow>): seq<MarketRow> {
    Take(InvalidRows(market), ROW_LIMIT)
  }

  /** corp_code = bench_corp_code; a NULL bench code is never equal. */
  predicate SelfPair(b: BenchmarkMapRow) {
    b.benchCorpCode == Some(b.corpCode)
  }

  function SelfRows(bmap: seq<BenchmarkMapRow>): seq<BenchmarkMapRow> {
    if bmap == [] then []
    else (if SelfPair(bmap[0]) then [bmap[0]] else []) + SelfRows(bmap[1..])
  }

  function SelfBenchmark(bmap: seq<BenchmarkMapRow>): seq<BenchmarkMapRow> {
    Take(SelfRows(bmap), ROW_LIMIT)
  }

  // ---------------------------------------------------------------------------
  // multi_benchmark: COUNT(DISTINCT bench_corp_code) > 1 per (corp_code, year)
  // ---------------------------------------------------------------------------

  /** The non-NULL bench codes of one (corp_code, year) group. */
  function BenchCodes(bmap: seq<BenchmarkMapRow>, g: (string, int)): set<string> {
    set b | b in bmap && SeedMarket.MapKey(b) == g && b.benchCorpCode.Some? :: b.benchCorpCode.value
  }

  /** The groups whose first rows are gs, each with its bench-code count,
      kept when the count exceeds one (the subquery and its WHERE). */
  function MultiRows(bmap: seq<BenchmarkMapRow>, gs: seq<BenchmarkMapRow>): seq<((string, int), nat)> {
    if gs == [] then []
    else
      var g := SeedMarket.MapKey(gs[|gs| - 1]);
      MultiRows(bmap, gs[..|gs| - 1]) + (if |BenchCodes(bmap, g)| > 1 then [(g, |BenchCodes(bmap, g)|)] else [])
  }

  /** Every (corp_code, year) group with more than one bench code; the model
      takes the groups in order of first appearance, where SQL leaves the
      order of GROUP BY open. */
  function MultiGroups(bmap: seq<BenchmarkMapRow>): seq<((string, int), nat)> {
    MultiRows(bmap, DedupFirst(bmap, SeedMarket.MapKey))
  }

  /** multi_benchmark: the first 50 of those groups. */
  function MultiBenchmark(bmap: seq<BenchmarkMapRow>): seq<((string, int), nat)> {
    Take(MultiGroups(bmap), ROW_LIMIT)
  }

  // ---------------------------------------------------------------------------
  // validate_ingest_report
  // ---------------------------------------------------------------------------

  /** The columns of the ingest tables the counts read. */
  datatype SectionRow = SectionRow(sectionId: string, reportId: string, sectionType: string)
  datatype RagTableRow = RagTableRow(sectionId: string, statementType: string)
  datatype ChunkRow = ChunkRow(reportId: string, sectionType: string)

  /** COUNT(*) per group of the rows a filter keeps. */
  function GroupCounts<T>(rows: seq<T>, keep: T -> bool, group: T -> string): (r: map<string, nat>)
    ensures forall g :: g in r ==> r[g] > 0
  {
    if rows == [] then map[]
    else
      var r0 := GroupCounts(rows[..|rows| - 1], keep, group);
      var x := rows[|rows| - 1];
      if !keep(x) then r0
      else r0[group(x) := (if group(x) in r0 then r0[group(x)] else 0) + 1]
  }

  /** The number of rows a filter keeps whose group is g. */
  function CountIn<T>(rows: seq<T>, keep: T -> bool, group: T -> string, g: string): nat {
    if rows == [] then 0
    else CountIn(rows[..|rows| - 1], keep, group, g) + (if keep(rows[|rows| - 1]) && group(rows[|rows| - 1]) == g then 1 else 0)
  }

  function CountOf<T>(rows: seq<T>, keep: T -> bool): nat {
    if rows == [] then 0 else CountOf(rows[1..], keep) + (if keep(rows[0]) then 1 else 0)
  }

  /** The section of a rag_tables row, when it belongs to the report (the JOIN). */
  predicate TableInReport(sections: seq<SectionRow>, reportId: string, t: RagTableRow) {
    exists j :: 0 <= j < |sections| && sections[j].sectionId == t.sectionId && sections[j].reportId == reportId
  }

  /** The number of sections of the report a table row joins to (one output row each). */
  function JoinCount(sections: seq<SectionRow>, reportId: string, t: RagTableRow): nat {
    CountOf(sections, (s: SectionRow) => s.sectionId == t.sectionId && s.reportId == reportId)
  }

  /** The JOIN of rag_tables and report_sections for one report: each table row
      once per matching section row. */
  function JoinedTables(tables: seq<RagTableRow>, sections: seq<SectionRow>, reportId: string): seq<RagTableRow> {
    if tables == [] then []
    else seq(JoinCount(sections, reportId, tables[0]), _ => tables[0]) + JoinedTables(tables[1..], sections, reportId)
  }

  datatype IngestReport = IngestReport(sections: map<string, nat>, tables: map<string, nat>,
                                       chunks: map<string, nat>, fsFactsCnt: nat, noteLinksCnt: nat)

  /** validate_ingest_report. fs_facts and note_links are given by their report ids. */
  function ValidateIngestReport(sections: seq<SectionRow>, tables: seq<RagTableRow>, chunks: seq<ChunkRow>,
                                factReports: seq<string>, linkReports: seq<string>, reportId: string): IngestReport {
    IngestReport(
      GroupCounts(sections, (s: SectionRow) => s.reportId == reportId, (s: SectionRow) => s.sectionType),
      GroupCounts(JoinedTables(tables, sections, reportId), (t: RagTableRow) => true, (t: RagTableRow) => t.statementType),
      GroupCounts(chunks, (c: ChunkRow) => c.reportId == reportId, (c: ChunkRow) => c.sectionType),
      CountOf(factReports, (r: string) => r == reportId),
      CountOf(linkReports, (r: string) => r == reportId))
  }

  // ---------------------------------------------------------------------------
  // Properties
  // ---------------------------------------------------------------------------

  /** dup lists exactly the keys with more than one row, with their counts. */
  lemma DupsSpec<T, K>(xs: seq<T>, key: T -> K)
    ensures forall k: K, c: nat :: (k, c) in Dups(xs, key) <==> c > 1 && c == CountKey(xs, key, k)
  {
    forall k: K, c: nat | c > 1 && c == CountKey(xs, key, k) ensures (k, c) in Dups(xs, key) {
      CountKeyPositive(xs, key, k);
    }
  }

  /** A key with a row has one of its rows in the table. */
  lemma {:induction false} CountKeyPositive<T, K>(xs: seq<T>, key: T -> K, k: K)
    requires CountKey(xs, key, k) > 0
    ensures k in KeysOf(xs, key)
  {
    var n := |xs| - 1;
    if key(xs[n]) != k {
      CountKeyPositive(xs[..n], key, k);
      var j :| 0 <= j < n && key(xs[..n][j]) == k;
      assert xs[j] == xs[..n][j];
    }
  }

  /** Distinct keys leave every count at one or below. */
  lemma {:induction false} CountKeyDistinct<T, K>(xs: seq<T>, key: T -> K, k: K)
    requires KeysDistinct(xs, key)
    ensures CountKey(xs, key, k) <= 1
  {
    if xs != [] {
      var n := |xs| - 1;
      var init := xs[..n];
      assert KeysDistinct(init, key) by {
        forall i, j | 0 <= i < j < |init| ensures key(init[i]) != key(init[j]) {
          assert init[i] == xs[i] && init[j] == xs[j];
        }
      }
      CountKeyDistinct(init, key, k);
      if key(xs[n]) == k {
        CountKeyAbsent(init, key, k, xs, n);
      }
    }
  }

  /** No row of the prefix has the key of xs[n]. */
  lemma CountKeyAbsent<T, K>(init: seq<T>, key: T -> K, k: K, xs: seq<T>, n: nat)
    requires n < |xs| && init == xs[..n] && KeysDistinct(xs, key) && key(xs[n]) == k
    ensures CountKey(init, key, k) == 0
  {
    forall j | 0 <= j < |init| ensures key(init[j]) != k {
      assert init[j] == xs[j];
    }
    CountKeyNone(init, key, k);
  }

  lemma {:induction false} CountKeyNone<T, K>(xs: seq<T>, key: T -> K, k: K)
    requires forall j :: 0 <= j < |xs| ==> key(xs[j]) != k
    ensures CountKey(xs, key, k) == 0
  {
    if xs != [] {
      var n := |xs| - 1;
      forall j | 0 <= j < n ensures key(xs[..n][j]) != k {
        assert xs[..n][j] == xs[j];
      }
      CountKeyNone(xs[..n], key, k);
    }
  }

  /** Tables written by the seeding have no duplicate groups. */
  lemma SeededHasNoDups(csv: SeedMarket.Csv)
    requires SeedMarket.SeedOf(csv).Ok?
    ensures DupMarket(SeedMarket.SeedOf(csv).value.market) == {}
    ensures DupMap(SeedMarket.SeedOf(csv).value.benchMap) == {}
  {
    var s := SeedMarket.SeedOf(csv).value;
    SeedMarket.SeedKeys(csv);
    DupsSpec(s.market, SeedMarket.MarketKey);
    DupsSpec(s.benchMap, SeedMarket.MapKey);
    forall p | p in DupMarket(s.market) ensures false {
      CountKeyDistinct(s.market, SeedMarket.MarketKey, p.0);
    }
    forall p | p in DupMap(s.benchMap) ensures false {
      CountKeyDistinct(s.benchMap, SeedMarket.MapKey, p.0);
    }
  }

  /** missing_bench lists exactly the map rows no benchmark market row matches. */
  lemma {:induction false} MissingBenchSpec(bmap: seq<BenchmarkMapRow>, market: seq<MarketRow>)
    ensures forall t :: t in MissingBench(bmap, market) <==>
      exists i :: 0 <= i < |bmap| && (bmap[i].corpCode, bmap[i].year, bmap[i].benchCorpCode) == t && !HasBenchRow(market, bmap[i])
  {
    if bmap != [] {
      MissingBenchSpec(bmap[1..], market);
      FirstBenchRowSpec(market, bmap[0]);
      forall t ensures t in MissingBench(bmap, market) <==>
        exists i :: 0 <= i < |bmap| && (bmap[i].corpCode, bmap[i].year, bmap[i].benchCorpCode) == t && !HasBenchRow(market, bmap[i])
      {
        if t in MissingBench(bmap[1..], market) {
          var i :| 0 <= i < |bmap[1..]| && (bmap[1..][i].corpCode, bmap[1..][i].year, bmap[1..][i].benchCorpCode) == t
            && !HasBenchRow(market, bmap[1..][i]);
          assert bmap[i + 1] == bmap[1..][i];
        }
        if exists i :: 0 <= i < |bmap| && (bmap[i].corpCode, bmap[i].year, bmap[i].benchCorpCode) == t && !HasBenchRow(market, bmap[i]) {
          var i :| 0 <= i < |bmap| && (bmap[i].corpCode, bmap[i].year, bmap[i].benchCorpCode) == t && !HasBenchRow(market, bmap[i]);
          if i > 0 {
            assert bmap[1..][i - 1] == bmap[i];
          }
        }
      }
    }
  }

  lemma FirstBenchRowSpec(market: seq<MarketRow>, b: BenchmarkMapRow)
    ensures FirstBenchRow(market, b).None? <==> !HasBenchRow(market, b)
  {
    var p := (m: MarketRow) => BenchMatch(m, b);
    match FirstIndex(market, p)
    case Some(i) => FirstIndexAt(market, p, i);
    case None => FirstIndexNone(market, p);
  }

  /** A map row whose bench code is NULL is always reported missing. */
  lemma NullBenchMissing(market: seq<MarketRow>, b: BenchmarkMapRow)
    requires b.benchCorpCode.None?
    ensures !HasBenchRow(market, b)
  {
  }

  /** A null share lies in [0, 1], and is NULL only for an empty table. */
  lemma NullShareBounds(market: seq<MarketRow>, c: NullableCol)
    ensures NullShare(market, c).None? <==> market == []
    ensures NullShare(market, c).Some? ==> 0.0 <= NullShare(market, c).value <= 1.0
  {
  }

  /** Every row of invalid_rows fails the price/shares test and none passing it is lost. */
  lemma {:induction false} InvalidRowsSpec(market: seq<MarketRow>)
    ensures forall m :: m in InvalidRows(market) <==> m in market && InvalidPrice(m)
  {
    if market != [] {
      InvalidRowsSpec(market[1..]);
      assert market == [market[0]] + market[1..];
    }
  }

  /** invalid_price_shares holds at most 50 invalid rows, and all of them when
      there are fewer. */
  lemma InvalidPriceSharesSpec(market: seq<MarketRow>)
    ensures |InvalidPriceShares(market)| <= ROW_LIMIT
    ensures forall m :: m in InvalidPriceShares(market) ==> m in market && InvalidPrice(m)
    ensures |InvalidRows(market)| <= ROW_LIMIT ==>
      forall m :: m in market && InvalidPrice(m) ==> m in InvalidPriceShares(market)
  {
    InvalidRowsSpec(market);
    var r := InvalidPriceShares(market);
    forall m | m in r ensures m in InvalidRows(market) {
      var i :| 0 <= i < |r| && r[i] == m;
      assert InvalidRows(market)[i] == m;
    }
  }

  lemma {:induction false} SelfRowsSpec(bmap: seq<BenchmarkMapRow>)
    ensures forall b :: b in SelfRows(bmap) <==> b in bmap && SelfPair(b)
  {
    if bmap != [] {
      SelfRowsSpec(bmap[1..]);
      assert bmap == [bmap[0]] + bmap[1..];
    }
  }

  /** self_benchmark holds at most 50 rows mapping a company to itself, and all
      of them when there are fewer. */
  lemma SelfBenchmarkSpec(bmap: seq<BenchmarkMapRow>)
    ensures |SelfBenchmark(bmap)| <= ROW_LIMIT
    ensures forall b :: b in SelfBenchmark(bmap) ==> b in bmap && b.benchCorpCode == Some(b.corpCode)
    ensures |SelfRows(bmap)| <= ROW_LIMIT ==>
      forall b :: b in bmap && b.benchCorpCode == Some(b.corpCode) ==> b in SelfBenchmark(bmap)
  {
    SelfRowsSpec(bmap);
    var r := SelfBenchmark(bmap);
    forall b | b in r ensures b in SelfRows(bmap) {
      var i :| 0 <= i < |r| && r[i] == b;
      assert SelfRows(bmap)[i] == b;
    }
  }

  /** A group is listed exactly when one of the rows gs has its key and it has
      two or more bench codes; with distinct keys, each group once. */
  lemma {:induction false} MultiRowsSpec(bmap: seq<BenchmarkMapRow>, gs: seq<BenchmarkMapRow>, g: (string, int), n: nat)
    ensures (g, n) in MultiRows(bmap, gs) <==>
      g in KeysOf(gs, SeedMarket.MapKey) && n > 1 && n == |BenchCodes(bmap, g)|
  {
    if gs != [] {
      MultiRowsSpec(bmap, gs[..|gs| - 1], g, n);
    }
  }

  lemma {:induction false} MultiRowsDistinct(bmap: seq<BenchmarkMapRow>, gs: seq<BenchmarkMapRow>)
    requires KeysDistinct(gs, SeedMarket.MapKey)
    ensures forall i, j :: 0 <= i < j < |MultiRows(bmap, gs)| ==> MultiRows(bmap, gs)[i].0 != MultiRows(bmap, gs)[j].0
  {
    if gs != [] {
      var init := gs[..|gs| - 1];
      var g := SeedMarket.MapKey(gs[|gs| - 1]);
      MultiRowsDistinct(bmap, init);
      var r0 := MultiRows(bmap, init);
      forall i | 0 <= i < |r0| ensures r0[i].0 != g {
        MultiRowsSpec(bmap, init, r0[i].0, r0[i].1);
        assert r0[i] in r0;
      }
    }
  }

  /** A group with a bench code has a row, so its key is among the keys. */
  lemma BenchCodesKey(bmap: seq<BenchmarkMapRow>, g: (string, int))
    requires BenchCodes(bmap, g) != {}
    ensures g in KeysOf(bmap, SeedMarket.MapKey)
  {
    var c :| c in BenchCodes(bmap, g);
    var b :| b in bmap && SeedMarket.MapKey(b) == g && b.benchCorpCode == Some(c);
    var i :| 0 <= i < |bmap| && bmap[i] == b;
    assert SeedMarket.MapKey(bmap[i]) in KeysOf(bmap, SeedMarket.MapKey);
  }

  /** multi_benchmark holds at most 50 groups, each once and each with two
      or more distinct bench codes, and every such group when there are at
      most 50. */
  lemma MultiBenchmarkSpec(bmap: seq<BenchmarkMapRow>, g: (string, int), n: nat)
    ensures |MultiBenchmark(bmap)| <= ROW_LIMIT
    ensures (g, n) in MultiBenchmark(bmap) ==> n > 1 && n == |BenchCodes(bmap, g)|
    ensures |MultiGroups(bmap)| <= ROW_LIMIT ==>
      ((g, n) in MultiBenchmark(bmap) <==> n > 1 && n == |BenchCodes(bmap, g)|)
    ensures forall i, j :: 0 <= i < j < |MultiBenchmark(bmap)| ==> MultiBenchmark(bmap)[i].0 != MultiBenchmark(bmap)[j].0
  {
    var key := SeedMarket.MapKey;
    DedupFirstKeys(bmap, key);
    MultiRowsSpec(bmap, DedupFirst(bmap, key), g, n);
    MultiRowsDistinct(bmap, DedupFirst(bmap, key));
    TakeOfDistinct(MultiGroups(bmap), ROW_LIMIT, (g, n));
    if n > 1 && n == |BenchCodes(bmap, g)| {
      BenchCodesKey(bmap, g);
    }
  }

  /** A prefix keeps its elements from the whole and distinct first
      components. */
  lemma TakeOfDistinct<K, V>(all: seq<(K, V)>, limit: nat, p: (K, V))
    requires forall i, j :: 0 <= i < j < |all| ==> all[i].0 != all[j].0
    ensures p in Take(all, limit) ==> p in all
    ensures |all| <= limit ==> Take(all, limit) == all
    ensures forall i, j :: 0 <= i < j < |Take(all, limit)| ==> Take(all, limit)[i].0 != Take(all, limit)[j].0
  {
    var r := Take(all, limit);
    assert r == all[..|r|];
  }

  /** One row per (corp_code, year) leaves at most one bench code per group. */
  lemma BenchCodesOfDistinct(bmap: seq<BenchmarkMapRow>, g: (string, int))
    requires KeysDistinct(bmap, SeedMarket.MapKey)
    ensures |BenchCodes(bmap, g)| <= 1
  {
    var s := BenchCodes(bmap, g);
    if s != {} {
      var c :| c in s;
      var b :| b in bmap && SeedMarket.MapKey(b) == g && b.benchCorpCode == Some(c);
      forall c2 | c2 in s ensures c2 == c {
        var b2 :| b2 in bmap && SeedMarket.MapKey(b2) == g && b2.benchCorpCode == Some(c2);
        var i :| 0 <= i < |bmap| && bmap[i] == b;
        var j :| 0 <= j < |bmap| && bmap[j] == b2;
        assert !(i < j) && !(j < i);
      }
      assert s == {c};
    }
  }

  /** A seeded benchmark_map never has a company with two benchmarks. */
  lemma SeededHasNoMultiBenchmark(csv: SeedMarket.Csv)
    requires SeedMarket.SeedOf(csv).Ok?
    ensures MultiBenchmark(SeedMarket.SeedOf(csv).value.benchMap) == []
  {
    var bm := SeedMarket.SeedOf(csv).value.benchMap;
    SeedMarket.SeedKeys(csv);
    if MultiBenchmark(bm) != [] {
      var p := MultiBenchmark(bm)[0];
      MultiBenchmarkSpec(bm, p.0, p.1);
      BenchCodesOfDistinct(bm, p.0);
      assert false;
    }
  }

  /** Each group count is the number of kept rows of that group, and a group
      appears exactly when it has a kept row. */
  lemma {:induction false} GroupCountsSpec<T>(rows: seq<T>, keep: T -> bool, group: T -> string, g: string)
    ensures g in GroupCounts(rows, keep, group) <==> CountIn(rows, keep, group, g) > 0
    ensures g in GroupCounts(rows, keep, group) ==> GroupCounts(rows, keep, group)[g] == CountIn(rows, keep, group, g)
  {
    if rows != [] {
      GroupCountsSpec(rows[..|rows| - 1], keep, group, g);
    }
  }

  /** The fact and link counts are the rows of the report. */
  lemma {:induction false} CountOfSpec<T>(rows: seq<T>, keep: T -> bool)
    ensures CountOf(rows, keep) <= |rows|
    ensures CountOf(rows, keep) == 0 <==> forall i :: 0 <= i < |rows| ==> !keep(rows[i])
  {
    if rows != [] {
      CountOfSpec(rows[1..], keep);
      assert forall i :: 1 <= i < |rows| ==> rows[i] == rows[1..][i - 1];
    }
  }

  /** A table row is counted once per section row of the report it joins to,
      so a table in another report is not counted. */
  lemma JoinedTablesFrom(tables: seq<RagTableRow>, sections: seq<SectionRow>, reportId: string)
    ensures forall t :: t in JoinedTables(tables, sections, reportId) ==> t in tables && JoinCount(sections, reportId, t) > 0
  {
    if tables != [] {
      JoinedTablesFrom(tables[1..], sections, reportId);
    }
  }
}
