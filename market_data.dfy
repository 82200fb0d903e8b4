/** The two market tables written by src/seed_market.py and read by the
    calculation engine, the ingest helpers and the market checks. */
module MarketData {
  import opened Common

  /** A market_data row. corp_role is "target" or "benchmark" for every row
      the seeding writes; asof_date is a YYYYMMDD integer. */
  datatype MarketRow = MarketRow(
    corpCode: string,
    corpNameKr: Option<string>,
    corpNameEn: Option<string>,
    stockCode: Option<string>,
    year: int,
    asofDate: Option<int>,
    stockPrice: Option<real>,
    sharesOutstanding: Option<real>,
    scale: Option<string>,
    priceBasis: string,
    corpRole: string)

  /** A benchmark_map row: the benchmark company of a target in a year. */
  datatype BenchmarkMapRow = BenchmarkMapRow(
    corpCode: string,
    year: int,
    benchmarkNameKr: Option<string>,
    benchCorpCode: Option<string>)
}
