# DART financial-report pipeline, modelled in Dafny

The modelled system turns Korean DART business reports into a financial-analysis
report. Its core is:

- **Calculation engine** (`src/calc.py`). Raw statement rows are tagged with canonical
  account keys (`std_key`) through an exact-match account map. The model then does
  the following:
  - A value is resolved only when every candidate agrees; otherwise it is null.
  - Stock price and shares outstanding fall back to the latest market snapshot.
  - Derived quantities are computed: long-term-debt fallback, clamped tax rate,
    NOPAT, invested capital and per-share values.
  - Ratios are evaluated against a requirements table.
  - `fact_metrics` is materialised with YoY deltas and the polarity-based
    `benchmark_improved` flag.

  Each DuckDB view is a function over sequences of records. The two table-updating
  steps are methods on a table class.
- **Statement structuring** (`src/ingest.py` and `src/utils`). This covers:
  - the indentation tree and the note-number roll-up;
  - unit detection;
  - rowspan/colspan grid expansion;
  - the rules for which cells become facts;
  - note links and note sections;
  - the string helpers: note-reference splitting, number parsing, whitespace and
    indentation, text chunking, title classification, chunk-id encodings and XML
    section slicing.
- **Market and benchmark preparation**:
  - `resources/company_data.py`: code padding, the receipt-date window, tier sampling,
    the static peer table and the three-stage peer resolution;
  - `src/seed_market.py`: the seeding transforms;
  - `src/validate.py`: the QC filters;
  - `scripts/run_calc.py`: the validation summary, which fails closed, and the JSON export.
- **Report-input shaping**:
  - normalisation of the metrics and evidence specs, and keyed metric rows with
    explicit `missing` rows;
  - section input loading and evidence packing;
  - Markdown table templates and note-table retrieval context;
  - the SWOT and conclusion retrievers (strength, weakness, opportunity and threat;
    strength and risk summaries);
  - the Markdown handling of the PDF builder (label sanitising, section ordering,
    inline markup, table parsing and story dispatch).

Modelling conventions:

- Money and ratios are `real`.
- SQL NULL and Python `None` are `Option`.
- Parsed JSON is the `Json.Value` datatype.
- Python exceptions are `Err` results.
- Code that works step by step is written as methods with loop invariants. Each such
  method is proved equal to a specification function, and the properties are proved
  as lemmas about those functions.

## Model

| member | source | states |
|---|---|---|
| CalcKeys.ScopeRank | src/calc.py:376-379 | ranks the statement-type codes in string order, the order in which SQL compares them |
| CalcRules.NormLabelClean | src/calc.py:9-13 | norm_label's output has no upper-case letter and none of the removed whitespace and punctuation characters |
| CalcRules.NormLabelOfClean | src/calc.py:9-13 | a label that is already clean is its own normal form |
| CalcRules.NormLabelIdempotent | src/calc.py:9-13 | norm_label(norm_label(s)) == norm_label(s) |
| CalcRules.NormLabelIgnoresNoise | src/calc.py:9-13 | inserting a space or one of the removed punctuation characters anywhere leaves the pattern unchanged, so "현금 및 현금성자산" and "현금및현금성자산" give the same pattern |
| CalcRules.NormLabelKeeps | src/calc.py:9-13 | a kept character is lower-cased in place, so labels that differ in a kept character other than by case stay different |
| CalcRules.SqlNormLabelAgrees | src/calc.py:147-152 | the SQL label normalisation of the views agrees with norm_label on every label with no whitespace outside [\t\n\f\r ] (so none of \v, \x1c–\x1f, U+00A0 and the other Unicode spaces) |
| CalcRules.SqlNormLabelKeepsNbsp | src/calc.py:147-152 | where the two differ: a non-breaking space survives the SQL normalisation but not norm_label |
| CalcRules.NoDepreciationEntry | src/calc.py:20-67 | no ACCOUNT_MAP entry is for DEPRECIATION |
| CalcRules.DedupRulesUnique | src/calc.py:91-97 | the deduplicated rows hold each (scope, std_key, match_type, pattern) key at most once |
| CalcRules.DedupRulesFirst | src/calc.py:91-97 | each kept rule is the first input row with its key |
| CalcRules.DedupRulesCover | src/calc.py:91-97 | every input key survives deduplication |
| CalcRules.AliasRulesShape | src/calc.py:78-89 | every alias row is an active EXACT rule of priority 10 for its entry's scope and key |
| CalcRules.AliasRulesCover | src/calc.py:78-89 | every alias has a row (scope, key, EXACT, norm_label(alias)) |
| CalcRules.AccountMapRulesShape | src/calc.py:74-125 | every rule of the built table is an active EXACT rule of priority 10 without indent bounds, for the scope and key of some entry |
| CalcRules.NoDepreciationRule | src/calc.py:20-125 | the built table has no rule for DEPRECIATION, so no fact row is ever tagged with it |
| CalcRules.AccountMapRulesUnique | src/calc.py:74-125 | at most one rule per primary key, each the first alias with that key in list order, and no alias loses its key |
| CalcRules.RuleTable.BuildAccountMapRules | src/calc.py:74-125 | after the call the table holds exactly the rules built from ACCOUNT_MAP |
| CalcRules.CollectAliasRules | src/calc.py:77-89 | the nested loop over ACCOUNT_MAP builds one EXACT rule per alias, entries and aliases in order |
| CalcRules.DedupByKey | src/calc.py:91-97 | the dedup loop keeps the first row of each primary key, in insertion order |
| CalcRules.RuleTable.BuildRulesFrom | src/calc.py:77-125 | the loop over the aliases, the first-row-per-key dict, the DELETE and the inserts leave exactly AccountMapRules(entries) |
| CalcViews.FinLongRawSpec | src/calc.py:135-173 | v_fin_long_raw has one row per fact whose line item and report exist and whose value and multiplier are present, and that row carries value × multiplier |
| CalcViews.JoinedSpec | src/calc.py:179-208 | every joined row comes from a base row, and each base row appears with every rule that matches it, or once with no rule |
| CalcViews.FinLongMappedKeys | src/calc.py:196-228 | the mapped rows follow the partitions in order of first appearance |
| CalcViews.MappedRowSpec | src/calc.py:196-228 | a mapped row is a joined row of its own partition, and no other joined row of that partition sorts before it |
| CalcViews.FinLongMappedUnique | src/calc.py:196-228 | no two mapped rows share a (corp, year, report, statement type, fiscal year, table, row) partition |
| CalcViews.FinLongMappedCovers | src/calc.py:179-228 | every labelled raw row's partition has a mapped row |
| CalcViews.FinLongMappedFromRaw | src/calc.py:179-228 | every mapped row belongs to the partition of some labelled raw row |
| CalcViews.FinLongMappedSound | src/calc.py:190-228 | a mapped row carries a std_key only through an active EXACT rule whose scope is the row's statement type and whose pattern is its normalised label |
| CalcViews.FinLongMappedBest | src/calc.py:196-228 | the chosen row has the lowest priority among all rules matching any row of its partition, so its std_key is NULL exactly when no row of the partition matches |
| CalcViews.MaxByAbsSpec | src/calc.py:241 | max_by(value_won, abs(value_won)) picks one of the values, and no value has a larger magnitude |
| CalcViews.SummaryAllYearsUnique | src/calc.py:235-246 | no two summary rows share (corp_code, fiscal_year, statement_type, std_key) |
| CalcViews.SummaryAllYearsCovers | src/calc.py:235-246 | every mapped row with a std_key has its summary row |
| CalcViews.SummaryAllYearsFrom | src/calc.py:235-246 | every summary row stands for some mapped row with a std_key |
| CalcViews.SummaryAllYearsValue | src/calc.py:241 | each summary value is one of its group's value_won and has the largest magnitude among them |
| CalcViews.CompareOfMeaning | src/calc.py:260-267 | a missing previous value counts as 0 in diff_amt and gives a NULL diff_rate; otherwise previous + diff_amt is the current value, and diff_rate is the change over abs(previous) × 100, NULL when previous is 0 |
| CalcViews.PrevRowsAtMostOne | src/calc.py:268-273 | with at most one summary row per key there is at most one previous row |
| CalcViews.CompareAllAligned | src/calc.py:252-274 | against a summary with one row per key, v_analysis_compare has exactly one row per summary row, whose previous value is that of the row one year earlier |
| CalcViews.AnalysisCompareAligned | src/calc.py:232-274 | over the summary view, v_analysis_compare has one row per summary row, in order |
| CalcRequirements.NoLongTermDebtRequirement | src/calc.py:302-303 | no ratio requirement names LONG_TERM_DEBT; long_term_debt_ratio uses NON_CURRENT_LIABILITIES |
| CalcRequirements.ShippedStockPriceAndDepreciation | src/calc.py:314-337 | the shipped requirements name STOCK_PRICE (per) and DEPRECIATION (cash_coverage_op_dep) |
| CalcRequirements.OptionalRequirements | src/calc.py:291-353 | the only non-required requirements are INVENTORIES subtracted in quick_ratio and DEPRECIATION added in cash_coverage_op_dep |
| CalcResolve.RawKeysSpec | src/calc.py:361-366 | the DISTINCT part of req holds each non-derived requirement key exactly once and nothing else |
| CalcResolve.ReqKeysSpec | src/calc.py:360-375 | a key is in req iff it is a non-derived requirement key or an extra key |
| CalcResolve.ReqKeysNoDerived | src/calc.py:363-366 | no derived key (EPS, BPS, SPS, CFPS, NOPAT, INVESTED_CAPITAL, TAX_RATE) is resolved |
| CalcResolve.ReqKeysTwice | src/calc.py:367-374 | a key that is both a requirement key and an extra key appears twice in req |
| CalcResolve.NoLongTermDebtKey | src/calc.py:360-375 | LONG_TERM_DEBT is in req only when a requirement names it |
| CalcResolve.ShippedStockPriceTwice | src/calc.py:336-370 | with the shipped requirements STOCK_PRICE appears twice in req |
| CalcResolve.ShippedDepreciationTwice | src/calc.py:315-373 | with the shipped requirements DEPRECIATION appears twice in req |
| CalcResolve.ShippedNoLongTermDebt | src/calc.py:276-375 | with the shipped requirements LONG_TERM_DEBT is never in req |
| CalcResolve.StdScopeSpec | src/calc.py:376-381 | a key has a std_scope iff some active rule carries it, and the scope is the least such rule's scope in string order |
| CalcResolve.CandidatesSpec | src/calc.py:395-416 | a candidate is a mapped row with a std_key, of the key's std_scope, whose label matches an EXACT rule of that scope and key, and whose fiscal year is the business year |
| CalcResolve.StrictValueSpec | src/calc.py:423-426 | COUNT(DISTINCT v) = 1 gives a value exactly when there is a candidate and all candidates agree, and then it is their common value |
| CalcResolve.LatestSpec | src/calc.py:390-391 | arg_max(v, asof_date) finds a value iff some row has both, and the row taken has the latest date among them |
| CalcResolve.MarketPriceSpec | src/calc.py:386-394 | market_core's stock price is that of a market row of the company and year dated no earlier than any other priced and dated row |
| CalcResolve.MarketSharesSpec | src/calc.py:386-394 | the same for shares_outstanding |
| CalcResolve.ValueResolvedGrid | src/calc.py:478-479 | every (report, req key) pair has a row even when its value is NULL, and every row is such a pair carrying its resolved value |
| CalcResolve.ResolvedValueSpec | src/calc.py:468-472 | agreeing candidates give their value; no candidate or two distinct ones give NULL, except that STOCK_PRICE and SHARES_OUTSTANDING then fall back to market_core |
| CalcResolve.UnruledKeyIsNull | src/calc.py:395-434 | a key no rule carries has no candidate and resolves to NULL (except the market keys) |
| CalcResolve.DepreciationIsNull | src/calc.py:20-125 | with the rules built from ACCOUNT_MAP, which has no DEPRECIATION entry, DEPRECIATION always resolves to NULL |
| CalcResolve.ValueResolvedConsistent | src/calc.py:463-523 | all rows of a (report, key) pair carry the same value, so MAX(value_won) FILTER in v_value_augmented reads that value back |
| CalcAugment.MaxOptSpec | src/calc.py:506-523 | SQL MAX ignores NULLs, gives NULL when no value is present and otherwise returns a present value no smaller than any other |
| CalcAugment.LookupNone | src/calc.py:506-523 | a key with no row in the report reads NULL |
| CalcAugment.LtdResolvedSpec | src/calc.py:532-540 | long_term_debt_resolved is LONG_TERM_DEBT, else NON_CURRENT_LIABILITIES, else TOTAL_LIABILITIES − CURRENT_LIABILITIES when both are present, else NULL |
| CalcAugment.TaxRateSpec | src/calc.py:542-550 | the tax rate exists iff tax and a non-zero pre-tax income exist; it lies in [0, 1] and is the plain quotient when that does |
| CalcAugment.NopatSpec | src/calc.py:552-562 | NOPAT is operating profit × (1 − tax rate), NULL when either is; for a non-negative profit it lies between 0 and the profit |
| CalcAugment.InvestedCapitalSpec | src/calc.py:564-575 | invested capital is long_term_debt_resolved + equity, NULL when either is |
| CalcAugment.PerShareSpec | src/calc.py:577-584 | EPS, BPS and SPS exist iff the amount and a non-zero share count do, and multiplied by the share count give the amount back |
| CalcAugment.CfpsSpec | src/calc.py:586-587 | CFPS is (net income + depreciation, a missing depreciation counting as 0) per share |
| CalcAugment.DerivedKeysSpec | src/calc.py:602-610 | the derived rows carry TAX_RATE, NOPAT, INVESTED_CAPITAL, EPS, BPS, SPS, CFPS in the order of the UNION ALL |
| CalcAugment.DerivedForSpec | src/calc.py:602-610 | each report gets exactly one priority-1 row per derived key carrying the derived value |
| CalcAugment.UnionedSpec | src/calc.py:591-615 | the unioned rows are the resolved rows at priority 2 followed by one priority-1 row per (report, derived key) |
| CalcAugment.BestAugSpec | src/calc.py:616-623 | ROW_NUMBER() = 1 over (prio, value IS NULL) picks a row of the slot that no other row of the slot sorts before |
| CalcAugment.AugKeys | src/calc.py:616-631 | the output follows the slots in order of first appearance |
| CalcAugment.AugRowSpec | src/calc.py:616-623 | each output row is the first-ranked unioned row of its own slot |
| CalcAugment.ValueAugmentedUnique | src/calc.py:619-622 | one output row per (report, std_key) |
| CalcAugment.AugmentedDerived | src/calc.py:599-621 | a derived key's output row carries the derived value: priority 1 beats every raw row |
| CalcAugment.AugmentedRaw | src/calc.py:619-622 | a non-derived key keeps a resolved row of its slot, and a non-NULL one whenever the slot has one |
| CalcAugment.SlotBestNonNull | src/calc.py:621 | a priority-2 winner of a slot holding a non-NULL resolved row is itself non-NULL |
| CalcAugment.AugmentedResolved | src/calc.py:591-631 | a non-derived key of v_value_augmented carries exactly its resolved value |
| CalcAugment.ResolvedLookup | src/calc.py:500-527 | the base CTE reads back the resolved value of every requirement key, and NULL for a key that is not resolved |
| CalcAugment.AbsentReportLookup | src/calc.py:500-527 | a report with no resolved row reads NULL for every key |
| CalcAugment.ShippedLtdFallback | src/calc.py:510-540 | with the shipped requirements LONG_TERM_DEBT is never resolved, so invested capital always takes long-term debt from the fallbacks |
| CalcAugment.ShippedCfpsIsEps | src/calc.py:520-587 | with the shipped account map no rule yields DEPRECIATION, so CFPS always equals EPS |
| CalcRatios.RequiredHitSpec | src/calc.py:679-680 | required_hit never exceeds required_cnt, and they are equal iff every required row has a value |
| CalcRatios.AggregateSpec | src/calc.py:665-705 | a ratio exists exactly when every required input is present and the denominator is not 0, and is then numerator / denominator; is_complete is required_cnt = required_hit |
| CalcRatios.RoleSumAppend | src/calc.py:673-677 | a role sum over a concatenation of grid rows is the sum of the parts |
| CalcRatios.GridRowsSpec | src/calc.py:657-663 | the LEFT JOIN of one requirement gives one grid row per matching augmented row, or one NULL row when none matches |
| CalcRatios.GridForGroup | src/calc.py:646-688 | the GROUP BY group of ratio k within one report's grid is the grid of k's requirements |
| CalcRatios.GridAllGroup | src/calc.py:646-688 | over distinct reports, the group of (report, k) is that report's grid of k |
| CalcRatios.AggregateAllSpec | src/calc.py:665-706 | one aggregate per group key, each aggregating its own group |
| CalcRatios.FinancialRatiosKeys | src/calc.py:688-706 | each output row carries the key of its group |
| CalcRatios.FinancialRatiosUnique | src/calc.py:688 | one row per (report, ratio key) |
| CalcRatios.FinancialRatiosFrom | src/calc.py:642-664 | every output row belongs to a report of v_value_augmented and a ratio having requirements |
| CalcRatios.FinancialRatiosCover | src/calc.py:642-664 | there is a row for every report of v_value_augmented and every ratio having requirements |
| CalcRatios.FinancialRatiosRow | src/calc.py:646-706 | each output row aggregates exactly its own report's grid rows of its ratio's requirements |
| CalcRatios.AugmentedSlotUnique | src/calc.py:619-663 | v_value_augmented has at most one row per (report, key), so the LEFT JOIN does not duplicate grid rows |
| CalcRatios.JoinReqUnique | src/calc.py:659-663 | each requirement contributes exactly one grid row carrying its slot's value |
| CalcRatios.RatioComplete | src/calc.py:679-705 | a ratio is complete iff every required input of it has a value |
| CalcRatios.TwoTermRatio | src/calc.py:673-702 | with a required numerator and a required denominator, the ratio is their quotient whenever the denominator is not 0 |
| CalcRatios.CurrentRatioExample | src/calc.py:665-705 | current assets of 800,000 and current liabilities of 400,000 give a complete current ratio of 2.0 |
| CalcFacts.CatalogEntry | src/calc.py:714-778 | the catalog row of a metric key: at most one, because metric_key is the PRIMARY KEY |
| CalcFacts.FactMetrics.LoadFactMetrics | src/calc.py:810-926 | raises on an empty spec; otherwise deletes the (corp, year) scope and appends the RAW, RATIO and DERIVED/MARKET rows |
| CalcFacts.RawFactsSpec | src/calc.py:837-858 | the RAW path keeps the compare rows of the scope whose key is requested and catalogued as raw, with yoy_pct = diff_rate / 100 |
| CalcFacts.RawFactsYoy | src/calc.py:845-848 | over v_analysis_compare a raw row's yoy_abs is value − COALESCE(previous, 0), and its yoy_pct is yoy_abs over abs(previous), NULL when previous is missing or 0 |
| CalcFacts.AnalysisCompareConsistent | src/calc.py:845-848 | every row of v_analysis_compare gives consistent year-over-year columns |
| CalcFacts.YoySpec | src/calc.py:873-912 | yoy_abs is current − previous, NULL when either is; yoy_pct divides it by abs(previous) and is NULL when previous is missing or 0 |
| CalcFacts.RatioJoinSpec | src/calc.py:881-885 | the previous ratio is that of the same company and ratio key one year earlier |
| CalcFacts.RatioFactsSpec | src/calc.py:863-892 | the RATIO path stores only requested ratio keys catalogued as ratio, from the scope |
| CalcFacts.ValueJoinSpec | src/calc.py:915-919 | the previous value is that of the same company and key one year earlier |
| CalcFacts.AugFactsSpec | src/calc.py:897-926 | the DERIVED/MARKET path stores only requested keys catalogued as derived or market, from the scope |
| CalcFacts.LoadedSpec | src/calc.py:829-926 | after a load, the other scopes are untouched and every row of the scope was stored by this load |
| CalcFacts.UncataloguedNeverStored | src/calc.py:852-925 | a key without a catalog row is never stored, whatever is requested |
| CalcFacts.ShippedUncatalogued | src/calc.py:728-777 | current_ratio and TOTAL_LIABILITIES have no catalog row, so they never reach fact_metrics |
| CalcFacts.FactMetrics.UpdateBenchmarkImproved | src/calc.py:943-971 | only benchmark_improved of the scope's requested, catalogued rows changes; an empty spec is an error (the SQL `IN ()` list is invalid) |
| CalcFacts.ImprovedSpec | src/calc.py:958-965 | NULL when the benchmark, the polarity or the value is NULL; otherwise value >= benchmark for higher-is-better and value <= benchmark for lower-is-better |
| CalcFacts.BenchmarkRowSpec | src/calc.py:956-971 | the update changes at most benchmark_improved, and only on rows in the scope |
| CalcFacts.LoadThenUpdate | src/calc.py:850-960 | the load never fills benchmark values, so an update right after it leaves benchmark_improved NULL on every row of the scope |
| TextUtil.RFind | src/utils/text.py:20 | str.rfind: the highest index at which the pattern starts in the window, or -1 when it occurs nowhere |
| TextUtil.CutIsLastBoundary | src/utils/text.py:20 | the max of the four rfind results is the last position of the window where some boundary hint ("\n\n", "\n", ". ", "다. ") starts, or -1 |
| TextUtil.CutHit | src/utils/text.py:20 | a non-negative cut is a position where a hint starts |
| TextUtil.CutReaches | src/utils/text.py:20 | the cut is at or after every position where a hint starts |
| TextUtil.WindowCut | src/utils/text.py:19-20 | the cut of a window equals the largest of the four rfind results |
| TextUtil.NextWindowEnd | src/utils/text.py:18-22 | j = min(n, i + chunk_size), moved to just after the cut when the cut lies beyond int(chunk_size × 0.6) |
| TextUtil.ChunkText | src/utils/text.py:7-27 | chunk_text: the stripped text walked window by window (next start max(0, j − overlap)), each piece stripped and empty pieces dropped; equals the specification function's pieces |
| TextUtil.KeepNonEmptyMembers | src/utils/text.py:27 | the final filter keeps exactly the non-empty chunks, in order |
| TextUtil.ChunksShape | src/utils/text.py:7-27 | chunk_text returns non-empty chunks of at most chunk_size characters with no whitespace at either end |
| TextUtil.ChunkSpan | src/utils/text.py:19-23 | every chunk is the stripped text of one of the windows |
| TextUtil.ChunkIsSlice | src/utils/text.py:23 | every chunk is a contiguous slice of the input text |
| TextUtil.ChunksOfBlank | src/utils/text.py:11-13 | empty or all-whitespace text gives no chunks |
| TextUtil.ChunksOfShort | src/utils/text.py:17-25 | a stripped text no longer than int(0.6 × chunk_size) + 1 is one chunk |
| TextUtil.WindowEndAtBoundary | src/utils/text.py:21-22 | the piece ends just after the window's last boundary hint when that lies beyond 60% of the chunk size |
| TextUtil.WindowEndNoBoundary | src/utils/text.py:18-21 | otherwise the piece ends at the end of the window |
| TextUtil.StripSpanFacts | src/utils/text.py:23 | a stripped window is no longer than the window and, when non-empty, has no whitespace at either end |
| TextUtil.NumEnd | src/utils/text.py:29 | where the `\d+(?:-\d+)*` part of the title prefix ends: digits, and a '-' only when a digit follows |
| TextUtil.SeparatorEnd | src/utils/text.py:29 | where the separator `\s*[.)]\s*` or `\s+` after the number ends, if it matches |
| TextUtil.TitlePrefixLen | src/utils/text.py:29-33 | the length of the prefix the substitution removes, 0 when the regex does not match |
| TextUtil.CleanTitleShape | src/utils/text.py:31-34 | the cleaned title is space-normalised |
| TextUtil.CleanTitleUnnumbered | src/utils/text.py:31-34 | a title that does not start with a digit is only space-normalised |
| TextUtil.CleanTitleNumbered | src/utils/text.py:29-34 | in a numbered title such as "3. 현금흐름표", "2-1) 유동자산" or "4 자본", the number and its separator are removed |
| TextUtil.SeparatorAfterNumber | src/utils/text.py:29 | ". ", ") " and a single space all match as the separator after a number |
| TextUtil.NormalizeTitleForMatchShape | src/utils/text.py:36-42 | the match form holds no whitespace, hyphens, dashes or parentheses, and normalising it again changes nothing |
| TextUtil.NoWhitespaceNormal | src/utils/text.py:37 | a whitespace-free string is its own space-normal form |
| TextUtil.ClassifyByShortestKeyword | src/utils/text.py:54-61 | the longer keywords are redundant: the shortest keyword of each kind decides, in the order CF, CE, IS_CIS, BS |
| TextUtil.DetectStatementTypeOfMatchForm | src/utils/text.py:36-63 | classifying the match form of a non-empty title again gives the same kind |
| Normalize.CollapseSpaceShape | src/utils/normalize.py:12 | re.sub(r"\s+", " ", s) leaves no whitespace except ' ' and never two adjacent spaces |
| Normalize.NormalizeSpaceShape | src/utils/normalize.py:11-12 | normalize_space keeps every non-whitespace character in order, and the result is single-spaced with no space at either end |
| Normalize.NormalizeSpaceIdempotent | src/utils/normalize.py:11-12 | normalize_space is idempotent |
| Normalize.NoSpaceNormal | src/utils/normalize.py:11-12 | normalize_space leaves a string without whitespace alone |
| Normalize.NormalizeCorpCodeKeepsDigits | src/utils/normalize.py:14-19 | the code ends with exactly the input's digits in order, and is zero-filled to max(8, number of digits): a longer code is never cut |
| Normalize.NormalizeCorpCodeOfNumber | src/utils/normalize.py:17-19 | a number is written in decimal before padding, so 1234 becomes "00001234" |
| Normalize.MatchAt | src/utils/normalize.py:21 | _NOTE_RE matches at i exactly when "(", optional spaces, "주", optional spaces, a non-empty run of digits, commas and spaces, and ")" follow |
| Normalize.FirstMatchLeftmost | src/utils/normalize.py:33 | re.search finds the leftmost match, and None means no position matches |
| Normalize.RemoveMarkers | src/utils/normalize.py:41 | re.sub removes every non-overlapping match, scanning left to right |
| Normalize.SplitNoteRefsNoMarker | src/utils/normalize.py:31-35 | empty input gives ("", [], ""); input without a marker gives its stripped text, no numbers and "" |
| Normalize.SplitNoteRefsRoundTrip | src/utils/normalize.py:23-42 | for a label without '(' followed by "(주n1,n2,...)", split_note_refs gives back the stripped label, the numbers in order and their text, e.g. "매출채권(주4,28)" gives ("매출채권", [4, 28], "4,28") |
| Normalize.NoteBodyTokens | src/utils/normalize.py:38-40 | the numbers' text strips to itself, and its digit tokens are exactly the numbers |
| Normalize.ParseNumBlank | src/utils/normalize.py:48-52 | no text, blank text and a lone dash ('-', '—', '–') are no number |
| Normalize.ParseNormalizedRejects | src/utils/normalize.py:58-59 | text the number syntax rejects after unwrapping and dropping commas is no number |
| Normalize.ParseNormalizedPlain | src/utils/normalize.py:57-61 | plain number text reads as float(t) |
| Normalize.ParseNormalizedWrapped | src/utils/normalize.py:54-61 | "(u)" reads as −float(u with its commas dropped) |
| Normalize.ParseNumOfDigits | src/utils/normalize.py:44-61 | a plain digit string parses to its value |
| Normalize.ParseNumOfWrappedDigits | src/utils/normalize.py:54-61 | a parenthesised digit string parses to its negation, the accounting convention for negative amounts |
| Normalize.ParseNumOfPaddedDash | src/utils/normalize.py:50-52 | a dash padded with blanks normalises to the bare dash and is no number |
| Normalize.ParseNumOfThousands | src/utils/normalize.py:54-61 | thousands separators are dropped inside an accounting negative: "(1,234)" is −1234 |
| Normalize.ParseNumOfFraction | src/utils/normalize.py:58-60 | a decimal fraction is read exactly: "1234.5" is 1234 + 5/10 |
| Normalize.ParseNumOfPlain | src/utils/normalize.py:50-61 | number text with no blanks, commas or parentheses reads as float(t) |
| HtmlText.CloseTagLen | src/utils/html.py:8 | the length of a case-insensitive `</name\s*>` match for the listed block tags at the start of the text, 0 when none matches |
| HtmlText.BrLen | src/utils/html.py:9 | the length of a case-insensitive `<br\s*/?>` match at the start of the text, or 0 |
| HtmlText.TagLen | src/utils/html.py:10 | the length of a `<[^>]+>` match at the start of the text, or 0 |
| HtmlText.TrimLen | src/utils/html.py:11 | the length of a `[ \t]+\n` match at the start of the text, or 0 |
| HtmlText.NewlineLen | src/utils/html.py:12 | the length of the run of line breaks at the start of the text |
| HtmlText.DropTagsTagFree | src/utils/html.py:10 | after the third substitution no `<...>` tag is left |
| HtmlText.TrimTagFree | src/utils/html.py:11 | the fourth substitution only removes blanks and keeps the text tag-free |
| HtmlText.SqueezeTagFree | src/utils/html.py:12 | the fifth substitution keeps the text tag-free |
| HtmlText.SqueezeNoTriple | src/utils/html.py:12 | after the fifth substitution no run of three line breaks is left |
| HtmlText.StripHtmlKeepLinesShape | src/utils/html.py:7-13 | strip_html_keep_lines leaves no `<...>` tag, no run of three line breaks and no whitespace at either end |
| HtmlText.TrimTrailBlanks | src/utils/html.py:24 | `[  ]+$` removed: the longest prefix that does not end in a space or NBSP, with only spaces and NBSPs after it |
| HtmlText.NewlinesToSpace | src/utils/html.py:25 | `re.sub(r"\n+", " ", s)`: no line break is left, and the result is no longer than the input |
| HtmlText.LabelTextChars | src/utils/html.py:21-26 | the label keeps no carriage return, tab or line break |
| HtmlText.LabelTextOneLine | src/utils/html.py:22-26 | a one-line label keeps its leading indentation and loses only its trailing spaces and NBSPs |
| HtmlText.LabelTextTrailingBreak | src/utils/html.py:24-25 | the trailing-blank rule runs before the line breaks are replaced, so "ab \n" keeps a trailing space |
| HtmlText.NormalizeLabelCleanIsNormalizeSpace | src/utils/html.py:28-33 | normalize_label_clean equals normalize_space, because both lstrip passes only remove whitespace; so its result is stripped and single-spaced |
| HtmlText.CountIndent | src/utils/html.py:35-42 | count_indent: the number of full-width spaces right after the leading blanks; every counted character is one, and the next one is not |
| ChunkIds.HexValue | src/utils/ids.py:20 | int(s, 16): the base-16 value, below 16^len, or an error for an empty string or a non-hex character |
| ChunkIds.Suffix16 | src/utils/ids.py:20 | chunk_id_hex40[-16:]: the last min(16, len) characters |
| ChunkIds.Prefix16 | src/embed.py:21 | chunk_id_hex40[:16]: the first min(16, len) characters |
| ChunkIds.TwosComplement | src/utils/ids.py:21-22 | the adjustment is the two's-complement reading of a 64-bit pattern: it keeps a value below 2^63 and agrees with the pattern modulo 2^64 |
| ChunkIds.IdsInRange | src/utils/ids.py:16-23 | the result is a signed 64-bit integer, and exists exactly when the id's last 16 characters are hex digits |
| ChunkIds.IdsSuffixOnly | src/utils/ids.py:20 | only the last 16 characters matter: any prefix may come before them |
| ChunkIds.HexValueInjective | src/utils/ids.py:20 | equal-length lower-case hex strings with the same value are equal |
| ChunkIds.IdsInjective | src/utils/ids.py:16-23 | two lower-case hex chunk ids with the same int64 have the same last 16 digits |
| ChunkIds.EmbedInRange | src/embed.py:18-21 | the embed encoding is the prefix value − 2^63, a signed 64-bit integer |
| ChunkIds.EmbedPrefixOnly | src/embed.py:21 | only the first 16 characters matter |
| ChunkIds.EmbedMonotone | src/embed.py:21 | the embed encoding is strictly order-preserving in the prefix value |
| ChunkIds.EmbedExtremes | src/embed.py:21 | an all-zero prefix maps to −2^63 and an all-f prefix to 2^63 − 1 |
| ChunkIds.EncodingsDiffer | src/utils/ids.py:16-23 | the two encodings disagree: the all-zero 40-digit id is 0 for one and −2^63 for the other |
| Dart.PickXmlWithIii | src/utils/dart.py:41-45 | the first text carrying the "III. 재무에 관한 사항" title; else the first of the longest texts; "" for no texts |
| Dart.FirstLongestUnique | src/utils/dart.py:45 | only one index is the first longest, so the fallback is determined |
| Dart.FindBlock | src/utils/dart.py:47-59 | text[start:end].strip(), where end is the earliest end match after the start match, or the end of the text; an error when the start pattern does not match |
| Dart.BlockEndUnique | src/utils/dart.py:53-58 | the block end is the least of the end matches and is unique, so the block is determined |
| Dart.BlockEndNoHits | src/utils/dart.py:53 | without any end match the block runs to the end of the text |
| Dart.KeptOrdered | src/utils/dart.py:63-66 | the kept title matches stay in text order and inside the block |
| Dart.KeptPass | src/utils/dart.py:64-65 | every kept title is space-normalised and passed the filter |
| Dart.SplitSectionsByTitles | src/utils/dart.py:61-76 | one (title, html) per kept title, each html running from its title's match to the next kept match or the end; [] when none is kept |
| Dart.SectionsTile | src/utils/dart.py:71-75 | the sections tile the block from the first kept title to its end: in order, contiguous, without overlap |
| Dart.SectionsEmpty | src/utils/dart.py:68-75 | no kept title gives no sections; otherwise each section starts at its title's match |
| Dart.ChooseRceptNoErrors | src/utils/dart.py:161-176 | an error exactly in the cases the source raises |
| Dart.CandidatesSpec | src/utils/dart.py:168-173 | the candidates are business reports, and those of bsns_year whenever the column exists and such a report is listed |
| Dart.ChooseRceptNoBest | src/utils/dart.py:178-186 | with rcept_dt, no candidate's date is strictly nearer to rcept_date than the chosen one's; without it, no candidate has a larger rcept_no |
| CorpCodes.ColumnIndex | resources/corp_codes.py:29-34 | the position of a column when the frame has it, and then the column at that position carries the name |
| CorpCodes.StandardizeShape | resources/corp_codes.py:27-43 | _standardize_df gives a frame whose columns are exactly the required ones in order, with one row per input row |
| CorpCodes.CopiedColumns | resources/corp_codes.py:29-36 | corp_name, corp_eng_name and modify_date are copied when the column exists and are "" when it does not |
| CorpCodes.StockCodeSpec | resources/corp_codes.py:38-42 | the stock code is "" or at least 6 characters other than "000000", and it is "" exactly when the padded code is all zeros |
| CorpCodes.CorpCodeSpec | resources/corp_codes.py:39 | the corp code is at least 8 long, ends with the cell minus a trailing ".0", and has only '0's before it |
| CorpCodes.MissingCodes | resources/corp_codes.py:32-42 | a missing stock_code column gives "" and a missing corp_code column gives eight zeros |
| CorpCodes.StockCodeExamples | resources/corp_codes.py:38-42 | "5930.0" is restored to "005930", and "0.0" or "" becomes "" |
| CompanyData.DropDotZero | resources/company_data.py:58 | re.sub(r"\.0$", "", s): a trailing ".0" goes, and so does a ".0" just before a final line break |
| CompanyData.FixCorpCode8Shape | resources/company_data.py:53-62 | the padded code is all digits, at least 8 long, and ends with the cell's digits once a trailing ".0" is gone |
| CompanyData.FixStockCode6Shape | resources/company_data.py:64-76 | the same for stock codes, padded to 6 |
| CompanyData.FixCorpCode8OfMissing | resources/company_data.py:56-60 | a missing corp code (str gives "nan") pads to "00000000" |
| CompanyData.FixStockCode6OfMissing | resources/company_data.py:67-73 | a missing or empty stock code pads to "000000" |
| CompanyData.FixCorpCode8OfFloat | resources/company_data.py:57-60 | a digit string read back as a float ("1234.0") pads like the string itself |
| CompanyData.FixCorpCode8Idempotent | resources/company_data.py:53-62 | padding a padded corp code changes nothing |
| CompanyData.FixStockCode6Idempotent | resources/company_data.py:64-76 | padding a padded stock code changes nothing |
| CompanyData.NonemptyIffNotBlank | resources/company_data.py:78-88 | nonempty(x) is exactly not is_blank(x) |
| CompanyData.BlankPaddedNan | resources/company_data.py:84-88 | trimming and case do not matter: " NaN " is blank |
| CompanyData.NonemptyZero | resources/company_data.py:78-82 | "0" is a value, not a blank |
| CompanyData.FallbackDaysSpec | resources/company_data.py:130-133 | the date itself first, then ever farther days with the earlier day of each distance first: nine distinct days covering base − 4 .. base + 4 |
| CompanyData.QualifyingDatesSpec | resources/company_data.py:177-184 | the qualifying dates are exactly the rcept_dt of 사업보고서 items whose rcept_dt is 8 digits of bsns_year |
| CompanyData.MaxLex | resources/company_data.py:187-188 | the first row of a descending sort: a member of the list that no member exceeds |
| CompanyData.PickLatestSpec | resources/company_data.py:173-188 | a hit exactly when some item qualifies, and the hit is a qualifying date that no qualifying date exceeds |
| CompanyData.PickLatestShape | resources/company_data.py:181-184 | a hit is an 8-digit date string of bsns_year, so never falsy |
| CompanyData.PickLatestAppend | resources/company_data.py:208-221 | the pick over two pages together hits exactly when one of them does |
| CompanyData.FindRceptDtWindowed | resources/company_data.py:190-223 | the windows in RCEPT_WINDOWS order inside bsns_year, at most 6 pages each; the result equals the specification function Windowed |
| CompanyData.ScanPages | resources/company_data.py:199-215 | the page loop of one window: it stops on a failed status, an empty page, a hit or after page 6, and returns the first page hit |
| CompanyData.PageScanMiss | resources/company_data.py:199-215 | a page loop that ends without a hit has seen no qualifying item |
| CompanyData.WindowHitIsPageHit | resources/company_data.py:217-221 | the second pick over all of a window's items never finds what the per-page picks missed |
| CompanyData.PageScanHit | resources/company_data.py:210-212 | a page-loop hit is truthy, and a non-truthy outcome is no hit |
| CompanyData.WindowsFromShape | resources/company_data.py:190-223 | a receipt date found is an 8-digit date of the business year |
| CompanyData.PageScanFrame | resources/company_data.py:202-214 | two listing services that agree on pages 1..6 give the same page loop |
| CompanyData.WindowsFromFrame | resources/company_data.py:194-215 | only pages 1..6 of the zero-padded code's windows are ever requested |
| CompanyData.WindowsFromFirstHit | resources/company_data.py:195-223 | the result is the hit of the first window that hits, and None exactly when every window misses |
| CompanyData.FreshFrom | resources/company_data.py:379-382 | every fresh code is a zero-padded candidate |
| CompanyData.PickLoopUsed | resources/company_data.py:383 | the shared set grows by exactly the codes taken |
| CompanyData.PickLoopSpec | resources/company_data.py:377-387 | pick_top takes the first max(n, 1) unused padded candidates in order and marks them used; the length test runs after an append, so n = 0 still takes one |
| CompanyData.Sampler.PickTop | resources/company_data.py:377-387 | pick_top over a tier's candidate codes: the picks equal the specification, and the used set grows by exactly them |
| CompanyData.PickTopSpec | resources/company_data.py:377-387 | a tier's picks are distinct, unused before, padded candidates, at most max(n, 1) of them |
| CompanyData.PickTopFull | resources/company_data.py:385-386 | with enough fresh candidates a tier is full |
| CompanyData.SampleTiers | resources/company_data.py:375-397 | the 40/30/30 selection: each tier picks from what the earlier tiers left, and a short tier raises |
| CompanyData.SampleSpec | resources/company_data.py:389-397 | a sample that succeeds has exactly 40, 30 and 30 distinct codes, no code in two tiers |
| CompanyData.CodeToScaleSpec | resources/company_data.py:399-402 | with the tiers disjoint, every picked code carries its own tier's scale |
| CompanyData.SampleScales | resources/company_data.py:389-402 | in a successful sample each code's scale is the tier it was picked for |
| CompanyData.BenchmarkOf | resources/company_data.py:473-530 | BENCHMARK_BY_TARGET.get(name), None for a name not in the table |
| CompanyData.BenchmarkNotSelf | resources/company_data.py:473-530 | no company is its own benchmark |
| CompanyData.BenchmarkNames | resources/company_data.py:473-530 | the set of benchmark names holds exactly the table's values |
| CompanyData.HanaPeerSpelling | resources/company_data.py:519-520 | the 하나금융지주 peer is spelled "(주)우리금융지주", which is not a key of the table |
| BenchMeta.CorpAllMapFirstWins | resources/company_data.py:587-594 | the first corp_all row of a non-empty space-free name decides its entry, with zero-padded codes |
| BenchMeta.EligMapLastWins | resources/company_data.py:578-585 | the last eligible row of a name decides its entry |
| BenchMeta.CorpAllMapAbsent | resources/company_data.py:587-594 | a name no row carries is not a key of corp_all_map |
| BenchMeta.CorpAllMapKey | resources/company_data.py:587-594 | the keys of corp_all_map are exactly the non-empty space-free names of the rows |
| BenchMeta.InternalMeta | resources/company_data.py:573-574 | internal_meta: every target row renamed, one output row per input row |
| BenchMeta.ResolveName | resources/company_data.py:597-625 | the three resolution stages for one external name, as the loop body runs them |
| BenchMeta.EligibleFirst | resources/company_data.py:603-618 | a name found in the eligible pool takes its codes and dates from there, and neither lookup service is consulted |
| BenchMeta.EligMapPadded | resources/company_data.py:581-582 | entries of the eligible map have zero-padded, hence non-empty, codes |
| BenchMeta.ZeroCodeNoRows | resources/company_data.py:610-627 | a name found only in corp_all with the all-zero corp code yields no row, because its dates are never looked up |
| BenchMeta.NameSearchLast | resources/company_data.py:618-624 | without a pool or corp_all entry the name search decides, and an empty stock code from it yields no row |
| BenchMeta.RowsOfShape | resources/company_data.py:627-641 | every emitted row has a padded stock code, a non-empty corp code and an 8-digit receipt date, and rows come in pairs for the two years |
| BenchMeta.ExternalRowsShape | resources/company_data.py:596-641 | external_rows holds rows of the listed names only, for the two years |
| BenchMeta.BuildAllBenchmarkMeta | resources/company_data.py:556-652 | internal peers are the benchmark names that are targets and external peers the rest; the result is internal_meta plus the resolved external rows, deduplicated on (benchmark_name_kr, year) keeping the first |
| BenchMeta.BenchMetaKeys | resources/company_data.py:650-651 | the result has one row per (benchmark_name_kr, year) and loses no key |
| BenchMeta.InternalKept | resources/company_data.py:650-651 | every target row is kept unless an earlier target row has its name and year |
| BenchMeta.ExternalKeysDistinct | resources/company_data.py:597-641 | distinct names and two distinct years give external_rows one row per key |
| BenchMeta.ExternalKept | resources/company_data.py:566-651 | every external row survives the deduplication: an external name is never a target name, and external keys are distinct |
| SeedMarket.MarketDb.SeedMarketFromCsv | src/seed_market.py:10-162 | a CSV lacking a required column raises and changes nothing; otherwise both tables are emptied first under overwrite, and the seeded market and benchmark_map rows are appended |
| SeedMarket.SeedFailsIff | src/seed_market.py:22-25 | the seeding fails exactly when one of corp_code, corp_name_kr, stock_code, year, rcept_date is missing |
| SeedMarket.KeptSpec | src/seed_market.py:31-33 | the year filter keeps exactly the rows whose year is numeric, with the year truncated to an int |
| SeedMarket.YearOfInteger | src/seed_market.py:31-33 | a digit string gives its value as the year |
| SeedMarket.YearOfFloat | src/seed_market.py:31-33 | the float rendering of a digit string ("2023.0") gives the same year |
| SeedMarket.YearOfNonNumeric | src/seed_market.py:31-32 | NaN and non-numeric text give no year, so the row is dropped |
| SeedMarket.ReplaceDotZero | src/seed_market.py:28 | str.replace(".0", "") leaves a text without '.' alone and strips a ".0" after it |
| SeedMarket.CorpCodeOfFloat | src/seed_market.py:28 | a code read from a float column loses its ".0" and is zero-padded to 8 |
| SeedMarket.CorpCodeOfExamples | src/seed_market.py:28 | every ".0" goes, not only a final one ("10.020" becomes "00001020"), and a NaN code becomes "00000nan" |
| SeedMarket.BenchCodeSpec | src/seed_market.py:36-44 | a bench code is NA for the NaN spellings ("nan", "None", "<NA>") and a missing column, and otherwise has its ".0"s removed and is padded to at least 8 |
| SeedMarket.TargetRowsFrom | src/seed_market.py:53-75 | each target row comes from a kept row, with corp_role "target", price_basis "rcept_date" and asof_date the rcept_date |
| SeedMarket.BenchRowsFrom | src/seed_market.py:81-105 | each benchmark row comes from a kept row with a bench code, with corp_role "benchmark" |
| SeedMarket.MapRowsFrom | src/seed_market.py:115-117 | each benchmark_map row comes from a kept row with a bench code |
| SeedMarket.RowsOfKept | src/seed_market.py:53-117 | every kept row yields its target row, and its benchmark and map rows whenever it has a bench code; the benchmark row also needs the payload columns |
| SeedMarket.NoBenchColumn | src/seed_market.py:43-117 | without a bench_corp_code column only target rows are written |
| SeedMarket.SeedKeys | src/seed_market.py:120-121 | one row per (corp_code, year, corp_role) in market_data and per (corp_code, year) in benchmark_map remains, and no key is lost |
| SeedMarket.SeedLastWins | src/seed_market.py:120-121 | the last row of each key is the one written, and only last rows are |
| SeedMarket.SeedMarketShape | src/seed_market.py:109 | every written market row is a target row, or a benchmark row when the payload columns exist |
| SeedMarket.SeedMapShape | src/seed_market.py:117 | every benchmark_map row has a bench code |
| Validate.CountKey | src/validate.py:17-20 | COUNT(*) of one group: the number of rows with that key, at most the table size |
| Validate.DupsSpec | src/validate.py:16-32 | dup_market and dup_map list exactly the keys with more than one row, with their counts |
| Validate.CountKeyDistinct | src/validate.py:16-32 | with distinct keys every count is at most one |
| Validate.SeededHasNoDups | src/seed_market.py:120-121 | tables written by the seeding have no duplicate groups |
| Validate.MissingBenchSpec | src/validate.py:35-43 | missing_bench lists exactly the map rows with no market row of corp_code = bench_corp_code, the same year and role "benchmark" |
| Validate.NullBenchMissing | src/validate.py:38-42 | a map row whose bench code is NULL is always reported missing |
| Validate.NullShareBounds | src/validate.py:50-54 | a null share lies in [0, 1], and is NULL only for an empty table |
| Validate.InvalidRowsSpec | src/validate.py:57-63 | the invalid rows are exactly those whose price or share count is NULL or at most 0 |
| Validate.InvalidPriceSharesSpec | src/validate.py:57-66 | invalid_price_shares holds at most 50 invalid rows, and all of them when there are fewer |
| Validate.SelfBenchmarkSpec | src/validate.py:85-91 | self_benchmark holds at most 50 rows mapping a company to itself, and all of them when there are fewer |
| Validate.MultiRowsSpec | src/validate.py:104-110 | the subquery and its WHERE keep exactly the (corp_code, year) groups with two or more distinct bench codes, each with its count |
| Validate.MultiBenchmarkSpec | src/validate.py:102-112 | multi_benchmark holds at most 50 groups, each once and each with two or more distinct bench codes and that count, and all of them when there are at most 50 |
| Validate.BenchCodesOfDistinct | src/validate.py:102-112 | one row per (corp_code, year) leaves at most one bench code per group |
| Validate.SeededHasNoMultiBenchmark | src/validate.py:102-112 | on a seeded benchmark_map multi_benchmark is empty: no company has two benchmarks in a year |
| Validate.GroupCounts | src/validate.py:123-146 | COUNT(*) per group of the rows a filter keeps |
| Validate.GroupCountsSpec | src/validate.py:123-146 | each group count is the number of kept rows of that group, and a group appears exactly when it has a kept row |
| Validate.CountOfSpec | src/validate.py:148-156 | the fact and link counts are the numbers of rows of the report |
| Validate.JoinedTablesFrom | src/validate.py:131-138 | a table row is counted once per section row of the report it joins to, so a table of another report is not counted |
| RunCalc.CountLevel | scripts/run_calc.py:98-100 | the number of checks at one level, at most the number of checks |
| RunCalc.Tally | scripts/run_calc.py:98-105 | summary[c.level] += 1 over the checks, and the FAIL checks collected in order |
| RunCalc.SummaryTotal | scripts/run_calc.py:98-100 | PASS + WARN + FAIL equals the number of checks |
| RunCalc.FailsCount | scripts/run_calc.py:105 | fails holds exactly the FAIL checks, in order |
| RunCalc.FailDetails | scripts/run_calc.py:108-109 | one detail line "- key: message" per shown check |
| RunCalc.DetailsBound | scripts/run_calc.py:108 | at most 20 details are printed, and all of them when there are fewer FAIL checks |
| RunCalc.RunValidation | scripts/run_calc.py:81-113 | any FAIL check raises SystemExit with the first 20 FAIL details; otherwise the summary is returned |
| RunCalc.FromPd | scripts/run_calc.py:49-52 | None if pd.isna(v) else float(v) |
| RunCalc.ExportMetricsJson | scripts/run_calc.py:34-69 | one JSON row per fetched row in order, with NaN fields mapped to None; the payload carries corp_code and bsns_year |
| RunCalc.ExportRoundTrip | scripts/run_calc.py:43-63 | a NULL in fact_metrics is NaN in the frame and null in the JSON, and a value goes through unchanged |
| RunCalc.RunCalcMain | scripts/run_calc.py:120-167 | load, benchmark update, validation and export in that order; an empty spec stops at the load with the table unchanged, and a FAIL check stops before any JSON is written |
| Json.Lookup | src/sections/_common/io.py:91 | d.get(key): the value stored last under the key (json.loads keeps the last of repeated keys), None when the key is absent |
| Json.Iterate | src/sections/_common/builders/create_evidence.py:37 | `for it in v`: a list yields its items, a dict its keys (each once, in order of first occurrence), a string its characters, and any other value raises TypeError |
| Json.DictKeys | src/sections/_common/builders/create_evidence.py:37 | the keys a dict yields: no key twice, and exactly the keys that have a value |
| SectionIo.DefaultSectionStemSpec | src/sections/_common/io.py:18-24 | without a "." the stem is the id; with one, the id is a dot-free prefix, the first ".", then the stem |
| SectionIo.PickExisting | src/sections/_common/io.py:27-31 | the first candidate that exists, None when none does |
| SectionIo.Candidates | src/sections/_common/io.py:78-114 | the four candidate files in the order tried: {stem}_{kind}.json, {spec_id}_{kind}.json, {stem}.json, {spec_id}.json |
| SectionIo.MetaRequired | src/sections/_common/io.py:62-64 | a missing meta.json fails whatever else is given |
| SectionIo.MetricsCandidates | src/sections/_common/io.py:77-83 | the metrics candidates are stem_metrics, spec_id_metrics, stem and spec_id, in that order, under workdir/metrics |
| SectionIo.MetricsCandidateOrder | src/sections/_common/io.py:75-88 | without an explicit path the metrics file is the first existing candidate, and loading fails when none exists or spec_id is missing |
| SectionIo.LoadedRows | src/sections/_common/io.py:90-130 | a successful load has list-valued rows read from the files it names; a rows value that is truthy but not a list fails |
| SectionIo.MissingEvidence | src/sections/_common/io.py:98-124 | missing evidence is allowed only with allow_missing_evidence, and then gives no rows and path "" |
| SectionIo.EvidenceRequired | src/sections/_common/io.py:115-119 | without allow_missing_evidence a missing evidence file fails |
| SectionIo.PackEvidenceLines | src/sections/_common/io.py:158-166 | the loop of pack_evidence: one evidence line per row and its table lines, equal to the specification function |
| SectionIo.RowLinesSpec | src/sections/_common/io.py:160-166 | a row gives its evidence line and, with tables, at most three more |
| SectionIo.PackLinesSpec | src/sections/_common/io.py:159-166 | at least one line per row and, with tables, at most four per row; without tables exactly the rows' evidence lines |
| SectionIo.PackEvidenceSpec | src/sections/_common/io.py:153-167 | pack_evidence uses evidence_rows[:topk] (all rows but the last −topk for a negative topk), and any non-dict row among them fails |
| Tables.DistinctSpec | src/calc.py:361 | SELECT DISTINCT drops repetitions and nothing else, keeping first-occurrence order |
| Tables.WhereSpec | src/calc.py:414-415 | a WHERE clause keeps exactly the rows satisfying the predicate, in order |
| Tables.WhereAppend | src/calc.py:611-615 | a WHERE clause distributes over UNION ALL |
| Tables.GroupKeysSpec | src/calc.py:433 | GROUP BY yields each key once, exactly the keys of the rows, and each group is non-empty and holds the rows with that key |
| Tables.NoDupPerm | src/sections/c09_swot/s09_3_opportunity/retriever.py:42 | reordering a list without repetitions (sorting the chapter keys) keeps it without repetitions |
| Templates.Dashes | src/sections/_common/tables_templates.py:7 | ["---"] * n: n dashes cells |
| Templates.LineCells | src/sections/_common/tables_templates.py:6-8 | a rendered line split on the bar character is an empty piece, one padded piece per cell, and an empty piece |
| Templates.SeparatorCells | src/sections/_common/tables_templates.py:7 | the separator has one "---" cell per header |
| Templates.MdTableLines | src/sections/_common/tables_templates.py:5-9 | _md_table's lines are the header, the separator, then exactly one line per row in row order (a lone "" when there are no rows), when no cell holds a line break |
| Templates.KeptKeysSpec | src/sections/_common/tables_templates.py:14-63 | a key is kept exactly when it is requested, its row is present and non-empty, and it passes the renderer's own test |
| Templates.KeptKeysOrder | src/sections/_common/tables_templates.py:14 | kept keys keep metric_keys order: they are a subsequence of it |
| Templates.CollectRows | src/sections/_common/tables_templates.py:13-24 | the rows one renderer's loop builds: one row of cells per kept key, in order |
| Templates.RenderT1Yoy | src/sections/_common/tables_templates.py:11-25 | render_T1_YOY is the year-on-year table of the kept rows |
| Templates.RenderTSimple | src/sections/_common/tables_templates.py:57-70 | render_T_SIMPLE is the simple table of the kept rows |
| Templates.RenderT2Bench | src/sections/_common/tables_templates.py:27-54 | None exactly when no row is kept, otherwise the benchmark table |
| Templates.RowWidths | src/sections/_common/tables_templates.py:18-69 | year-on-year rows have five cells, simple rows four, benchmark rows four whose last cell is "개선", "악화" or "N/A" |
| Templates.BenchTextSpec | src/sections/_common/tables_templates.py:37-43 | True is 개선, False is 악화, anything else (missing, None, or a non-boolean such as 1) is N/A |
| Templates.NullBenchmarkSkipped | src/sections/_common/tables_templates.py:34-35 | a row whose benchmark_corp_code is None is skipped even when otherwise complete |
| Templates.RenderT3Trace | src/sections/_common/tables_templates.py:72-78 | render_T3_TRACE joins the items' lines with "\n", or raises the first item's error |
| Templates.TraceLinesErr | src/sections/_common/tables_templates.py:76-77 | an error in a prefix is the error of the whole list |
| Templates.TraceLinesAt | src/sections/_common/tables_templates.py:76-77 | line i comes from item i |
| Templates.TraceOneLinePerItem | src/sections/_common/tables_templates.py:76-78 | render_T3_TRACE emits exactly one line per trace item once the rendered fields hold no line break |
| Templates.TraceMissingChunk | src/sections/_common/tables_templates.py:77 | a trace item without a chunk_id raises KeyError |
| Templates.TraceLines | src/sections/_common/tables_templates.py:76-77 | the lines of all trace items in order, or the first failing item's error |
| SectionMetrics.PeriodEnds | src/sections/_common/builders/create_metrics.py:14-19 | the period_end values of the report's non-null facts whose line item has that statement type |
| SectionMetrics.Latest2Spec | src/sections/_common/builders/create_metrics.py:15-21 | SELECT DISTINCT … ORDER BY period_end DESC LIMIT 2: at most two distinct values, strictly descending, the largest first and the largest of the rest second, two whenever two distinct values exist |
| SectionMetrics.PickLatestSpec | src/sections/_common/builders/create_metrics.py:8-26 | the picked periods are distinct period_end values of the report's facts of that statement type, latest first; "current_only" gives at most one and any other mode at most two |
| SectionMetrics.FindItem | src/sections/_common/builders/create_metrics.py:73-88 | a truthy ifrs_code decides the lookup; otherwise label_clean LIKE f"%{label_like}%" with no ESCAPE, so a '%' or '_' inside label_like is a wildcard |
| SectionMetrics.IfrsLookupSpec | src/sections/_common/builders/create_metrics.py:74-80 | with a truthy ifrs_code the item is the first line item of the statement type with that code, None when there is none, whatever label_like says |
| SectionMetrics.LabelLookupSpec | src/sections/_common/builders/create_metrics.py:81-88 | without a truthy ifrs_code the item is a line item of the statement type whose label_clean matches LIKE f"%{label_like}%" ('%' and '_' in label_like are wildcards), no longer than any other match, None when none matches |
| SectionMetrics.MissingLabelLike | src/sections/_common/builders/create_metrics.py:88 | an item without label_like searches with the pattern "%None%", i.e. for label_clean containing "None" |
| SectionMetrics.LabelMatchLiteral | src/sections/_common/builders/create_metrics.py:81-88 | for a label_like without '%' or '_' the LIKE test is plain containment of label_like in label_clean |
| SectionMetrics.LabelWildcardMatches | src/sections/_common/builders/create_metrics.py:81-88 | label_like "매출_가" matches a line item labelled "매출원가", although that label does not contain "매출_가" |
| SectionMetrics.ItemFactsSpec | src/sections/_common/builders/create_metrics.py:104-113 | the corrected facts query: exactly the item's facts of the report in the picked periods (all of them when none was picked), latest period first |
| SectionMetrics.WindowAgrees | src/sections/_common/builders/create_metrics.py:108-111 | the period condition as written agrees with the intended one when two periods were picked and when none were |
| SectionMetrics.ItemFactsAgree | src/sections/_common/builders/create_metrics.py:104-113 | with two periods picked or none, the facts query as written and the corrected one return the same facts in the same order |
| SectionMetrics.WindowAsWrittenSinglePeriod | src/sections/_common/builders/create_metrics.py:108-111 | as written, with one period picked the condition holds for every fact, while the intended one keeps only that period |
| SectionMetrics.LeakPeriods | src/sections/_common/builders/create_metrics.py:24-25 | in the example report "current_only" picks only 2023-12-31 |
| SectionMetrics.CurrentOnlyLeak | src/sections/_common/builders/create_metrics.py:104-113 | in a report with facts for 2023 and 2022, "current_only" picks 2023-12-31 but the query as written returns both facts; the corrected query returns the 2023 fact |
| SectionMetrics.PeriodValues | src/sections/_common/builders/create_metrics.py:115-124 | one periods entry per fact |
| SectionMetrics.CollectPeriods | src/sections/_common/builders/create_metrics.py:115-124 | the loop building periods_out: one entry per fact, in order |
| SectionMetrics.CollectRows | src/sections/_common/builders/create_metrics.py:64-133 | the loop over the spec items: the rows of the items or the first item's error |
| SectionMetrics.ItemRowsErrSticky | src/sections/_common/builders/create_metrics.py:65-66 | once an item fails (it.get on a non-dict), the whole build fails with that error |
| SectionMetrics.BuildMetricsForSection | src/sections/_common/builders/create_metrics.py:28-135 | build_metrics_for_section, equal to the specification function over the same report database (with the corrected facts query) |
| SectionMetrics.ItemRowShape | src/sections/_common/builders/create_metrics.py:65-71 | an item is an error exactly when it is not a dict, gives no row exactly when its key is falsy, and otherwise gives a row carrying its key |
| SectionMetrics.RowsOkIff | src/sections/_common/builders/create_metrics.py:65-71 | the rows are built exactly when every item is a dict |
| SectionMetrics.RowsFollowItems | src/sections/_common/builders/create_metrics.py:64-133 | the rows are one per item with a truthy key, in item order, carrying that key |
| SectionMetrics.ItemRowSpec | src/sections/_common/builders/create_metrics.py:90-133 | found is true exactly when the lookup finds a line item; a row not found has no line item, labels or periods; a found row carries the line item's id and labels and one period per fact of the corrected query |
| SectionMetrics.FalsyKeySkipped | src/sections/_common/builders/create_metrics.py:70-71 | an item whose key is missing or falsy produces no row |
| SectionMetrics.NoRowsCases | src/sections/_common/builders/create_metrics.py:45-58 | rows is [] without statement_type for a falsy spec, a spec that is not a dict after taking a list's first element, and a dict without a truthy statement_type or keys |
| SectionMetrics.ListSpecFirst | src/sections/_common/builders/create_metrics.py:49-50 | a list spec is read through its first element |
| SectionMetrics.FullResultSpec | src/sections/_common/builders/create_metrics.py:54-135 | a full result names the spec's statement type and holds one row per item with a truthy key, in order |
| SectionMetrics.BadModeRaises | src/sections/_common/builders/create_metrics.py:55 | a periods value that is truthy but not a string raises before anything is looked up |
| SectionEvidence.LineItemIds | src/sections/_common/builders/create_evidence.py:37-39 | at most one id per metric row |
| SectionEvidence.CollectLineItemIds | src/sections/_common/builders/create_evidence.py:25-39 | the loop collecting line_item_ids, equal to the specification function |
| SectionEvidence.LineItemIdsComplete | src/sections/_common/builders/create_evidence.py:37-39 | every dict row with truthy found and line_item_id gives its id |
| SectionEvidence.LineItemIdsSound | src/sections/_common/builders/create_evidence.py:37-39 | every id comes from such a row |
| SectionEvidence.LineItemIdsSpec | src/sections/_common/builders/create_evidence.py:37-42 | the ids are exactly those of the contributing rows, and there are none exactly when no row contributes |
| SectionEvidence.InsertUnique | src/sections/_common/builders/create_evidence.py:54 | note_nos.add(x), with the set kept as its ascending list: the result is ascending and holds x and the old elements only |
| SectionEvidence.NoteNos | src/sections/_common/builders/create_evidence.py:44-57 | sorted(note_nos) over the report's note links of the ids |
| SectionEvidence.CollectNoteNos | src/sections/_common/builders/create_evidence.py:51-54 | the loop adding note numbers to the set, equal to the specification function |
| SectionEvidence.NoteNosSpec | src/sections/_common/builders/create_evidence.py:44-57 | the note numbers are distinct and ascending, and exactly the non-null note numbers of the report's links of the ids |
| SectionEvidence.NoteRows | src/sections/_common/builders/create_evidence.py:61-78 | one evidence row per selected chunk of the note |
| SectionEvidence.CollectNoteRows | src/sections/_common/builders/create_evidence.py:69-78 | the inner loop over one note's chunks |
| SectionEvidence.CollectNotesRows | src/sections/_common/builders/create_evidence.py:59-78 | the loop over sorted(note_nos) |
| SectionEvidence.BuildNotesEvidence | src/sections/_common/builders/create_evidence.py:19-80 | _build_evidence_notes_by_metrics, equal to the specification function |
| SectionEvidence.MetricRowsSpec | src/sections/_common/builders/create_evidence.py:28-35 | a dict contributes its rows (or [] when falsy), a list itself, and anything else nothing |
| SectionEvidence.NotesEmptyCases | src/sections/_common/builders/create_evidence.py:41-57 | without a contributing row, or without a note number for the ids, the result is {"rows": [], "note_nos": []} |
| SectionEvidence.NoteRowsSpec | src/sections/_common/builders/create_evidence.py:61-67 | the chunks of one note are that report's notes chunks with that note number, at most topk of them, in ascending chunk_idx |
| SectionEvidence.NotesRowsFromNos | src/sections/_common/builders/create_evidence.py:59-78 | every notes row carries one of the note numbers |
| SectionEvidence.NotesRowsGrouped | src/sections/_common/builders/create_evidence.py:59-78 | with ascending note numbers the rows are grouped by ascending note number |
| SectionEvidence.NotesEvidenceSpec | src/sections/_common/builders/create_evidence.py:19-80 | a successful notes result lists distinct ascending note numbers, every row carries one of them, and the rows are grouped by ascending note |
| SectionEvidence.BizBeforeOrders | src/sections/_common/builders/create_evidence.py:101 | ORDER BY section_code ASC, chunk_idx ASC is a total preorder |
| SectionEvidence.BizRows | src/sections/_common/builders/create_evidence.py:105-115 | one evidence row per selected business chunk |
| SectionEvidence.BuildBizAll | src/sections/_common/builders/create_evidence.py:82-117 | _build_evidence_biz_all's loop, equal to the specification function |
| SectionEvidence.BizRowsSpec | src/sections/_common/builders/create_evidence.py:93-115 | the business rows are exactly the report's biz chunks whose section code matches LIKE prefix || '%' for one of the prefixes ('%' and '_' in a prefix are wildcards), ordered by section code then chunk_idx, each without a note number |
| SectionEvidence.PrefixStrings | src/sections/_common/builders/create_evidence.py:94 | one LIKE prefix string per given prefix (str(p), matched with a trailing %) |
| SectionEvidence.BizChunkOfLiteral | src/sections/_common/builders/create_evidence.py:93-94 | for prefixes without '%' or '_' a chunk is a business chunk exactly when its section type is biz and its section code starts with one of the prefixes |
| SectionEvidence.DefaultPrefixesLiteral | src/sections/_common/builders/create_evidence.py:87-88 | the default prefixes "I-" and "II-" hold no LIKE wildcard |
| SectionEvidence.BuildEvidenceForSection | src/sections/_common/builders/create_evidence.py:119-148 | build_evidence_for_section, equal to the specification function |
| SectionEvidence.NonDictSpec | src/sections/_common/builders/create_evidence.py:133-136 | a spec that is not a dict after taking a list's first element gives rows [] with the report's corp_code and bsns_year |
| SectionEvidence.StripExamples | src/sections/_common/builders/create_evidence.py:138 | " biz " strips to "biz"; "Biz" stays "Biz" |
| SectionEvidence.BizTypeTrimmed | src/sections/_common/builders/create_evidence.py:138-143 | the type is trimmed first: " biz " selects the business chunks, with the default prefixes when none are given |
| SectionEvidence.BizTypeCaseSensitive | src/sections/_common/builders/create_evidence.py:138-147 | the type is not lowercased: "Biz" selects the notes, with topk 5 |
| SectionEvidence.NotesDefault | src/sections/_common/builders/create_evidence.py:145-148 | without a type the notes are used, with topk 5 and the metrics rows |
| IngestTree.NearestBelowSpec | src/ingest.py:312-314 | the search finds the nearest preceding row with a strictly smaller indent, or shows there is none |
| IngestTree.OnStackIncreasing | src/ingest.py:309-316 | the indents along the stack strictly increase |
| IngestTree.PopLeavesParent | src/ingest.py:312-314 | popping every entry indented at or beyond row k's indent leaves row k's parent on top |
| IngestTree.PushOnStack | src/ingest.py:316 | pushing row k onto the popped stack gives the stack for row k + 1 |
| IngestTree.AttachParents | src/ingest.py:308-316 | attach_parents: every row's parent_row_idx becomes the row_idx of the nearest preceding row with a strictly smaller indent, or None; no other field changes |
| IngestTree.AttachedIsForest | src/ingest.py:308-316 | a parent always precedes its child, so the rows form a forest |
| IngestTree.DescendsThroughChild | src/ingest.py:335-336 | a child's subtree lies in its parent's |
| IngestTree.NotesFromDescendant | src/ingest.py:329-339 | each note of a subtree comes from some descendant |
| IngestTree.ChildNotesCover | src/ingest.py:335-336 | a child's subtree notes are among its parent's |
| IngestTree.NotesAreSubtreeUnion | src/ingest.py:329-339 | the rolled-up note set of row k is exactly the union of the note numbers of k and all its descendants |
| IngestTree.SortedOfSpec | src/ingest.py:338 | sorted(s) lists the elements of s in increasing order |
| IngestTree.SortNotes | src/ingest.py:338 | sorted(cur), built by picking the least remaining number, equals the specification function |
| IngestTree.SettledExtend | src/ingest.py:329-339 | a visit that only changed rows from `mid` on keeps the rows from `lo` settled |
| IngestTree.ClosedAt | src/ingest.py:330-336 | once all children of idx are visited, the visited set is closed from idx |
| IngestTree.ChildNotesAsUnion | src/ingest.py:335-336 | scanning the children of k from position m on gathers their notes |
| IngestTree.NotesOfChildren | src/ingest.py:334-336 | a row's notes are its own plus those of its children, in row order |
| IngestTree.Dfs | src/ingest.py:329-339 | dfs(idx): returns the subtree notes of idx and leaves every row of the subtree rolled up |
| IngestTree.SettledAt | src/ingest.py:338 | rolling up row idx extends the settled range down to idx |
| IngestTree.VisitChild | src/ingest.py:335-336 | one turn of the loop that unions dfs(c) into cur |
| IngestTree.AllVisited | src/ingest.py:341-343 | every row lies under a visited root once all roots are visited |
| IngestTree.RollupNoteNos | src/ingest.py:318-343 | rollup_note_nos_to_parents: afterwards every row's note_nos is the sorted union of its own and all its descendants' note numbers; no other field changes |
| IngestTree.RollupExample | src/ingest.py:318-343 | a parent row with no note marker over a child marked (주7) rolls up to [7] |
| IngestFacts.CloseParen | src/ingest.py:279 | the index of the first ')' at or after k, or the length |
| IngestFacts.UnitAt | src/ingest.py:279 | _UNIT_RE anchored at one position, with the backtracking of the `\s*` before the group |
| IngestFacts.FirstUnit | src/ingest.py:293 | re.search: a match found starts at or after the position searched from |
| IngestFacts.FirstUnitNone | src/ingest.py:293-295 | no match found means no match anywhere from that position on |
| IngestFacts.FirstUnitLeftmost | src/ingest.py:293 | the match found is the leftmost one |
| IngestFacts.UnitOfTextSpec | src/ingest.py:291-306 | without a "(단위: …)" marker the unit is ("", 1, "KRW"); with one, the label is the stripped text inside the leftmost marker; the currency is always KRW |
| IngestFacts.MultiplierSpec | src/ingest.py:299-305 | 1_000_000 iff the unit mentions 백만, 1_000 iff it mentions 천 but not 백만, 1 otherwise |
| IngestFacts.UnitMillions | src/ingest.py:300-301 | "(단위 : 백만원)" reads as millions of won |
| IngestFacts.UnitThousands | src/ingest.py:302-303 | "(단위: 천원)" reads as thousands of won |
| IngestFacts.ColumnRows | src/ingest.py:523-533 | column 0 is the line-item column; another column is a period column whose period is fy_map's entry for its space-stripped header, or none |
| IngestFacts.CellDictKeys | src/ingest.py:580 | a position is in the cell dictionary iff some cell is at it |
| IngestFacts.CellDictLastWins | src/ingest.py:580 | a position holds the values of the last cell at it |
| IngestFacts.RowFactsIff | src/ingest.py:592-604 | a fact of one row lies in one of the columns and carries the row's line item, notes and cell value; a column gets a fact iff the loop emits one |
| IngestFacts.TableFactsIff | src/ingest.py:585-604 | a fact of the table is a fact of one of its rows |
| IngestFacts.FactEmittedIff | src/ingest.py:579-604 | row i has a fact in column c iff c is a period column with a period_end and the cell has a value or the row has rolled-up notes |
| IngestFacts.FactContents | src/ingest.py:595-604 | every fact carries its column's period, its cell's value (None when absent), the table's unit and the row's line item and rolled-up notes |
| IngestFacts.RowFactsLoop | src/ingest.py:592-604 | the inner loop appends exactly that row's facts |
| IngestFacts.BuildFacts | src/ingest.py:578-604 | the FS-facts block: one line item per row, and the facts of every row in row order, each row's in column order |
| IngestFacts.ChunksAt | src/ingest.py:258-259 | each chunk is at most chunk_size long and stripped |
| IngestFacts.PadTo | src/ingest.py:262-263 | `while len(xs) < m: xs.append("")`: the list padded with "" to length m |
| IngestFacts.StripPadded | src/ingest.py:266-267 | the stripped padded entry is the chunk itself, or "" past the end |
| IngestFacts.RowsShape | src/ingest.py:265-275 | every row's text is non-empty and at most chunk_size long; with equal lists each row embeds its own text |
| IngestFacts.EmitChunkRows | src/ingest.py:265-275 | the row loop over the padded lists writes one row per non-empty text chunk |
| IngestFacts.TextChunkRows | src/ingest.py:240-275 | both chunk lists are padded to the longer length and a row is written per non-empty text chunk: an extra embed chunk is dropped and a text chunk past the last embed chunk gets ""; without a separate embed text each row embeds its own text |
| IngestGrid.MapCellChars | src/ingest.py:627-628 | the NBSP, full-width space and U+223C replacements, applied to every character |
| IngestGrid.NormCellTextShape | src/ingest.py:623-630 | the cell text is space-normal and holds no U+223C |
| IngestGrid.NormCellTextIdempotent | src/ingest.py:623-630 | normalising a cell text twice changes nothing |
| IngestGrid.DrainRow | src/ingest.py:641-649 | a drain stops at the first free column and appends the reserved cells of every column it crossed, in column order |
| IngestGrid.DrainCounts | src/ingest.py:641-649 | each column a drain crossed is counted down by one and removed at zero; every other reservation is untouched |
| IngestGrid.SpreadRow | src/ingest.py:672-673 | a cell with colspan n adds n copies of itself to the row (none for n <= 0) |
| IngestGrid.SpreadSpan | src/ingest.py:674-675 | with rowspan r > 1 the cell reserves each column it covers for r - 1 more rows; no other reservation changes |
| IngestGrid.PlaceColumns | src/ingest.py:672-676 | with non-negative colspans the row length tracks the column, so the cell fills columns c .. c+n-1 |
| IngestGrid.RowOfPositive | src/ingest.py:644-648 | after any row every reservation still has at least one row to go |
| IngestGrid.GridRectangular | src/ingest.py:690-694 | after padding the grid is rectangular: one row per <tr>, every row as long as the longest, each the unpadded row followed by blank cells |
| IngestGrid.DrainSpans | src/ingest.py:641-649 | the `while c in span_map` loop, equal to the specification function |
| IngestGrid.PlaceTag | src/ingest.py:669-676 | one tag: the colspan copies, the reservations, and `c += colspan` |
| IngestGrid.BuildRow | src/ingest.py:638-688 | one <tr>: drain, each tag after a drain, then a closing drain |
| IngestGrid.MaxRowLength | src/ingest.py:690 | `max((len(r) for r in grid), default=0)`: the longest row's length, 0 for no rows |
| IngestGrid.PadRows | src/ingest.py:691-693 | every row padded with blank cells to the given width |
| IngestGrid.HtmlTableToGrid | src/ingest.py:632-694 | html_table_to_grid: the span map threaded through the rows, then every row padded to the widest |
| IngestGrid.Tabulate | src/ingest.py:706 | a list comprehension over range(n), built front to back |
| IngestGrid.ParseTableNone | src/ingest.py:698-740 | None exactly when the grid has fewer than two rows or every data row is blank |
| IngestGrid.ParseTableHeaders | src/ingest.py:701-706 | one column header per column of the first row: its text when the row is header-like, else COL_0, COL_1, … |
| IngestGrid.ParseTableRows | src/ingest.py:711-737 | row indices run 0, 1, … over the kept rows, each at indent 0 without a parent |
| IngestGrid.ParseTableCells | src/ingest.py:732-735 | each kept row yields exactly one cell per column header, carrying that row's and that column's index |
| IngestGrid.CountHeaders | src/ingest.py:702 | the number of header cells of the first row |
| IngestGrid.RowIsBlank | src/ingest.py:714 | all cells of the row normalise to "" |
| IngestGrid.EmitRow | src/ingest.py:717-737 | one kept row's record and one cell per column header, blank past the end of the row |
| IngestGrid.CollectRows | src/ingest.py:712-737 | the loop over data rows: blank rows are skipped, every other row gets the next index and one cell per column |
| IngestGrid.ParseAnySingleTable | src/ingest.py:696-747 | parse_any_single_table over the grid html_table_to_grid produced, equal to the specification function |
| IngestNotes.DigitEnd | src/ingest.py:848 | the end of the run of digits starting at i |
| IngestNotes.NoteNoOfStripped | src/ingest.py:848-854 | the stripped title starts with the digits and then "." |
| IngestNotes.NoteNoOfNumbered | src/ingest.py:850-854 | a title written as blanks, str(n), ".", anything gives n |
| IngestNotes.NoteNoOfUnnumbered | src/ingest.py:850-854 | a stripped title that does not start with a digit has no note number |
| IngestNotes.NotesSections | src/ingest.py:856-868 | the rows of save_notes_sections, in input order: section i gets sort_order 3000 + i, the title's note number and the cleaned title |
| IngestNotes.SaveNotesSections | src/ingest.py:856-868 | the loop of save_notes_sections, equal to the specification function |
| IngestNotes.SectionCodeClash | src/ingest.py:861-862 | two sections share a code iff both titles carry the same note number, or neither does and they are the same section |
| IngestNotes.SortOrderStrict | src/ingest.py:857-868 | sort orders follow input order and start at 3000 |
| IngestNotes.NoteMapKeys | src/ingest.py:877 | a note number is mapped iff some notes section has it |
| IngestNotes.NoteMapLastWins | src/ingest.py:877 | the mapped section is the last one with that number |
| IngestNotes.AppendLinks | src/ingest.py:890-895 | one insert per note number of a fact row: the section of that number with 0.95 when one exists, else none with 0.20 |
| IngestNotes.BuildNoteLinks | src/ingest.py:887-901 | the inserts of build_note_links, in fact-row order |
| IngestNotes.LinksOfNumsSpec | src/ingest.py:890-895 | one link per carried number, each the link for its pair |
| IngestNotes.LinksPairs | src/ingest.py:881-895 | a link is inserted for (li, no) iff a selected fact row of li carries no |
| IngestNotes.LinksAreLinkFor | src/ingest.py:891-895 | every inserted link is the link for its own pair |
| IngestNotes.LinkForSpec | src/ingest.py:891-895 | confidence 0.95 goes with a section id, 0.20 with none |
| IngestNotes.UpsertSpec | src/ingest.py:898-901 | after INSERT OR REPLACE a pair holds a link iff it held one before or one was inserted; an inserted pair holds the link for it |
| IngestNotes.NoteLinksTable | src/ingest.py:870-901 | build_note_links leaves one link per (line item, note) that a selected fact row carries, and no other: 0.95 with the section of that number, else 0.20 with none |
| IngestNotes.BenchmarkNameNoMapRow | src/ingest.py:984-993 | no benchmark_map row for (target, year) gives None |
| IngestNotes.BenchmarkNameFromMap | src/ingest.py:995-999 | a non-blank benchmark_name_kr on the first map row is the answer, stripped, whatever market_data holds |
| IngestNotes.BenchmarkNamePrefersRole | src/ingest.py:1001-1011 | without a map name, the first benchmark-role row of the code and year wins when its name is non-empty |
| IngestNotes.BenchmarkNameAnyRole | src/ingest.py:1013-1021 | otherwise the first row of the code and year in any role decides |
| IngestNotes.NameOfRowSpec | src/ingest.py:1010-1021 | a market name, when found, is the first row's non-empty corp_name_kr, stripped; None means that row is missing or its name empty |
| IngestNotes.BenchmarkNameStripped | src/ingest.py:983-1021 | a name found is always stripped |
| IngestNotes.BenchmarkNameBlank | src/ingest.py:1010-1011 | a market name of only spaces is truthy, so the lookup can return "" |
| PromptMetrics.TruthyStrings | prompts/common/builders/create_metrics.py:34 | [str(x) for x in spec if x]: at most one string per entry |
| PromptMetrics.CollectLegacyKeys | prompts/common/builders/create_metrics.py:43-50 | the loop over the legacy keys entries, equal to the specification function |
| PromptMetrics.NormalizeSpec | prompts/common/builders/create_metrics.py:27-52 | _normalize_metrics_spec, equal to the specification function |
| PromptMetrics.NormalizeFalsy | prompts/common/builders/create_metrics.py:29-30 | falsy specs (None, [], {}, "") give no keys |
| PromptMetrics.TruthyStringsSpec | prompts/common/builders/create_metrics.py:34 | every kept string comes from a truthy entry, and every truthy entry is kept |
| PromptMetrics.NewFormatStrings | prompts/common/builders/create_metrics.py:33-34 | a list of strings comes back unchanged, minus its empty strings |
| PromptMetrics.NonEmpty | prompts/common/builders/create_metrics.py:34 | the non-empty names, in order |
| PromptMetrics.LegacyListFirst | prompts/common/builders/create_metrics.py:37-38 | a legacy list is reduced to its first element |
| PromptMetrics.LegacyKeysAppend | prompts/common/builders/create_metrics.py:45-50 | the legacy keys are the entries' contributions, in entry order |
| PromptMetrics.LegacyKeySpec | prompts/common/builders/create_metrics.py:46-49 | a string entry is kept, a dict gives str(key) when its key is truthy, anything else gives nothing |
| PromptMetrics.NormalizeOther | prompts/common/builders/create_metrics.py:42-52 | a spec that is neither a list nor a dict gives no keys; so does a dict without a truthy keys |
| PromptMetrics.NormalizeKeysNotIterable | prompts/common/builders/create_metrics.py:43-45 | a truthy keys value that is a number raises TypeError |
| PromptMetrics.Query | prompts/common/builders/create_metrics.py:107-125 | every fetched row is a fact of the report's corp_code and bsns_year with a requested key |
| PromptMetrics.OutRows | prompts/common/builders/create_metrics.py:157-177 | one row per key, in key order: the found row, or the missing row |
| PromptMetrics.FillFound | prompts/common/builders/create_metrics.py:128-155 | the loop filling found, equal to the specification function |
| PromptMetrics.FillOutRows | prompts/common/builders/create_metrics.py:157-177 | the loop building out_rows, equal to the specification function |
| PromptMetrics.BuildMetricsForSection | prompts/common/builders/create_metrics.py:55-184 | build_metrics_for_section fails exactly when normalising the spec fails, and otherwise equals the specification function |
| PromptMetrics.FoundSpec | prompts/common/builders/create_metrics.py:128-155 | a key is in found exactly when some fetched row has it, and then it holds the last such row |
| PromptMetrics.RowsFollowKeys | prompts/common/builders/create_metrics.py:157-177 | one row per requested key, in key order, each under its own metric_key |
| PromptMetrics.MissingIffNoFact | prompts/common/builders/create_metrics.py:121-177 | a key gives a missing row with every value None exactly when no fact of the report's corp_code and bsns_year has it |
| PromptMetrics.QueryMembers | prompts/common/builders/create_metrics.py:107-125 | the fetched rows are exactly the selected facts |
| PromptMetrics.EmptyCases | prompts/common/builders/create_metrics.py:83-105 | rows is [] without keys, without report meta or corp_code, or without a fact_metrics table |
| PromptEvidence.HexEnd | prompts/common/builders/create_evidence.py:29 | the end of the run of [a-f0-9] starting at a position |
| PromptEvidence.TableMatchAt | prompts/common/builders/create_evidence.py:29 | a match of the table marker at one position: an id of 8 to 64 hex digits followed by "]]" |
| PromptEvidence.FoundIdsSpec | prompts/common/builders/create_evidence.py:72 | every id found is well formed and written as a table marker in the text |
| PromptEvidence.MatchMarked | prompts/common/builders/create_evidence.py:29 | a match is a well-formed id written as a marker |
| PromptEvidence.TableRefs | prompts/common/builders/create_evidence.py:69-85 | no text or empty text gives no refs |
| PromptEvidence.ExtractTableRefs | prompts/common/builders/create_evidence.py:76-85 | the caption loop updating each ref, equal to the specification function |
| PromptEvidence.TableRefsIds | prompts/common/builders/create_evidence.py:76 | the refs carry the ids, in order |
| PromptEvidence.TableIdsDistinct | prompts/common/builders/create_evidence.py:72 | list(dict.fromkeys(...)): each marked table is named once, in order of first appearance |
| PromptEvidence.TableIdsFound | prompts/common/builders/create_evidence.py:72 | the ids are exactly the ids the pattern finds |
| PromptEvidence.TableIdsMarked | prompts/common/builders/create_evidence.py:72 | only well-formed ids written as markers are named |
| PromptEvidence.NoCaptionsWithoutTables | prompts/common/builders/create_evidence.py:76-77 | without a tables table every caption is None |
| PromptEvidence.Shortest | prompts/common/builders/create_evidence.py:105-106 | ORDER BY length(label_clean) LIMIT 1: a shortest candidate, the first among equally short ones |
| PromptEvidence.ShortestIsShortest | prompts/common/builders/create_evidence.py:105-106 | no candidate is shorter than the one chosen |
| PromptEvidence.NoteNos | prompts/common/builders/create_evidence.py:122-135 | the note numbers of the top links, in the same order |
| PromptEvidence.SortedPrefix | prompts/common/builders/create_evidence.py:129-131 | a prefix of the sorted filtered links |
| PromptEvidence.TopLinksSpec | prompts/common/builders/create_evidence.py:125-135 | the item's links with a note number, at most max_notes of them, in descending confidence |
| PromptEvidence.NoNoteLinksTable | prompts/common/builders/create_evidence.py:123-124 | without a note_links table there are no note numbers |
| PromptEvidence.NoteChunks | prompts/common/builders/create_evidence.py:151-164 | one chunk per fetched row |
| PromptEvidence.FetchNoteChunks | prompts/common/builders/create_evidence.py:138-164 | the loop appending one chunk per fetched row, equal to the specification function |
| PromptEvidence.NoteChunksSpec | prompts/common/builders/create_evidence.py:140-149 | notes chunks of that note number, at most topk, in ascending chunk_idx |
| PromptEvidence.NoteOut | prompts/common/builders/create_evidence.py:202-204 | at most one note per number, and only with chunks |
| PromptEvidence.RatioInputsAreRaw | prompts/common/builders/create_evidence.py:23-27 | no ratio input is itself a ratio, so the recursion stops after one level |
| PromptEvidence.RatioEvidenceSpec | prompts/common/builders/create_evidence.py:175-185 | a ratio metric's input_evidence is keyed exactly by its inputs, in order, each the input's own evidence |
| PromptEvidence.MissingMappingSpec | prompts/common/builders/create_evidence.py:88-196 | a raw metric without an FS_MAP entry, or without a matching line item with facts in the report, is a missing mapping |
| PromptEvidence.NotesOutSpec | prompts/common/builders/create_evidence.py:198-204 | a note appears only with at least one chunk, and only for a note number of the item's links |
| PromptEvidence.BuildBizEvidence | prompts/common/builders/create_evidence.py:214-240 | the loop over the rows of the biz query builds the chunk list BizChunks, whose rows and fields BizChunkRowsSpec and BizChunksSpec state |
| PromptEvidence.BuildEvidenceForSection | prompts/common/builders/create_evidence.py:243-293 | build_evidence_for_section, equal to the specification function |
| PromptEvidence.BizType | prompts/common/builders/create_evidence.py:262-267 | a dict whose stripped, lowercased type is "biz" selects the biz branch |
| PromptEvidence.BizBranch | prompts/common/builders/create_evidence.py:267-274 | without topk_chunks the biz branch takes at most 80 chunks |
| PromptEvidence.NonDictSpecIsNotes | prompts/common/builders/create_evidence.py:261-267 | a spec that is not a dict never selects the biz branch |
| PromptEvidence.NotesRowsFollowKeys | prompts/common/builders/create_evidence.py:277-292 | otherwise one evidence row per truthy metric_key of metrics_json, in order |
| PromptEvidence.BizChunkRowsSpec | prompts/common/builders/create_evidence.py:216-225 | WHERE section_type='biz' ORDER BY section_code, chunk_idx LIMIT topk: at most topk biz chunks of the report, sorted (NULL section codes last), every dropped biz chunk sorting no earlier than the kept ones, and all of them when topk covers them |
| PromptEvidence.BizChunksSpec | prompts/common/builders/create_evidence.py:227-240 | each business chunk carries its row's chunk_id, section_id, section_code, section_type 'biz', chunk_idx and text, no note_no, and the table refs of its text, in row order |
| Retrieve.EscapeLikeEach | src/retrieve.py:13-14 | the three chained replacements escape each character on its own: the doubled backslashes are never re-escaped |
| Retrieve.TokensOfEscaped | src/retrieve.py:13-14 | an escaped string reads back, under ESCAPE '\\', as literals only |
| Retrieve.SearchPatternTokens | src/retrieve.py:118 | whatever the query holds, its pattern is one literal run between two wildcards |
| Retrieve.SearchMatchIff | src/retrieve.py:109-118 | the ILIKE condition holds exactly when the lower-cased text contains the lower-cased query; % and _ in the query match only themselves |
| Retrieve.EscapeRoundTrip | src/retrieve.py:13-14 | unescaping the output of _escape_like gives its input back |
| Retrieve.PlainContainsIff | src/sections/_common/builders/create_metrics.py:81-88 | an unescaped LIKE pattern '%' + q + '%' with no wildcard in q matches a text exactly when the text contains q |
| Retrieve.PlainPrefixIff | src/sections/_common/builders/create_evidence.py:93-94 | an unescaped LIKE pattern q + '%' with no wildcard in q matches a text exactly when the text starts with q |
| Retrieve.HitRowShape | src/retrieve.py:96-110 | a joined hit row carries its cell's text |
| Retrieve.HitRowComplete | src/retrieve.py:96-110 | every matching cell joined with a table that passes the filters is a row of the join |
| Retrieve.SearchSpec | src/retrieve.py:55-136 | a blank query finds nothing; each hit is a non-empty cell of a notes table of the report, passing the section and statement-type filters, whose lower-cased text contains the lower-cased query; at most topk hits |
| Retrieve.SearchNotesTables | src/retrieve.py:118-136 | the result loop of search_notes_tables, equal to the specification function |
| Retrieve.SearchHits | src/retrieve.py:55-136 | the hits as a function of the database |
| Retrieve.ColLabel | src/retrieve.py:26-28 | a column's label is its whitespace-normalised header, or COL_<idx> when that is blank |
| Retrieve.LastWinsSpec | src/retrieve.py:24-39 | a dict built from pairs holds every key, nothing else, each with the value of its last pair |
| Retrieve.HeaderMapSpec | src/retrieve.py:16-30 | every column index has a label, nothing else has one, and the label is that of the last column with that index |
| Retrieve.BuildTableHeaderPaths | src/retrieve.py:24-30 | the loop of _build_table_header_paths, equal to the specification function |
| Retrieve.PartLabel | src/retrieve.py:47 | a row's part of a path is its label, or ROW_<idx> when that is empty |
| Retrieve.ChainShape | src/retrieve.py:45-49 | the chain starts at the row, follows parent links, never repeats a row, and stops only at a missing, dangling or already visited parent |
| Retrieve.Labels | src/retrieve.py:47-48 | the labels of the visited rows, in visiting order |
| Retrieve.PathOfSpec | src/retrieve.py:41-51 | the row's own label closes its path, the topmost ancestor reached opens it, and a row without a parent is its own path |
| Retrieve.PathOfRow | src/retrieve.py:41-51 | path_of with its while loop, equal to the specification function |
| Retrieve.KeyValuesSpec | src/retrieve.py:140-148 | only blank items are skipped: no part exactly when every item's text is blank, and never more parts than items |
| Retrieve.RowContextSpec | src/retrieve.py:138-151 | every row line opens with the row index and path; a row whose texts are all blank reads "(empty)", any other lists its non-blank parts |
| Retrieve.FormatOneRowContext | src/retrieve.py:138-151 | _format_one_row_context with its loop over the row's items |
| Retrieve.RowsToFetchSpec | src/retrieve.py:177-182 | a row is fetched exactly when it is non-negative and lies within window_rows of some hit row |
| Retrieve.CollectRowsToFetch | src/retrieve.py:178-181 | the nested loop filling rows_to_fetch |
| Retrieve.Runs | src/retrieve.py:192-204 | the grouping: consecutive cells of the same row form one run |
| Retrieve.RunsItems | src/retrieve.py:192-204 | every cell lands in exactly one run, in order |
| Retrieve.RunsShape | src/retrieve.py:192-204 | no run is empty, and neighbouring runs belong to different rows |
| Retrieve.RunsOnePerRow | src/retrieve.py:189-204 | with the cells ordered by row, each row has one run, and the run rows strictly increase |
| Retrieve.RunsStep | src/retrieve.py:196-202 | one more cell continues the last run or opens a new one |
| Retrieve.FetchedCellsSpec | src/retrieve.py:184-190 | the fetched cells are ordered by row and are the table's cells in the fetched rows |
| Retrieve.RunLines | src/retrieve.py:199-204 | one context line per run |
| Retrieve.CloseRun | src/retrieve.py:198-201 | closing the current run appends its line |
| Retrieve.RowContextLines | src/retrieve.py:192-204 | the grouping loop: a row's line is closed when the row index changes, and the last one after the loop |
| Retrieve.Clip140 | src/retrieve.py:210-212 | a matched cell's text, cut to 140 characters plus an ellipsis when longer |
| Retrieve.TableBlockShape | src/retrieve.py:173-215 | a table's block opens with the header of its first hit and closes with an empty line; between them one line per run, then "- matched_cells:" and one line per hit |
| Retrieve.TableRowsSpec | src/retrieve.py:177-204 | the fetched rows get one line each, in strictly increasing row order, each within the window of some hit |
| Retrieve.RunRowsFrom | src/retrieve.py:194-204 | every run belongs to a row of the cells it groups |
| Retrieve.BuildTableBlock | src/retrieve.py:170-215 | the per-table part of the loop, equal to the specification function |
| Retrieve.BuildMatchedLines | src/retrieve.py:206-213 | the matched_cells loop, equal to the specification function |
| Retrieve.KeyOrderSpec | src/retrieve.py:164-166 | the keys of a setdefault grouping: each once, every element's key present, and only keys of some element |
| Retrieve.TableOrderSpec | src/retrieve.py:164-169 | each table appears once, every hit's table appears, and every table listed has a hit |
| Retrieve.TableOrderHits | src/retrieve.py:164-166 | the hits of a listed table, in hit order |
| Retrieve.NotesTableContextBlank | src/retrieve.py:160-162 | a blank query yields no context |
| Retrieve.NotesTableContextStart | src/retrieve.py:168-217 | the context opens with the header block of the first hit's table |
| Retrieve.BuildNotesTableContext | src/retrieve.py:153-217 | build_notes_table_context with its loop over the tables, equal to the specification function |
| Retrieve.BuildBlocks | src/retrieve.py:169-215 | the loop over by_table: each table's block, in order of first hit |
| Retrieve.AppendBlock | src/retrieve.py:169-215 | one round of the loop over by_table |
| Retrieve.ContextParts | src/retrieve.py:234-238 | the parts are the vector-search text, then the notes-table context, each only when not empty |
| Retrieve.CombinedContextSpec | src/retrieve.py:234-240 | nothing to combine gives ""; otherwise the context opens with the heading of the first non-empty part |
| Retrieve.BuildContextWithNotesTables | src/retrieve.py:219-240 | build_context_with_notes_tables with a window of one row, equal to the specification function |
| ReportPdf.SkipSpace | scripts/build_report_pdf.py:34 | the end of the greedy whitespace run starting at a position |
| ReportPdf.FindChar | scripts/build_report_pdf.py:34 | the first position at or after i holding c, if any |
| ReportPdf.FieldAt | scripts/build_report_pdf.py:34 | one field of EVID_RE: a non-empty lazy value up to the first stop character, blanks trimmed, and the position after the stop |
| ReportPdf.LabelAt | scripts/build_report_pdf.py:33-36 | EVID_RE matched at one position: the replacement text and the end of the match |
| ReportPdf.SanitizeNoLabel | scripts/build_report_pdf.py:38-54 | a text with no "(근거:" is left unchanged |
| ReportPdf.FieldTextPlaced | scripts/build_report_pdf.py:34 | a field written plainly is matched where it was written |
| ReportPdf.FieldAtPlaced | scripts/build_report_pdf.py:34-50 | a placed field reads back its value, stripped |
| ReportPdf.SanitizeLabel | scripts/build_report_pdf.py:47-54 | a label written with note_no, section_code and chunk_id becomes "(근거: 주석 …, …, 근거ID …)", each value stripped |
| ReportPdf.MachineFields | scripts/build_report_pdf.py:34 | the three fields of a machine-written label, read in turn |
| ReportPdf.FieldReads | scripts/build_report_pdf.py:34 | a field written plainly between any two texts reads back its value |
| ReportPdf.LabelAtFields | scripts/build_report_pdf.py:34 | the three fields read one after another make a match |
| ReportPdf.SanitizeWhole | scripts/build_report_pdf.py:54 | a text that is one match from end to end is replaced as a whole |
| ReportPdf.PartRanks | scripts/build_report_pdf.py:75-81 | one rank per dot-separated component of section_id, in order |
| ReportPdf.KeyLessOrder | scripts/build_report_pdf.py:71-82 | the sort key order is a strict total order |
| ReportPdf.SectionPartDigits | scripts/build_report_pdf.py:78-81 | a component of ASCII digits counts by its value, and every value below 10**9 sorts before a component int() rejects |
| ReportPdf.TwoPartKey | scripts/build_report_pdf.py:75-81 | a two-component id "x.y" of digits gives the key [int(x), int(y)] |
| ReportPdf.NumericSectionOrder | scripts/build_report_pdf.py:71-82 | ids compare by their numbers, not their text |
| ReportPdf.SectionTwoBeforeTen | scripts/build_report_pdf.py:71-82 | section "1.2" sorts before "1.10", the reverse of their text order |
| ReportPdf.SortSectionsSpec | scripts/build_report_pdf.py:71-82 | sorting by key_section_sort keeps the same items and puts them in key order |
| PdfMarkdown.UnescapeEscape | scripts/build_report_pdf.py:95 | escaping loses nothing: the entities read back to the text |
| PdfMarkdown.EscapeNoBrackets | scripts/build_report_pdf.py:95 | the escaped text has no '<' or '>' of its own |
| PdfMarkdown.EscapePlain | scripts/build_report_pdf.py:95 | a character other than '&', '<' and '>' escapes to itself |
| PdfMarkdown.EscapeNoDoubleStar | scripts/build_report_pdf.py:95-96 | the escape adds no '*' and puts none next to another |
| PdfMarkdown.CloseAt | scripts/build_report_pdf.py:92 | the close of the lazy group: the first "**" after at least one character with no line break in between |
| PdfMarkdown.MdInlinePlain | scripts/build_report_pdf.py:94-97 | a text without "**" is only escaped |
| PdfMarkdown.MdInlineBold | scripts/build_report_pdf.py:94-97 | "**x**" becomes "<b>x</b>" with x escaped, when x is a non-empty line without '*' |
| PdfMarkdown.EscapeKeeps | scripts/build_report_pdf.py:95 | the escape of a non-empty text without '*' or line breaks is one too |
| PdfMarkdown.RStripBars | scripts/build_report_pdf.py:105-119 | the text with its trailing bars removed |
| PdfMarkdown.StripAll | scripts/build_report_pdf.py:105-120 | every cell stripped |
| PdfMarkdown.StripEmpty | scripts/build_report_pdf.py:109 | a string strips to "" exactly when it is all blanks |
| PdfMarkdown.RemovedAll | scripts/build_report_pdf.py:112 | after removing c, every character passes p exactly when every original character is c or passes p |
| PdfMarkdown.SeparatorCellSpec | scripts/build_report_pdf.py:108-114 | a separator cell is a non-empty run of '-', ':' and blanks |
| PdfMarkdown.IsSeparatorSpec | scripts/build_report_pdf.py:100-115 | _is_md_table_separator holds exactly when the stripped line is wrapped in bars and every cell between them is a non-empty run of '-', ':' and blanks |
| PdfMarkdown.StripPadded | scripts/build_report_pdf.py:120 | padding a cell with one blank on each side does not change its strip |
| PdfMarkdown.BarsAround | scripts/build_report_pdf.py:119 | stripping the bars of a barred line leaves its middle when that neither starts nor ends with a bar |
| PdfMarkdown.SplitRenderedRow | scripts/build_report_pdf.py:118-120 | _split_md_table_row reads back the cells of a line the Markdown table template rendered, each stripped, when no cell holds a bar |
| PdfMarkdown.RenderedSeparator | scripts/build_report_pdf.py:100-115 | the template's separator line is recognised as a separator |
| PdfMarkdown.PipeRunEnd | scripts/build_report_pdf.py:149-155 | the end of the run of barred lines starting at i |
| PdfMarkdown.Widest | scripts/build_report_pdf.py:157 | the largest row width, 0 for no rows |
| PdfMarkdown.Pad | scripts/build_report_pdf.py:161-162 | a row padded with "" and cut to n cells |
| PdfMarkdown.PadAll | scripts/build_report_pdf.py:164 | every row padded to n cells |
| PdfMarkdown.ParseTable | scripts/build_report_pdf.py:123-166 | parse_md_table: the table's cells, header first, and the index after it, or None and start |
| PdfMarkdown.PipeRunEndAt | scripts/build_report_pdf.py:149-155 | the run of barred lines is the unique maximal one |
| PdfMarkdown.PadAllWidest | scripts/build_report_pdf.py:157-164 | padding to the widest row keeps every cell and fills with "" |
| PdfMarkdown.ParseTableSpec | scripts/build_report_pdf.py:123-166 | a table is found exactly when a barred line is followed by a separator; its rows are the header and the barred lines after the separator, all padded to the widest |
| PdfMarkdown.CollectRows | scripts/build_report_pdf.py:148-155 | the row loop of parse_md_table: the cells of every barred line up to the first other line |
| PdfMarkdown.ParseMdTable | scripts/build_report_pdf.py:123-166 | parse_md_table with its loop, equal to the specification function |
| PdfMarkdown.ReplaceRemoves | scripts/build_report_pdf.py:235-258 | replacing every c by another character leaves no c |
| PdfMarkdown.NormalizeNewlinesSpec | scripts/build_report_pdf.py:235-258 | the newline normalisation leaves no carriage return and changes nothing in a text without one |
| PdfMarkdown.HashRun | scripts/build_report_pdf.py:238 | the number of '#' at the start of a text |
| PdfMarkdown.LonelyHashSpec | scripts/build_report_pdf.py:238 | a lonely hash line is some blanks, one to six '#', some blanks, and nothing else |
| PdfMarkdown.RemoveLonelySpec | scripts/build_report_pdf.py:228-241 | afterwards no line is a lonely hash line; a non-empty result is the kept lines joined by newlines, which split back to them |
| PdfMarkdown.KeptSplit | scripts/build_report_pdf.py:241 | kept lines joined by newlines split back to themselves |
| PdfMarkdown.RemoveLonelyIdempotent | scripts/build_report_pdf.py:228-241 | removing lonely hash lines twice removes nothing more |
| PdfMarkdown.LineEnd | scripts/build_report_pdf.py:258 | the first line boundary at or after i |
| PdfMarkdown.SplitLinesJoin | scripts/build_report_pdf.py:258 | splitlines undoes a newline join of boundary-free lines whose last line is not empty |
| PdfMarkdown.TokenRun | scripts/build_report_pdf.py:222-224 | a heading token followed by a greedy blank run at i |
| PdfMarkdown.BreakOnlyInserts | scripts/build_report_pdf.py:222-224 | a pass only inserts newlines: with every newline removed its output is its input |
| PdfMarkdown.BreakPlaced | scripts/build_report_pdf.py:222-224 | the corrected pass leaves a text without glued tokens unchanged |
| PdfMarkdown.NormalizeOnlyInserts | scripts/build_report_pdf.py:218-226 | the three passes only insert newlines into the label-rewritten text |
| PdfMarkdown.NoLabelOpens | scripts/build_report_pdf.py:34 | no evidence label opens in a text without '(' |
| PdfMarkdown.NormalizePlaced | scripts/build_report_pdf.py:208-226 | the corrected normalisation leaves alone a text without evidence labels whose '#' all stand at line starts or in a run of '#' |
| PdfMarkdown.InlineCells | scripts/build_report_pdf.py:188-205 | every table cell goes through md_inline_to_html |
| PdfMarkdown.BlankSpec | scripts/build_report_pdf.py:277-279 | a line is blank exactly when its right-stripped text strips to "" |
| PdfMarkdown.LineStep | scripts/build_report_pdf.py:276-320 | one step of the loop: a blank line is a small gap, a table the table between gaps, a heading its paragraph and gap, a bullet "• " and its text, any other line its text; and where the next step starts |
| PdfMarkdown.StoryStep | scripts/build_report_pdf.py:275-320 | what is done so far, this step's flowables and the story after it make up the story |
| PdfMarkdown.Story.constructor | scripts/build_report_pdf.py:243-248 | an empty story |
| PdfMarkdown.Story.AppendMarkdown | scripts/build_report_pdf.py:243-320 | append_markdown_story appends exactly the story of the text after the corrected heading normalisation, lonely-hash removal and line split |
| PdfMarkdown.Story.AppendLines | scripts/build_report_pdf.py:275-320 | the loop over the lines appends the story from line 0 |
| PdfMarkdown.Story.AppendStep | scripts/build_report_pdf.py:277-320 | one pass of the loop body appends that step's flowables and moves to its next line |
| PdfMarkdown.PassThreeHashes | scripts/build_report_pdf.py:222 | pass "###" on "### t" puts a newline in front of the heading at the start of the text |
| PdfMarkdown.PassTwoHashes | scripts/build_report_pdf.py:223 | pass "##" on "\n### t": the inner "##" of "###" counts as a token |
| PdfMarkdown.PassOneHash | scripts/build_report_pdf.py:224 | pass "#" on "\n#\n## t": the second '#' of "##" counts as a token |
| PdfMarkdown.NormalizeFlattens | scripts/build_report_pdf.py:208-226 | as written, "### t" comes out as "\n#\n#\n# t" |
| PdfMarkdown.RemoveFlattened | scripts/build_report_pdf.py:228-241 | dropping the two lonely "#" lines leaves "\n# t" |
| PdfMarkdown.StoryFlattened | scripts/build_report_pdf.py:275-320 | the story of the lines "" and "# t" is a gap, then a level-one heading |
| PdfMarkdown.StoryKept | scripts/build_report_pdf.py:296-300 | the story of the one line "### t" is a level-three heading and a gap |
| PdfMarkdown.HeadingFlattenedAsWritten | scripts/build_report_pdf.py:222-224 | as written, "### t" at the start of a section renders as a gap and a level-one heading |
| PdfMarkdown.RemoveKeeps | scripts/build_report_pdf.py:228-241 | remove_lonely_hash_lines keeps the single line "### t" |
| PdfMarkdown.HeadingKeptCorrected | scripts/build_report_pdf.py:243-320 | with the corrected normalisation "### t" renders as a level-three heading |
| Swot.Candidates | src/sections/c09_swot/s09_1_strength/retriever.py:56-73 | the (core, aux) lists of _split_strength_and_or and, for the other polarity, _split_weakness_and_or |
| Swot.SplitAndOr | src/sections/c09_swot/s09_1_strength/retriever.py:57-73 | the loop appending each row to the core list, the aux list or neither, equal to the specification function |
| Swot.CandidatesSpec | src/sections/c09_swot/s09_1_strength/retriever.py:58-73 | the core list holds exactly the rows whose flags are both the wanted boolean, the aux list exactly those with one flag wanted and the other its opposite, each in input order |
| Swot.CandidatesDisjoint | src/sections/c09_swot/s09_1_strength/retriever.py:62-73 | no row is in both lists, and a row with a missing or non-boolean flag is in neither |
| Swot.AuxShared | src/sections/c09_swot/s09_2_weakness/retriever.py:67-70 | the strength and weakness aux lists hold the same rows |
| Swot.PartitionDecided | src/sections/c09_swot/s09_2_weakness/retriever.py:56-73 | every row with two boolean flags lands in the strength core, the weakness core or the shared aux list, and the two cores share no row |
| Swot.BenchDelta | src/sections/c09_swot/s09_1_strength/retriever.py:26-34 | value minus benchmark_value when both are present and convert, otherwise None |
| Swot.SignalCells | src/sections/c09_swot/s09_1_strength/retriever.py:43-52 | the eight cells of a candidate row, one per header |
| Swot.RenderSignalTable | src/sections/c09_swot/s09_1_strength/retriever.py:37-53 | the loop of _md_table appending one line per row of rows[:limit], equal to the specification function |
| Swot.EmptyTableIff | src/sections/c09_swot/s09_1_strength/retriever.py:38-39 | the "제공 없음" text appears exactly when there are no rows |
| Swot.TableLines | src/sections/c09_swot/s09_1_strength/retriever.py:37-53 | with a newline-free title and cells the table is the title, the header and separator lines, then one line per row for the first limit rows, in order |
| Swot.ChapterLines | src/sections/c09_swot/s09_3_opportunity/retriever.py:41-46 | the non-empty chapter texts in key order, or the error of the first chapter that raises |
| Swot.CollectChapters | src/sections/c09_swot/s09_3_opportunity/retriever.py:41-48 | the loop over the sorted keys appending each non-empty chapter text, equal to the specification function |
| Swot.BridgePriority | src/sections/c09_swot/s09_3_opportunity/retriever.py:15-48 | the chapter loader reads the same top-level text as the simple one, and falls back to the chapters only when that text is empty |
| Swot.ChapterLinesOk | src/sections/c09_swot/s09_3_opportunity/retriever.py:42-46 | the chapter lines are produced exactly when every chapter reads without error |
| Swot.ChapterLinesStripped | src/sections/c09_swot/s09_3_opportunity/retriever.py:44-46 | every chapter line is non-empty and stripped |
| Swot.ChapterOrderSpec | src/sections/c09_swot/s09_3_opportunity/retriever.py:35-42 | the chapters come in ascending _ckey order, a non-integer key counting as 10**9; every key of the chapters dict appears exactly once and nothing else does |
| Swot.CorpNameSpec | src/sections/c09_swot/s09_1_strength/retriever.py:88 | corp_name is the first truthy of meta's corp_name and corp_name_kr, else meta.get("corp_code"); it is truthy exactly when one of the three is |
| Swot.BizRows | src/sections/c09_swot/s09_3_opportunity/retriever.py:51-57 | the biz rows in order, or the error of the first row that raises |
| Swot.FilterBizOnly | src/sections/c09_swot/s09_3_opportunity/retriever.py:51-57 | the loop of _filter_biz_only, equal to the specification function |
| Swot.BizRowsOk | src/sections/c09_swot/s09_3_opportunity/retriever.py:53-54 | the filter succeeds exactly when every row's type reads |
| Swot.BizRowsSpec | src/sections/c09_swot/s09_3_opportunity/retriever.py:51-57 | on success the filter keeps exactly the rows whose stripped, lowercased type is "biz", in order |
| Swot.DictsPack | src/sections/c09_swot/s09_3_opportunity/retriever.py:69-72 | dict rows always pack without tables |
| Swot.BusinessEvidenceSpec | src/sections/c09_swot/s09_3_opportunity/retriever.py:68-72 | the evidence packs the first min(topk, n) biz rows, one line each, and reads "제공 없음" exactly when there are none |
| Swot.BuildCandidateCtx | src/sections/c09_swot/s09_1_strength/retriever.py:76-94 | build_ctx of the strength and weakness retrievers: corp_name (the first truthy of corp_name, corp_name_kr, else corp_code) and bsns_year from meta, raising when meta is not a dict; the bridge text and the core and aux tables of at most 12 rows each |
| Swot.BuildOutlookCtx | src/sections/c09_swot/s09_3_opportunity/retriever.py:60-85 | build_ctx of the opportunity and threat retrievers: corp_name and bsns_year from meta as in the strength retriever, raising when meta is not a dict; the bridge text with its chapter fallback, every biz row packed (or "제공 없음"), and the year-on-year table of the four capacity keys |
| Conclusion.SignalRowsVsCandidates | src/sections/c10_conclusion/s10_1_strength_summary/retriever.py:26-78 | the strength-summary list holds every core and aux SWOT candidate of the same polarity, and a row with two boolean flags is flagged only if it is one of them |
| Conclusion.SummariesCover | src/sections/c10_conclusion/s10_2_risk_summary/retriever.py:26-27 | a row with two boolean flags is in the strength list, the risk list or both, and in both exactly when it is an aux candidate |
| Conclusion.AnchorKeys | src/sections/c10_conclusion/s10_1_strength_summary/retriever.py:82-84 | three anchor key lists: profit, cash and stability for the strength summary; liquidity, debt and coverage for the risk summary |
| Conclusion.RenderAnchors | src/sections/c10_conclusion/s10_1_strength_summary/retriever.py:82-84 | the three anchor tables, each render_T1_YOY of its keys |
| Conclusion.BuildSummaryCtx | src/sections/c10_conclusion/s10_1_strength_summary/retriever.py:61-97 | build_ctx of the strength and risk summaries: succeeds exactly when the bridge file and the evidence types read and meta is a dict; corp_name and bsns_year from meta as in the c09 retrievers; the first min(n, 10) or min(n, 8) biz rows packed ("제공 없음" exactly when none), the flagged rows' table, and the anchor tables |

## Left out

- DuckDB itself is not modelled: DDL and migrations, transactions, `INSERT OR REPLACE` plumbing, `delete_report` and `_table_exists`/PRAGMA lookups. Tables are sequences or maps, and a DELETE-then-INSERT is a reassignment of the table field.
- BeautifulSoup/lxml and the Python regex engine are not modelled: tag traversal, `remove_tables_html` and `extract_fy_map` matching. Table cells arrive as records (text, header flag, rowspan, colspan), `fy_map` as a map, and regex match positions (section titles, block patterns) as inputs.
- Network clients are not part of this model: DART/KRX HTTP, OpenDartReader, `dart_fss`, `get_corp_info_by_name`, the LLM client, and the cache of `load_or_build_rcept_cache`. Their answers are parameters: listing pages, market rows and corp tables.
- SHA-1 (`stable_id`, `sha1_hex`) is not modelled. Ids are parameters, and the chunk-id encodings start from the hex digest string.
- Embedding, FAISS and `normalize_embeddings` are not part of this model.
- IEEE floating point is modelled as `real`: no rounding, NaN or infinity. pandas NaN in the exported DataFrame is the `NaN` case of a small datatype, which the export maps to None.
- Calendar arithmetic is modelled as day numbers. The caller supplies `datetime` parsing, and `_fallback_dates` works on day offsets.
- `str()` and `float()` on arbitrary Python values are the `show` and `parse` parameters. Their number formatting is not modelled.
- `str.lower()` is modelled on ASCII letters only, and `\d`/`isdigit` on ASCII digits only. Korean text has no case, and the source's inputs are ASCII where these apply.
- reportlab rendering is not modelled: `build_pdf`, paragraph styles, fonts and `Table` objects. The story is a sequence of block records.
- LLM generation, the asyncio fan-out, `importlib` wiring, logging/printing, the Streamlit UI, the CLI and the orchestration scripts are not part of this model.
- The thin section retrievers that only pass fixed key lists are not part of this model, and neither is s10_3 (implication and limits).
- validate.py `bad_asof_date` and `asof_year_mismatch` are not modelled, because they depend on DuckDB's date cast (`try_cast(... AS DATE)`).
- validate.py `bench_cnt_top` is not modelled: it is an ORDER BY on a count with LIMIT 20 and unspecified tie order.
- The recomputation checks that `scripts/run_calc.py` imports (`validate_coverage`, `validate_ratio_rows`, …) are not in `src/validate.py`. `scripts/run_calc.py` receives their results as inputs.
- The templates take `metric_rows` as the dict their signature declares. The list that `load_inputs` returns and the `table_templates` import name are not modelled.
- The c09/c10 retrievers take metric rows as dicts. A non-dict element of `metric_rows` is not modelled.
- A JSON object with a repeated key is one key-value list; lookup takes the last occurrence and iteration yields each key once at its first position, like the dict Python's `json.loads` builds.
- `v_financial_ratios` tests `denominator IS NOT NULL` on a COALESCE-d sum, which is never NULL. The model has no such test.
- TextUtil.ChunkText: requires chunk_size > 0, overlap < chunk_size and overlap no larger than the 60% cut floor plus one. Outside that range the Python loop can stop making progress, so the model leaves those parameters out.
- SQL `LIMIT` without `ORDER BY` is modelled as the first rows in table order.
- A negative `LIMIT` parameter is modelled as reading no rows; what DuckDB does with one is not modelled.
- SectionMetrics.BuildMetricsForSection: builds a found row's periods from the corrected facts query of the first Findings row (SectionMetrics.ItemFacts). When exactly one period is picked (mode "current_only", or a report with one period end), it lists only that period's facts. The code as written lists every fact of the item (SectionMetrics.CurrentOnlyLeak). With two periods or none the two queries return the same facts (SectionMetrics.ItemFactsAgree).
- SectionMetrics.CollectRows: uses the same corrected facts query, with the same one-period difference.
- SectionMetrics.ItemRow: uses the same corrected facts query, with the same one-period difference; ItemRowSpec and FullResultSpec state their periods in its terms.
- SectionMetrics.ItemRowSpec: states a found row's periods through the corrected facts query (SectionMetrics.ItemFacts), not the query as written; the two differ only when one period is picked (SectionMetrics.CurrentOnlyLeak, SectionMetrics.ItemFactsAgree).
- RunCalc.ExportMetricsJson: the rows carry no metric_name_ko, because CalcFacts.FactRow has no such field. The source selects it from the metric catalog (src/calc.py:843) and copies it into every row (scripts/run_calc.py:47); it is a display string that no check or later stage reads.
- Dart.ChooseRceptNoErrors: among candidates equally near the receipt date, the model takes the first in listing order. The source sorts by distance with pandas' default sort, which is not stable, so its pick among ties is not specified.
- ChunkIds.HexValue: accepts bare hex digits only. Python's `int(s, 16)` also accepts a "0x" prefix, underscores between digits, a sign and surrounding whitespace; the source applies it to 16 characters of a 40-character hex digest (the last 16 in src/utils/ids.py, the first 16 in src/embed.py), which never hold those.
- PdfMarkdown.Story.AppendMarkdown: applies the corrected heading normalisation of the second Findings row (PdfMarkdown.NormalizeHeadings), which breaks a line only before a heading token glued to preceding text. The code as written also breaks before a token at the start of the text and before the inner hashes of a "##" or "###" heading, so such a heading renders as a gap and a level-one heading (PdfMarkdown.HeadingFlattenedAsWritten). PdfMarkdown.MarkdownStoryAsWritten is the story as written.

## Findings

| source | as written | input that shows it | evidently intended | confidence | as-written member | corrected member |
|---|---|---|---|---|---|---|
| src/sections/_common/builders/create_metrics.py:104-113 | the period filter is `(? IS NULL OR period_end = p_cur) OR (? IS NULL OR period_end = p_prev)`, so a NULL second period makes the whole condition true | mode current_only (or a report with a single period) and facts for 2023-12-31 and 2022-12-31: both facts are returned | only facts whose period_end is one of the picked periods | not executed | SectionMetrics.CurrentOnlyLeak | SectionMetrics.ItemFactsSpec |
| scripts/build_report_pdf.py:222-224 | the `(?<!\n)(##\s+)` and `(#\s+)` passes also match the hashes inside a `###` heading and put each on its own line | a story text starting with "### t": it becomes "\n#\n#\n# t", the lonely-hash pass leaves "\n# t", and that renders as a level-one heading | headings stay at their level and only get a line break before them | not executed | PdfMarkdown.HeadingFlattenedAsWritten | PdfMarkdown.HeadingKeptCorrected |
