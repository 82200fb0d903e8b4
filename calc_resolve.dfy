/** v_value_resolved (src/calc.py): one strict value per (report,
    requirement key), with the market snapshot as fallback for the stock price
    and the share count. */
module CalcResolve {
  import opened Common
  import opened Tables
  import opened CalcKeys
  import opened CalcRules
  import opened CalcViews
  import opened CalcRequirements
  import opened MarketData

  // ---------------------------------------------------------------
  // req
  // ---------------------------------------------------------------

  /** The keys appended by UNION ALL after the requirement keys. */
  const EXTRA_KEYS: seq<StdKey> := [SHARES_OUTSTANDING, STOCK_PRICE, PRE_TAX_INCOME, TAX_EXP, DEPRECIATION]

  function ItemKey(r: RatioReq): StdKey { r.itemKey }

  function RawRequirements(reqs: seq<RatioReq>): seq<RatioReq> {
    Where(reqs, (r: RatioReq) => !IsDerivedKey(r.itemKey))
  }

  /** The req CTE: the distinct non-derived requirement keys, then EXTRA_KEYS
      (UNION ALL keeps a key that is in both twice). */
  function ReqKeys(reqs: seq<RatioReq>): seq<StdKey> {
    Distinct(MapSeq(RawRequirements(reqs), ItemKey)) + EXTRA_KEYS
  }

  lemma ExtraKeysNoDup()
    ensures NoDup(EXTRA_KEYS)
  {
  }

  lemma ExtraKeysNotDerived()
    ensures forall k :: k in EXTRA_KEYS ==> !IsDerivedKey(k)
  {
    forall k | k in EXTRA_KEYS ensures !IsDerivedKey(k) {
      assert k == SHARES_OUTSTANDING || k == STOCK_PRICE || k == PRE_TAX_INCOME || k == TAX_EXP || k == DEPRECIATION;
    }
  }

  /** The distinct part of req holds exactly the non-derived requirement keys. */
  lemma RawKeysSpec(reqs: seq<RatioReq>)
    ensures forall k :: k in Distinct(MapSeq(RawRequirements(reqs), ItemKey)) <==>
      !IsDerivedKey(k) && exists i :: 0 <= i < |reqs| && reqs[i].itemKey == k
  {
    var raw := RawRequirements(reqs);
    WhereSpec(reqs, (r: RatioReq) => !IsDerivedKey(r.itemKey));
    DistinctSpec(MapSeq(raw, ItemKey));
    forall k ensures k in MapSeq(raw, ItemKey) <==> (!IsDerivedKey(k) && exists i :: 0 <= i < |reqs| && reqs[i].itemKey == k) {
      if k in MapSeq(raw, ItemKey) {
        var q :| 0 <= q < |raw| && MapSeq(raw, ItemKey)[q] == k;
        assert raw[q] in raw;
        var i :| 0 <= i < |reqs| && reqs[i] == raw[q];
      }
      if !IsDerivedKey(k) && exists i :: 0 <= i < |reqs| && reqs[i].itemKey == k {
        var i :| 0 <= i < |reqs| && reqs[i].itemKey == k;
        assert reqs[i] in raw;
        var q :| 0 <= q < |raw| && raw[q] == reqs[i];
        assert MapSeq(raw, ItemKey)[q] == k;
      }
    }
  }

  lemma ReqKeysSpec(reqs: seq<RatioReq>)
    ensures forall k :: k in ReqKeys(reqs) <==>
      k in EXTRA_KEYS || (!IsDerivedKey(k) && exists i :: 0 <= i < |reqs| && reqs[i].itemKey == k)
  {
    RawKeysSpec(reqs);
  }

  /** No derived key is resolved, and LONG_TERM_DEBT is resolved only if a
      requirement names it. */
  lemma ReqKeysNoDerived(reqs: seq<RatioReq>)
    ensures forall k :: k in ReqKeys(reqs) ==> !IsDerivedKey(k)
    ensures LONG_TERM_DEBT in ReqKeys(reqs) <==> exists i :: 0 <= i < |reqs| && reqs[i].itemKey == LONG_TERM_DEBT
  {
    ReqKeysSpec(reqs);
    ExtraKeysNotDerived();
    assert LONG_TERM_DEBT !in EXTRA_KEYS;
  }

  /** A key that is both a requirement key and an extra key appears twice. */
  lemma ReqKeysTwice(reqs: seq<RatioReq>, k: StdKey, i: nat)
    requires k in EXTRA_KEYS && i < |reqs| && reqs[i].itemKey == k
    ensures Count(ReqKeys(reqs), k) == 2
  {
    var d := Distinct(MapSeq(RawRequirements(reqs), ItemKey));
    ExtraKeysNotDerived();
    RawKeysSpec(reqs);
    DistinctSpec(MapSeq(RawRequirements(reqs), ItemKey));
    CountNoDup(d, k);
    CountAppend(d, EXTRA_KEYS, k);
    ExtraKeysNoDup();
    CountNoDup(EXTRA_KEYS, k);
  }

  /** LONG_TERM_DEBT is resolved only when a requirement names it. */
  lemma NoLongTermDebtKey(reqs: seq<RatioReq>)
    requires forall i :: 0 <= i < |reqs| ==> reqs[i].itemKey != LONG_TERM_DEBT
    ensures LONG_TERM_DEBT !in ReqKeys(reqs)
  {
    ReqKeysNoDerived(reqs);
  }

  /** With the shipped requirements STOCK_PRICE is resolved twice per report. */
  lemma ShippedStockPriceTwice()
    ensures Count(ReqKeys(RATIO_REQUIREMENTS), STOCK_PRICE) == 2
  {
    ShippedStockPriceAndDepreciation();
    ReqKeysTwice(RATIO_REQUIREMENTS, STOCK_PRICE, 30);
  }

  /** With the shipped requirements DEPRECIATION is resolved twice per report. */
  lemma ShippedDepreciationTwice()
    ensures Count(ReqKeys(RATIO_REQUIREMENTS), DEPRECIATION) == 2
  {
    ShippedStockPriceAndDepreciation();
    ReqKeysTwice(RATIO_REQUIREMENTS, DEPRECIATION, 16);
  }

  /** With the shipped requirements LONG_TERM_DEBT is never resolved. */
  lemma ShippedNoLongTermDebt()
    ensures LONG_TERM_DEBT !in ReqKeys(RATIO_REQUIREMENTS)
  {
    NoLongTermDebtRequirement();
    NoLongTermDebtKey(RATIO_REQUIREMENTS);
  }

  // ---------------------------------------------------------------
  // std_scope
  // ---------------------------------------------------------------

  /** MIN(scope) over the active rules for key. */
  function StdScope(rules: seq<Rule>, key: StdKey): Option<StatementType> {
    if rules == [] then None
    else
      var t := StdScope(rules[1..], key);
      if rules[0].isActive && rules[0].stdKey == key then
        (if t.Some? && ScopeRank(t.value) < ScopeRank(rules[0].scope) then t else Some(rules[0].scope))
      else t
  }

  /** A key has a scope iff some active rule has that key; it is the least
      such rule's scope in string order. */
  lemma StdScopeSpec(rules: seq<Rule>, key: StdKey)
    ensures StdScope(rules, key).Some? <==> exists r :: r in rules && r.isActive && r.stdKey == key
    ensures StdScope(rules, key).Some? ==>
      exists r :: r in rules && r.isActive && r.stdKey == key && r.scope == StdScope(rules, key).value
    ensures forall r :: r in rules && r.isActive && r.stdKey == key ==>
      StdScope(rules, key).Some? && ScopeRank(StdScope(rules, key).value) <= ScopeRank(r.scope)
  {
    StdScopeFound(rules, key);
    StdScopeLeast(rules, key);
  }

  lemma {:induction false} StdScopeFound(rules: seq<Rule>, key: StdKey)
    ensures StdScope(rules, key).Some? <==> exists r :: r in rules && r.isActive && r.stdKey == key
    ensures StdScope(rules, key).Some? ==>
      exists r :: r in rules && r.isActive && r.stdKey == key && r.scope == StdScope(rules, key).value
  {
    if rules != [] {
      StdScopeFound(rules[1..], key);
      assert rules == [rules[0]] + rules[1..];
    }
  }

  lemma {:induction false} StdScopeLeast(rules: seq<Rule>, key: StdKey)
    ensures forall r :: r in rules && r.isActive && r.stdKey == key ==>
      StdScope(rules, key).Some? && ScopeRank(StdScope(rules, key).value) <= ScopeRank(r.scope)
  {
    if rules != [] {
      StdScopeLeast(rules[1..], key);
      assert rules == [rules[0]] + rules[1..];
    }
  }

  // ---------------------------------------------------------------
  // base_reports, candidates, base_vals
  // ---------------------------------------------------------------

  datatype ReportKey = ReportKey(corpCode: string, bsnsYear: int, reportId: string)

  function ReportOf(m: MappedRow): ReportKey { ReportKey(m.corpCode, m.bsnsYear, m.reportId) }

  /** base_reports: the distinct reports of v_fin_long_mapped. */
  function BaseReports(mapped: seq<MappedRow>): seq<ReportKey> {
    Distinct(MapSeq(mapped, ReportOf))
  }

  /** The candidates join: the row is tagged with key, lies in the key's scope
      and in the report's own fiscal year, and an EXACT rule for key matches
      its label (activity is not checked there). */
  predicate IsCandidate(m: MappedRow, rules: seq<Rule>, rep: ReportKey, key: StdKey) {
    ReportOf(m) == rep && m.stdKey == Some(key) && m.fiscalYear == m.bsnsYear &&
    StdScope(rules, key) == Some(m.statementType) &&
    exists r :: r in rules && r.scope == m.statementType && r.stdKey == key && r.matchType == EXACT && r.pattern == m.labelNorm
  }

  function ValueOf(m: MappedRow): real { m.valueWon }

  function Candidates(mapped: seq<MappedRow>, rules: seq<Rule>, rep: ReportKey, key: StdKey): seq<real> {
    MapSeq(Where(mapped, (m: MappedRow) => IsCandidate(m, rules, rep, key)), ValueOf)
  }

  lemma CandidatesSpec(mapped: seq<MappedRow>, rules: seq<Rule>, rep: ReportKey, key: StdKey)
    ensures forall v :: v in Candidates(mapped, rules, rep, key) <==>
      exists m :: m in mapped && IsCandidate(m, rules, rep, key) && m.valueWon == v
  {
    forall v ensures v in Candidates(mapped, rules, rep, key) <==> exists m :: m in mapped && IsCandidate(m, rules, rep, key) && m.valueWon == v {
      if v in Candidates(mapped, rules, rep, key) {
        CandidateSound(mapped, rules, rep, key, v);
      }
      if exists m :: m in mapped && IsCandidate(m, rules, rep, key) && m.valueWon == v {
        var m :| m in mapped && IsCandidate(m, rules, rep, key) && m.valueWon == v;
        CandidateComplete(mapped, rules, rep, key, m);
      }
    }
  }

  /** Every candidate value is the value of a candidate row. */
  lemma CandidateSound(mapped: seq<MappedRow>, rules: seq<Rule>, rep: ReportKey, key: StdKey, v: real)
    requires v in Candidates(mapped, rules, rep, key)
    ensures exists m :: m in mapped && IsCandidate(m, rules, rep, key) && m.valueWon == v
  {
    var f := Where(mapped, (m: MappedRow) => IsCandidate(m, rules, rep, key));
    WhereSpec(mapped, (m: MappedRow) => IsCandidate(m, rules, rep, key));
    var q :| 0 <= q < |f| && MapSeq(f, ValueOf)[q] == v;
    assert f[q] in f;
  }

  /** Every candidate row contributes its value. */
  lemma CandidateComplete(mapped: seq<MappedRow>, rules: seq<Rule>, rep: ReportKey, key: StdKey, m: MappedRow)
    requires m in mapped && IsCandidate(m, rules, rep, key)
    ensures m.valueWon in Candidates(mapped, rules, rep, key)
  {
    var f := Where(mapped, (m: MappedRow) => IsCandidate(m, rules, rep, key));
    WhereSpec(mapped, (m: MappedRow) => IsCandidate(m, rules, rep, key));
    var q :| 0 <= q < |f| && f[q] == m;
    assert MapSeq(f, ValueOf)[q] == m.valueWon;
  }

  /** `CASE WHEN COUNT(DISTINCT v) = 1 THEN MAX(v) ELSE NULL END`. */
  function StrictValue(vals: seq<real>): Option<real> {
    var d := Distinct(vals);
    if |d| == 1 then Some(d[0]) else None
  }

  /** The strict value is present exactly when there is a candidate and all
      candidates agree, and then it is their common value. */
  lemma StrictValueSpec(vals: seq<real>)
    ensures StrictValue(vals).Some? <==> vals != [] && forall i :: 0 <= i < |vals| ==> vals[i] == vals[0]
    ensures StrictValue(vals).Some? ==> StrictValue(vals).value == vals[0]
  {
    var d := Distinct(vals);
    DistinctSpec(vals);
    if vals != [] && forall i :: 0 <= i < |vals| ==> vals[i] == vals[0] {
      DistinctConst(vals, vals[0]);
    }
    if |d| == 1 {
      assert vals != [] by { assert d[0] in vals; }
      forall i | 0 <= i < |vals| ensures vals[i] == vals[0] {
        assert vals[i] in d && vals[0] in d;
      }
      assert vals[0] in d;
    }
  }

  // ---------------------------------------------------------------
  // market_core
  // ---------------------------------------------------------------

  /** One (argument, ordering value) pair fed to arg_max. */
  datatype Dated = Dated(arg: Option<real>, date: Option<int>)

  predicate Eligible(d: Dated) { d.arg.Some? && d.date.Some? }

  /** arg_max(arg, date): the first eligible pair with the latest date. */
  function Latest(ds: seq<Dated>): (r: Option<Dated>)
    ensures r.Some? ==> Eligible(r.value)
  {
    if ds == [] then None
    else
      var t := Latest(ds[1..]);
      if !Eligible(ds[0]) then t
      else if t.Some? && t.value.date.value > ds[0].date.value then t
      else Some(ds[0])
  }

  /** arg_max finds a value iff some row has both a value and a date; the row
      it takes has the latest date among those. */
  lemma {:induction false} LatestSpec(ds: seq<Dated>)
    ensures Latest(ds).Some? <==> exists i :: 0 <= i < |ds| && Eligible(ds[i])
    ensures Latest(ds).Some? ==> Latest(ds).value in ds && Eligible(Latest(ds).value)
    ensures forall i :: 0 <= i < |ds| && Eligible(ds[i]) ==>
      Latest(ds).Some? && ds[i].date.value <= Latest(ds).value.date.value
  {
    if ds != [] {
      LatestSpec(ds[1..]);
      assert forall i :: 1 <= i < |ds| ==> ds[i] == ds[1..][i - 1];
      assert forall i :: 0 <= i < |ds| - 1 ==> ds[1..][i] == ds[i + 1];
    }
  }

  function PriceDated(r: MarketRow): Dated { Dated(r.stockPrice, r.asofDate) }
  function SharesDated(r: MarketRow): Dated { Dated(r.sharesOutstanding, r.asofDate) }

  function MarketRowsOf(market: seq<MarketRow>, corp: string, year: int): seq<MarketRow> {
    Where(market, (r: MarketRow) => r.corpCode == corp && r.year == year)
  }

  function ArgOf(d: Option<Dated>): Option<real> {
    if d.Some? then d.value.arg else None
  }

  /** market_core.stock_price for (corp, year). */
  function MarketPrice(market: seq<MarketRow>, corp: string, year: int): Option<real> {
    ArgOf(Latest(MapSeq(MarketRowsOf(market, corp, year), PriceDated)))
  }

  /** market_core.shares_outstanding for (corp, year). */
  function MarketShares(market: seq<MarketRow>, corp: string, year: int): Option<real> {
    ArgOf(Latest(MapSeq(MarketRowsOf(market, corp, year), SharesDated)))
  }

  /** The market price is the price of a row of that company and year, dated
      no earlier than any other priced and dated row of it. */
  lemma MarketPriceSpec(market: seq<MarketRow>, corp: string, year: int)
    ensures MarketPrice(market, corp, year).Some? ==>
      exists r :: r in market && r.corpCode == corp && r.year == year && r.asofDate.Some? &&
        r.stockPrice == MarketPrice(market, corp, year) &&
        forall s :: s in market && s.corpCode == corp && s.year == year && s.stockPrice.Some? && s.asofDate.Some? ==>
          s.asofDate.value <= r.asofDate.value
    ensures MarketPrice(market, corp, year).None? ==>
      forall s :: s in market && s.corpCode == corp && s.year == year ==> s.stockPrice.None? || s.asofDate.None?
  {
    var rs := MarketRowsOf(market, corp, year);
    var ds := MapSeq(rs, PriceDated);
    WhereSpec(market, (r: MarketRow) => r.corpCode == corp && r.year == year);
    LatestSpec(ds);
    if Latest(ds).Some? {
      var q :| 0 <= q < |ds| && ds[q] == Latest(ds).value;
      var r := rs[q];
      assert r in market;
      forall s | s in market && s.corpCode == corp && s.year == year && s.stockPrice.Some? && s.asofDate.Some?
        ensures s.asofDate.value <= r.asofDate.value
      {
        var p :| 0 <= p < |rs| && rs[p] == s;
        assert Eligible(ds[p]);
      }
    } else {
      forall s | s in market && s.corpCode == corp && s.year == year ensures s.stockPrice.None? || s.asofDate.None? {
        var p :| 0 <= p < |rs| && rs[p] == s;
        assert !Eligible(ds[p]);
      }
    }
  }

  /** The same for the share count. */
  lemma MarketSharesSpec(market: seq<MarketRow>, corp: string, year: int)
    ensures MarketShares(market, corp, year).Some? ==>
      exists r :: r in market && r.corpCode == corp && r.year == year && r.asofDate.Some? &&
        r.sharesOutstanding == MarketShares(market, corp, year) &&
        forall s :: s in market && s.corpCode == corp && s.year == year && s.sharesOutstanding.Some? && s.asofDate.Some? ==>
          s.asofDate.value <= r.asofDate.value
    ensures MarketShares(market, corp, year).None? ==>
      forall s :: s in market && s.corpCode == corp && s.year == year ==> s.sharesOutstanding.None? || s.asofDate.None?
  {
    var rs := MarketRowsOf(market, corp, year);
    var ds := MapSeq(rs, SharesDated);
    WhereSpec(market, (r: MarketRow) => r.corpCode == corp && r.year == year);
    LatestSpec(ds);
    if Latest(ds).Some? {
      var q :| 0 <= q < |ds| && ds[q] == Latest(ds).value;
      var r := rs[q];
      assert r in market;
      forall s | s in market && s.corpCode == corp && s.year == year && s.sharesOutstanding.Some? && s.asofDate.Some?
        ensures s.asofDate.value <= r.asofDate.value
      {
        var p :| 0 <= p < |rs| && rs[p] == s;
        assert Eligible(ds[p]);
      }
    } else {
      forall s | s in market && s.corpCode == corp && s.year == year ensures s.sharesOutstanding.None? || s.asofDate.None? {
        var p :| 0 <= p < |rs| && rs[p] == s;
        assert !Eligible(ds[p]);
      }
    }
  }

  // ---------------------------------------------------------------
  // The view
  // ---------------------------------------------------------------

  /** A (report, key, value) row of v_value_resolved or v_value_augmented. */
  datatype ValueRow = ValueRow(report: ReportKey, stdKey: StdKey, valueWon: Option<real>)

  /** The value column: the strict statement value, else the market value for
      STOCK_PRICE and SHARES_OUTSTANDING. */
  function ResolvedValue(mapped: seq<MappedRow>, rules: seq<Rule>, market: seq<MarketRow>, rep: ReportKey, key: StdKey): Option<real> {
    var bv := StrictValue(Candidates(mapped, rules, rep, key));
    if bv.Some? then bv
    else if key == STOCK_PRICE then MarketPrice(market, rep.corpCode, rep.bsnsYear)
    else if key == SHARES_OUTSTANDING then MarketShares(market, rep.corpCode, rep.bsnsYear)
    else None
  }

  function ResolvedFor(mapped: seq<MappedRow>, rules: seq<Rule>, market: seq<MarketRow>, rep: ReportKey, keys: seq<StdKey>): seq<ValueRow> {
    if keys == [] then []
    else [ValueRow(rep, keys[0], ResolvedValue(mapped, rules, market, rep, keys[0]))] + ResolvedFor(mapped, rules, market, rep, keys[1..])
  }

  function ResolvedAll(mapped: seq<MappedRow>, rules: seq<Rule>, market: seq<MarketRow>, reps: seq<ReportKey>, keys: seq<StdKey>): seq<ValueRow> {
    if reps == [] then []
    else ResolvedFor(mapped, rules, market, reps[0], keys) + ResolvedAll(mapped, rules, market, reps[1..], keys)
  }

  /** v_value_resolved: base_reports × req, with the resolved value. */
  function ValueResolved(mapped: seq<MappedRow>, rules: seq<Rule>, market: seq<MarketRow>, reqs: seq<RatioReq>): seq<ValueRow> {
    ResolvedAll(mapped, rules, market, BaseReports(mapped), ReqKeys(reqs))
  }

  lemma {:induction false} ResolvedForSpec(mapped: seq<MappedRow>, rules: seq<Rule>, market: seq<MarketRow>, rep: ReportKey, keys: seq<StdKey>)
    ensures forall v :: v in ResolvedFor(mapped, rules, market, rep, keys) <==>
      v.report == rep && v.stdKey in keys && v.valueWon == ResolvedValue(mapped, rules, market, rep, v.stdKey)
  {
    if keys != [] {
      ResolvedForSpec(mapped, rules, market, rep, keys[1..]);
      assert keys == [keys[0]] + keys[1..];
    }
  }

  lemma {:induction false} ResolvedAllSpec(mapped: seq<MappedRow>, rules: seq<Rule>, market: seq<MarketRow>, reps: seq<ReportKey>, keys: seq<StdKey>)
    ensures forall v :: v in ResolvedAll(mapped, rules, market, reps, keys) <==>
      v.report in reps && v.stdKey in keys && v.valueWon == ResolvedValue(mapped, rules, market, v.report, v.stdKey)
  {
    if reps != [] {
      ResolvedAllSpec(mapped, rules, market, reps[1..], keys);
      ResolvedForSpec(mapped, rules, market, reps[0], keys);
      assert reps == [reps[0]] + reps[1..];
    }
  }

  /** Every (report, requirement key) pair has a row, even when its value is
      NULL, and every row is such a pair with its resolved value. */
  lemma ValueResolvedGrid(mapped: seq<MappedRow>, rules: seq<Rule>, market: seq<MarketRow>, reqs: seq<RatioReq>)
    ensures forall v :: v in ValueResolved(mapped, rules, market, reqs) <==>
      (exists m :: m in mapped && ReportOf(m) == v.report) && v.stdKey in ReqKeys(reqs) &&
      v.valueWon == ResolvedValue(mapped, rules, market, v.report, v.stdKey)
  {
    ResolvedAllSpec(mapped, rules, market, BaseReports(mapped), ReqKeys(reqs));
    DistinctSpec(MapSeq(mapped, ReportOf));
    forall rep ensures rep in MapSeq(mapped, ReportOf) <==> exists m :: m in mapped && ReportOf(m) == rep {
      if rep in MapSeq(mapped, ReportOf) {
        var q :| 0 <= q < |mapped| && MapSeq(mapped, ReportOf)[q] == rep;
        assert mapped[q] in mapped;
      }
      if exists m :: m in mapped && ReportOf(m) == rep {
        var m :| m in mapped && ReportOf(m) == rep;
        var q :| 0 <= q < |mapped| && mapped[q] == m;
        assert MapSeq(mapped, ReportOf)[q] == rep;
      }
    }
  }

  /** The strict rule: agreeing candidates give their value; no candidate or
      two distinct ones give NULL, except that STOCK_PRICE and
      SHARES_OUTSTANDING then take the market snapshot. */
  lemma ResolvedValueSpec(mapped: seq<MappedRow>, rules: seq<Rule>, market: seq<MarketRow>, rep: ReportKey, key: StdKey)
    ensures var c := Candidates(mapped, rules, rep, key);
      (c != [] && forall i :: 0 <= i < |c| ==> c[i] == c[0]) ==> ResolvedValue(mapped, rules, market, rep, key) == Some(c[0])
    ensures var c := Candidates(mapped, rules, rep, key);
      !(c != [] && forall i :: 0 <= i < |c| ==> c[i] == c[0]) ==>
        ResolvedValue(mapped, rules, market, rep, key) ==
          (if key == STOCK_PRICE then MarketPrice(market, rep.corpCode, rep.bsnsYear)
           else if key == SHARES_OUTSTANDING then MarketShares(market, rep.corpCode, rep.bsnsYear)
           else None)
  {
    StrictValueSpec(Candidates(mapped, rules, rep, key));
  }

  /** A key no rule carries has no candidate; so without a DEPRECIATION rule
      (as with the rules built from ACCOUNT_MAP) DEPRECIATION is always NULL. */
  lemma UnruledKeyIsNull(mapped: seq<MappedRow>, rules: seq<Rule>, market: seq<MarketRow>, rep: ReportKey, key: StdKey)
    requires key != STOCK_PRICE && key != SHARES_OUTSTANDING
    requires forall r :: r in rules ==> r.stdKey != key
    ensures Candidates(mapped, rules, rep, key) == []
    ensures ResolvedValue(mapped, rules, market, rep, key) == None
  {
    WhereNone(mapped, (m: MappedRow) => IsCandidate(m, rules, rep, key));
  }

  lemma DepreciationIsNull(mapped: seq<MappedRow>, market: seq<MarketRow>, rep: ReportKey)
    ensures ResolvedValue(mapped, AccountMapRules(ACCOUNT_MAP), market, rep, DEPRECIATION) == None
  {
    NoDepreciationRule();
    UnruledKeyIsNull(mapped, AccountMapRules(ACCOUNT_MAP), market, rep, DEPRECIATION);
  }

  /** The MAX FILTER of v_value_augmented's base CTE never sees a NULL row
      where the view has a value: every row for a (report, key) pair carries
      the same value. */
  lemma ValueResolvedConsistent(mapped: seq<MappedRow>, rules: seq<Rule>, market: seq<MarketRow>, reqs: seq<RatioReq>, a: ValueRow, b: ValueRow)
    requires a in ValueResolved(mapped, rules, market, reqs) && b in ValueResolved(mapped, rules, market, reqs)
    requires a.report == b.report && a.stdKey == b.stdKey
    ensures a == b
  {
    ValueResolvedGrid(mapped, rules, market, reqs);
  }
}
