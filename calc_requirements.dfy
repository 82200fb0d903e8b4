/** The ratio_requirements table of create_ratio_requirements (src/calc.py):
    which standard keys feed each ratio and in which role. */
module CalcRequirements {
  import opened CalcKeys

  /** A ratio_requirements row (ratio_ko and note are not kept). */
  datatype RatioReq = RatioReq(ratioKey: RatioKey, itemKey: StdKey, role: Role, required: bool)

  /** The 42 rows inserted by create_ratio_requirements, in insertion order. */
  const RATIO_REQUIREMENTS: seq<RatioReq> := [
    RatioReq(current_ratio, CURRENT_ASSETS, Numerator, true),
    RatioReq(current_ratio, CURRENT_LIABILITIES, Denominator, true),

    RatioReq(quick_ratio, CURRENT_ASSETS, Numerator, true),
    RatioReq(quick_ratio, INVENTORIES, Subtract, false),
    RatioReq(quick_ratio, CURRENT_LIABILITIES, Denominator, true),

    RatioReq(cash_ratio, CASH_EQ, Numerator, true),
    RatioReq(cash_ratio, CURRENT_LIABILITIES, Denominator, true),

    RatioReq(long_term_debt_ratio, NON_CURRENT_LIABILITIES, Numerator, true),
    RatioReq(long_term_debt_ratio, TOTAL_ASSETS, Denominator, true),

    RatioReq(total_debt_ratio, TOTAL_LIABILITIES, Numerator, true),
    RatioReq(total_debt_ratio, TOTAL_ASSETS, Denominator, true),

    RatioReq(interest_coverage, OP_PROFIT, Numerator, true),
    RatioReq(interest_coverage, INTEREST_EXP, Denominator, true),

    RatioReq(cash_coverage_ocf, OCF, Numerator, true),
    RatioReq(cash_coverage_ocf, INTEREST_EXP, Denominator, true),

    RatioReq(cash_coverage_op_dep, OP_PROFIT, Numerator, true),
    RatioReq(cash_coverage_op_dep, DEPRECIATION, Add, false),
    RatioReq(cash_coverage_op_dep, INTEREST_EXP, Denominator, true),

    RatioReq(asset_turnover, REVENUE, Numerator, true),
    RatioReq(asset_turnover, TOTAL_ASSETS, Denominator, true),

    RatioReq(inventory_turnover, COGS, Numerator, true),
    RatioReq(inventory_turnover, INVENTORIES, Denominator, true),

    RatioReq(ar_turnover, REVENUE, Numerator, true),
    RatioReq(ar_turnover, AR, Denominator, true),

    RatioReq(roe, NET_INCOME, Numerator, true),
    RatioReq(roe, EQUITY, Denominator, true),

    RatioReq(roa, NET_INCOME, Numerator, true),
    RatioReq(roa, TOTAL_ASSETS, Denominator, true),

    RatioReq(roc, NOPAT, Numerator, true),
    RatioReq(roc, INVESTED_CAPITAL, Denominator, true),

    RatioReq(per, STOCK_PRICE, Numerator, true),
    RatioReq(per, EPS, Denominator, true),

    RatioReq(pbr, STOCK_PRICE, Numerator, true),
    RatioReq(pbr, BPS, Denominator, true),

    RatioReq(psr, STOCK_PRICE, Numerator, true),
    RatioReq(psr, SPS, Denominator, true),

    RatioReq(pcfr, STOCK_PRICE, Numerator, true),
    RatioReq(pcfr, CFPS, Denominator, true),

    RatioReq(net_margin, NET_INCOME, Numerator, true),
    RatioReq(net_margin, REVENUE, Denominator, true),

    RatioReq(fin_leverage, TOTAL_ASSETS, Numerator, true),
    RatioReq(fin_leverage, EQUITY, Denominator, true)
  ]

  /** No requirement asks for LONG_TERM_DEBT (long_term_debt_ratio uses
      NON_CURRENT_LIABILITIES). */
  lemma NoLongTermDebtRequirement()
    ensures forall i :: 0 <= i < |RATIO_REQUIREMENTS| ==> RATIO_REQUIREMENTS[i].itemKey != LONG_TERM_DEBT
  {
  }

  /** Row 30 (per) needs STOCK_PRICE and row 16 (cash_coverage_op_dep) DEPRECIATION. */
  lemma ShippedStockPriceAndDepreciation()
    ensures |RATIO_REQUIREMENTS| == 42
    ensures RATIO_REQUIREMENTS[30].itemKey == STOCK_PRICE && RATIO_REQUIREMENTS[16].itemKey == DEPRECIATION
  {
  }

  /** Only two requirements are optional: INVENTORIES subtracted in
      quick_ratio and DEPRECIATION added in cash_coverage_op_dep. */
  lemma OptionalRequirements()
    ensures forall i :: 0 <= i < |RATIO_REQUIREMENTS| && !RATIO_REQUIREMENTS[i].required ==>
      (RATIO_REQUIREMENTS[i].ratioKey == quick_ratio && RATIO_REQUIREMENTS[i].itemKey == INVENTORIES && RATIO_REQUIREMENTS[i].role == Subtract) ||
      (RATIO_REQUIREMENTS[i].ratioKey == cash_coverage_op_dep && RATIO_REQUIREMENTS[i].itemKey == DEPRECIATION && RATIO_REQUIREMENTS[i].role == Add)
  {
  }
}
