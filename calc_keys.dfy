/** The closed vocabularies of the calculation engine: statement types, the
    standard account keys, the ratio keys and the metric types. The SQL
    stores each of them as a VARCHAR; here each is an enumeration whose
    constructor is spelled as the stored string. */
module CalcKeys {

  /** fs_line_items.statement_type / account_map_rules.scope. */
  datatype StatementType = BS | IS_CIS | CF | CE | FS

  /** Position of the code in string order ("BS" < "CE" < "CF" < "FS" < "IS_CIS"),
      which is what `MIN(scope)` compares. */
  function ScopeRank(s: StatementType): (n: nat)
    ensures n < 5
  {
    match s
    case BS => 0
    case CE => 1
    case CF => 2
    case FS => 3
    case IS_CIS => 4
  }

  lemma ScopeRankInjective(a: StatementType, b: StatementType)
    requires ScopeRank(a) == ScopeRank(b)
    ensures a == b
  {
  }

  /** Standard account keys (std_key / item_key). The first 36 are the
      ACCOUNT_MAP keys; the rest are market inputs and derived values. */
  datatype StdKey =
    | TOTAL_ASSETS | CURRENT_ASSETS | CASH_EQ | AR | INVENTORIES | NON_CURRENT_ASSETS | PPE | IA
    | TOTAL_LIABILITIES | CURRENT_LIABILITIES | AP | SHORT_TERM_DEBT | NON_CURRENT_LIABILITIES
    | LONG_TERM_DEBT | DEFERRED_TAX_LIAB
    | EQUITY | PARENT_EQUITY | CAPITAL_STOCK | RETAINED_EARNINGS | NON_CONTROLLING_INTEREST
    | REVENUE | COGS | GROSS_PROFIT | OP_PROFIT | INTEREST_EXP | PRE_TAX_INCOME | TAX_EXP
    | NET_INCOME | SGA_EXPENSES
    | OCF | ICF | FCF_FIN | PURCHASE_PPE | PURCHASE_INTANGIBLES | PURCHASE_LT_FIN_ASSETS
    | DISPOSAL_LT_FIN_ASSETS
    | SHARES_OUTSTANDING | STOCK_PRICE | DEPRECIATION
    | TAX_RATE | NOPAT | INVESTED_CAPITAL | EPS | BPS | SPS | CFPS

  /** The seven keys v_value_augmented derives (and v_value_resolved skips). */
  predicate IsDerivedKey(k: StdKey) {
    k == TAX_RATE || k == NOPAT || k == INVESTED_CAPITAL || k == EPS || k == BPS || k == SPS || k == CFPS
  }

  /** ratio_requirements.ratio_key. */
  datatype RatioKey =
    | current_ratio | quick_ratio | cash_ratio | long_term_debt_ratio | total_debt_ratio
    | interest_coverage | cash_coverage_ocf | cash_coverage_op_dep
    | asset_turnover | inventory_turnover | ar_turnover
    | roe | roa | roc | per | pbr | psr | pcfr | net_margin | fin_leverage

  /** ratio_requirements.role. */
  datatype Role = Numerator | Denominator | Add | Subtract

  /** metric_catalog.metric_type. */
  datatype MetricType = Raw | Ratio | Derived | Market

  /** A metric_key: an account key, a ratio key, or any other requested
      string, which no view produces. Unknown stands for a name that is
      neither an account nor a ratio key; the type does not rule out an
      Unknown carrying such a name, and the model never builds one. */
  datatype MetricKey = Item(std: StdKey) | RatioMetric(ratio: RatioKey) | Unknown(name: string)
}
