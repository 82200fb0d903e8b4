/** Label normalisation and the EXACT account-map rules built from
    ACCOUNT_MAP (norm_label, ACCOUNT_MAP, build_account_map_rules in
    src/calc.py). */
module CalcRules {
  import opened Common
  import opened CalcKeys

  // ---------------------------------------------------------------
  // Label normalisation
  // ---------------------------------------------------------------

  /** The punctuation of the class `[\s.,\-()/\[\]·•:;]` other than `\s`. */
  predicate IsLabelPunct(c: char) {
    c == '.' || c == ',' || c == '-' || c == '(' || c == ')' || c == '/'
    || c == '[' || c == ']' || c == '·' || c == '•' || c == ':' || c == ';'
  }

  /** A character norm_label deletes (Python's `\s` is Unicode whitespace). */
  predicate IsLabelNoise(c: char) { IsSpace(c) || IsLabelPunct(c) }

  /** norm_label: lower-case, then delete every character of the class
      (re.sub of the runs with ""). Lower-casing never turns a character into
      or out of the class, so both steps are done character by character. */
  function NormLabel(s: string): string {
    if s == [] then [] else (if IsLabelNoise(s[0]) then [] else [LowerChar(s[0])]) + NormLabel(s[1..])
  }

  /** A label with no upper-case letter and no deleted character. */
  predicate CleanLabel(s: string) {
    forall k :: 0 <= k < |s| ==> !IsUpper(s[k]) && !IsLabelNoise(s[k])
  }

  /** norm_label's output has no upper-case letter and none of the deleted characters. */
  lemma {:induction false} NormLabelClean(s: string)
    ensures CleanLabel(NormLabel(s))
  {
    if s != [] {
      NormLabelClean(s[1..]);
      var h := if IsLabelNoise(s[0]) then [] else [LowerChar(s[0])];
      assert NormLabel(s) == h + NormLabel(s[1..]);
    }
  }

  /** A clean label is its own normal form. */
  lemma {:induction false} NormLabelOfClean(s: string)
    requires CleanLabel(s)
    ensures NormLabel(s) == s
  {
    if s != [] {
      NormLabelOfClean(s[1..]);
      assert s == [s[0]] + s[1..];
    }
  }

  /** norm_label is idempotent. */
  lemma NormLabelIdempotent(s: string)
    ensures NormLabel(NormLabel(s)) == NormLabel(s)
  {
    NormLabelClean(s);
    NormLabelOfClean(NormLabel(s));
  }

  lemma {:induction false} NormLabelAppend(a: string, b: string)
    ensures NormLabel(a + b) == NormLabel(a) + NormLabel(b)
  {
    if a != [] {
      assert (a + b)[1..] == a[1..] + b;
      NormLabelAppend(a[1..], b);
    } else {
      assert a + b == b;
    }
  }

  /** Inserting a space or one of the punctuation characters anywhere does not
      change the pattern; this is why "현금 및 현금성자산" and "현금및현금성자산"
      collapse to one CASH_EQ rule. */
  lemma NormLabelIgnoresNoise(a: string, c: char, b: string)
    requires IsLabelNoise(c)
    ensures NormLabel(a + [c] + b) == NormLabel(a + b)
  {
    NormLabelAppend(a + [c], b);
    NormLabelAppend(a, [c]);
    NormLabelAppend(a, b);
    assert NormLabel([c]) == [] + NormLabel([]);
  }

  /** A kept character is lower-cased in place, so labels that differ in a
      kept character other than by case stay apart. */
  lemma NormLabelKeeps(a: string, c: char, b: string)
    requires !IsLabelNoise(c)
    ensures NormLabel(a + [c] + b) == NormLabel(a) + [LowerChar(c)] + NormLabel(b)
  {
    NormLabelAppend(a + [c], b);
    NormLabelAppend(a, [c]);
    assert NormLabel([c]) == [LowerChar(c)] + NormLabel([]);
  }

  /** RE2's `\s`, which DuckDB's regexp_replace uses: ASCII whitespace only. */
  predicate IsRe2Space(c: char) { c == ' ' || c == '\t' || c == '\n' || c == '\U{000C}' || c == '\r' }

  predicate IsSqlLabelNoise(c: char) { IsRe2Space(c) || IsLabelPunct(c) }

  /** The SQL side in v_fin_long_mapped:
      `lower(regexp_replace(label_clean, '[\s.,\-()/\[\]·•:;]+', '', 'g'))`. */
  function SqlNormLabel(s: string): string {
    if s == [] then [] else (if IsSqlLabelNoise(s[0]) then [] else [LowerChar(s[0])]) + SqlNormLabel(s[1..])
  }

  /** Whitespace that Python's `\s` matches but RE2's does not. */
  predicate IsWideSpace(c: char) { IsSpace(c) && !IsRe2Space(c) }

  /** The SQL normalisation agrees with norm_label on every label free of the
      non-ASCII whitespace (such as U+00A0) that only Python's `\s` removes. */
  lemma {:induction false} SqlNormLabelAgrees(s: string)
    requires forall k :: 0 <= k < |s| ==> !IsWideSpace(s[k])
    ensures SqlNormLabel(s) == NormLabel(s)
  {
    if s != [] {
      SqlNormLabelAgrees(s[1..]);
    }
  }

  lemma {:induction false} SqlNormLabelAppend(a: string, b: string)
    ensures SqlNormLabel(a + b) == SqlNormLabel(a) + SqlNormLabel(b)
  {
    if a != [] {
      assert (a + b)[1..] == a[1..] + b;
      SqlNormLabelAppend(a[1..], b);
    } else {
      assert a + b == b;
    }
  }

  /** Where they differ: a non-breaking space survives the SQL side but not norm_label. */
  lemma SqlNormLabelKeepsNbsp(a: string, b: string)
    ensures SqlNormLabel(a + [NBSP] + b) == SqlNormLabel(a) + [NBSP] + SqlNormLabel(b)
    ensures NormLabel(a + [NBSP] + b) == NormLabel(a + b)
  {
    SqlNormLabelAppend(a + [NBSP], b);
    SqlNormLabelAppend(a, [NBSP]);
    SqlNormLabelNbsp();
    NormLabelIgnoresNoise(a, NBSP, b);
  }

  lemma SqlNormLabelNbsp()
    ensures SqlNormLabel([NBSP]) == [NBSP]
  {
    assert !IsSqlLabelNoise(NBSP) && LowerChar(NBSP) == NBSP;
    assert [NBSP][1..] == [];
  }

  // ---------------------------------------------------------------
  // ACCOUNT_MAP and the rules table
  // ---------------------------------------------------------------

  /** One ACCOUNT_MAP entry: (scope, std_key, aliases). */
  datatype AccountEntry = AccountEntry(scope: StatementType, key: StdKey, aliases: seq<string>)

  const ACCOUNT_MAP: seq<AccountEntry> := [
    AccountEntry(BS, TOTAL_ASSETS, ["자산총계"]),
    AccountEntry(BS, CURRENT_ASSETS, ["유동자산"]),
    AccountEntry(BS, CASH_EQ, ["현금및현금성자산", "현금 및 현금성자산", "현금및예치금"]),
    AccountEntry(BS, AR, ["매출채권"]),
    AccountEntry(BS, INVENTORIES, ["재고자산"]),
    AccountEntry(BS, NON_CURRENT_ASSETS, ["비유동자산"]),
    AccountEntry(BS, PPE, ["유형자산"]),
    AccountEntry(BS, IA, ["무형자산"]),
    AccountEntry(BS, TOTAL_LIABILITIES, ["부채총계"]),
    AccountEntry(BS, CURRENT_LIABILITIES, ["유동부채"]),
    AccountEntry(BS, AP, ["매입채무"]),
    AccountEntry(BS, SHORT_TERM_DEBT, ["단기차입금"]),
    AccountEntry(BS, NON_CURRENT_LIABILITIES, ["비유동부채", "장기부채"]),
    AccountEntry(BS, LONG_TERM_DEBT, ["장기차입금"]),
    AccountEntry(BS, DEFERRED_TAX_LIAB, ["이연법인세부채"]),
    AccountEntry(BS, EQUITY, ["자본총계", "자기자본"]),
    AccountEntry(BS, PARENT_EQUITY, ["지배기업 소유주지분", "지배기업의 소유주에게 귀속되는 자본"]),
    AccountEntry(BS, CAPITAL_STOCK, ["자본금"]),
    AccountEntry(BS, RETAINED_EARNINGS, ["이익잉여금"]),
    AccountEntry(BS, NON_CONTROLLING_INTEREST, ["비지배지분"]),
    AccountEntry(IS_CIS, REVENUE, ["매출액", "영업수익"]),
    AccountEntry(IS_CIS, COGS, ["매출원가"]),
    AccountEntry(IS_CIS, GROSS_PROFIT, ["매출총이익"]),
    AccountEntry(IS_CIS, OP_PROFIT, ["영업이익", "영업이익(손실)"]),
    AccountEntry(IS_CIS, INTEREST_EXP, ["이자비용", "금융비용"]),
    AccountEntry(IS_CIS, PRE_TAX_INCOME, ["법인세비용차감전순이익", "법인세비용차감전순이익(손실)"]),
    AccountEntry(IS_CIS, TAX_EXP, ["법인세비용", "법인세비용(수익)", "법인세수익(비용)"]),
    AccountEntry(IS_CIS, NET_INCOME, ["당기순이익", "당기순이익(손실)", "당기순이익(손실)(A)"]),
    AccountEntry(IS_CIS, SGA_EXPENSES, ["판매비와관리비", "판관비"]),
    AccountEntry(CF, OCF, ["영업활동으로 인한 현금흐름", "영업활동현금흐름", "영업활동으로부터의 현금흐름"]),
    AccountEntry(CF, ICF, ["투자활동으로 인한 현금흐름", "투자활동현금흐름"]),
    AccountEntry(CF, FCF_FIN, ["재무활동으로 인한 현금흐름", "재무활동현금흐름"]),
    AccountEntry(CF, PURCHASE_PPE, ["유형자산의 취득"]),
    AccountEntry(CF, PURCHASE_INTANGIBLES, ["무형자산의 취득"]),
    AccountEntry(CF, PURCHASE_LT_FIN_ASSETS, ["장기금융상품의 취득"]),
    AccountEntry(CF, DISPOSAL_LT_FIN_ASSETS, ["장기금융상품의 처분"])
  ]

  /** No ACCOUNT_MAP entry is for DEPRECIATION. */
  lemma NoDepreciationEntry()
    ensures forall i :: 0 <= i < |ACCOUNT_MAP| ==> ACCOUNT_MAP[i].key != DEPRECIATION
  {
  }

  datatype MatchType = EXACT | REGEX | LIKE

  /** priority_by_type. */
  function PriorityOf(t: MatchType): int {
    match t
    case EXACT => 10
    case REGEX => 20
    case LIKE => 30
  }

  /** One account_map_rules row (note is always NULL and is not kept). */
  datatype Rule = Rule(
    scope: StatementType, stdKey: StdKey, matchType: MatchType,
    pattern: string, patternRaw: string, priority: int,
    minIndent: Option<int>, maxIndent: Option<int>, isActive: bool)

  /** The table's primary key (scope, std_key, match_type, pattern). */
  datatype RuleKey = RuleKey(scope: StatementType, stdKey: StdKey, matchType: MatchType, pattern: string)

  function KeyOf(r: Rule): RuleKey { RuleKey(r.scope, r.stdKey, r.matchType, r.pattern) }

  /** The row built for one alias. */
  function AliasRule(scope: StatementType, key: StdKey, alias: string): Rule {
    Rule(scope, key, EXACT, NormLabel(alias), alias, PriorityOf(EXACT), None, None, true)
  }

  /** The rows for the first aliases of one entry. */
  function EntryRules(e: AccountEntry, aliases: seq<string>): (r: seq<Rule>)
    ensures |r| == |aliases|
  {
    if aliases == [] then []
    else EntryRules(e, aliases[..|aliases| - 1]) + [AliasRule(e.scope, e.key, aliases[|aliases| - 1])]
  }

  /** `rows` before deduplication: one rule per alias, entries and aliases in order. */
  function AliasRules(entries: seq<AccountEntry>): seq<Rule> {
    if entries == [] then []
    else
      var e := entries[|entries| - 1];
      AliasRules(entries[..|entries| - 1]) + EntryRules(e, e.aliases)
  }

  predicate HasKey(rows: seq<Rule>, k: RuleKey) {
    exists j :: 0 <= j < |rows| && KeyOf(rows[j]) == k
  }

  lemma HasKeyAppend(rows: seq<Rule>, r: Rule)
    ensures forall k :: HasKey(rows + [r], k) <==> HasKey(rows, k) || k == KeyOf(r)
  {
    forall k ensures HasKey(rows + [r], k) <==> HasKey(rows, k) || k == KeyOf(r) {
      if HasKey(rows, k) {
        var q :| 0 <= q < |rows| && KeyOf(rows[q]) == k;
        assert (rows + [r])[q] == rows[q];
      }
      if HasKey(rows + [r], k) {
        var q :| 0 <= q < |rows + [r]| && KeyOf((rows + [r])[q]) == k;
        if q < |rows| { assert (rows + [r])[q] == rows[q]; }
      }
      assert (rows + [r])[|rows|] == r;
    }
  }

  /** The dict `dedup` in insertion order: the first row of each key. */
  function DedupRules(rows: seq<Rule>): seq<Rule> {
    if rows == [] then []
    else
      var d := DedupRules(rows[..|rows| - 1]);
      if HasKey(d, KeyOf(rows[|rows| - 1])) then d else d + [rows[|rows| - 1]]
  }

  /** The contents of account_map_rules after build_account_map_rules runs
      over the alias list `entries` (ACCOUNT_MAP in the pipeline). */
  function AccountMapRules(entries: seq<AccountEntry>): seq<Rule> {
    DedupRules(AliasRules(entries))
  }

  /** Position of the first row with key k. */
  function FirstWithKey(rows: seq<Rule>, k: RuleKey): (i: nat)
    requires HasKey(rows, k)
    ensures i < |rows| && KeyOf(rows[i]) == k
    ensures forall j :: 0 <= j < i ==> KeyOf(rows[j]) != k
  {
    if KeyOf(rows[0]) == k then 0
    else
      assert HasKey(rows[1..], k) by {
        var j :| 0 <= j < |rows| && KeyOf(rows[j]) == k;
        assert KeyOf(rows[1..][j - 1]) == k;
      }
      1 + FirstWithKey(rows[1..], k)
  }

  lemma {:induction false} FirstWithKeyPrefix(rows: seq<Rule>, n: nat, k: RuleKey)
    requires n <= |rows| && HasKey(rows[..n], k)
    ensures HasKey(rows, k) && FirstWithKey(rows, k) == FirstWithKey(rows[..n], k)
  {
    var i := FirstWithKey(rows[..n], k);
    assert KeyOf(rows[i]) == k;
    var f := FirstWithKey(rows, k);
    assert f <= i;
  }

  /** A deduplicated table holds each key at most once. */
  lemma {:induction false} DedupRulesUnique(rows: seq<Rule>)
    ensures forall i, j :: 0 <= i < j < |DedupRules(rows)| ==> KeyOf(DedupRules(rows)[i]) != KeyOf(DedupRules(rows)[j])
  {
    if rows != [] {
      var n := |rows| - 1;
      DedupRulesUnique(rows[..n]);
      var d := DedupRules(rows[..n]);
      if !HasKey(d, KeyOf(rows[n])) {
        var r := d + [rows[n]];
        forall i, j | 0 <= i < j < |r| ensures KeyOf(r[i]) != KeyOf(r[j]) {
          if j == |d| {
            assert r[i] == d[i];
          }
        }
      }
    }
  }

  /** Each kept rule is the first input row with its key. */
  lemma {:induction false} DedupRulesFirst(rows: seq<Rule>)
    ensures forall i :: 0 <= i < |DedupRules(rows)| ==>
      HasKey(rows, KeyOf(DedupRules(rows)[i])) &&
      DedupRules(rows)[i] == rows[FirstWithKey(rows, KeyOf(DedupRules(rows)[i]))]
  {
    if rows != [] {
      var n := |rows| - 1;
      var init := rows[..n];
      DedupRulesFirst(init);
      DedupRulesCover(init);
      var d := DedupRules(init);
      var r := DedupRules(rows);
      forall i | 0 <= i < |r|
        ensures HasKey(rows, KeyOf(r[i])) && r[i] == rows[FirstWithKey(rows, KeyOf(r[i]))]
      {
        if i < |d| {
          assert r[i] == d[i];
          FirstWithKeyPrefix(rows, n, KeyOf(d[i]));
        } else {
          forall j | 0 <= j < n ensures HasKey(d, KeyOf(rows[j])) {
            assert init[j] == rows[j];
          }
          LastIsFirst(rows, d);
        }
      }
    }
  }

  /** A last row whose key the prefix's dedup lacks is the first row with that key. */
  lemma LastIsFirst(rows: seq<Rule>, d: seq<Rule>)
    requires rows != [] && d == DedupRules(rows[..|rows| - 1])
    requires forall j :: 0 <= j < |rows| - 1 ==> HasKey(d, KeyOf(rows[j]))
    requires !HasKey(d, KeyOf(rows[|rows| - 1]))
    ensures HasKey(rows, KeyOf(rows[|rows| - 1]))
    ensures FirstWithKey(rows, KeyOf(rows[|rows| - 1])) == |rows| - 1
  {
    var n := |rows| - 1;
    assert KeyOf(rows[n]) == KeyOf(rows[n]);
    var f := FirstWithKey(rows, KeyOf(rows[n]));
    forall j | 0 <= j < n ensures KeyOf(rows[j]) != KeyOf(rows[n]) {
    }
  }

  /** Every input key survives deduplication. */
  lemma {:induction false} DedupRulesCover(rows: seq<Rule>)
    ensures forall j :: 0 <= j < |rows| ==> HasKey(DedupRules(rows), KeyOf(rows[j]))
  {
    if rows != [] {
      var n := |rows| - 1;
      var init := rows[..n];
      DedupRulesCover(init);
      var d := DedupRules(init);
      var r := DedupRules(rows);
      forall j | 0 <= j < |rows| ensures HasKey(r, KeyOf(rows[j])) {
        if j < n {
          assert KeyOf(init[j]) == KeyOf(rows[j]);
          var q :| 0 <= q < |d| && KeyOf(d[q]) == KeyOf(rows[j]);
          assert KeyOf(r[q]) == KeyOf(rows[j]);
        } else if !HasKey(d, KeyOf(rows[n])) {
          assert KeyOf(r[|d|]) == KeyOf(rows[j]);
        }
      }
    }
  }

  /** Every alias rule is an active EXACT rule of priority 10 for an entry's scope and key. */
  lemma {:induction false} AliasRulesShape(entries: seq<AccountEntry>)
    ensures forall r :: r in AliasRules(entries) ==>
      r.matchType == EXACT && r.priority == 10 && r.isActive &&
      r.minIndent == None && r.maxIndent == None &&
      exists i :: 0 <= i < |entries| && entries[i].scope == r.scope && entries[i].key == r.stdKey
  {
    if entries != [] {
      var n := |entries| - 1;
      var e := entries[n];
      AliasRulesShape(entries[..n]);
      EntryRulesShape(e, e.aliases);
      forall r | r in AliasRules(entries)
        ensures exists i :: 0 <= i < |entries| && entries[i].scope == r.scope && entries[i].key == r.stdKey
      {
        if r in AliasRules(entries[..n]) {
          var i :| 0 <= i < n && entries[..n][i].scope == r.scope && entries[..n][i].key == r.stdKey;
          assert entries[i] == entries[..n][i];
        } else {
          assert entries[n].scope == r.scope && entries[n].key == r.stdKey;
        }
      }
    }
  }

  lemma {:induction false} EntryRulesShape(e: AccountEntry, aliases: seq<string>)
    ensures forall r :: r in EntryRules(e, aliases) ==>
      r.matchType == EXACT && r.priority == 10 && r.isActive &&
      r.minIndent == None && r.maxIndent == None && r.scope == e.scope && r.stdKey == e.key
  {
    if aliases != [] {
      EntryRulesShape(e, aliases[..|aliases| - 1]);
    }
  }

  /** Every alias has a rule: (scope, key, EXACT, norm_label(alias)). */
  lemma {:induction false} AliasRulesCover(entries: seq<AccountEntry>, i: nat, a: nat)
    requires i < |entries| && a < |entries[i].aliases|
    ensures AliasRule(entries[i].scope, entries[i].key, entries[i].aliases[a]) in AliasRules(entries)
  {
    var n := |entries| - 1;
    if i < n {
      AliasRulesCover(entries[..n], i, a);
    } else {
      EntryRulesCover(entries[n], entries[n].aliases, a);
    }
  }

  lemma {:induction false} EntryRulesCover(e: AccountEntry, aliases: seq<string>, a: nat)
    requires a < |aliases|
    ensures AliasRule(e.scope, e.key, aliases[a]) in EntryRules(e, aliases)
  {
    var n := |aliases| - 1;
    if a < n {
      EntryRulesCover(e, aliases[..n], a);
    }
  }

  lemma {:induction false} DedupRulesSubset(rows: seq<Rule>)
    ensures forall r :: r in DedupRules(rows) ==> r in rows
  {
    DedupRulesFirst(rows);
    forall r | r in DedupRules(rows) ensures r in rows {
      var i :| 0 <= i < |DedupRules(rows)| && DedupRules(rows)[i] == r;
    }
  }

  /** Every rule of the built table is an active EXACT rule of priority 10
      without indent bounds, for the scope and key of some entry. */
  lemma AccountMapRulesShape(entries: seq<AccountEntry>)
    ensures forall r :: r in AccountMapRules(entries) ==>
      r.matchType == EXACT && r.priority == 10 && r.isActive &&
      r.minIndent == None && r.maxIndent == None &&
      exists i :: 0 <= i < |entries| && entries[i].scope == r.scope && entries[i].key == r.stdKey
  {
    DedupRulesSubset(AliasRules(entries));
    AliasRulesShape(entries);
  }

  /** ACCOUNT_MAP gives no rule for DEPRECIATION, so no fact row is ever tagged with it. */
  lemma NoDepreciationRule()
    ensures forall r :: r in AccountMapRules(ACCOUNT_MAP) ==> r.stdKey != DEPRECIATION
  {
    AccountMapRulesShape(ACCOUNT_MAP);
    NoDepreciationEntry();
  }

  /** At most one rule per primary key, each the first alias with that key in
      list order; no alias loses its key. */
  lemma AccountMapRulesUnique(entries: seq<AccountEntry>)
    ensures forall i, j :: 0 <= i < j < |AccountMapRules(entries)| ==> KeyOf(AccountMapRules(entries)[i]) != KeyOf(AccountMapRules(entries)[j])
    ensures forall i :: 0 <= i < |AccountMapRules(entries)| ==>
      HasKey(AliasRules(entries), KeyOf(AccountMapRules(entries)[i])) &&
      AccountMapRules(entries)[i] == AliasRules(entries)[FirstWithKey(AliasRules(entries), KeyOf(AccountMapRules(entries)[i]))]
    ensures forall i, a :: 0 <= i < |entries| && 0 <= a < |entries[i].aliases| ==>
      HasKey(AccountMapRules(entries), KeyOf(AliasRule(entries[i].scope, entries[i].key, entries[i].aliases[a])))
  {
    var rows := AliasRules(entries);
    DedupRulesUnique(rows);
    DedupRulesFirst(rows);
    DedupRulesCover(rows);
    forall i, a | 0 <= i < |entries| && 0 <= a < |entries[i].aliases|
      ensures HasKey(AccountMapRules(entries), KeyOf(AliasRule(entries[i].scope, entries[i].key, entries[i].aliases[a])))
    {
      AliasRulesCover(entries, i, a);
      var r := AliasRule(entries[i].scope, entries[i].key, entries[i].aliases[a]);
      var j :| 0 <= j < |rows| && rows[j] == r;
    }
  }

  /** The nested loop of build_account_map_rules: one row per alias,
      entries and aliases in order. */
  method CollectAliasRules(entries: seq<AccountEntry>) returns (rows: seq<Rule>)
    ensures rows == AliasRules(entries)
  {
    rows := [];
    var i := 0;
    while i < |entries|
      invariant 0 <= i <= |entries|
      invariant rows == AliasRules(entries[..i])
    {
      var e := entries[i];
      var j := 0;
      while j < |e.aliases|
        invariant 0 <= j <= |e.aliases|
        invariant rows == AliasRules(entries[..i]) + EntryRules(e, e.aliases[..j])
      {
        assert e.aliases[..j + 1][..j] == e.aliases[..j];
        rows := rows + [AliasRule(e.scope, e.key, e.aliases[j])];
        j := j + 1;
      }
      assert e.aliases[..j] == e.aliases;
      assert entries[..i + 1][..i] == entries[..i];
      i := i + 1;
    }
    assert entries[..i] == entries;
  }

  /** The dedup loop: a dict keyed by the primary key keeps the first row of
      each key, and `out` lists its values in insertion order. */
  method DedupByKey(rows: seq<Rule>) returns (out: seq<Rule>)
    ensures out == DedupRules(rows)
  {
    var dedup: map<RuleKey, Rule> := map[];
    out := [];
    var k := 0;
    while k < |rows|
      invariant 0 <= k <= |rows|
      invariant out == DedupRules(rows[..k])
      invariant forall key :: key in dedup <==> HasKey(out, key)
    {
      var r := rows[k];
      assert rows[..k + 1][..k] == rows[..k];
      if KeyOf(r) !in dedup {
        dedup := dedup[KeyOf(r) := r];
        HasKeyAppend(out, r);
        out := out + [r];
      }
      k := k + 1;
    }
    assert rows[..k] == rows;
  }

  /** account_map_rules; build_account_map_rules replaces its contents. */
  class RuleTable {
    var rules: seq<Rule>

    constructor()
      ensures rules == []
    {
      rules := [];
    }

    /** build_account_map_rules: the rules built from ACCOUNT_MAP. */
    method BuildAccountMapRules()
      modifies this
      ensures rules == AccountMapRules(ACCOUNT_MAP)
    {
      BuildRulesFrom(ACCOUNT_MAP);
    }

    /** The body of build_account_map_rules over an alias list: one row per
        alias, the first row of each primary key kept in a dict, then a DELETE
        of the table and an INSERT of the kept rows. */
    method BuildRulesFrom(entries: seq<AccountEntry>)
      modifies this
      ensures rules == AccountMapRules(entries)
    {
      var rows := CollectAliasRules(entries);
      var out := DedupByKey(rows);
      rules := [];     // DELETE FROM account_map_rules
      rules := out;    // INSERT the deduplicated rows
    }
  }
}
