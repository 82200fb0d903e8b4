/** The first calculation views of create_calc_views in src/calc.py:
    v_fin_long_raw, v_fin_long_mapped, v_summary_all_years and
    v_analysis_compare, each a function from its input tables to its rows.
    A view's rows come in the order of its input rows; SQL leaves that order
    (and the choice among tied rows) to the engine, and the model takes the
    first. */
module CalcViews {
  import opened Common
  import opened Tables
  import opened CalcKeys
  import opened CalcRules

  // ---------------------------------------------------------------
  // Input tables
  // ---------------------------------------------------------------

  /** An fs_facts row. */
  datatype Fact = Fact(
    reportId: string, lineItemId: string, tableId: string, rowIdx: int, colIdx: int,
    fiscalYear: int, value: Option<real>, unitMultiplier: Option<int>)

  /** An fs_line_items row (keyed by line_item_id). */
  datatype LineItem = LineItem(statementType: StatementType, labelClean: Option<string>)

  /** A reports row (keyed by report_id). */
  datatype Report = Report(corpCode: string, bsnsYear: int)

  // ---------------------------------------------------------------
  // v_fin_long_raw
  // ---------------------------------------------------------------

  datatype RawRow = RawRow(
    corpCode: string, bsnsYear: int, reportId: string,
    statementType: StatementType, labelClean: Option<string>,
    fiscalYear: int, valueWon: real, unitMultiplier: int,
    lineItemId: string, tableId: string, rowIdx: int, colIdx: int)

  /** The inner joins succeed and value and unit_multiplier are not NULL. */
  predicate RawKept(f: Fact, items: map<string, LineItem>, reports: map<string, Report>) {
    f.lineItemId in items && f.reportId in reports && f.value.Some? && f.unitMultiplier.Some?
  }

  function RawOf(f: Fact, items: map<string, LineItem>, reports: map<string, Report>): RawRow
    requires RawKept(f, items, reports)
  {
    var li := items[f.lineItemId];
    var rp := reports[f.reportId];
    RawRow(rp.corpCode, rp.bsnsYear, f.reportId, li.statementType, li.labelClean,
           f.fiscalYear, f.value.value * (f.unitMultiplier.value as real), f.unitMultiplier.value,
           f.lineItemId, f.tableId, f.rowIdx, f.colIdx)
  }

  function FinLongRaw(facts: seq<Fact>, items: map<string, LineItem>, reports: map<string, Report>): seq<RawRow> {
    if facts == [] then []
    else (if RawKept(facts[0], items, reports) then [RawOf(facts[0], items, reports)] else [])
         + FinLongRaw(facts[1..], items, reports)
  }

  /** v_fin_long_raw has one row per fact whose line item and report exist and
      whose value and multiplier are present, carrying value × multiplier. */
  lemma {:induction false} FinLongRawSpec(facts: seq<Fact>, items: map<string, LineItem>, reports: map<string, Report>)
    ensures forall r :: r in FinLongRaw(facts, items, reports) <==>
      exists i :: 0 <= i < |facts| && RawKept(facts[i], items, reports) && r == RawOf(facts[i], items, reports)
    ensures forall r :: r in FinLongRaw(facts, items, reports) ==>
      exists i :: 0 <= i < |facts| && facts[i].value.Some? && facts[i].unitMultiplier.Some? &&
        r.valueWon == facts[i].value.value * (facts[i].unitMultiplier.value as real) &&
        r.lineItemId == facts[i].lineItemId && r.reportId == facts[i].reportId
  {
    if facts != [] {
      FinLongRawSpec(facts[1..], items, reports);
      var h := if RawKept(facts[0], items, reports) then [RawOf(facts[0], items, reports)] else [];
      assert FinLongRaw(facts, items, reports) == h + FinLongRaw(facts[1..], items, reports);
      forall r ensures r in FinLongRaw(facts, items, reports) <==>
        exists i :: 0 <= i < |facts| && RawKept(facts[i], items, reports) && r == RawOf(facts[i], items, reports)
      {
        if r in FinLongRaw(facts[1..], items, reports) {
          var i :| 0 <= i < |facts[1..]| && RawKept(facts[1..][i], items, reports) && r == RawOf(facts[1..][i], items, reports);
          assert facts[1..][i] == facts[i + 1];
        }
        if exists i :: 0 <= i < |facts| && RawKept(facts[i], items, reports) && r == RawOf(facts[i], items, reports) {
          var i :| 0 <= i < |facts| && RawKept(facts[i], items, reports) && r == RawOf(facts[i], items, reports);
          if i > 0 { assert facts[1..][i - 1] == facts[i]; }
        }
      }
    }
  }

  // ---------------------------------------------------------------
  // v_fin_long_mapped
  // ---------------------------------------------------------------

  datatype MappedRow = MappedRow(
    corpCode: string, bsnsYear: int, reportId: string, tableId: string, rowIdx: int,
    statementType: StatementType, fiscalYear: int, lineItemId: string,
    labelClean: string, labelNorm: string, indent: Option<int>,
    valueWon: real, unitMultiplier: int,
    stdKey: Option<StdKey>, matchedPatternRaw: Option<string>, priority: Option<int>)

  /** The ROW_NUMBER partition. */
  datatype PartitionKey = PartitionKey(
    corpCode: string, bsnsYear: int, reportId: string, statementType: StatementType,
    fiscalYear: int, tableId: string, rowIdx: int)

  function RawPart(b: RawRow): PartitionKey {
    PartitionKey(b.corpCode, b.bsnsYear, b.reportId, b.statementType, b.fiscalYear, b.tableId, b.rowIdx)
  }

  function PartOf(m: MappedRow): PartitionKey {
    PartitionKey(m.corpCode, m.bsnsYear, m.reportId, m.statementType, m.fiscalYear, m.tableId, m.rowIdx)
  }

  /** The LEFT JOIN condition on account_map_rules. */
  predicate RuleMatches(r: Rule, st: StatementType, norm: string) {
    r.isActive && r.scope == st && r.matchType == EXACT && r.pattern == norm
  }

  /** The base CTE: rows with a label. */
  function Labelled(raw: seq<RawRow>): seq<RawRow> {
    Where(raw, (b: RawRow) => b.labelClean.Some?)
  }

  function LabelNorm(b: RawRow): string {
    SqlNormLabel(b.labelClean.GetOr([]))
  }

  /** The LEFT JOIN on rag_table_rows (keyed by table_id, row_idx). */
  function IndentOf(b: RawRow, rag: map<(string, int), int>): Option<int> {
    if (b.tableId, b.rowIdx) in rag then Some(rag[(b.tableId, b.rowIdx)]) else None
  }

  function Tag(b: RawRow, rag: map<(string, int), int>, r: Option<Rule>): (m: MappedRow)
    ensures PartOf(m) == RawPart(b)
  {
    MappedRow(b.corpCode, b.bsnsYear, b.reportId, b.tableId, b.rowIdx, b.statementType, b.fiscalYear,
              b.lineItemId, b.labelClean.GetOr([]), LabelNorm(b), IndentOf(b, rag), b.valueWon, b.unitMultiplier,
              if r.Some? then Some(r.value.stdKey) else None,
              if r.Some? then Some(r.value.patternRaw) else None,
              if r.Some? then Some(r.value.priority) else None)
  }

  function MatchingRules(b: RawRow, rules: seq<Rule>): seq<Rule> {
    Where(rules, (r: Rule) => RuleMatches(r, b.statementType, LabelNorm(b)))
  }

  /** The rows the LEFT JOIN produces for one base row. */
  function JoinOne(b: RawRow, rag: map<(string, int), int>, rules: seq<Rule>): seq<MappedRow> {
    var ms := MatchingRules(b, rules);
    if ms == [] then [Tag(b, rag, None)] else MapSeq(ms, (r: Rule) => Tag(b, rag, Some(r)))
  }

  function Joined(base: seq<RawRow>, rag: map<(string, int), int>, rules: seq<Rule>): seq<MappedRow> {
    if base == [] then [] else JoinOne(base[0], rag, rules) + Joined(base[1..], rag, rules)
  }

  /** a sorts strictly before b under
      `ORDER BY (priority IS NULL), priority ASC NULLS LAST`. */
  predicate Before(a: MappedRow, b: MappedRow) {
    a.priority.Some? && (b.priority.None? || a.priority.value < b.priority.value)
  }

  /** The row with ROW_NUMBER() = 1 (the first of the best). */
  function BestOf(xs: seq<MappedRow>): MappedRow
    requires xs != []
  {
    if |xs| == 1 then xs[0]
    else
      var t := BestOf(xs[1..]);
      if Before(t, xs[0]) then t else xs[0]
  }

  lemma {:induction false} BestOfSpec(xs: seq<MappedRow>)
    requires xs != []
    ensures BestOf(xs) in xs
    ensures forall y :: y in xs ==> !Before(y, BestOf(xs))
  {
    if |xs| > 1 {
      BestOfSpec(xs[1..]);
      assert xs == [xs[0]] + xs[1..];
    }
  }

  function PickBest(j: seq<MappedRow>, keys: seq<PartitionKey>): seq<MappedRow>
    requires forall i :: 0 <= i < |keys| ==> GroupOf(j, PartOf, keys[i]) != []
  {
    if keys == [] then [] else [BestOf(GroupOf(j, PartOf, keys[0]))] + PickBest(j, keys[1..])
  }

  lemma GroupsNonEmpty(j: seq<MappedRow>)
    ensures forall i :: 0 <= i < |GroupKeys(j, PartOf)| ==> GroupOf(j, PartOf, GroupKeys(j, PartOf)[i]) != []
  {
    GroupKeysDistinct(j, PartOf);
    forall i | 0 <= i < |GroupKeys(j, PartOf)| ensures GroupOf(j, PartOf, GroupKeys(j, PartOf)[i]) != [] {
      var k := GroupKeys(j, PartOf)[i];
      assert k in GroupKeys(j, PartOf);
      var q :| 0 <= q < |j| && PartOf(j[q]) == k;
      GroupOfSpec(j, PartOf, k);
      assert j[q] in GroupOf(j, PartOf, k);
    }
  }

  /** v_fin_long_mapped. */
  function FinLongMapped(raw: seq<RawRow>, rag: map<(string, int), int>, rules: seq<Rule>): seq<MappedRow> {
    var j := Joined(Labelled(raw), rag, rules);
    GroupsNonEmpty(j);
    PickBest(j, GroupKeys(j, PartOf))
  }

  // --- properties of the join

  lemma JoinOneSpec(b: RawRow, rag: map<(string, int), int>, rules: seq<Rule>)
    ensures JoinOne(b, rag, rules) != []
    ensures forall m :: m in JoinOne(b, rag, rules) ==>
      m == Tag(b, rag, None) || exists r :: r in rules && RuleMatches(r, b.statementType, LabelNorm(b)) && m == Tag(b, rag, Some(r))
    ensures forall r :: r in rules && RuleMatches(r, b.statementType, LabelNorm(b)) ==>
      Tag(b, rag, Some(r)) in JoinOne(b, rag, rules)
    ensures Tag(b, rag, None) in JoinOne(b, rag, rules) ==> MatchingRules(b, rules) == []
  {
    var ms := MatchingRules(b, rules);
    WhereSpec(rules, (r: Rule) => RuleMatches(r, b.statementType, LabelNorm(b)));
    if ms != [] {
      forall m | m in JoinOne(b, rag, rules)
        ensures exists r :: r in rules && RuleMatches(r, b.statementType, LabelNorm(b)) && m == Tag(b, rag, Some(r))
      {
        var q :| 0 <= q < |ms| && MapSeq(ms, (r: Rule) => Tag(b, rag, Some(r)))[q] == m;
        assert ms[q] in ms;
      }
      forall r | r in rules && RuleMatches(r, b.statementType, LabelNorm(b))
        ensures Tag(b, rag, Some(r)) in JoinOne(b, rag, rules)
      {
        var q :| 0 <= q < |ms| && ms[q] == r;
        assert MapSeq(ms, (r: Rule) => Tag(b, rag, Some(r)))[q] == Tag(b, rag, Some(r));
      }
      assert Tag(b, rag, None) !in JoinOne(b, rag, rules);
    }
  }

  /** Every joined row comes from a base row, and each base row's rows are there. */
  lemma {:induction false} JoinedSpec(base: seq<RawRow>, rag: map<(string, int), int>, rules: seq<Rule>)
    ensures forall m :: m in Joined(base, rag, rules) <==> exists i :: 0 <= i < |base| && m in JoinOne(base[i], rag, rules)
  {
    if base != [] {
      JoinedSpec(base[1..], rag, rules);
      forall m ensures m in Joined(base, rag, rules) <==> exists i :: 0 <= i < |base| && m in JoinOne(base[i], rag, rules) {
        if m in Joined(base[1..], rag, rules) {
          var i :| 0 <= i < |base[1..]| && m in JoinOne(base[1..][i], rag, rules);
          assert base[1..][i] == base[i + 1];
        }
        if exists i :: 0 <= i < |base| && m in JoinOne(base[i], rag, rules) {
          var i :| 0 <= i < |base| && m in JoinOne(base[i], rag, rules);
          if i > 0 { assert base[1..][i - 1] == base[i]; }
        }
      }
    }
  }

  lemma {:induction false} PickBestSpec(j: seq<MappedRow>, keys: seq<PartitionKey>)
    requires forall i :: 0 <= i < |keys| ==> GroupOf(j, PartOf, keys[i]) != []
    ensures |PickBest(j, keys)| == |keys|
    ensures forall i :: 0 <= i < |keys| ==>
      PickBest(j, keys)[i] == BestOf(GroupOf(j, PartOf, keys[i]))
  {
    if keys != [] {
      PickBestSpec(j, keys[1..]);
    }
  }

  /** The mapped rows follow the partitions in order of first appearance. */
  lemma FinLongMappedKeys(raw: seq<RawRow>, rag: map<(string, int), int>, rules: seq<Rule>)
    ensures |FinLongMapped(raw, rag, rules)| == |GroupKeys(Joined(Labelled(raw), rag, rules), PartOf)|
    ensures forall i :: 0 <= i < |FinLongMapped(raw, rag, rules)| ==>
      PartOf(FinLongMapped(raw, rag, rules)[i]) == GroupKeys(Joined(Labelled(raw), rag, rules), PartOf)[i]
  {
    var j := Joined(Labelled(raw), rag, rules);
    var keys := GroupKeys(j, PartOf);
    GroupsNonEmpty(j);
    PickBestSpec(j, keys);
    forall i | 0 <= i < |keys| ensures PartOf(PickBest(j, keys)[i]) == keys[i] {
      var g := GroupOf(j, PartOf, keys[i]);
      BestOfSpec(g);
      GroupOfSpec(j, PartOf, keys[i]);
    }
  }

  /** A mapped row is a joined row of its own partition that no other joined
      row of the partition sorts before. */
  lemma MappedRowSpec(raw: seq<RawRow>, rag: map<(string, int), int>, rules: seq<Rule>, i: nat)
    requires i < |FinLongMapped(raw, rag, rules)|
    ensures var m := FinLongMapped(raw, rag, rules)[i];
      var g := GroupOf(Joined(Labelled(raw), rag, rules), PartOf, PartOf(m));
      m in g && forall y :: y in g ==> !Before(y, m)
  {
    var j := Joined(Labelled(raw), rag, rules);
    var keys := GroupKeys(j, PartOf);
    GroupsNonEmpty(j);
    PickBestSpec(j, keys);
    FinLongMappedKeys(raw, rag, rules);
    var g := GroupOf(j, PartOf, keys[i]);
    BestOfSpec(g);
  }

  /** No two mapped rows share a partition. */
  lemma FinLongMappedUnique(raw: seq<RawRow>, rag: map<(string, int), int>, rules: seq<Rule>)
    ensures forall i, k :: 0 <= i < k < |FinLongMapped(raw, rag, rules)| ==>
      PartOf(FinLongMapped(raw, rag, rules)[i]) != PartOf(FinLongMapped(raw, rag, rules)[k])
  {
    var j := Joined(Labelled(raw), rag, rules);
    GroupKeysDistinct(j, PartOf);
    FinLongMappedKeys(raw, rag, rules);
  }

  lemma JoinedCovers(base: seq<RawRow>, rag: map<(string, int), int>, rules: seq<Rule>, b: RawRow)
    requires b in base
    ensures exists m :: m in Joined(base, rag, rules) && PartOf(m) == RawPart(b)
  {
    JoinOneSpec(b, rag, rules);
    JoinOneParts(b, rag, rules);
    var m := JoinOne(b, rag, rules)[0];
    var q :| 0 <= q < |base| && base[q] == b;
    JoinedSpec(base, rag, rules);
    assert m in Joined(base, rag, rules);
  }

  lemma KeyIndex(j: seq<MappedRow>, m: MappedRow)
    requires m in j
    ensures exists ki :: 0 <= ki < |GroupKeys(j, PartOf)| && GroupKeys(j, PartOf)[ki] == PartOf(m)
  {
    GroupKeysDistinct(j, PartOf);
    var jq :| 0 <= jq < |j| && j[jq] == m;
    assert PartOf(m) in GroupKeys(j, PartOf);
  }

  /** Every labelled raw row's partition has a mapped row. */
  lemma FinLongMappedCovers(raw: seq<RawRow>, rag: map<(string, int), int>, rules: seq<Rule>, b: RawRow)
    requires b in raw && b.labelClean.Some?
    ensures exists i :: 0 <= i < |FinLongMapped(raw, rag, rules)| && PartOf(FinLongMapped(raw, rag, rules)[i]) == RawPart(b)
  {
    var base := Labelled(raw);
    var j := Joined(base, rag, rules);
    WhereSpec(raw, (b: RawRow) => b.labelClean.Some?);
    JoinedCovers(base, rag, rules, b);
    var m :| m in j && PartOf(m) == RawPart(b);
    KeyIndex(j, m);
    var ki :| 0 <= ki < |GroupKeys(j, PartOf)| && GroupKeys(j, PartOf)[ki] == PartOf(m);
    FinLongMappedKeys(raw, rag, rules);
  }

  /** Every mapped row belongs to the partition of some labelled raw row. */
  lemma FinLongMappedFromRaw(raw: seq<RawRow>, rag: map<(string, int), int>, rules: seq<Rule>, i: nat)
    requires i < |FinLongMapped(raw, rag, rules)|
    ensures exists b :: b in raw && b.labelClean.Some? && RawPart(b) == PartOf(FinLongMapped(raw, rag, rules)[i])
  {
    var base := Labelled(raw);
    var j := Joined(base, rag, rules);
    var m := FinLongMapped(raw, rag, rules)[i];
    MappedRowSpec(raw, rag, rules, i);
    GroupOfSpec(j, PartOf, PartOf(m));
    JoinedSpec(base, rag, rules);
    var q :| 0 <= q < |base| && m in JoinOne(base[q], rag, rules);
    JoinOneParts(base[q], rag, rules);
    WhereSpec(raw, (b: RawRow) => b.labelClean.Some?);
    assert base[q] in base;
  }

  lemma JoinOneParts(b: RawRow, rag: map<(string, int), int>, rules: seq<Rule>)
    ensures forall m :: m in JoinOne(b, rag, rules) ==>
      PartOf(m) == RawPart(b) && m.labelNorm == LabelNorm(b) && m.statementType == b.statementType
  {
    JoinOneSpec(b, rag, rules);
  }

  /** A mapped row carries a std_key only through an active EXACT rule whose
      scope is the row's statement type and whose pattern is its normalised
      label; the key, pattern and priority are that rule's. */
  lemma FinLongMappedSound(raw: seq<RawRow>, rag: map<(string, int), int>, rules: seq<Rule>, i: nat)
    requires i < |FinLongMapped(raw, rag, rules)|
    ensures var m := FinLongMapped(raw, rag, rules)[i];
      m.stdKey.Some? <==> m.priority.Some?
    ensures var m := FinLongMapped(raw, rag, rules)[i];
      m.stdKey.Some? ==> exists r :: r in rules && RuleMatches(r, m.statementType, m.labelNorm) && TaggedBy(m, r)
  {
    var j := Joined(Labelled(raw), rag, rules);
    var m := FinLongMapped(raw, rag, rules)[i];
    MappedRowSpec(raw, rag, rules, i);
    GroupOfSpec(j, PartOf, PartOf(m));
    JoinedRowSound(Labelled(raw), rag, rules, m);
  }

  lemma JoinedRowSound(base: seq<RawRow>, rag: map<(string, int), int>, rules: seq<Rule>, m: MappedRow)
    requires m in Joined(base, rag, rules)
    ensures m.stdKey.Some? <==> m.priority.Some?
    ensures m.stdKey.Some? ==> exists r :: r in rules && RuleMatches(r, m.statementType, m.labelNorm) && TaggedBy(m, r)
  {
    JoinedSpec(base, rag, rules);
    var q :| 0 <= q < |base| && m in JoinOne(base[q], rag, rules);
    JoinOneSpec(base[q], rag, rules);
    JoinOneParts(base[q], rag, rules);
  }

  /** The rule columns of m are those of r. */
  predicate TaggedBy(m: MappedRow, r: Rule) {
    m.stdKey == Some(r.stdKey) && m.priority == Some(r.priority) && m.matchedPatternRaw == Some(r.patternRaw)
  }

  /** The chosen row has the lowest priority among all rules matching any row
      of its partition; so its std_key is NULL exactly when no row of the
      partition matches a rule. */
  lemma FinLongMappedBest(raw: seq<RawRow>, rag: map<(string, int), int>, rules: seq<Rule>, i: nat, b: RawRow, r: Rule)
    requires i < |FinLongMapped(raw, rag, rules)|
    requires b in raw && b.labelClean.Some? && RawPart(b) == PartOf(FinLongMapped(raw, rag, rules)[i])
    requires r in rules && RuleMatches(r, b.statementType, LabelNorm(b))
    ensures FinLongMapped(raw, rag, rules)[i].stdKey.Some?
    ensures FinLongMapped(raw, rag, rules)[i].priority.Some? && FinLongMapped(raw, rag, rules)[i].priority.value <= r.priority
  {
    var base := Labelled(raw);
    var j := Joined(base, rag, rules);
    var m := FinLongMapped(raw, rag, rules)[i];
    MappedRowSpec(raw, rag, rules, i);
    WhereSpec(raw, (b: RawRow) => b.labelClean.Some?);
    var q :| 0 <= q < |base| && base[q] == b;
    JoinOneSpec(b, rag, rules);
    var t := Tag(b, rag, Some(r));
    assert t in JoinOne(base[q], rag, rules);
    JoinedSpec(base, rag, rules);
    GroupOfSpec(j, PartOf, PartOf(m));
    assert t in GroupOf(j, PartOf, PartOf(m));
    assert !Before(t, m);
    FinLongMappedSound(raw, rag, rules, i);
  }

  // ---------------------------------------------------------------
  // v_summary_all_years
  // ---------------------------------------------------------------

  /** A tagged mapped row reduced to the columns the summary groups by. */
  datatype KeyedValue = KeyedValue(corpCode: string, fiscalYear: int, statementType: StatementType, stdKey: StdKey, value: real)

  datatype SummaryKey = SummaryKey(corpCode: string, fiscalYear: int, statementType: StatementType, stdKey: StdKey)

  function KVKey(v: KeyedValue): SummaryKey { SummaryKey(v.corpCode, v.fiscalYear, v.statementType, v.stdKey) }
  function KVValue(v: KeyedValue): real { v.value }

  function KVOf(m: MappedRow): KeyedValue
    requires m.stdKey.Some?
  {
    KeyedValue(m.corpCode, m.fiscalYear, m.statementType, m.stdKey.value, m.valueWon)
  }

  /** The rows with a std_key (WHERE std_key IS NOT NULL). */
  function Tagged(mapped: seq<MappedRow>): seq<KeyedValue> {
    if mapped == [] then []
    else (if mapped[0].stdKey.Some? then [KVOf(mapped[0])] else []) + Tagged(mapped[1..])
  }

  lemma {:induction false} TaggedSpec(mapped: seq<MappedRow>)
    ensures forall v :: v in Tagged(mapped) <==> exists i :: 0 <= i < |mapped| && mapped[i].stdKey.Some? && v == KVOf(mapped[i])
  {
    if mapped != [] {
      TaggedSpec(mapped[1..]);
      forall v ensures v in Tagged(mapped) <==> exists i :: 0 <= i < |mapped| && mapped[i].stdKey.Some? && v == KVOf(mapped[i]) {
        if exists i :: 0 <= i < |mapped| && mapped[i].stdKey.Some? && v == KVOf(mapped[i]) {
          var i :| 0 <= i < |mapped| && mapped[i].stdKey.Some? && v == KVOf(mapped[i]);
          if i > 0 { assert mapped[1..][i - 1] == mapped[i]; }
        }
        if v in Tagged(mapped[1..]) {
          var i :| 0 <= i < |mapped[1..]| && mapped[1..][i].stdKey.Some? && v == KVOf(mapped[1..][i]);
          assert mapped[1..][i] == mapped[i + 1];
        }
      }
    }
  }

  /** max_by(v, abs(v)): the first value of largest magnitude. */
  function MaxByAbs(vals: seq<real>): real
    requires vals != []
  {
    if |vals| == 1 then vals[0]
    else
      var t := MaxByAbs(vals[1..]);
      if Abs(t) > Abs(vals[0]) then t else vals[0]
  }

  /** The pick is one of the values and none has a larger magnitude. */
  lemma {:induction false} MaxByAbsSpec(vals: seq<real>)
    requires vals != []
    ensures MaxByAbs(vals) in vals
    ensures forall v :: v in vals ==> Abs(v) <= Abs(MaxByAbs(vals))
  {
    if |vals| > 1 {
      MaxByAbsSpec(vals[1..]);
      assert vals == [vals[0]] + vals[1..];
    }
  }

  datatype SummaryRow = SummaryRow(corpCode: string, fiscalYear: int, statementType: StatementType, stdKey: StdKey, val: real)

  function SummaryKeyOf(s: SummaryRow): SummaryKey { SummaryKey(s.corpCode, s.fiscalYear, s.statementType, s.stdKey) }

  function Summarise(kv: seq<KeyedValue>, keys: seq<SummaryKey>): seq<SummaryRow>
    requires forall i :: 0 <= i < |keys| ==> GroupOf(kv, KVKey, keys[i]) != []
  {
    if keys == [] then []
    else
      var k := keys[0];
      [SummaryRow(k.corpCode, k.fiscalYear, k.statementType, k.stdKey, MaxByAbs(MapSeq(GroupOf(kv, KVKey, k), KVValue)))]
      + Summarise(kv, keys[1..])
  }

  lemma KVGroupsNonEmpty(kv: seq<KeyedValue>)
    ensures forall i :: 0 <= i < |GroupKeys(kv, KVKey)| ==> GroupOf(kv, KVKey, GroupKeys(kv, KVKey)[i]) != []
  {
    GroupKeysDistinct(kv, KVKey);
    forall i | 0 <= i < |GroupKeys(kv, KVKey)| ensures GroupOf(kv, KVKey, GroupKeys(kv, KVKey)[i]) != [] {
      var k := GroupKeys(kv, KVKey)[i];
      assert k in GroupKeys(kv, KVKey);
      var q :| 0 <= q < |kv| && KVKey(kv[q]) == k;
      GroupOfSpec(kv, KVKey, k);
      assert kv[q] in GroupOf(kv, KVKey, k);
    }
  }

  /** v_summary_all_years. */
  function SummaryAllYears(mapped: seq<MappedRow>): seq<SummaryRow> {
    var kv := Tagged(mapped);
    KVGroupsNonEmpty(kv);
    Summarise(kv, GroupKeys(kv, KVKey))
  }

  lemma {:induction false} SummariseSpec(kv: seq<KeyedValue>, keys: seq<SummaryKey>)
    requires forall i :: 0 <= i < |keys| ==> GroupOf(kv, KVKey, keys[i]) != []
    ensures |Summarise(kv, keys)| == |keys|
    ensures forall i :: 0 <= i < |keys| ==>
      SummaryKeyOf(Summarise(kv, keys)[i]) == keys[i] &&
      Summarise(kv, keys)[i].val == MaxByAbs(MapSeq(GroupOf(kv, KVKey, keys[i]), KVValue))
  {
    if keys != [] {
      SummariseSpec(kv, keys[1..]);
    }
  }

  /** No two summary rows share (corp_code, fiscal_year, statement_type, std_key). */
  lemma SummaryAllYearsUnique(mapped: seq<MappedRow>)
    ensures forall i, k :: 0 <= i < k < |SummaryAllYears(mapped)| ==>
      SummaryKeyOf(SummaryAllYears(mapped)[i]) != SummaryKeyOf(SummaryAllYears(mapped)[k])
  {
    var kv := Tagged(mapped);
    KVGroupsNonEmpty(kv);
    SummariseSpec(kv, GroupKeys(kv, KVKey));
    GroupKeysDistinct(kv, KVKey);
  }

  /** Every mapped row with a std_key has its summary row. */
  lemma SummaryAllYearsCovers(mapped: seq<MappedRow>, m: MappedRow)
    requires m in mapped && m.stdKey.Some?
    ensures exists i :: 0 <= i < |SummaryAllYears(mapped)| && SummaryKeyOf(SummaryAllYears(mapped)[i]) == KVKey(KVOf(m))
  {
    var kv := Tagged(mapped);
    var keys := GroupKeys(kv, KVKey);
    KVGroupsNonEmpty(kv);
    SummariseSpec(kv, keys);
    GroupKeysDistinct(kv, KVKey);
    TaggedSpec(mapped);
    var p :| 0 <= p < |mapped| && mapped[p] == m;
    var v := KVOf(m);
    assert v in kv;
    var q :| 0 <= q < |kv| && kv[q] == v;
    assert KVKey(v) in keys;
    var ki :| 0 <= ki < |keys| && keys[ki] == KVKey(v);
    assert SummaryKeyOf(SummaryAllYears(mapped)[ki]) == KVKey(v);
  }

  /** Every summary row stands for some mapped row with a std_key. */
  lemma SummaryAllYearsFrom(mapped: seq<MappedRow>, i: nat)
    requires i < |SummaryAllYears(mapped)|
    ensures exists m :: m in mapped && m.stdKey.Some? && KVKey(KVOf(m)) == SummaryKeyOf(SummaryAllYears(mapped)[i])
  {
    var kv := Tagged(mapped);
    var keys := GroupKeys(kv, KVKey);
    KVGroupsNonEmpty(kv);
    SummariseSpec(kv, keys);
    GroupKeysDistinct(kv, KVKey);
    TaggedSpec(mapped);
    assert keys[i] in keys;
    var q :| 0 <= q < |kv| && KVKey(kv[q]) == keys[i];
    assert kv[q] in kv;
    var p :| 0 <= p < |mapped| && mapped[p].stdKey.Some? && kv[q] == KVOf(mapped[p]);
    assert mapped[p] in mapped;
  }

  /** Each summary value is one of its group's value_won and has the largest
      magnitude among them. */
  lemma SummaryAllYearsValue(mapped: seq<MappedRow>, i: nat)
    requires i < |SummaryAllYears(mapped)|
    ensures var s := SummaryAllYears(mapped)[i];
      (exists v :: v in Tagged(mapped) && KVKey(v) == SummaryKeyOf(s) && v.value == s.val) &&
      (forall v :: v in Tagged(mapped) && KVKey(v) == SummaryKeyOf(s) ==> Abs(v.value) <= Abs(s.val))
  {
    var kv := Tagged(mapped);
    var keys := GroupKeys(kv, KVKey);
    KVGroupsNonEmpty(kv);
    SummariseSpec(kv, keys);
    var s := SummaryAllYears(mapped)[i];
    var g := GroupOf(kv, KVKey, keys[i]);
    GroupOfSpec(kv, KVKey, keys[i]);
    var vals := MapSeq(g, KVValue);
    MaxByAbsSpec(vals);
    var q :| 0 <= q < |vals| && vals[q] == s.val;
    assert g[q] in g;
    forall v | v in kv && KVKey(v) == SummaryKeyOf(s) ensures Abs(v.value) <= Abs(s.val) {
      var p :| 0 <= p < |g| && g[p] == v;
      assert vals[p] == v.value;
    }
  }

  // ---------------------------------------------------------------
  // v_analysis_compare
  // ---------------------------------------------------------------

  datatype CompareRow = CompareRow(
    corpCode: string, bsnsYear: int, statementType: StatementType, stdKey: StdKey,
    valCurr: real, valPrev: Option<real>, diffAmt: real, diffRate: Option<real>)

  /** One output row for a current row and its (possibly missing) previous value. */
  function CompareOf(c: SummaryRow, prev: Option<real>): CompareRow {
    CompareRow(c.corpCode, c.fiscalYear, c.statementType, c.stdKey, c.val, prev,
               c.val - prev.GetOr(0.0),
               if prev.Some? && prev.value != 0.0 then Some((c.val - prev.value) / Abs(prev.value) * 100.0) else None)
  }

  /** The join condition: same company, key and statement, one year earlier. */
  predicate IsPrevOf(p: SummaryRow, c: SummaryRow) {
    p.corpCode == c.corpCode && c.fiscalYear == p.fiscalYear + 1 && p.stdKey == c.stdKey && p.statementType == c.statementType
  }

  function PrevRows(summary: seq<SummaryRow>, c: SummaryRow): seq<SummaryRow> {
    Where(summary, (p: SummaryRow) => IsPrevOf(p, c))
  }

  /** The LEFT JOIN for one current row. */
  function CompareFor(summary: seq<SummaryRow>, c: SummaryRow): seq<CompareRow> {
    var ps := PrevRows(summary, c);
    if ps == [] then [CompareOf(c, None)] else MapSeq(ps, (p: SummaryRow) => CompareOf(c, Some(p.val)))
  }

  function CompareAll(summary: seq<SummaryRow>, curr: seq<SummaryRow>): seq<CompareRow> {
    if curr == [] then [] else CompareFor(summary, curr[0]) + CompareAll(summary, curr[1..])
  }

  /** v_analysis_compare. */
  function AnalysisCompare(summary: seq<SummaryRow>): seq<CompareRow> {
    CompareAll(summary, summary)
  }

  /** The year-over-year columns: a missing previous value counts as 0 in
      diff_amt and gives a NULL diff_rate; otherwise previous + diff_amt is the
      current value, and diff_rate is diff_amt over |previous| in percent. */
  lemma CompareOfMeaning(c: SummaryRow, prev: Option<real>)
    ensures CompareOf(c, prev).valCurr == c.val && CompareOf(c, prev).valPrev == prev
    ensures prev.None? ==> CompareOf(c, prev).diffAmt == c.val && CompareOf(c, prev).diffRate.None?
    ensures prev.Some? ==> prev.value + CompareOf(c, prev).diffAmt == c.val
    ensures CompareOf(c, prev).diffRate.Some? <==> prev.Some? && prev.value != 0.0
    ensures prev.Some? && prev.value != 0.0 ==>
      CompareOf(c, prev).diffRate.value * Abs(prev.value) == CompareOf(c, prev).diffAmt * 100.0
    ensures prev.Some? && prev.value != 0.0 ==>
      (CompareOf(c, prev).diffRate.value > 0.0 <==> c.val > prev.value)
  {
    if prev.Some? && prev.value != 0.0 {
      var a := Abs(prev.value);
      var d := c.val - prev.value;
      assert CompareOf(c, prev).diffRate.value == d / a * 100.0;
      assert d / a * 100.0 * a == d * 100.0;
      if d > 0.0 { assert d / a > 0.0; }
      if d <= 0.0 { assert d / a <= 0.0; }
    }
  }

  /** With at most one summary row per key (which v_summary_all_years
      guarantees), there is at most one previous row. */
  lemma PrevRowsAtMostOne(summary: seq<SummaryRow>, c: SummaryRow)
    requires forall i, k :: 0 <= i < k < |summary| ==> SummaryKeyOf(summary[i]) != SummaryKeyOf(summary[k])
    ensures |PrevRows(summary, c)| <= 1
  {
    PrevAtMostOne(summary, c);
  }

  lemma {:induction false} PrevAtMostOne(summary: seq<SummaryRow>, c: SummaryRow)
    requires forall i, k :: 0 <= i < k < |summary| ==> SummaryKeyOf(summary[i]) != SummaryKeyOf(summary[k])
    ensures |PrevRows(summary, c)| <= 1
  {
    if summary != [] {
      var t := summary[1..];
      assert forall i, k :: 0 <= i < k < |t| ==> SummaryKeyOf(t[i]) != SummaryKeyOf(t[k]) by {
        forall i, k | 0 <= i < k < |t| ensures SummaryKeyOf(t[i]) != SummaryKeyOf(t[k]) {
          assert t[i] == summary[i + 1] && t[k] == summary[k + 1];
        }
      }
      PrevAtMostOne(t, c);
      if IsPrevOf(summary[0], c) {
        WhereSpec(t, (p: SummaryRow) => IsPrevOf(p, c));
        forall p | p in t ensures !IsPrevOf(p, c) {
          var k :| 0 <= k < |t| && t[k] == p;
          assert SummaryKeyOf(summary[0]) != SummaryKeyOf(summary[k + 1]);
        }
        WhereNone(t, (p: SummaryRow) => IsPrevOf(p, c));
      }
    }
  }

  /** Against a summary with one row per key, v_analysis_compare has exactly
      one row per summary row, whose previous value is that of the row one
      year earlier, if any. */
  lemma {:induction false} CompareAllAligned(summary: seq<SummaryRow>, curr: seq<SummaryRow>)
    requires forall i, k :: 0 <= i < k < |summary| ==> SummaryKeyOf(summary[i]) != SummaryKeyOf(summary[k])
    ensures |CompareAll(summary, curr)| == |curr|
    ensures forall i :: 0 <= i < |curr| ==>
      CompareAll(summary, curr)[i] == CompareOf(curr[i], PrevValue(summary, curr[i]))
  {
    if curr != [] {
      CompareAllAligned(summary, curr[1..]);
      PrevRowsAtMostOne(summary, curr[0]);
      assert CompareFor(summary, curr[0]) == [CompareOf(curr[0], PrevValue(summary, curr[0]))];
      var r := CompareAll(summary, curr);
      assert r == [CompareOf(curr[0], PrevValue(summary, curr[0]))] + CompareAll(summary, curr[1..]);
      forall i | 0 <= i < |curr| ensures r[i] == CompareOf(curr[i], PrevValue(summary, curr[i])) {
        if i > 0 { assert curr[1..][i - 1] == curr[i]; }
      }
    }
  }

  /** The value of the row one year earlier, if there is one. */
  function PrevValue(summary: seq<SummaryRow>, c: SummaryRow): Option<real> {
    var ps := PrevRows(summary, c);
    if ps == [] then None else Some(ps[0].val)
  }

  lemma PrevValueSpec(summary: seq<SummaryRow>, c: SummaryRow)
    ensures PrevValue(summary, c).Some? <==> exists p :: p in summary && IsPrevOf(p, c)
    ensures PrevValue(summary, c).Some? ==> exists p :: p in summary && IsPrevOf(p, c) && p.val == PrevValue(summary, c).value
  {
    WhereSpec(summary, (p: SummaryRow) => IsPrevOf(p, c));
    var ps := PrevRows(summary, c);
    if ps != [] { assert ps[0] in ps; }
  }

  /** The whole chain: v_analysis_compare over the summary view has one row per
      summary row, in order. */
  lemma AnalysisCompareAligned(mapped: seq<MappedRow>)
    ensures var s := SummaryAllYears(mapped);
      |AnalysisCompare(s)| == |s| &&
      forall i :: 0 <= i < |s| ==> AnalysisCompare(s)[i] == CompareOf(s[i], PrevValue(s, s[i]))
  {
    SummaryAllYearsUnique(mapped);
    CompareAllAligned(SummaryAllYears(mapped), SummaryAllYears(mapped));
  }
}
