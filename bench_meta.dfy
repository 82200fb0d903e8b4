/** build_all_benchmark_meta of resources/company_data.py: which company and
    receipt dates stand for each benchmark name, in three resolution stages. */
module BenchMeta {
  import opened Common
  import opened CompanyData

  /** A target_2y row: the target company's codes and receipt date for one year. */
  datatype TargetRow = TargetRow(corpNameKr: string, year: int, corpCode: string, stockCode: string, rceptDate: string)

  /** An eligible-pool row: codes and the receipt dates of the two years. */
  datatype EligRow = EligRow(corpNameKr: string, corpCode: string, stockCode: string, rcept0: string, rcept1: string)

  /** A corp_all row (codes already padded); a missing name is NaN. */
  datatype CorpRow = CorpRow(corpName: Option<string>, corpCode: string, stockCode: string)

  /** An all_bench_meta row. */
  datatype BenchMetaRow = BenchMetaRow(benchmarkNameKr: string, year: int, benchCorpCode: string,
                                       benchStockCode: string, benchRceptDate: string)

  /** An elig_map value. */
  datatype EligEntry = EligEntry(corpCode: string, stockCode: string, r0: string, r1: string)

  /** A corp_all_map value. */
  datatype CorpEntry = CorpEntry(corpCode: string, stockCode: string)

  /** get_corp_info_by_name: a name search on the DART listing service. */
  type NameSearch = string -> (Option<string>, Option<string>)

  function NameKey(name: string): string {
    RemoveChar(name, ' ')
  }

  function EligEntryOf(r: EligRow): EligEntry {
    EligEntry(ZFill(r.corpCode, 8), ZFill(r.stockCode, 6), r.rcept0, r.rcept1)
  }

  /** elig_map: keyed by the space-free name, a later row overwriting an earlier one. */
  function EligMap(rows: seq<EligRow>): map<string, EligEntry> {
    if rows == [] then map[]
    else
      var n := |rows| - 1;
      EligMap(rows[..n])[NameKey(rows[n].corpNameKr) := EligEntryOf(rows[n])]
  }

  function CorpKey(r: CorpRow): string {
    NameKey(CellStr(r.corpName))
  }

  /** corp_all_map: keyed by the space-free name, the first row with a non-empty name kept. */
  function CorpAllMap(rows: seq<CorpRow>): map<string, CorpEntry> {
    if rows == [] then map[]
    else
      var n := |rows| - 1;
      var m := CorpAllMap(rows[..n]);
      var nm := CorpKey(rows[n]);
      if nm != "" && nm !in m then m[nm := CorpEntry(ZFill(rows[n].corpCode, 8), ZFill(rows[n].stockCode, 6))]
      else m
  }

  /** The last eligible row of a name decides its entry. */
  lemma {:induction false} EligMapLastWins(rows: seq<EligRow>, k: nat)
    requires k < |rows|
    requires forall j :: k < j < |rows| ==> NameKey(rows[j].corpNameKr) != NameKey(rows[k].corpNameKr)
    ensures NameKey(rows[k].corpNameKr) in EligMap(rows)
    ensures EligMap(rows)[NameKey(rows[k].corpNameKr)] == EligEntryOf(rows[k])
  {
    var n := |rows| - 1;
    if k < n {
      EligMapLastWins(rows[..n], k);
    }
  }

  /** The first corp_all row of a non-empty name decides its entry. */
  lemma {:induction false} CorpAllMapFirstWins(rows: seq<CorpRow>, k: nat)
    requires k < |rows| && CorpKey(rows[k]) != ""
    requires forall j :: 0 <= j < k ==> CorpKey(rows[j]) != CorpKey(rows[k])
    ensures CorpKey(rows[k]) in CorpAllMap(rows)
    ensures CorpAllMap(rows)[CorpKey(rows[k])] == CorpEntry(ZFill(rows[k].corpCode, 8), ZFill(rows[k].stockCode, 6))
  {
    var n := |rows| - 1;
    if k < n {
      CorpAllMapFirstWins(rows[..n], k);
      assert rows[..n][k] == rows[k];
    } else {
      forall j | 0 <= j < n ensures CorpKey(rows[..n][j]) != CorpKey(rows[k]) {
        assert rows[..n][j] == rows[j];
      }
      CorpAllMapAbsent(rows[..n], CorpKey(rows[k]));
    }
  }

  /** A name no row carries is not a key of corp_all_map. */
  lemma {:induction false} CorpAllMapAbsent(rows: seq<CorpRow>, nm: string)
    requires forall j :: 0 <= j < |rows| ==> CorpKey(rows[j]) != nm
    ensures nm !in CorpAllMap(rows)
  {
    if rows != [] {
      var n := |rows| - 1;
      forall j | 0 <= j < n ensures CorpKey(rows[..n][j]) != nm {
        assert rows[..n][j] == rows[j];
      }
      CorpAllMapAbsent(rows[..n], nm);
    }
  }

  /** Some row carries the name nm. */
  predicate NamedIn(rows: seq<CorpRow>, nm: string) {
    exists j :: 0 <= j < |rows| && CorpKey(rows[j]) == nm
  }

  /** The names of corp_all_map are the non-empty names of the rows. */
  lemma {:induction false} CorpAllMapKey(rows: seq<CorpRow>, nm: string)
    ensures nm in CorpAllMap(rows) <==> nm != "" && NamedIn(rows, nm)
  {
    if rows != [] {
      var n := |rows| - 1;
      CorpAllMapKey(rows[..n], nm);
      NamedInSnoc(rows, nm);
    }
  }

  lemma NamedInSnoc(rows: seq<CorpRow>, nm: string)
    requires rows != []
    ensures NamedIn(rows, nm) <==> NamedIn(rows[..|rows| - 1], nm) || CorpKey(rows[|rows| - 1]) == nm
  {
    var n := |rows| - 1;
    if NamedIn(rows, nm) {
      var j :| 0 <= j < |rows| && CorpKey(rows[j]) == nm;
      if j < n {
        assert rows[..n][j] == rows[j];
      }
    }
    if NamedIn(rows[..n], nm) {
      var j :| 0 <= j < n && CorpKey(rows[..n][j]) == nm;
      assert rows[..n][j] == rows[j];
    }
  }

  /** The state of one external name's resolution (None is Python None). */
  datatype Resolution = Resolution(cc: Option<string>, sc: Option<string>, r0: Option<string>, r1: Option<string>)

  /** not cc or not sc */
  predicate Unresolved(s: Resolution) {
    !Truthy(s.cc) || !Truthy(s.sc)
  }

  /** (1) the eligible pool. */
  function FromElig(key: string, em: map<string, EligEntry>): Resolution {
    if key in em then
      var e := em[key];
      Resolution(Some(e.corpCode), Some(e.stockCode), Some(e.r0), Some(e.r1))
    else Resolution(None, None, None, None)
  }

  /** (2) corp_all's codes, then the receipt-date lookup unless the code is all zeros. */
  function FromCorpAll(s: Resolution, key: string, cm: map<string, CorpEntry>, api: ListApi, y0: int, y1: int): Resolution {
    if Unresolved(s) && key in cm then
      var cc := cm[key].corpCode;
      var sc := cm[key].stockCode;
      if cc != "" && cc != "00000000" then
        Resolution(Some(cc), Some(sc), Windowed(api, cc, y0), Windowed(api, cc, y1))
      else Resolution(Some(cc), Some(sc), s.r0, s.r1)
    else s
  }

  /** (3) the DART name search. */
  function FromNameSearch(s: Resolution, name: string, search: NameSearch, api: ListApi, y0: int, y1: int): Resolution {
    if Unresolved(s) then
      var (cc, sc) := search(name);
      if Truthy(cc) then
        var c := ZFill(cc.value, 8);
        var t := if Truthy(sc) then Some(ZFill(sc.value, 6)) else None;
        Resolution(Some(c), t, Windowed(api, c, y0), Windowed(api, c, y1))
      else Resolution(cc, sc, s.r0, s.r1)
    else s
  }

  function Resolve(name: string, em: map<string, EligEntry>, cm: map<string, CorpEntry>,
                   api: ListApi, search: NameSearch, y0: int, y1: int): Resolution {
    var key := NameKey(name);
    FromNameSearch(FromCorpAll(FromElig(key, em), key, cm, api, y0, y1), name, search, api, y0, y1)
  }

  /** The row test: both codes and both dates present, the dates 8 digits. */
  predicate Emitted(s: Resolution) {
    Truthy(s.cc) && Truthy(s.sc) && Truthy(s.r0) && Truthy(s.r1) && Is8Digits(s.r0.value) && Is8Digits(s.r1.value)
  }

  /** The two rows of a resolved name, or none. */
  function RowsOf(name: string, s: Resolution, y0: int, y1: int): (r: seq<BenchMetaRow>) {
    if Emitted(s) then
      [BenchMetaRow(name, y0, s.cc.value, ZFill(s.sc.value, 6), s.r0.value),
       BenchMetaRow(name, y1, s.cc.value, ZFill(s.sc.value, 6), s.r1.value)]
    else []
  }

  /** external_rows, in the iteration order of external_bench. */
  function ExternalRows(names: seq<string>, em: map<string, EligEntry>, cm: map<string, CorpEntry>,
                        api: ListApi, search: NameSearch, y0: int, y1: int): seq<BenchMetaRow> {
    if names == [] then []
    else
      var n := |names| - 1;
      ExternalRows(names[..n], em, cm, api, search, y0, y1) + RowsOf(names[n], Resolve(names[n], em, cm, api, search, y0, y1), y0, y1)
  }

  function InternalRow(t: TargetRow): BenchMetaRow {
    BenchMetaRow(t.corpNameKr, t.year, t.corpCode, t.stockCode, t.rceptDate)
  }

  /** internal_meta: every target row, renamed. */
  function InternalMeta(targets: seq<TargetRow>): (r: seq<BenchMetaRow>)
    ensures |r| == |targets|
    ensures forall k :: 0 <= k < |r| ==> r[k] == InternalRow(targets[k])
  {
    MapIndexed(targets, (_: nat, t: TargetRow) => InternalRow(t))
  }

  function TargetNames(targets: seq<TargetRow>): set<string> {
    set k | 0 <= k < |targets| :: targets[k].corpNameKr
  }

  /** external_bench = set(BENCHMARK_BY_TARGET.values()) - target_names */
  function ExternalNames(targets: seq<TargetRow>): set<string> {
    BenchmarkNames() - TargetNames(targets)
  }

  /** An iteration order of a set: each member once. */
  predicate Enumerates(order: seq<string>, s: set<string>) {
    (forall i, j :: 0 <= i < j < |order| ==> order[i] != order[j])
    && (forall x :: x in s ==> x in order)
    && (forall k :: 0 <= k < |order| ==> order[k] in s)
  }

  function MetaKey(r: BenchMetaRow): (string, int) {
    (r.benchmarkNameKr, r.year)
  }

  /** build_all_benchmark_meta as a value: internal rows, then external ones,
      the first row of each (benchmark_name_kr, year) kept. */
  function BenchMetaOf(targets: seq<TargetRow>, elig: seq<EligRow>, corpAll: seq<CorpRow>,
                       api: ListApi, search: NameSearch, order: seq<string>, y0: int, y1: int): seq<BenchMetaRow> {
    var ext := ExternalRows(order, EligMap(elig), CorpAllMap(corpAll), api, search, y0, y1);
    DedupFirst(InternalMeta(targets) + ext, MetaKey)
  }

  /** build_all_benchmark_meta. `order` is the iteration order of the
      external_bench set. */
  method BuildAllBenchmarkMeta(targets: seq<TargetRow>, elig: seq<EligRow>, corpAll: seq<CorpRow>,
                               api: ListApi, search: NameSearch, order: seq<string>, y0: int, y1: int)
    returns (r: seq<BenchMetaRow>)
    requires Enumerates(order, ExternalNames(targets))
    ensures r == BenchMetaOf(targets, elig, corpAll, api, search, order, y0, y1)
  {
    var internalMeta := InternalMeta(targets);
    var eligMap: map<string, EligEntry> := map[];
    for i := 0 to |elig|
      invariant eligMap == EligMap(elig[..i])
    {
      assert elig[..i + 1][..i] == elig[..i];
      eligMap := eligMap[NameKey(elig[i].corpNameKr) := EligEntryOf(elig[i])];
    }
    assert elig[..|elig|] == elig;
    var corpAllMap: map<string, CorpEntry> := map[];
    for i := 0 to |corpAll|
      invariant corpAllMap == CorpAllMap(corpAll[..i])
    {
      assert corpAll[..i + 1][..i] == corpAll[..i];
      var nm := CorpKey(corpAll[i]);
      if nm != "" && nm !in corpAllMap {
        corpAllMap := corpAllMap[nm := CorpEntry(ZFill(corpAll[i].corpCode, 8), ZFill(corpAll[i].stockCode, 6))];
      }
    }
    assert corpAll[..|corpAll|] == corpAll;
    var externalRows: seq<BenchMetaRow> := [];
    for i := 0 to |order|
      invariant externalRows == ExternalRows(order[..i], eligMap, corpAllMap, api, search, y0, y1)
    {
      assert order[..i + 1][..i] == order[..i];
      var s := ResolveName(order[i], eligMap, corpAllMap, api, search, y0, y1);
      if Emitted(s) {
        externalRows := externalRows + RowsOf(order[i], s, y0, y1);
      }
    }
    assert order[..|order|] == order;
    r := DedupFirst(internalMeta + externalRows, MetaKey);
  }

  /** The three stages for one external name, as the loop body runs them. */
  method ResolveName(name: string, em: map<string, EligEntry>, cm: map<string, CorpEntry>,
                     api: ListApi, search: NameSearch, y0: int, y1: int) returns (s: Resolution)
    ensures s == Resolve(name, em, cm, api, search, y0, y1)
  {
    var key := NameKey(name);
    var cc: Option<string>, sc: Option<string> := None, None;
    var r0: Option<string>, r1: Option<string> := None, None;
    if key in em {
      cc, sc := Some(em[key].corpCode), Some(em[key].stockCode);
      r0, r1 := Some(em[key].r0), Some(em[key].r1);
    }
    ghost var s1 := FromElig(key, em);
    assert Resolution(cc, sc, r0, r1) == s1;
    if (!Truthy(cc) || !Truthy(sc)) && key in cm {
      cc, sc := Some(cm[key].corpCode), Some(cm[key].stockCode);
      if cm[key].corpCode != "" && cm[key].corpCode != "00000000" {
        r0 := FindRceptDtWindowed(api, cm[key].corpCode, y0);
        r1 := FindRceptDtWindowed(api, cm[key].corpCode, y1);
      }
    }
    ghost var s2 := FromCorpAll(s1, key, cm, api, y0, y1);
    assert Resolution(cc, sc, r0, r1) == s2;
    if !Truthy(cc) || !Truthy(sc) {
      var found := search(name);
      cc, sc := found.0, found.1;
      if Truthy(cc) {
        cc := Some(ZFill(cc.value, 8));
        sc := if Truthy(sc) then Some(ZFill(sc.value, 6)) else None;
        r0 := FindRceptDtWindowed(api, cc.value, y0);
        r1 := FindRceptDtWindowed(api, cc.value, y1);
      }
    }
    s := Resolution(cc, sc, r0, r1);
  }

  // ---------------------------------------------------------------------------
  // Properties
  // ---------------------------------------------------------------------------

  /** A name found in the eligible pool takes its codes and dates from there,
      and neither lookup service is consulted. */
  lemma EligibleFirst(name: string, elig: seq<EligRow>, cm: map<string, CorpEntry>,
                      a1: ListApi, s1: NameSearch, a2: ListApi, s2: NameSearch, y0: int, y1: int)
    requires NameKey(name) in EligMap(elig)
    ensures var e := EligMap(elig)[NameKey(name)];
      Resolve(name, EligMap(elig), cm, a1, s1, y0, y1) == Resolution(Some(e.corpCode), Some(e.stockCode), Some(e.r0), Some(e.r1))
    ensures Resolve(name, EligMap(elig), cm, a1, s1, y0, y1) == Resolve(name, EligMap(elig), cm, a2, s2, y0, y1)
  {
    EligMapPadded(elig);
  }

  /** Entries of the eligible map have padded, hence non-empty, codes. */
  lemma {:induction false} EligMapPadded(rows: seq<EligRow>)
    ensures forall k :: k in EligMap(rows) ==> |EligMap(rows)[k].corpCode| >= 8 && |EligMap(rows)[k].stockCode| >= 6
  {
    if rows != [] {
      EligMapPadded(rows[..|rows| - 1]);
    }
  }

  /** A name missing from the pool but in corp_all with the all-zero corp code
      yields no row: its dates are never looked up. */
  lemma ZeroCodeNoRows(name: string, em: map<string, EligEntry>, cm: map<string, CorpEntry>,
                       api: ListApi, search: NameSearch, y0: int, y1: int)
    requires NameKey(name) !in em && NameKey(name) in cm
    requires cm[NameKey(name)].corpCode == "00000000" && cm[NameKey(name)].stockCode != ""
    ensures RowsOf(name, Resolve(name, em, cm, api, search, y0, y1), y0, y1) == []
  {
  }

  /** Without a pool or corp_all entry the name search decides; an empty
      stock code from it yields no row. */
  lemma NameSearchLast(name: string, em: map<string, EligEntry>, cm: map<string, CorpEntry>,
                       api: ListApi, search: NameSearch, y0: int, y1: int)
    requires NameKey(name) !in em && NameKey(name) !in cm
    ensures var (cc, sc) := search(name);
      Truthy(cc) ==> Resolve(name, em, cm, api, search, y0, y1).cc == Some(ZFill(cc.value, 8))
    ensures !Truthy(search(name).1) ==> RowsOf(name, Resolve(name, em, cm, api, search, y0, y1), y0, y1) == []
  {
  }

  /** Every emitted row has a padded stock code, a non-empty corp code and an
      8-digit receipt date, and rows come in pairs for the two years. */
  lemma RowsOfShape(name: string, s: Resolution, y0: int, y1: int)
    ensures var r := RowsOf(name, s, y0, y1);
      (|r| == 0 || |r| == 2)
      && (|r| == 2 ==> r[0].year == y0 && r[1].year == y1 && r[0].benchCorpCode == r[1].benchCorpCode)
      && forall k :: 0 <= k < |r| ==>
        r[k].benchmarkNameKr == name && r[k].benchCorpCode != "" && |r[k].benchStockCode| >= 6 && Is8Digits(r[k].benchRceptDate)
    ensures PairFor(RowsOf(name, s, y0, y1), name, y0, y1)
    ensures RowsFrom(RowsOf(name, s, y0, y1), [name], y0, y1)
  {
  }

  /** Each row of rows is about one of names, in year y0 or y1, with an 8-digit date. */
  predicate RowsFrom(rows: seq<BenchMetaRow>, names: seq<string>, y0: int, y1: int) {
    forall k :: 0 <= k < |rows| ==>
      rows[k].benchmarkNameKr in names && Is8Digits(rows[k].benchRceptDate) && (rows[k].year == y0 || rows[k].year == y1)
  }

  lemma RowsFromAppend(a: seq<BenchMetaRow>, b: seq<BenchMetaRow>, names: seq<string>, x: string, y0: int, y1: int)
    requires RowsFrom(a, names, y0, y1) && RowsFrom(b, [x], y0, y1)
    ensures RowsFrom(a + b, names + [x], y0, y1)
  {
    forall k | 0 <= k < |a + b|
      ensures (a + b)[k].benchmarkNameKr in names + [x]
    {
      if k < |a| {
        assert (a + b)[k] == a[k];
      } else {
        assert (a + b)[k] == b[k - |a|];
      }
    }
  }

  /** external_rows holds rows of the listed names only, for the two years. */
  lemma {:induction false} ExternalRowsShape(names: seq<string>, em: map<string, EligEntry>, cm: map<string, CorpEntry>,
                                             api: ListApi, search: NameSearch, y0: int, y1: int)
    ensures RowsFrom(ExternalRows(names, em, cm, api, search, y0, y1), names, y0, y1)
  {
    if names != [] {
      var n := |names| - 1;
      ExternalRowsShape(names[..n], em, cm, api, search, y0, y1);
      RowsOfShape(names[n], Resolve(names[n], em, cm, api, search, y0, y1), y0, y1);
      RowsFromAppend(ExternalRows(names[..n], em, cm, api, search, y0, y1),
                     RowsOf(names[n], Resolve(names[n], em, cm, api, search, y0, y1), y0, y1), names[..n], names[n], y0, y1);
      assert names[..n] + [names[n]] == names;
    }
  }

  /** The result has one row per (benchmark_name_kr, year) and loses no key. */
  lemma BenchMetaKeys(targets: seq<TargetRow>, elig: seq<EligRow>, corpAll: seq<CorpRow>,
                      api: ListApi, search: NameSearch, order: seq<string>, y0: int, y1: int)
    ensures var ext := ExternalRows(order, EligMap(elig), CorpAllMap(corpAll), api, search, y0, y1);
      var r := BenchMetaOf(targets, elig, corpAll, api, search, order, y0, y1);
      KeysDistinct(r, MetaKey) && KeysOf(r, MetaKey) == KeysOf(InternalMeta(targets) + ext, MetaKey)
  {
    var ext := ExternalRows(order, EligMap(elig), CorpAllMap(corpAll), api, search, y0, y1);
    DedupFirstKeys(InternalMeta(targets) + ext, MetaKey);
  }

  /** Every target row is kept unless an earlier target row has its name and year. */
  lemma InternalKept(targets: seq<TargetRow>, elig: seq<EligRow>, corpAll: seq<CorpRow>,
                     api: ListApi, search: NameSearch, order: seq<string>, y0: int, y1: int, k: nat)
    requires k < |targets|
    requires forall j :: 0 <= j < k ==> (targets[j].corpNameKr, targets[j].year) != (targets[k].corpNameKr, targets[k].year)
    ensures InternalRow(targets[k]) in BenchMetaOf(targets, elig, corpAll, api, search, order, y0, y1)
  {
    var ext := ExternalRows(order, EligMap(elig), CorpAllMap(corpAll), api, search, y0, y1);
    var all := InternalMeta(targets) + ext;
    assert all[k] == InternalRow(targets[k]);
    assert FirstOfKey(all, MetaKey, k) by {
      forall j | 0 <= j < k ensures MetaKey(all[j]) != MetaKey(all[k]) {
        assert all[j] == InternalRow(targets[j]);
      }
    }
    DedupFirstAllFirst(all, MetaKey);
  }

  /** Two key-distinct row lists with no key in common concatenate to a key-distinct one. */
  lemma KeysDistinctAppend(a: seq<BenchMetaRow>, b: seq<BenchMetaRow>)
    requires KeysDistinct(a, MetaKey) && KeysDistinct(b, MetaKey)
    requires forall i, j :: 0 <= i < |a| && 0 <= j < |b| ==> MetaKey(a[i]) != MetaKey(b[j])
    ensures KeysDistinct(a + b, MetaKey)
  {
    forall i, j | 0 <= i < j < |a + b| ensures MetaKey((a + b)[i]) != MetaKey((a + b)[j]) {
      if j < |a| {
        assert (a + b)[i] == a[i] && (a + b)[j] == a[j];
      } else if i < |a| {
        assert (a + b)[i] == a[i] && (a + b)[j] == b[j - |a|];
      } else {
        assert (a + b)[i] == b[i - |a|] && (a + b)[j] == b[j - |a|];
      }
    }
  }

  /** The rows of one name: none, or one for y0 then one for y1. */
  predicate PairFor(b: seq<BenchMetaRow>, x: string, y0: int, y1: int) {
    |b| == 0 || (|b| == 2 && b[0].year == y0 && b[1].year == y1 && b[0].benchmarkNameKr == x && b[1].benchmarkNameKr == x)
  }

  /** Appending the rows of a new name keeps keys distinct. */
  lemma ExternalStep(a: seq<BenchMetaRow>, b: seq<BenchMetaRow>, prefix: seq<string>, x: string, y0: int, y1: int)
    requires KeysDistinct(a, MetaKey) && RowsFrom(a, prefix, y0, y1) && x !in prefix
    requires PairFor(b, x, y0, y1) && y0 != y1
    ensures KeysDistinct(a + b, MetaKey)
  {
    forall i, j | 0 <= i < |a| && 0 <= j < |b| ensures MetaKey(a[i]) != MetaKey(b[j]) {
      assert a[i].benchmarkNameKr in prefix;
    }
    KeysDistinctAppend(a, b);
  }

  /** Distinct names and distinct years give external_rows one row per key. */
  lemma {:induction false} ExternalKeysDistinct(names: seq<string>, em: map<string, EligEntry>, cm: map<string, CorpEntry>,
                                                api: ListApi, search: NameSearch, y0: int, y1: int)
    requires forall i, j :: 0 <= i < j < |names| ==> names[i] != names[j]
    requires y0 != y1
    ensures KeysDistinct(ExternalRows(names, em, cm, api, search, y0, y1), MetaKey)
  {
    if names != [] {
      var n := |names| - 1;
      var s := Resolve(names[n], em, cm, api, search, y0, y1);
      ExternalKeysDistinct(names[..n], em, cm, api, search, y0, y1);
      ExternalRowsShape(names[..n], em, cm, api, search, y0, y1);
      RowsOfShape(names[n], s, y0, y1);
      assert names[n] !in names[..n];
      ExternalStep(ExternalRows(names[..n], em, cm, api, search, y0, y1), RowsOf(names[n], s, y0, y1), names[..n], names[n], y0, y1);
    }
  }

  /** An external row whose name is not a target name and whose key is not
      repeated earlier among the external rows is the first of its key. */
  lemma ExternalFirst(targets: seq<TargetRow>, ext: seq<BenchMetaRow>, k: nat)
    requires k < |ext| && KeysDistinct(ext, MetaKey)
    requires ext[k].benchmarkNameKr !in TargetNames(targets)
    ensures |targets| + k < |InternalMeta(targets) + ext|
    ensures FirstOfKey(InternalMeta(targets) + ext, MetaKey, |targets| + k)
  {
    var im := InternalMeta(targets);
    var all := im + ext;
    assert all[|im| + k] == ext[k];
    forall j | 0 <= j < |im| + k ensures MetaKey(all[j]) != MetaKey(ext[k]) {
      if j < |im| {
        assert all[j] == InternalRow(targets[j]);
        assert targets[j].corpNameKr in TargetNames(targets);
      } else {
        assert all[j] == ext[j - |im|];
      }
    }
  }

  /** Every external row survives the deduplication: an external name is never
      a target name, and external keys are distinct. */
  lemma ExternalKept(targets: seq<TargetRow>, elig: seq<EligRow>, corpAll: seq<CorpRow>,
                     api: ListApi, search: NameSearch, order: seq<string>, y0: int, y1: int, row: BenchMetaRow)
    requires Enumerates(order, ExternalNames(targets))
    requires y0 != y1
    requires row in ExternalRows(order, EligMap(elig), CorpAllMap(corpAll), api, search, y0, y1)
    ensures row in BenchMetaOf(targets, elig, corpAll, api, search, order, y0, y1)
  {
    var ext: seq<BenchMetaRow> := ExternalRows(order, EligMap(elig), CorpAllMap(corpAll), api, search, y0, y1);
    var k :| 0 <= k < |ext| && ext[k] == row;
    ExternalRowsShape(order, EligMap(elig), CorpAllMap(corpAll), api, search, y0, y1);
    ExternalKeysDistinct(order, EligMap(elig), CorpAllMap(corpAll), api, search, y0, y1);
    assert row.benchmarkNameKr in ExternalNames(targets);
    ExternalFirst(targets, ext, k);
    DedupFirstAllFirst(InternalMeta(targets) + ext, MetaKey);
    assert (InternalMeta(targets) + ext)[|targets| + k] == row;
  }
}
