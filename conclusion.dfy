/** The conclusion section retrievers of src/sections/c10_conclusion: the
    strength summary flags a metric row when either improvement flag is
    True, the risk summary when either is False; each renders the flagged
    rows as a candidate table beside packed business evidence and three
    year-on-year anchor tables. */
module Conclusion {
  import opened Common
  import opened Json
  import opened Swot
  import SectionIo
  import Templates

  /** _flag_strength (want = true) and _flag_weak_or_risk (want = false):
      either flag is `want`. */
  predicate Flagged(r: Dict, want: bool) { YoyIs(r, want) || BenchIs(r, want) }

  function FlaggedOf(want: bool): Dict -> bool { r => Flagged(r, want) }

  /** `[r for r in rows_list if _flag_...(r)]`. */
  function SignalRows(rows: seq<Dict>, want: bool): seq<Dict> {
    Filter(rows, FlaggedOf(want))
  }

  /** The summary list holds every core and aux candidate of the SWOT split
      with the same polarity, and a row whose flags are both booleans is
      flagged only if it is one of them. */
  lemma SignalRowsVsCandidates(rows: seq<Dict>, want: bool)
    ensures forall x :: x in Candidates(rows, want).0 || x in Candidates(rows, want).1 ==> x in SignalRows(rows, want)
    ensures forall x :: x in SignalRows(rows, want) && Decided(x) ==>
              x in Candidates(rows, want).0 || x in Candidates(rows, want).1
  {
    CandidatesSpec(rows, want);
  }

  /** A row with two boolean flags is in the strength list, the risk list
      or both, and it is in both exactly when it is an aux candidate. */
  lemma SummariesCover(rows: seq<Dict>)
    ensures forall x :: x in rows && Decided(x) ==> x in SignalRows(rows, true) || x in SignalRows(rows, false)
    ensures forall x :: x in Candidates(rows, true).1 <==>
              x in SignalRows(rows, true) && x in SignalRows(rows, false) && Decided(x)
  {
    CandidatesSpec(rows, true);
  }

  datatype SummaryCtx = SummaryCtx(meta: MetaFields, bridgeText: string, businessEvidence: string, anchors: seq<string>,
                                   signalTable: string)

  function SummaryTitle(want: bool): string {
    if want then "Strength 후보(개선/우위 신호)" else "주의/약점 신호 후보(개선=False 포함)"
  }

  /** At most 10 biz rows are packed for the strength summary, 8 for the
      risk summary. */
  function EvidenceCap(want: bool): nat { if want then 10 else 8 }

  /** The metric keys of the three anchor tables. */
  function AnchorKeys(want: bool): (ks: seq<seq<string>>)
    ensures |ks| == 3
  {
    if want then [["REVENUE", "OP_PROFIT", "NET_INCOME"], ["OCF", "CASH_EQ"],
                  ["TOTAL_LIABILITIES", "CURRENT_LIABILITIES", "EQUITY"]]
    else [["CURRENT_ASSETS", "INVENTORIES", "CASH_EQ", "CURRENT_LIABILITIES"],
          ["TOTAL_LIABILITIES", "SHORT_TERM_DEBT", "LONG_TERM_DEBT", "TOTAL_ASSETS"],
          ["OP_PROFIT", "OCF", "INTEREST_EXP"]]
  }

  function AnchorTable(metricRows: Templates.MetricRows, keys: seq<string>, show: Show): string {
    Templates.MdTable(Templates.T1_HEADERS, Templates.T1Rows(metricRows, keys, show))
  }

  function Anchors(metricRows: Templates.MetricRows, ks: seq<seq<string>>, show: Show): seq<string>
    requires |ks| == 3
  {
    [AnchorTable(metricRows, ks[0], show), AnchorTable(metricRows, ks[1], show), AnchorTable(metricRows, ks[2], show)]
  }

  method RenderAnchors(metricRows: Templates.MetricRows, ks: seq<seq<string>>, show: Show) returns (anchors: seq<string>)
    requires |ks| == 3
    ensures anchors == Anchors(metricRows, ks, show)
  {
    var a0 := Templates.RenderT1Yoy(metricRows, ks[0], show);
    var a1 := Templates.RenderT1Yoy(metricRows, ks[1], show);
    var a2 := Templates.RenderT1Yoy(metricRows, ks[2], show);
    anchors := [a0, a1, a2];
  }

  /** build_ctx of the strength summary (want = true) and the risk summary
      (want = false): the top-level bridge text, the first min(n, 10) or
      min(n, 8) biz rows packed (or "제공 없음"), the anchor tables and the
      table of the flagged rows, at most 12 of them, with corp_name and
      bsns_year from meta.json. Only the bridge file, the evidence types and
      a meta that is not a dict can raise. */
  method BuildSummaryCtx(files: SectionIo.Files, workdir: string, meta: Value, rows: seq<Dict>, evidenceRows: seq<Value>,
                         metricRows: Templates.MetricRows, want: bool, show: Show, parse: string -> Option<real>)
    returns (ctx: Result<SummaryCtx>)
    ensures ctx.Ok? <==> TopBridgeText(files, workdir).Ok? && BizRows(evidenceRows).Ok? && meta.JObj?
    ensures ctx.Err? && TopBridgeText(files, workdir).Ok? && BizRows(evidenceRows).Ok? ==> ctx == Err(NOT_DICT)
    ensures ctx.Ok? ==>
              var biz := BizRows(evidenceRows).value;
              ctx.value.meta == MetaFieldsOf(meta).value
              && ctx.value.bridgeText == TopBridgeText(files, workdir).value
              && BusinessEvidence(biz, Min(|biz|, EvidenceCap(want)), show) == Ok(ctx.value.businessEvidence)
              && (ctx.value.businessEvidence == NONE_GIVEN <==> biz == [])
              && ctx.value.signalTable == SignalTable(SummaryTitle(want), SignalRows(rows, want), TABLE_LIMIT, show, parse)
              && ctx.value.anchors == Anchors(metricRows, AnchorKeys(want), show)
  {
    var bridge := TopBridgeText(files, workdir);
    if bridge.Err? {
      return Err(bridge.msg);
    }
    var biz := BizRows(evidenceRows);
    if biz.Err? {
      return Err(biz.msg);
    }
    // meta.get runs last in the source; nothing between here and there raises.
    var mf := MetaFieldsOf(meta);
    if mf.Err? {
      return Err(mf.msg);
    }
    var evidence := NONE_GIVEN;
    var topk := Min(|biz.value|, EvidenceCap(want));
    if biz.value != [] {
      BusinessEvidenceSpec(evidenceRows, topk, show);
      evidence := SectionIo.PackEvidence(biz.value, topk, false, show).value;
    } else {
      assert BusinessEvidence(biz.value, topk, show) == Ok(NONE_GIVEN);
    }
    var flagged := SignalRows(rows, want);
    var table := RenderSignalTable(SummaryTitle(want), flagged, TABLE_LIMIT, show, parse);
    var anchors := RenderAnchors(metricRows, AnchorKeys(want), show);
    ctx := Ok(SummaryCtx(mf.value, bridge.value, evidence, anchors, table));
  }
}
