/** CorpCodeManager._standardize_df (resources/corp_codes.py): the DART
    corporation list is cut down to five columns in a fixed order, missing
    columns are filled with "", the codes lose a trailing ".0" and are
    zero-padded, and the padding of an absent stock code is blanked again. */
module CorpCodes {
  import opened Common
  import CompanyData

  const CORP_CODE := "corp_code"
  const CORP_NAME := "corp_name"
  const CORP_ENG_NAME := "corp_eng_name"
  const STOCK_CODE := "stock_code"
  const MODIFY_DATE := "modify_date"

  /** self.required_cols. */
  const REQUIRED_COLS: seq<string> := [CORP_CODE, CORP_NAME, CORP_ENG_NAME, STOCK_CODE, MODIFY_DATE]

  /** A DataFrame: its column names in order and, per row, the str()
      rendering of each cell in column order. */
  datatype Frame = Frame(columns: seq<string>, rows: seq<seq<string>>)

  /** Distinct column names, one cell per column in every row. */
  predicate WellFormed(df: Frame) {
    (forall i, j :: 0 <= i < j < |df.columns| ==> df.columns[i] != df.columns[j])
    && forall r :: 0 <= r < |df.rows| ==> |df.rows[r]| == |df.columns|
  }

  /** The position of a column, if the frame has it. */
  function ColumnIndex(cols: seq<string>, name: string): (r: Option<nat>)
    ensures r.Some? ==> r.value < |cols| && cols[r.value] == name
    ensures r.None? <==> name !in cols
  {
    if cols == [] then None
    else if cols[0] == name then Some(0)
    else match ColumnIndex(cols[1..], name)
      case Some(i) => Some(i + 1)
      case None => None
  }

  /** A cell of a row after the missing columns were added with "". */
  function CellOf(df: Frame, row: seq<string>, name: string): string {
    match ColumnIndex(df.columns, name)
    case Some(i) => if i < |row| then row[i] else ""
    case None => ""
  }

  /** .str.replace(r"\.0$", "").str.zfill(width) on a str-cast column. */
  function PadCode(s: string, width: nat): string {
    ZFill(CompanyData.DropDotZero(s), width)
  }

  /** The stock code column: padded to 6, and "000000" becomes "". */
  function StockCodeOf(s: string): string {
    var p := PadCode(s, 6);
    if p == "000000" then "" else p
  }

  /** One output row, in REQUIRED_COLS order. */
  function StandardizeRow(df: Frame, row: seq<string>): seq<string> {
    [PadCode(CellOf(df, row, CORP_CODE), 8),
     CellOf(df, row, CORP_NAME),
     CellOf(df, row, CORP_ENG_NAME),
     StockCodeOf(CellOf(df, row, STOCK_CODE)),
     CellOf(df, row, MODIFY_DATE)]
  }

  function StandardizeDf(df: Frame): (r: Frame)
    ensures r.columns == REQUIRED_COLS
    ensures |r.rows| == |df.rows|
  {
    Frame(REQUIRED_COLS, seq(|df.rows|, i requires 0 <= i < |df.rows| => StandardizeRow(df, df.rows[i])))
  }

  /** The result is a well-formed frame whose columns are exactly the
      required ones, in order, with one row per input row. */
  lemma StandardizeShape(df: Frame)
    ensures WellFormed(StandardizeDf(df))
    ensures StandardizeDf(df).columns == REQUIRED_COLS
    ensures |StandardizeDf(df).rows| == |df.rows|
  {
  }

  /** Name, English name and modify date are copied from the input when the
      column exists and are "" when it does not. */
  lemma CopiedColumns(df: Frame, r: nat, name: string)
    requires WellFormed(df) && r < |df.rows|
    requires name in {CORP_NAME, CORP_ENG_NAME, MODIFY_DATE}
    ensures var k := if name == CORP_NAME then 1 else if name == CORP_ENG_NAME then 2 else 4;
            StandardizeDf(df).rows[r][k] == (if name in df.columns then df.rows[r][ColumnIndex(df.columns, name).value] else "")
  {
  }

  /** The stock code is either "" or at least 6 characters other than
      "000000"; it is "" exactly when the padded code is all zeros. */
  lemma StockCodeSpec(s: string)
    ensures StockCodeOf(s) == "" <==> PadCode(s, 6) == "000000"
    ensures StockCodeOf(s) != "" ==> |StockCodeOf(s)| >= 6 && StockCodeOf(s) != "000000"
  {
    var p := PadCode(s, 6);
    assert |p| >= 6;
  }

  /** The corporation code is at least 8 long, ends with the cell minus a
      trailing ".0", and has only '0's before it. */
  lemma CorpCodeSpec(s: string)
    ensures var d := CompanyData.DropDotZero(s);
            var p := PadCode(s, 8);
            |p| == Max(8, |d|) && EndsWith(p, d)
            && forall k :: 0 <= k < |p| - |d| ==> p[k] == '0'
  {
  }

  /** A missing stock_code column gives "" and a missing corp_code column
      gives eight zeros. */
  lemma MissingCodes(df: Frame, r: nat)
    requires r < |df.rows|
    requires STOCK_CODE !in df.columns && CORP_CODE !in df.columns
    ensures StandardizeDf(df).rows[r][3] == ""
    ensures StandardizeDf(df).rows[r][0] == "00000000"
  {
    assert CompanyData.DropDotZero("") == "";
    assert ZFill("", 6) == "000000";
  }

  /** A stock code read back as a float ("5930.0") is restored to "005930",
      and a blank one ("0.0" or "") becomes "". */
  lemma StockCodeExamples()
    ensures StockCodeOf("5930.0") == "005930"
    ensures StockCodeOf("0.0") == ""
    ensures StockCodeOf("") == ""
  {
    assert CompanyData.DropDotZero("5930.0") == "5930";
    assert CompanyData.DropDotZero("0.0") == "0";
    assert CompanyData.DropDotZero("") == "";
  }
}
