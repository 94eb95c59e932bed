/** Spreadsheet contents and the upstream calls the adapter makes. */
module Sheets {
  import opened Wrappers

  /** A raw cell; a number carries its printed form. */
  datatype Cell = Nil | Text(text: string) | Bool(value: bool) | Number(printed: string)

  type Row = seq<Cell>

  datatype Tab = Tab(title: string, columnCount: int, rows: seq<Row>)

  datatype Call = SpreadsheetMeta | Charge | Values(range: string)

  datatype ChargeOutcome = Allowed | Denied(retryAfter: nat) | Failed

  const MAX_RESULT_BYTES := 256 * 1024

  function CellString(c: Cell): string {
    match c
    case Nil => ""
    case Text(t) => t
    case Bool(b) => if b then "true" else "false"
    case Number(p) => p
  }

  /** The first tab with the given title. */
  function FindTab(tabs: seq<Tab>, title: string): (t: Option<Tab>)
    ensures t.None? ==> forall i :: 0 <= i < |tabs| ==> tabs[i].title != title
    ensures t.Some? ==> exists i :: 0 <= i < |tabs| && tabs[i] == t.value && tabs[i].title == title
                                    && forall j :: 0 <= j < i ==> tabs[j].title != title
  {
    if tabs == [] then None
    else if tabs[0].title == title then Some(tabs[0])
    else
      var t := FindTab(tabs[1..], title);
      assert t.Some? ==> forall i :: 0 <= i < |tabs[1..]| ==> tabs[i + 1] == tabs[1..][i];
      t
  }

  /** What upstream returns for rows row1 to row2 of a tab: the ones that exist. */
  function RowsBetween(rows: seq<Row>, row1: nat, row2: nat): (page: seq<Row>)
    requires 1 <= row1 <= row2 + 1
    ensures |page| <= row2 + 1 - row1
    ensures row2 <= |rows| ==> |page| == row2 + 1 - row1
  {
    if |rows| < row1 then [] else if row2 <= |rows| then rows[row1 - 1..row2] else rows[row1 - 1..]
  }
}
