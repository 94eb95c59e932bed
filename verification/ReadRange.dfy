/** `sheets_read_range`: resolve a parsed range against the sheet, re-check it, charge, read, pad. */
module ReadRange {
  import opened Wrappers
  import opened A1Columns
  import opened A1Range
  import opened Sheets

  datatype ReadError =
    | MetaFailed
    | NoTabs
    | SheetNotFound
    | TooLarge
    | ChargeFailed
    | RateLimited(retryAfter: nat)
    | FetchFailed
    | ResultTooLarge

  datatype ReadRangeOutput = ReadRangeOutput(
    range: string, sheetName: string, columns: seq<string>, rows: seq<seq<string>>, rowCount: nat, columnCount: nat)

  function ChargeOne(charger: Option<ChargeOutcome>): Option<ReadError> {
    match charger
    case None => None
    case Some(Allowed) => None
    case Some(Denied(s)) => Some(RateLimited(s))
    case Some(Failed) => Some(ChargeFailed)
  }

  /** The tab a parsed range addresses: its own name, or the first tab. */
  function TargetTab(tabs: seq<Tab>, parsed: ParsedA1Range): Result<Tab, ReadError> {
    if !parsed.hasSheetName && tabs == [] then Err(NoTabs)
    else
      match FindTab(tabs, if parsed.hasSheetName then parsed.sheetName else tabs[0].title)
      case None => Err(SheetNotFound)
      case Some(tab) => Ok(tab)
  }

  /** The parsed range with its sheet and, for a row-only range, its columns filled in. */
  function Resolve(parsed: ParsedA1Range, tab: Tab): ParsedA1Range {
    if parsed.startCol >= 0 then parsed.(sheetName := tab.title, hasSheetName := true)
    else parsed.(sheetName := tab.title, hasSheetName := true, startCol := 0, endCol := Max(tab.columnCount - 1, 0))
  }

  /** A row cut or padded with "" to the given width. */
  function Pad(row: Row, width: nat): (out: seq<string>)
    ensures |out| == width
    ensures forall j :: 0 <= j < width ==> out[j] == if j < |row| then CellString(row[j]) else ""
  {
    seq(width, j requires 0 <= j < width => if j < |row| then CellString(row[j]) else "")
  }

  /** The padded rows of a read. */
  function PadAll(rows: seq<Row>, width: nat): (out: seq<seq<string>>)
    ensures |out| == |rows| && forall i :: 0 <= i < |rows| ==> out[i] == Pad(rows[i], width)
  {
    seq(|rows|, i requires 0 <= i < |rows| => Pad(rows[i], width))
  }

  method PadRow(row: Row, width: nat) returns (out: seq<string>)
    ensures out == Pad(row, width)
  {
    out := [];
    for j := 0 to width
      invariant |out| == j
      invariant forall i :: 0 <= i < j ==> out[i] == if i < |row| then CellString(row[i]) else ""
    {
      out := out + [if j < |row| then CellString(row[j]) else ""];
    }
  }

  /** The calls made before the read: metadata, then one charge if there is a charger. */
  function CallsBefore(charger: Option<ChargeOutcome>): seq<Call> {
    if charger.None? then [SpreadsheetMeta] else [SpreadsheetMeta, Charge]
  }

  /** All calls made on the way to reading `range`. */
  function CallsFor(charger: Option<ChargeOutcome>, range: string): seq<Call> {
    CallsBefore(charger) + if ChargeOne(charger).Some? then [] else [Values(range)]
  }

  function Request(rect: ParsedA1Range): string
    requires WellFormed(rect) && rect.startCol >= 0
  {
    FormatA1Range(rect.sheetName, rect.startCol, rect.endCol, rect.startRow, rect.endRow)
  }

  /** What a successful read of rect returns, given the values upstream sent. */
  predicate ReadsBack(out: ReadRangeOutput, rect: ParsedA1Range, fetched: seq<Row>)
    requires WellFormed(rect) && rect.startCol >= 0
  {
    && out.sheetName == rect.sheetName
    && out.columnCount == |out.columns| == rect.endCol - rect.startCol + 1
    && (forall j :: 0 <= j < |out.columns| ==> out.columns[j] == Letters(rect.startCol + j))
    && out.rowCount == |out.rows|
    && out.rows == PadAll(fetched, out.columnCount)
  }

  /** The answer for a rectangle within the caps. */
  ghost predicate ReadOutcome(charger: Option<ChargeOutcome>, values: string -> Option<seq<Row>>,
                              encodedSize: seq<seq<string>> -> nat, rect: ParsedA1Range,
                              r: Result<ReadRangeOutput, ReadError>)
    requires WellFormed(rect) && rect.startCol >= 0
  {
    if ChargeOne(charger).Some? then r == Err(ChargeOne(charger).value)
    else if values(Request(rect)).None? then r == Err(FetchFailed)
    else
      var fetched := values(Request(rect)).value;
      if encodedSize(PadAll(fetched, rect.endCol - rect.startCol + 1)) > MAX_RESULT_BYTES then r == Err(ResultTooLarge)
      else r.Ok? && r.value.range == Request(rect) && ReadsBack(r.value, rect, fetched)
  }

  /** The answer once the tabs are known. */
  ghost predicate TabsRead(tabs: seq<Tab>, charger: Option<ChargeOutcome>, values: string -> Option<seq<Row>>,
                           encodedSize: seq<seq<string>> -> nat, parsed: ParsedA1Range,
                           r: Result<ReadRangeOutput, ReadError>, calls: seq<Call>)
  {
    match TargetTab(tabs, parsed)
    case Err(e) => r == Err(e) && calls == [SpreadsheetMeta]
    case Ok(tab) =>
      var rect := Resolve(parsed, tab);
      && WellFormed(rect) && rect.startCol >= 0
      && (!TrulySmall(rect) ==> r == Err(TooLarge) && calls == [SpreadsheetMeta])
      && (TrulySmall(rect) ==>
            ReadOutcome(charger, values, encodedSize, rect, r) && calls == CallsFor(charger, Request(rect)))
  }

  method ResolveColumns(parsed: ParsedA1Range, tab: Tab) returns (rect: ParsedA1Range)
    ensures rect == Resolve(parsed, tab)
  {
    var startCol, endCol := parsed.startCol, parsed.endCol;
    if startCol < 0 {
      startCol := 0;
      endCol := tab.columnCount - 1;
      if endCol < startCol {
        endCol := startCol;
      }
    }
    rect := ParsedA1Range(tab.title, true, startCol, endCol, parsed.startRow, parsed.endRow);
  }

  /** Columns and padded rows of a fetched rectangle. */
  method Assemble(range: string, rect: ParsedA1Range, fetched: seq<Row>) returns (out: ReadRangeOutput)
    requires WellFormed(rect) && rect.startCol >= 0
    ensures ReadsBack(out, rect, fetched) && out.range == range
  {
    var colSpan: nat := rect.endCol - rect.startCol + 1;
    var columns: seq<string> := [];
    for j := 0 to colSpan
      invariant |columns| == j
      invariant forall i :: 0 <= i < j ==> columns[i] == Letters(rect.startCol + i)
    {
      var letter := ColumnLetter(rect.startCol + j);
      columns := columns + [letter];
    }
    var rows: seq<seq<string>> := [];
    for i := 0 to |fetched|
      invariant |rows| == i
      invariant forall k :: 0 <= k < i ==> rows[k] == Pad(fetched[k], colSpan)
    {
      var row := PadRow(fetched[i], colSpan);
      rows := rows + [row];
    }
    out := ReadRangeOutput(range, rect.sheetName, columns, rows, |rows|, colSpan);
  }

  /** `readRange`. Nothing is charged or fetched for a rectangle over the caps. */
  method ReadRange(tabs: Option<seq<Tab>>, charger: Option<ChargeOutcome>, values: string -> Option<seq<Row>>,
                   encodedSize: seq<seq<string>> -> nat, parsed: ParsedA1Range)
    returns (r: Result<ReadRangeOutput, ReadError>, calls: seq<Call>)
    requires WellFormed(parsed)
    requires tabs.Some? ==> forall t :: t in tabs.value ==> t.columnCount <= MAX_COLUMN_INDEX + 1
    ensures tabs.None? ==> r == Err(MetaFailed) && calls == [SpreadsheetMeta]
    ensures tabs.Some? ==> TabsRead(tabs.value, charger, values, encodedSize, parsed, r, calls)
  {
    calls := [SpreadsheetMeta];
    if tabs.None? {
      return Err(MetaFailed), calls;
    }
    var target := TargetTab(tabs.value, parsed);
    if target.Err? {
      return Err(target.error), calls;
    }
    var rect := ResolveColumns(parsed, target.value);
    CapsAreExact(rect);
    if !WithinCaps(RowSpan(rect), CellCount(rect)) {
      return Err(TooLarge), calls;
    }
    var resolved := Request(rect);
    if charger.Some? {
      calls := calls + [Charge];
    }
    var refused := ChargeOne(charger);
    if refused.Some? {
      return Err(refused.value), calls;
    }
    calls := calls + [Values(resolved)];
    var fetched := values(resolved);
    if fetched.None? {
      return Err(FetchFailed), calls;
    }
    var out := Assemble(resolved, rect, fetched.value);
    if encodedSize(out.rows) > MAX_RESULT_BYTES {
      return Err(ResultTooLarge), calls;
    }
    return Ok(out), calls;
  }

  /** Resolving keeps the rows and any given columns, and names a tab of the spreadsheet. */
  lemma {:induction false} ResolvedRect(tabs: seq<Tab>, parsed: ParsedA1Range, rect: ParsedA1Range)
    requires WellFormed(parsed)
    requires forall t :: t in tabs ==> t.columnCount <= MAX_COLUMN_INDEX + 1
    requires TargetTab(tabs, parsed).Ok? && rect == Resolve(parsed, TargetTab(tabs, parsed).value)
    ensures WellFormed(rect) && rect.startCol >= 0 && rect.hasSheetName
    ensures exists t :: t in tabs && t.title == rect.sheetName
    ensures rect.startRow == parsed.startRow && rect.endRow == parsed.endRow
    ensures parsed.startCol >= 0 ==> rect.startCol == parsed.startCol && rect.endCol == parsed.endCol
  {
    var t := TargetTab(tabs, parsed).value;
    assert t in tabs && t.title == rect.sheetName;
  }

  /** The i-th tab is the one that the range addresses: the first of the name it gives, or without a name
      the first of all. */
  ghost predicate IsTarget(tabs: seq<Tab>, parsed: ParsedA1Range, i: int) {
    && 0 <= i < |tabs|
    && if parsed.hasSheetName then
         tabs[i].title == parsed.sheetName && forall j :: 0 <= j < i ==> tabs[j].title != parsed.sheetName
       else i == 0
  }

  lemma {:induction false} TargetExactly(tabs: seq<Tab>, parsed: ParsedA1Range)
    ensures forall i :: IsTarget(tabs, parsed, i) ==> TargetTab(tabs, parsed) == Ok(tabs[i])
    ensures TargetTab(tabs, parsed).Err? ==>
              TargetTab(tabs, parsed).error == if parsed.hasSheetName then SheetNotFound else NoTabs
    ensures TargetTab(tabs, parsed).Ok? ==> exists i :: IsTarget(tabs, parsed, i)
  {
    var title := if parsed.hasSheetName || tabs == [] then parsed.sheetName else tabs[0].title;
    var found := FindTab(tabs, title);
    if found.Some? {
      var k :| 0 <= k < |tabs| && tabs[k] == found.value && tabs[k].title == title
               && forall j :: 0 <= j < k ==> tabs[j].title != title;
      assert parsed.hasSheetName ==> IsTarget(tabs, parsed, k);
      assert !parsed.hasSheetName && tabs != [] ==> k == 0 && IsTarget(tabs, parsed, 0);
      forall i | IsTarget(tabs, parsed, i) ensures tabs[i] == found.value {
        assert tabs[i].title == title;
        assert i == k;
      }
    }
  }

  /** The columns to read: those given, or all of the tab's, of which there is always one. */
  function LastColumn(parsed: ParsedA1Range, tab: Tab): int {
    if parsed.startCol >= 0 then parsed.endCol else if tab.columnCount >= 1 then tab.columnCount - 1 else 0
  }

  /** A rectangle over a cap is refused before anything is charged or read, and an empty bucket or a failing
      charge before anything is read; the read itself names exactly the tab and the rectangle. */
  lemma {:induction false} RefusedBeforeReading(tabs: seq<Tab>, charger: Option<ChargeOutcome>,
                                                values: string -> Option<seq<Row>>,
                                                encodedSize: seq<seq<string>> -> nat, parsed: ParsedA1Range,
                                                r: Result<ReadRangeOutput, ReadError>, calls: seq<Call>, i: nat)
    requires WellFormed(parsed) && TabsRead(tabs, charger, values, encodedSize, parsed, r, calls)
    requires IsTarget(tabs, parsed, i)
    ensures var first, last := Max(parsed.startCol, 0), LastColumn(parsed, tabs[i]);
            var height, width := parsed.endRow - parsed.startRow + 1, last - first + 1;
            var before := if charger.None? then [SpreadsheetMeta] else [SpreadsheetMeta, Charge];
            if height > 1000 || height * width > 20000 then r == Err(TooLarge) && calls == [SpreadsheetMeta]
            else
              match charger
              case Some(Denied(s)) => r == Err(RateLimited(s)) && calls == before
              case Some(Failed) => r == Err(ChargeFailed) && calls == before
              case _ =>
                var request := FormatA1Range(tabs[i].title, first, last, parsed.startRow, parsed.endRow);
                && calls == before + [Values(request)]
                && (values(request).None? <==> r == Err(FetchFailed))
                && (r.Err? && values(request).Some? ==>
                      r == Err(ResultTooLarge) && Oversized(values(request).value, width, encodedSize))
  {
    TargetExactly(tabs, parsed);
    var rect := Resolve(parsed, tabs[i]);
    if values(Request(rect)).Some? {
      PadAllPads(values(Request(rect)).value, rect.endCol - rect.startCol + 1);
    }
  }

  /** The rows are the fetched ones, each cut or filled up with "" to the width. */
  ghost predicate Pads(rows: seq<seq<string>>, fetched: seq<Row>, width: int) {
    && |rows| == |fetched|
    && forall k :: 0 <= k < |rows| ==>
         && |rows[k]| == width
         && forall j :: 0 <= j < width ==> rows[k][j] == if j < |fetched[k]| then CellString(fetched[k][j]) else ""
  }

  /** The padded rows encode to more than 256 KiB. */
  ghost predicate Oversized(fetched: seq<Row>, width: int, encodedSize: seq<seq<string>> -> nat) {
    exists rows :: Pads(rows, fetched, width) && encodedSize(rows) > 262_144
  }

  lemma PadAllPads(fetched: seq<Row>, width: nat)
    ensures Pads(PadAll(fetched, width), fetched, width)
  {
  }

  /** What a read returns is the tab's rectangle, column by column and row by row, missing cells as "". */
  lemma {:induction false} ReadIsTrue(tabs: seq<Tab>, charger: Option<ChargeOutcome>,
                                      values: string -> Option<seq<Row>>, encodedSize: seq<seq<string>> -> nat,
                                      parsed: ParsedA1Range, out: ReadRangeOutput, calls: seq<Call>, i: nat)
    requires WellFormed(parsed) && TabsRead(tabs, charger, values, encodedSize, parsed, Ok(out), calls)
    requires IsTarget(tabs, parsed, i)
    ensures var first, last := Max(parsed.startCol, 0), LastColumn(parsed, tabs[i]);
            && out.sheetName == tabs[i].title && first <= last
            && out.range == FormatA1Range(tabs[i].title, first, last, parsed.startRow, parsed.endRow)
            && out.columnCount == |out.columns| == last - first + 1
            && (forall j :: 0 <= j < |out.columns| ==> out.columns[j] == Letters(first + j))
            && values(out.range).Some? && out.rowCount == |out.rows| && encodedSize(out.rows) <= 262_144
            && Pads(out.rows, values(out.range).value, out.columnCount)
  {
    TargetExactly(tabs, parsed);
    PadAllPads(values(out.range).value, out.columnCount);
  }

  /** The range sent upstream and echoed back is that rectangle and nothing else. */
  lemma {:induction false} RequestIsExact(rect: ParsedA1Range)
    requires WellFormed(rect) && rect.startCol >= 0 && rect.hasSheetName
    ensures ParseA1Range(Request(rect)) == Ok(rect)
  {
    ParseOfFormat(rect.sheetName, rect.startCol, rect.endCol, rect.startRow, rect.endRow);
  }
}
