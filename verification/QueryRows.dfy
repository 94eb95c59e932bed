/** `sheets_query_rows`: the bounded scan's answer and the whole-sheet query it refines. */
module QueryRows {
  import opened Wrappers
  import opened Decimal
  import opened A1Range
  import opened Sheets
  import opened RowScan

  const MAX_LIMIT := 200

  datatype Input = Input(spreadsheetId: string, sheetName: string, filters: seq<Filter>, columns: seq<string>,
                         limit: int, offset: int)

  datatype QueryError =
    | MetaFailed | SheetNotFound | HeaderFailed | ColumnNotFound(column: string)
    | ScanFailed(why: ScanError) | ResultTooLarge

  datatype Output = Output(
    columns: seq<string>, rows: seq<Record>, count: nat, offset: nat, hasMore: bool, nextOffset: nat,
    scannedRows: nat, scanComplete: bool, total: Option<nat>)

  // ----- the header row -----

  function Headers(header: Row): (h: seq<string>)
    ensures |h| == |header|
    ensures forall i :: 0 <= i < |header| ==> h[i] == CellString(header[i])
  {
    seq(|header|, i requires 0 <= i < |header| => CellString(header[i]))
  }

  /** The column of each non-empty header; a repeated header keeps its last column. */
  function HeaderIndex(headers: seq<string>): map<string, nat> {
    if headers == [] then map[]
    else
      var n := |headers| - 1;
      if headers[n] == "" then HeaderIndex(headers[..n]) else HeaderIndex(headers[..n])[headers[n] := n]
  }

  lemma {:induction false} HeaderIndexMeaning(headers: seq<string>, h: string)
    ensures h in HeaderIndex(headers) <==> h != "" && h in headers
    ensures h in HeaderIndex(headers) ==>
              var i := HeaderIndex(headers)[h];
              i < |headers| && headers[i] == h && forall j :: i < j < |headers| ==> headers[j] != h
  {
    if headers != [] {
      var n := |headers| - 1;
      assert headers == headers[..n] + [headers[n]];
      HeaderIndexMeaning(headers[..n], h);
    }
  }

  method ReadHeader(header: Row) returns (headers: seq<string>, headerIndex: map<string, nat>)
    ensures headers == Headers(header)
    ensures headerIndex == HeaderIndex(headers)
  {
    headers, headerIndex := [], map[];
    for i := 0 to |header|
      invariant headers == Headers(header)[..i]
      invariant headerIndex == HeaderIndex(headers)
    {
      var h := CellString(header[i]);
      assert (headers + [h])[..i] == headers;
      headers := headers + [h];
      if h != "" {
        headerIndex := headerIndex[h := i];
      }
    }
  }

  /** The part of s from position offset up to limit elements. */
  function Window<T>(s: seq<T>, offset: nat, limit: nat): (w: seq<T>)
    ensures |w| <= limit
  {
    if |s| <= offset then [] else if |s| <= offset + limit then s[offset..] else s[offset..offset + limit]
  }

  function HeaderOf(grid: seq<Row>, headerRow: nat): Row {
    if 1 <= headerRow <= |grid| then grid[headerRow - 1] else []
  }

  function SelectionFor(header: Row, filters: seq<Filter>, columns: seq<string>): Selection {
    var headers := Headers(header);
    Selection(HeaderIndex(headers), filters, if columns == [] then headers else columns)
  }

  /** The first column the input names that the sheet does not have. */
  function FirstUnknown(columns: seq<string>, headerIndex: map<string, nat>): (c: Option<string>)
    ensures c.None? <==> forall i :: 0 <= i < |columns| ==> columns[i] in headerIndex
  {
    if columns == [] then None
    else if columns[0] !in headerIndex then Some(columns[0])
    else FirstUnknown(columns[1..], headerIndex)
  }

  function FilterColumns(filters: seq<Filter>): (cs: seq<string>)
    ensures |cs| == |filters|
    ensures forall i :: 0 <= i < |filters| ==> cs[i] == filters[i].column
  {
    seq(|filters|, i requires 0 <= i < |filters| => filters[i].column)
  }

  function UnknownColumn(header: Row, input: Input): Option<string> {
    var hi := HeaderIndex(Headers(header));
    match FirstUnknown(FilterColumns(input.filters), hi)
    case Some(c) => Some(c)
    case None => FirstUnknown(input.columns, hi)
  }

  /** The output a stopped scan must give. */
  function OutputFor(data: seq<Row>, q: Selection, offset: nat, limit: nat, stop: Stop, scanned: nat): Output
    requires scanned <= |data|
  {
    var found := Select(data[..scanned], q);
    var rows := Window(found, offset, limit);
    Output(q.projection, rows, |rows|, offset, stop == Cap, offset + limit, scanned, stop == End,
           if stop == End then Some(|found|) else None)
  }

  /** A plan that retains one row past the window, so that it can tell whether there are more. */
  predicate PlanFor(plan: Plan, offset: nat, limit: nat) {
    plan.Valid() && plan.retainCap == offset + limit + 1
  }

  /** What a successful query returns: where its scan stopped, and the output that stop determines. */
  ghost predicate Answers(plan: Plan, offset: nat, limit: nat, stop: Stop, pages: nat, out: Output) {
    && PlanFor(plan, offset, limit)
    && plan.Stopped(stop, pages, out.scannedRows)
    && out == OutputFor(plan.Data(), plan.q, offset, limit, stop, out.scannedRows)
  }

  /** The range string of a tab's rows, as `a1RowRange` prints it. */
  function RowRanges(title: string): (nat, nat) -> string {
    (row1: nat, row2: nat) => A1RowRange(title, row1, row2)
  }

  /** `ValidateQueryRowsInput`, up to the filters' own shape. */
  predicate ValidInput(input: Input) {
    input.spreadsheetId != "" && input.sheetName != "" && 1 <= input.limit <= MAX_LIMIT && 0 <= input.offset
  }

  /** The scan that answers an input on a tab's grid. */
  function PlanOf(grid: seq<Row>, headerRow: nat, q: Selection, input: Input, env: Env, pageSize: nat,
                  scanBudget: int): (plan: Plan)
    requires ValidInput(input) && headerRow >= 1 && pageSize >= 1
    ensures PlanFor(plan, input.offset, input.limit)
  {
    Plan(grid, headerRow, q, input.offset + input.limit + 1, env, pageSize, scanBudget, RowRanges(input.sheetName))
  }

  /** Header, filters and projection resolved against the header row, or the first unknown column. */
  function Resolve(grid: seq<Row>, headerRow: nat, input: Input): Result<Selection, QueryError> {
    match UnknownColumn(HeaderOf(grid, headerRow), input)
    case Some(c) => Err(ColumnNotFound(c))
    case None => Ok(SelectionFor(HeaderOf(grid, headerRow), input.filters, input.columns))
  }

  method ResolveColumns(grid: seq<Row>, headerRow: nat, input: Input) returns (r: Result<Selection, QueryError>)
    ensures r == Resolve(grid, headerRow, input)
  {
    var header := HeaderOf(grid, headerRow);
    var headers, headerIndex := ReadHeader(header);
    var unknown := UnknownColumn(header, input);
    if unknown.Some? {
      return Err(ColumnNotFound(unknown.value));
    }
    return Ok(Selection(headerIndex, input.filters, if input.columns == [] then headers else input.columns));
  }

  /** The calls made before the first page: metadata and the header row. */
  function Opening(ranges: (nat, nat) -> string, headerRow: nat): seq<Call> {
    [SpreadsheetMeta, Values(ranges(headerRow, headerRow))]
  }

  /** `queryRows`. The offset is small enough that offset + limit + 1 is an int. */
  method QueryRows(tabs: Option<seq<Tab>>, headerRow: nat, headerFails: bool, input: Input, env: Env,
                   encodedSize: seq<Record> -> nat, pageSize: nat, scanBudget: int)
    returns (r: Result<Output, QueryError>, stop: Stop, pages: nat, calls: seq<Call>)
    requires ValidInput(input) && input.offset + input.limit + 1 <= MAX_INT
    requires headerRow >= 1 && pageSize >= 1
    ensures tabs.None? ==> r == Err(MetaFailed) && calls == [SpreadsheetMeta]
    ensures tabs.Some? && FindTab(tabs.value, input.sheetName).None? ==>
              r == Err(SheetNotFound) && calls == [SpreadsheetMeta]
    ensures tabs.Some? && FindTab(tabs.value, input.sheetName).Some? ==>
              TabAnswered(FindTab(tabs.value, input.sheetName).value.rows, headerRow, headerFails, input, env,
                          encodedSize, pageSize, scanBudget, r, stop, pages, calls)
  {
    stop, pages := Bucket, 0;
    calls := [SpreadsheetMeta];
    if tabs.None? {
      return Err(MetaFailed), stop, pages, calls;
    }
    var tab := FindTab(tabs.value, input.sheetName);
    if tab.None? {
      return Err(SheetNotFound), stop, pages, calls;
    }
    r, stop, pages, calls :=
      QueryTab(tab.value.rows, headerRow, headerFails, input, env, encodedSize, pageSize, scanBudget);
  }

  /** The query once its tab is found. */
  method QueryTab(grid: seq<Row>, headerRow: nat, headerFails: bool, input: Input, env: Env,
                  encodedSize: seq<Record> -> nat, pageSize: nat, scanBudget: int)
    returns (r: Result<Output, QueryError>, stop: Stop, pages: nat, calls: seq<Call>)
    requires ValidInput(input) && headerRow >= 1 && pageSize >= 1
    ensures TabAnswered(grid, headerRow, headerFails, input, env, encodedSize, pageSize, scanBudget,
                        r, stop, pages, calls)
  {
    stop, pages := Bucket, 0;
    calls := Opening(RowRanges(input.sheetName), headerRow);
    if headerFails {
      return Err(HeaderFailed), stop, pages, calls;
    }
    var q := ResolveColumns(grid, headerRow, input);
    if q.Err? {
      return Err(q.error), stop, pages, calls;
    }
    var plan := PlanOf(grid, headerRow, q.value, input, env, pageSize, scanBudget);
    r, stop, pages, calls := RunScan(plan, input.offset, input.limit, encodedSize, calls);
  }

  /** The outcome once the tab is found: header and column errors first, then the scan. */
  ghost predicate TabAnswered(grid: seq<Row>, headerRow: nat, headerFails: bool, input: Input, env: Env,
                              encodedSize: seq<Record> -> nat, pageSize: nat, scanBudget: int,
                              r: Result<Output, QueryError>, stop: Stop, pages: nat, calls: seq<Call>)
    requires ValidInput(input) && headerRow >= 1 && pageSize >= 1
  {
    var opening := Opening(RowRanges(input.sheetName), headerRow);
    if headerFails then r == Err(HeaderFailed) && calls == opening
    else
      match Resolve(grid, headerRow, input)
      case Err(e) => r == Err(e) && calls == opening
      case Ok(q) =>
        AnsweredBy(PlanOf(grid, headerRow, q, input, env, pageSize, scanBudget), input.offset, input.limit,
                   encodedSize, r, stop, pages, opening, calls)
  }

  /** An answer whose rows are too large to return. */
  ghost predicate TooLarge(plan: Plan, offset: nat, limit: nat, encodedSize: seq<Record> -> nat, stop: Stop, pages: nat,
                           out: Output)
  {
    Answers(plan, offset, limit, stop, pages, out) && encodedSize(out.rows) > MAX_RESULT_BYTES
  }

  /** The outcome of the scan proper. A failed query was failed by upstream, or has an answer too
      large to return; an empty bucket in mid-scan is never an error. */
  ghost predicate AnsweredBy(plan: Plan, offset: nat, limit: nat, encodedSize: seq<Record> -> nat,
                             r: Result<Output, QueryError>, stop: Stop, pages: nat,
                             opening: seq<Call>, calls: seq<Call>)
    requires PlanFor(plan, offset, limit)
  {
    match r
    case Ok(out) =>
      && Answers(plan, offset, limit, stop, pages, out)
      && encodedSize(out.rows) <= MAX_RESULT_BYTES
      && calls == opening + plan.ScanCalls(stop, pages)
    case Err(ScanFailed(e)) =>
      && plan.FailedAt(pages, FullPages(pages, plan.pageSize), e)
      && calls == opening + plan.FailedCalls(pages, e)
    case Err(e) =>
      && e == ResultTooLarge
      && (exists out :: TooLarge(plan, offset, limit, encodedSize, stop, pages, out))
      && calls == opening + plan.ScanCalls(stop, pages)
  }

  /** The scan and the windowing of its result. */
  method RunScan(plan: Plan, offset: nat, limit: nat, encodedSize: seq<Record> -> nat, opening: seq<Call>)
    returns (r: Result<Output, QueryError>, stop: Stop, pages: nat, calls: seq<Call>)
    requires PlanFor(plan, offset, limit)
    ensures AnsweredBy(plan, offset, limit, encodedSize, r, stop, pages, opening, calls)
  {
    var scan, p, made := plan.Scan();
    var retained := p.retained;
    stop, pages, calls := Bucket, p.pages, opening + made;
    if scan.Err? {
      return Err(ScanFailed(scan.error)), stop, pages, calls;
    }
    stop := scan.value;
    var windowEnd := offset + limit;
    var rows: seq<Record> := [];
    if offset < |retained| {
      var end := windowEnd;
      if end > |retained| {
        end := |retained|;
      }
      rows := retained[offset..end];
    }
    assert rows == Window(retained, offset, limit);
    var out := Output(plan.q.projection, rows, |rows|, offset, |retained| > windowEnd, windowEnd, p.scanned,
                      stop == End,
                      if stop == End then Some(p.matchCount) else None);
    if encodedSize(out.rows) > MAX_RESULT_BYTES {
      assert TooLarge(plan, offset, limit, encodedSize, stop, pages, out);
      return Err(ResultTooLarge), stop, pages, calls;
    }
    return Ok(out), stop, pages, calls;
  }

  // ----- refinement of the whole-sheet query -----

  lemma {:induction false} SelectPrefix(rows: seq<Row>, k: nat, q: Selection)
    requires k <= |rows|
    ensures |Select(rows[..k], q)| <= |Select(rows, q)|
    ensures Select(rows[..k], q) == Select(rows, q)[..|Select(rows[..k], q)|]
    decreases |rows|
  {
    if k == |rows| {
      assert rows[..k] == rows;
    } else {
      var n := |rows| - 1;
      assert rows[..n][..k] == rows[..k];
      SelectPrefix(rows[..n], k, q);
    }
  }

  /** Truncating a list beyond the window does not change the window. */
  lemma WindowOfPrefix<T>(s: seq<T>, k: nat, offset: nat, limit: nat)
    requires offset + limit <= k <= |s|
    ensures Window(s[..k], offset, limit) == Window(s, offset, limit)
  {
  }

  /** The bounded scan refines the whole-sheet query: it returns the requested window of the
      matches among the rows it scanned, and of all matches when it had enough of them or
      reached the end. It knows whether there are more exactly when it stopped on the cap,
      and the total exactly when it reached the end. */
  lemma {:induction false} RefinesWholeSheet(plan: Plan, offset: nat, limit: nat, stop: Stop, pages: nat, out: Output)
    requires Answers(plan, offset, limit, stop, pages, out)
    ensures out.rows == Window(Select(plan.Data()[..out.scannedRows], plan.q), offset, limit)
    ensures stop in {Cap, End} ==> out.rows == Window(Select(plan.Data(), plan.q), offset, limit)
    ensures out.hasMore <==> stop == Cap
    ensures stop in {Cap, End} ==> (out.hasMore <==> |Select(plan.Data(), plan.q)| > offset + limit)
    ensures out.total.Some? <==> stop == End
    ensures out.total.Some? ==> out.total.value == |Select(plan.Data(), plan.q)| <= offset + limit
    ensures out.count == |out.rows| && out.nextOffset == offset + limit
  {
    var data, q := plan.Data(), plan.q;
    var found := Select(data[..out.scannedRows], q);
    SelectPrefix(data, out.scannedRows, q);
    if stop == Cap {
      assert found == Select(data, q)[..|found|];
      WindowOfPrefix(Select(data, q), |found|, offset, limit);
    } else if stop == End {
      assert data[..out.scannedRows] == data;
    }
  }

  /** Pages, rows and charges are bounded whatever the sheet holds. */
  lemma {:induction false} ScanIsBounded(plan: Plan, stop: Stop, pages: nat, scanned: nat)
    requires plan.Valid() && plan.scanBudget >= 1 && plan.Stopped(stop, pages, scanned)
    ensures pages <= (plan.scanBudget - 1) / plan.pageSize + 1
    ensures scanned < plan.scanBudget + plan.pageSize
    ensures scanned <= pages * plan.pageSize
  {
    FullPagesIsProduct(pages, plan.pageSize);
    if pages >= 1 {
      FullPagesIsProduct(pages - 1, plan.pageSize);
      QuotientBound(pages - 1, plan.pageSize, plan.scanBudget - 1);
    }
  }

  lemma {:induction false} QuotientBound(n: nat, d: nat, x: nat)
    requires d >= 1
    ensures n * d <= x ==> n <= x / d
  {
    var k := x / d;
    assert x < (k + 1) * d;
    if n >= k + 1 {
      MulMonotone(k + 1, n, d);
    }
  }

  lemma MulMonotone(a: nat, b: nat, d: nat)
    requires a <= b
    ensures a * d <= b * d
  {
  }

  // ----- the upstream calls -----

  function FirstRow(plan: Plan, k: nat): nat {
    plan.headerRow + 1 + FullPages(k, plan.pageSize)
  }

  function LastRow(plan: Plan, k: nat): nat {
    plan.headerRow + FullPages(k, plan.pageSize) + plan.pageSize
  }

  /** One fetch per page, each right after its own charge when there is a charger. */
  lemma {:induction false} PageCallsAt(plan: Plan, pages: nat, k: nat)
    requires plan.Valid() && k < pages
    ensures var calls := plan.PageCalls(pages);
            var fetch := Values(plan.rangeOf(FirstRow(plan, k), LastRow(plan, k)));
            if plan.env.charger.Some? then |calls| == 2 * pages && calls[2 * k] == Charge && calls[2 * k + 1] == fetch
            else |calls| == pages && calls[k] == fetch
    decreases pages
  {
    if k < pages - 1 {
      PageCallsAt(plan, pages - 1, k);
    } else if pages > 1 {
      PageCallsAt(plan, pages - 1, 0);
    }
  }

  /** The pages tile the data rows: the first starts below the header, each next one starts
      right after the one before, and each request string reads back as exactly its rows. */
  lemma {:induction false} PagesTile(plan: Plan, title: string, k: nat)
    requires plan.Valid() && plan.rangeOf == RowRanges(title) && LastRow(plan, k) <= MAX_INT
    ensures FirstRow(plan, 0) == plan.headerRow + 1
    ensures FirstRow(plan, k + 1) == LastRow(plan, k) + 1
    ensures ParseA1Range(plan.rangeOf(FirstRow(plan, k), LastRow(plan, k)))
         == Ok(ParsedA1Range(title, true, -1, -1, FirstRow(plan, k), LastRow(plan, k)))
  {
    ParseOfRowRange(title, FirstRow(plan, k), LastRow(plan, k));
  }

  // ----- page size and paging -----

  lemma {:induction false} SelectMonotone(rows: seq<Row>, j: nat, k: nat, q: Selection)
    requires j <= k <= |rows|
    ensures |Select(rows[..j], q)| <= |Select(rows[..k], q)|
  {
    assert rows[..k][..j] == rows[..j];
    SelectPrefix(rows[..k], j, q);
  }

  /** The first n rows are the shortest prefix with k matches. */
  ghost predicate FirstReached(rows: seq<Row>, q: Selection, k: nat, n: nat) {
    1 <= n <= |rows| && |Select(rows[..n], q)| == k && |Select(rows[..n - 1], q)| < k
  }

  lemma {:induction false} FirstReachedUnique(rows: seq<Row>, q: Selection, k: nat, m: nat, n: nat)
    requires FirstReached(rows, q, k, m) && FirstReached(rows, q, k, n)
    ensures m == n
  {
    if m < n {
      SelectMonotone(rows, m, n - 1, q);
    } else if n < m {
      SelectMonotone(rows, n, m - 1, q);
    }
  }

  /** A scan with no charger and fewer rows than the budget stops on the cap or at the end. */
  lemma {:induction false} StopsOnCapOrEnd(plan: Plan, stop: Stop, pages: nat, scanned: nat)
    requires plan.Valid() && plan.env.charger.None? && |plan.Data()| < plan.scanBudget
    requires plan.Stopped(stop, pages, scanned)
    ensures stop == Cap || stop == End
    ensures stop == Cap <==> |Select(plan.Data(), plan.q)| >= plan.retainCap
    ensures stop == End ==> scanned == |plan.Data()|
    ensures stop == Cap ==> FirstReached(plan.Data(), plan.q, plan.retainCap, scanned)
  {
    SelectPrefix(plan.Data(), scanned, plan.q);
    assert scanned == |plan.Data()| ==> plan.Data()[..scanned] == plan.Data();
  }

  lemma {:induction false} SameAnswer(plan: Plan, pageSize: nat, offset: nat, limit: nat,
                             stop: Stop, pages: nat, out: Output, stop': Stop, pages': nat, out': Output)
    requires plan.env.charger.None? && |plan.Data()| < plan.scanBudget && pageSize >= 1
    requires Answers(plan, offset, limit, stop, pages, out)
    requires Answers(plan.(pageSize := pageSize), offset, limit, stop', pages', out')
    ensures out == out'
  {
    var n, n' := out.scannedRows, out'.scannedRows;
    var plan' := plan.(pageSize := pageSize);
    assert plan'.Data() == plan.Data();
    StopsOnCapOrEnd(plan, stop, pages, n);
    StopsOnCapOrEnd(plan', stop', pages', n');
    if stop == Cap {
      FirstReachedUnique(plan.Data(), plan.q, plan.retainCap, n, n');
    }
  }

  /** With no charger, no failing fetch and fewer rows than the budget, the page size cannot be
      observed: the whole result is the same, be it an answer or the size error. */
  lemma {:induction false} PageSizeUnobservable(plan: Plan, pageSize: nat, offset: nat, limit: nat,
                                                encodedSize: seq<Record> -> nat,
                                                r: Result<Output, QueryError>, stop: Stop, pages: nat, calls: seq<Call>,
                                                r': Result<Output, QueryError>, stop': Stop, pages': nat,
                                                calls': seq<Call>,
                                                opening: seq<Call>)
    requires plan.env.charger.None? && |plan.Data()| < plan.scanBudget && pageSize >= 1 && PlanFor(plan, offset, limit)
    requires forall k :: !plan.env.fetchFails(k)
    requires AnsweredBy(plan, offset, limit, encodedSize, r, stop, pages, opening, calls)
    requires AnsweredBy(plan.(pageSize := pageSize), offset, limit, encodedSize, r', stop', pages', opening, calls')
    ensures r == r'
  {
    var plan' := plan.(pageSize := pageSize);
    var out, out' := AnswerOf(plan, offset, limit, encodedSize, r, stop, pages, opening, calls),
                     AnswerOf(plan', offset, limit, encodedSize, r', stop', pages', opening, calls');
    SameAnswer(plan, pageSize, offset, limit, stop, pages, out, stop', pages', out');
  }

  /** The answer behind a result: the one returned, or the one too large to return. */
  ghost function AnswerOf(plan: Plan, offset: nat, limit: nat, encodedSize: seq<Record> -> nat,
                          r: Result<Output, QueryError>, stop: Stop, pages: nat,
                          opening: seq<Call>, calls: seq<Call>): (out: Output)
    requires plan.env.charger.None? && PlanFor(plan, offset, limit) && forall k :: !plan.env.fetchFails(k)
    requires AnsweredBy(plan, offset, limit, encodedSize, r, stop, pages, opening, calls)
    ensures Answers(plan, offset, limit, stop, pages, out)
    ensures r == if encodedSize(out.rows) > MAX_RESULT_BYTES then Err(ResultTooLarge) else Ok(out)
  {
    if r.Ok? then r.value
    else
      var out :| TooLarge(plan, offset, limit, encodedSize, stop, pages, out);
      out
  }

  /** One call of a client paging through the results. */
  datatype Visit = Visit(plan: Plan, stop: Stop, pages: nat, out: Output)

  /** The client follows NextOffset as long as HasMore lets it, and never meets an empty bucket. Page
      size, budget and charges may differ from call to call. */
  ghost predicate Following(data: seq<Row>, q: Selection, offset: nat, limit: nat, visits: seq<Visit>)
    decreases |visits|
  {
    && visits != []
    && var v := visits[0];
    && v.plan.Data() == data && v.plan.q == q && |data| < v.plan.scanBudget
    && Answers(v.plan, offset, limit, v.stop, v.pages, v.out)
    && v.stop != Bucket
    && (|visits| > 1 ==> v.out.hasMore && Following(data, q, v.out.nextOffset, limit, visits[1..]))
  }

  /** ...until there are no more. */
  ghost predicate Paging(data: seq<Row>, q: Selection, offset: nat, limit: nat, visits: seq<Visit>) {
    Following(data, q, offset, limit, visits) && !visits[|visits| - 1].out.hasMore
  }

  /** Every call but the last moves on by a whole window of matches, so with a positive limit the
      client comes to an end. */
  lemma {:induction false} PagingEnds(data: seq<Row>, q: Selection, offset: nat, limit: nat, visits: seq<Visit>)
    requires Following(data, q, offset, limit, visits) && |visits| > 1
    ensures offset + (|visits| - 1) * limit < |Select(data, q)|
    decreases |visits|
  {
    var v := visits[0];
    RefinesWholeSheet(v.plan, offset, limit, v.stop, v.pages, v.out);
    OneWindowMore(|visits| - 1, limit);
    if |visits| > 2 {
      PagingEnds(data, q, offset + limit, limit, visits[1..]);
    }
  }

  lemma OneWindowMore(n: nat, limit: nat)
    requires n >= 1
    ensures n * limit == limit + (n - 1) * limit
  {
  }

  function AllRows(visits: seq<Visit>): seq<Record> {
    if visits == [] then [] else visits[0].out.rows + AllRows(visits[1..])
  }

  lemma WindowThenRest<T>(s: seq<T>, offset: nat, limit: nat)
    requires offset <= |s|
    ensures offset + limit <= |s| ==> s[offset..] == Window(s, offset, limit) + s[offset + limit..]
    ensures offset + limit >= |s| ==> s[offset..] == Window(s, offset, limit)
  {
  }

  /** Paging from an offset collects every matching row from there on, once and in order. */
  lemma {:induction false} PagingFrom(data: seq<Row>, q: Selection, offset: nat, limit: nat, visits: seq<Visit>)
    requires offset <= |Select(data, q)| && Paging(data, q, offset, limit, visits)
    ensures AllRows(visits) == Select(data, q)[offset..]
    decreases |visits|
  {
    var v := visits[0];
    RefinesWholeSheet(v.plan, offset, limit, v.stop, v.pages, v.out);
    WindowThenRest(Select(data, q), offset, limit);
    if |visits| > 1 {
      PagingFrom(data, q, offset + limit, limit, visits[1..]);
    } else {
      assert visits[1..] == [];
      assert AllRows(visits) == v.out.rows;
    }
  }

  /** Paging from the start concatenates to exactly all matching rows. */
  lemma {:induction false} PagingCollectsEverything(data: seq<Row>, q: Selection, limit: nat, visits: seq<Visit>)
    requires Paging(data, q, 0, limit, visits)
    ensures AllRows(visits) == Select(data, q)
  {
    PagingFrom(data, q, 0, limit, visits);
  }
}
