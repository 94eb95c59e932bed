/** What an answer of `sheets_query_rows` says about the sheet itself: its header row and its raw rows. */
module QueryAnswer {
  import opened Wrappers
  import opened A1Range
  import opened Sheets
  import opened RowScan
  import opened QueryRows

  // ----- in terms of the sheet -----

  /** The last column of the header row with this name. */
  ghost predicate LastColumn(header: Row, name: string, c: int) {
    && 0 <= c < |header| && CellString(header[c]) == name
    && forall d :: c < d < |header| ==> CellString(header[d]) != name
  }

  /** The sheet has a column of this name; a nameless one does not count. */
  ghost predicate HasColumn(header: Row, name: string) {
    name != "" && exists c :: 0 <= c < |header| && CellString(header[c]) == name
  }

  /** Every filter accepts the row's cell in its column, a missing cell being empty. */
  ghost predicate Wanted(header: Row, filters: seq<Filter>, row: Row) {
    forall i :: 0 <= i < |filters| ==> Passes(header, filters[i], row)
  }

  ghost predicate Passes(header: Row, f: Filter, row: Row) {
    f.column != "" && exists c :: LastColumn(header, f.column, c) && f.matches(if c < |row| then row[c] else Nil)
  }

  /** The record has exactly these columns, each with the text of the row's cell there, or "" where the
      row has ended or the column has no name. */
  ghost predicate Describes(header: Row, columns: seq<string>, row: Row, record: Record) {
    && (forall name :: name in record <==> name in columns)
    && (forall name :: name in columns && !HasColumn(header, name) ==> record[name] == "")
    && (forall name, c :: name in columns && name != "" && LastColumn(header, name, c) ==>
         record[name] == if c < |row| then CellString(row[c]) else "")
  }

  ghost predicate Increasing(at: seq<nat>) {
    forall i, j :: 0 <= i < j < |at| ==> at[i] < at[j]
  }

  /** The wanted rows among the first `scanned` below the header row, by how far below it they are, in order. */
  ghost predicate WantedAt(header: Row, filters: seq<Filter>, grid: seq<Row>, headerRow: nat, scanned: nat,
                           at: seq<nat>)
  {
    && Increasing(at)
    && (forall i :: 0 <= i < |at| ==>
         at[i] < scanned && headerRow + at[i] < |grid| && Wanted(header, filters, grid[headerRow + at[i]]))
    && (forall k :: 0 <= k < scanned && headerRow + k < |grid| && Wanted(header, filters, grid[headerRow + k]) ==>
         k in at)
  }

  /** Each record describes the row at its position. */
  ghost predicate DescribedAt(header: Row, columns: seq<string>, grid: seq<Row>, headerRow: nat, at: seq<nat>,
                              records: seq<Record>)
  {
    && |at| == |records|
    && forall i :: 0 <= i < |at| ==>
         headerRow + at[i] < |grid| && Describes(header, columns, grid[headerRow + at[i]], records[i])
  }

  // ----- columns -----

  lemma {:induction false} IndexIsLastColumn(header: Row, name: string)
    ensures var hi := HeaderIndex(Headers(header));
            && (name in hi <==> HasColumn(header, name))
            && (forall c :: name != "" && LastColumn(header, name, c) ==> name in hi && hi[name] == c)
            && (name in hi ==> LastColumn(header, name, hi[name]))
  {
    var headers := Headers(header);
    HeaderIndexMeaning(headers, name);
    forall c | name != "" && LastColumn(header, name, c)
      ensures name in HeaderIndex(headers) && HeaderIndex(headers)[name] == c
    {
      assert headers[c] == name;
    }
  }

  lemma {:induction false} MatchesIsWanted(header: Row, filters: seq<Filter>, row: Row)
    ensures Matches(row, HeaderIndex(Headers(header)), filters) <==> Wanted(header, filters, row)
  {
    var hi := HeaderIndex(Headers(header));
    forall i | 0 <= i < |filters|
      ensures filters[i].column in hi && filters[i].matches(CellAt(row, hi[filters[i].column]))
              <==> Passes(header, filters[i], row)
    {
      IndexIsLastColumn(header, filters[i].column);
    }
  }

  lemma {:induction false} ProjectDescribes(header: Row, columns: seq<string>, row: Row)
    ensures Describes(header, columns, row, Project(row, HeaderIndex(Headers(header)), columns))
  {
    forall name | name in columns
      ensures !HasColumn(header, name) ==> Project(row, HeaderIndex(Headers(header)), columns)[name] == ""
      ensures forall c :: name != "" && LastColumn(header, name, c) ==>
                            Project(row, HeaderIndex(Headers(header)), columns)[name]
                            == if c < |row| then CellString(row[c]) else ""
    {
      IndexIsLastColumn(header, name);
    }
  }

  lemma {:induction false} FirstUnknownIsFirst(columns: seq<string>, hi: map<string, nat>, c: string)
    ensures FirstUnknown(columns, hi) == Some(c)
            <==> exists i :: 0 <= i < |columns| && columns[i] == c && c !in hi
                             && forall j :: 0 <= j < i ==> columns[j] in hi
  {
    if columns != [] && columns[0] in hi {
      FirstUnknownIsFirst(columns[1..], hi, c);
      if i :| 0 <= i < |columns| && columns[i] == c && c !in hi && forall j :: 0 <= j < i ==> columns[j] in hi {
        assert columns[1..][i - 1] == c && forall j :: 0 <= j < i - 1 ==> columns[1..][j] == columns[j + 1];
      }
      if i :| 0 <= i < |columns[1..]| && columns[1..][i] == c && c !in hi
              && forall j :: 0 <= j < i ==> columns[1..][j] in hi {
        assert columns[i + 1] == c && forall j :: 0 < j < i + 1 ==> columns[j] == columns[1..][j - 1];
      }
    }
  }

  /** A query that names a column the header row does not have is refused for the first such name,
      the filters' columns before the requested ones; and for no other reason. */
  lemma {:induction false} ColumnsAreChecked(grid: seq<Row>, headerRow: nat, input: Input, c: string)
    requires 1 <= headerRow
    ensures var header := if headerRow <= |grid| then grid[headerRow - 1] else [];
            var names := seq(|input.filters|, i requires 0 <= i < |input.filters| => input.filters[i].column)
                         + input.columns;
            && (Resolve(grid, headerRow, input) == Err(ColumnNotFound(c)) <==> FirstMissing(header, names, c))
            && (Resolve(grid, headerRow, input).Ok? <==> forall i :: 0 <= i < |names| ==> HasColumn(header, names[i]))
  {
    var header := HeaderOf(grid, headerRow);
    var hi := HeaderIndex(Headers(header));
    var filterColumns := FilterColumns(input.filters);
    var names := seq(|input.filters|, i requires 0 <= i < |input.filters| => input.filters[i].column) + input.columns;
    assert names == filterColumns + input.columns;
    UnknownOfConcat(filterColumns, input.columns, hi);
    FirstUnknownIsFirst(names, hi, c);
    forall i | 0 <= i < |names| ensures names[i] in hi <==> HasColumn(header, names[i]) {
      IndexIsLastColumn(header, names[i]);
    }
  }

  ghost predicate FirstMissing(header: Row, names: seq<string>, c: string) {
    exists i :: 0 <= i < |names| && names[i] == c && !HasColumn(header, c)
                && forall j :: 0 <= j < i ==> HasColumn(header, names[j])
  }

  lemma {:induction false} UnknownOfConcat(a: seq<string>, b: seq<string>, hi: map<string, nat>)
    ensures FirstUnknown(a + b, hi) == if FirstUnknown(a, hi).Some? then FirstUnknown(a, hi) else FirstUnknown(b, hi)
  {
    if a == [] {
      assert a + b == b;
    } else if a[0] in hi {
      assert (a + b)[1..] == a[1..] + b;
      UnknownOfConcat(a[1..], b, hi);
    }
  }

  // ----- rows -----

  /** Selecting keeps exactly the rows that match, in order. */
  lemma {:induction false} SelectPositions(rows: seq<Row>, q: Selection) returns (at: seq<nat>)
    ensures |at| == |Select(rows, q)|
    ensures Increasing(at)
    ensures forall i :: 0 <= i < |at| ==>
              && at[i] < |rows| && Matches(rows[at[i]], q.headerIndex, q.filters)
              && Select(rows, q)[i] == Project(rows[at[i]], q.headerIndex, q.projection)
    ensures forall r :: 0 <= r < |rows| && Matches(rows[r], q.headerIndex, q.filters) ==> r in at
  {
    at := [];
    if rows != [] {
      var n := |rows| - 1;
      var before := SelectPositions(rows[..n], q);
      at := before + if Matches(rows[n], q.headerIndex, q.filters) then [n] else [];
      forall r | 0 <= r < |rows| && Matches(rows[r], q.headerIndex, q.filters) ensures r in at {
        if r < n {
          assert rows[..n][r] == rows[r] && r in before;
        }
      }
    }
  }

  /** A data row is a row of the grid, and is matched and projected as its header row says. */
  lemma {:induction false} DataRowInGrid(grid: seq<Row>, headerRow: nat, q: Selection, k: nat)
    requires k < |DataRows(grid, headerRow)| && q.headerIndex == HeaderIndex(Headers(HeaderOf(grid, headerRow)))
    ensures headerRow + k < |grid| && DataRows(grid, headerRow)[k] == grid[headerRow + k]
    ensures Matches(grid[headerRow + k], q.headerIndex, q.filters)
            <==> Wanted(HeaderOf(grid, headerRow), q.filters, grid[headerRow + k])
    ensures Describes(HeaderOf(grid, headerRow), q.projection, grid[headerRow + k],
                      Project(grid[headerRow + k], q.headerIndex, q.projection))
  {
    MatchesIsWanted(HeaderOf(grid, headerRow), q.filters, grid[headerRow + k]);
    ProjectDescribes(HeaderOf(grid, headerRow), q.projection, grid[headerRow + k]);
  }

  /** The matches among the first `scanned` data rows are the wanted rows of the grid down to there. */
  lemma {:induction false} FoundInGrid(grid: seq<Row>, headerRow: nat, q: Selection, scanned: nat)
    returns (at: seq<nat>)
    requires scanned <= |DataRows(grid, headerRow)|
    requires q.headerIndex == HeaderIndex(Headers(HeaderOf(grid, headerRow)))
    ensures WantedAt(HeaderOf(grid, headerRow), q.filters, grid, headerRow, scanned, at)
    ensures DescribedAt(HeaderOf(grid, headerRow), q.projection, grid, headerRow, at,
                        Select(DataRows(grid, headerRow)[..scanned], q))
  {
    var data := DataRows(grid, headerRow);
    at := SelectPositions(data[..scanned], q);
    forall k | 0 <= k < scanned
      ensures data[..scanned][k] == grid[headerRow + k]
      ensures Matches(grid[headerRow + k], q.headerIndex, q.filters)
              <==> Wanted(HeaderOf(grid, headerRow), q.filters, grid[headerRow + k])
      ensures Describes(HeaderOf(grid, headerRow), q.projection, grid[headerRow + k],
                        Project(grid[headerRow + k], q.headerIndex, q.projection))
    {
      DataRowInGrid(grid, headerRow, q, k);
    }
  }

  /** Where a scan stopped, in terms of the sheet: past one more wanted row than the window needs, at its
      last row, at the budget, or before a page that the bucket had no token for. */
  ghost predicate StoppedThere(grid: seq<Row>, headerRow: nat, input: Input, env: Env, pageSize: nat, scanBudget: int,
                               stop: Stop, pages: nat, scanned: nat, at: seq<nat>)
  {
    match stop
    case Cap => at != [] && |at| == input.offset + input.limit + 1 && at[|at| - 1] == scanned - 1
    case End => scanned == (if headerRow <= |grid| then |grid| - headerRow else 0) && |at| <= input.offset + input.limit
    case Budget => scanned == pages * pageSize && scanBudget <= scanned && |at| <= input.offset + input.limit
    case Bucket =>
      && scanned == pages * pageSize && |at| <= input.offset + input.limit
      && env.charger.Some? && env.charger.value(pages) != Allowed
  }

  lemma LastOfIncreasing(at: seq<nat>, last: nat)
    requires Increasing(at) && last in at && forall i :: 0 <= i < |at| ==> at[i] <= last
    ensures at != [] && at[|at| - 1] == last
  {
  }

  /** The row that filled the window and one more is itself a match. */
  lemma {:induction false} CappingRowIsWanted(grid: seq<Row>, headerRow: nat, q: Selection, filters: seq<Filter>,
                                              scanned: nat, at: seq<nat>)
    requires 0 < scanned <= |DataRows(grid, headerRow)|
    requires q.headerIndex == HeaderIndex(Headers(HeaderOf(grid, headerRow))) && q.filters == filters
    requires WantedAt(HeaderOf(grid, headerRow), filters, grid, headerRow, scanned, at)
    requires |Select(DataRows(grid, headerRow)[..scanned - 1], q)| < |Select(DataRows(grid, headerRow)[..scanned], q)|
    ensures at != [] && at[|at| - 1] == scanned - 1
  {
    var data := DataRows(grid, headerRow);
    var last: nat := scanned - 1;
    SelectGrows(data, last, q);
    DataRowInGrid(grid, headerRow, q, last);
    assert Wanted(HeaderOf(grid, headerRow), filters, grid[headerRow + last]);
    assert last in at;
    LastOfIncreasing(at, last);
  }

  lemma {:induction false} StopsThere(plan: Plan, input: Input, stop: Stop, pages: nat, scanned: nat, at: seq<nat>)
    requires ValidInput(input) && PlanFor(plan, input.offset, input.limit) && plan.Stopped(stop, pages, scanned)
    requires plan.q.headerIndex == HeaderIndex(Headers(HeaderOf(plan.grid, plan.headerRow)))
    requires plan.q.filters == input.filters
    requires WantedAt(HeaderOf(plan.grid, plan.headerRow), input.filters, plan.grid, plan.headerRow,
                      scanned, at)
    requires |at| == |plan.Found(scanned)|
    ensures StoppedThere(plan.grid, plan.headerRow, input, plan.env, plan.pageSize, plan.scanBudget,
                         stop, pages, scanned, at)
  {
    FullPagesIsProduct(pages, plan.pageSize);
    if stop == Cap {
      CappingRowIsWanted(plan.grid, plan.headerRow, plan.q, input.filters, scanned, at);
    }
  }

  /** At most limit positions from the offset on. */
  function PageOf(at: seq<nat>, offset: nat, limit: nat): (page: seq<nat>)
    ensures |page| == if |at| <= offset then 0 else if |at| <= offset + limit then |at| - offset else limit
    ensures forall j :: 0 <= j < |page| ==> page[j] == at[offset + j]
  {
    if |at| <= offset then [] else if |at| <= offset + limit then at[offset..] else at[offset..offset + limit]
  }

  lemma WindowAt<T>(s: seq<T>, offset: nat, limit: nat)
    ensures |Window(s, offset, limit)|
         == if |s| <= offset then 0 else if |s| <= offset + limit then |s| - offset else limit
    ensures forall j :: 0 <= j < |Window(s, offset, limit)| ==> Window(s, offset, limit)[j] == s[offset + j]
  {
  }

  lemma {:induction false} WindowIsDescribed(header: Row, columns: seq<string>, grid: seq<Row>, headerRow: nat,
                                             at: seq<nat>, found: seq<Record>, offset: nat, limit: nat)
    requires DescribedAt(header, columns, grid, headerRow, at, found)
    ensures DescribedAt(header, columns, grid, headerRow, PageOf(at, offset, limit), Window(found, offset, limit))
  {
    WindowAt(found, offset, limit);
    var page, rows := PageOf(at, offset, limit), Window(found, offset, limit);
    forall j | 0 <= j < |page|
      ensures headerRow + page[j] < |grid| && Describes(header, columns, grid[headerRow + page[j]], rows[j])
    {
      assert page[j] == at[offset + j] && rows[j] == found[offset + j];
    }
  }

  /** What an answer says about the sheet. Its columns are those asked for, or all headers; its rows
      describe the wanted rows from position offset on, at most limit of them, in sheet order; and its
      flags and counts tell how many there are. */
  lemma {:induction false} AnswerIsTrue(grid: seq<Row>, headerRow: nat, headerFails: bool, input: Input, env: Env,
                                        encodedSize: seq<Record> -> nat, pageSize: nat, scanBudget: int,
                                        out: Output, stop: Stop, pages: nat, calls: seq<Call>)
    returns (at: seq<nat>)
    requires ValidInput(input) && headerRow >= 1 && pageSize >= 1
    requires TabAnswered(grid, headerRow, headerFails, input, env, encodedSize, pageSize, scanBudget,
                         Ok(out), stop, pages, calls)
    ensures var header := if headerRow <= |grid| then grid[headerRow - 1] else [];
            && WantedAt(header, input.filters, grid, headerRow, out.scannedRows, at)
            && (if input.columns != [] then out.columns == input.columns
                else
                  && |out.columns| == |header|
                  && forall c :: 0 <= c < |header| ==> out.columns[c] == CellString(header[c]))
            && DescribedAt(header, out.columns, grid, headerRow, PageOf(at, input.offset, input.limit), out.rows)
    ensures StoppedThere(grid, headerRow, input, env, pageSize, scanBudget, stop, pages, out.scannedRows, at)
    ensures encodedSize(out.rows) <= 262_144
    ensures out.count == |out.rows| && out.offset == input.offset && out.nextOffset == input.offset + input.limit
    ensures out.hasMore <==> |at| > input.offset + input.limit
    ensures out.scanComplete <==> stop == End
    ensures out.total == if stop == End then Some(|at|) else None
  {
    var q := SelectionFor(HeaderOf(grid, headerRow), input.filters, input.columns);
    var plan := PlanOf(grid, headerRow, q, input, env, pageSize, scanBudget);
    at := FoundInGrid(grid, headerRow, q, out.scannedRows);
    var found := Select(DataRows(grid, headerRow)[..out.scannedRows], q);
    WindowIsDescribed(HeaderOf(grid, headerRow), q.projection, grid, headerRow, at, found, input.offset, input.limit);
    StopsThere(plan, input, stop, pages, out.scannedRows, at);
  }

  // ----- requests -----

  lemma {:induction false} PageRequest(plan: Plan, stop: Stop, pages: nat, k: nat)
    requires plan.Valid() && k < pages
    ensures var at := if plan.env.charger.Some? then 2 * k + 1 else k;
            && at < |plan.ScanCalls(stop, pages)|
            && plan.ScanCalls(stop, pages)[at] == Values(plan.rangeOf(FirstRow(plan, k), LastRow(plan, k)))
            && (plan.env.charger.Some? ==> plan.ScanCalls(stop, pages)[at - 1] == Charge)
  {
    PageCallsAt(plan, pages, k);
    assert plan.PageCalls(pages) <= plan.ScanCalls(stop, pages);
  }

  /** After the metadata and the header row, page k is fetched, after its own charge if there is a charger. */
  ghost predicate NamesTheTab(calls: seq<Call>, title: string, headerRow: nat, pageSize: nat, charged: bool, k: nat) {
    var at := if charged then 2 * k + 3 else k + 2;
    var first := headerRow + 1 + FullPages(k, pageSize);
    && at < |calls| && calls[0] == SpreadsheetMeta && calls[1] == Values(A1RowRange(title, headerRow, headerRow))
    && calls[at] == Values(A1RowRange(title, first, first + pageSize - 1))
    && (charged ==> calls[at - 1] == Charge)
  }

  lemma {:induction false} PagesAreNamed(plan: Plan, title: string, stop: Stop, pages: nat, calls: seq<Call>, k: nat)
    requires plan.Valid() && k < pages && plan.rangeOf == RowRanges(title)
    requires calls == Opening(RowRanges(title), plan.headerRow) + plan.ScanCalls(stop, pages)
    ensures NamesTheTab(calls, title, plan.headerRow, plan.pageSize, plan.env.charger.Some?, k)
  {
    PageRequest(plan, stop, pages, k);
  }

  /** Every call of an answered query but the metadata and the charges prints rows of the queried tab: the
      header row first, then page after page below it, each after its own charge. */
  lemma {:induction false} RequestsNameTheTab(grid: seq<Row>, headerRow: nat, headerFails: bool, input: Input, env: Env,
                                              encodedSize: seq<Record> -> nat, pageSize: nat, scanBudget: int,
                                              out: Output, stop: Stop, pages: nat, calls: seq<Call>, k: nat)
    requires ValidInput(input) && headerRow >= 1 && pageSize >= 1
    requires TabAnswered(grid, headerRow, headerFails, input, env, encodedSize, pageSize, scanBudget,
                         Ok(out), stop, pages, calls)
    requires k < pages
    ensures NamesTheTab(calls, input.sheetName, headerRow, pageSize, env.charger.Some?, k)
  {
    var q := SelectionFor(HeaderOf(grid, headerRow), input.filters, input.columns);
    PagesAreNamed(PlanOf(grid, headerRow, q, input, env, pageSize, scanBudget), input.sheetName, stop, pages, calls, k);
  }
}
