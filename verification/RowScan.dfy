/** The bounded, paged scan of `sheets_query_rows` over one tab's rows. */
module RowScan {
  import opened Wrappers
  import opened Sheets

  datatype Filter = Filter(column: string, matches: Cell -> bool)

  type Record = map<string, string>

  /** What a scan selects and returns of a row. */
  datatype Selection = Selection(headerIndex: map<string, nat>, filters: seq<Filter>, projection: seq<string>)

  datatype Stop = Cap | End | Budget | Bucket

  datatype ScanError = ChargeFailed | FetchFailed(page: nat)

  /** Everything outside the scan: the outcome of the k-th charge and of the k-th page fetch. */
  datatype Env = Env(charger: Option<nat -> ChargeOutcome>, fetchFails: nat -> bool)

  // ----- one row -----

  function CellAt(row: Row, i: nat): Cell {
    if i < |row| then row[i] else Nil
  }

  predicate Matches(row: Row, headerIndex: map<string, nat>, filters: seq<Filter>) {
    forall i :: 0 <= i < |filters| ==>
      filters[i].column in headerIndex && filters[i].matches(CellAt(row, headerIndex[filters[i].column]))
  }

  function Project(row: Row, headerIndex: map<string, nat>, columns: seq<string>): Record {
    map c | c in columns :: if c in headerIndex then CellString(CellAt(row, headerIndex[c])) else ""
  }

  method MatchRow(row: Row, headerIndex: map<string, nat>, filters: seq<Filter>) returns (matches: bool)
    ensures matches <==> Matches(row, headerIndex, filters)
  {
    for i := 0 to |filters|
      invariant Matches(row, headerIndex, filters[..i])
    {
      var f := filters[i];
      if f.column !in headerIndex {
        return false;
      }
      var idx := headerIndex[f.column];
      var cell := Nil;
      if idx < |row| {
        cell := row[idx];
      }
      if !f.matches(cell) {
        return false;
      }
    }
    assert filters[..|filters|] == filters;
    return true;
  }

  lemma ProjectStep(row: Row, headerIndex: map<string, nat>, columns: seq<string>, c: string)
    ensures Project(row, headerIndex, columns + [c])
         == Project(row, headerIndex, columns)[c := if c in headerIndex then CellString(CellAt(row, headerIndex[c]))
           else ""]
  {
  }

  method ProjectRow(row: Row, headerIndex: map<string, nat>, columns: seq<string>) returns (out: Record)
    ensures out == Project(row, headerIndex, columns)
  {
    out := map[];
    for i := 0 to |columns|
      invariant out == Project(row, headerIndex, columns[..i])
    {
      var c := columns[i];
      ProjectStep(row, headerIndex, columns[..i], c);
      assert columns[..i + 1] == columns[..i] + [c];
      if c !in headerIndex || headerIndex[c] >= |row| {
        out := out[c := ""];
        continue;
      }
      out := out[c := CellString(row[headerIndex[c]])];
    }
    assert columns[..|columns|] == columns;
  }

  // ----- the whole-sheet query -----

  /** The matching rows of a sheet, projected, in sheet order. */
  function Select(rows: seq<Row>, q: Selection): (out: seq<Record>)
    ensures |out| <= |rows|
  {
    if rows == [] then []
    else
      var n := |rows| - 1;
      Select(rows[..n], q)
        + if Matches(rows[n], q.headerIndex, q.filters) then [Project(rows[n], q.headerIndex, q.projection)] else []
  }

  function DataRows(grid: seq<Row>, headerRow: nat): seq<Row> {
    if headerRow <= |grid| then grid[headerRow..] else []
  }

  lemma {:induction false} SelectGrows(rows: seq<Row>, k: nat, q: Selection)
    requires k < |rows|
    ensures Select(rows[..k + 1], q)
         == Select(rows[..k], q)
            + if Matches(rows[k], q.headerIndex, q.filters) then [Project(rows[k], q.headerIndex, q.projection)] else []
  {
    assert rows[..k + 1][..k] == rows[..k];
  }

  /** The rows of one page: match, retain, and stop as soon as there are enough matches. */
  method ScanPage(page: seq<Row>, ghost data: seq<Row>, q: Selection, retainCap: nat,
                  before: nat, buffer: seq<Record>, peakBefore: nat)
    returns (capped: bool, scanned: nat, retained: seq<Record>, matchCount: nat, peak: nat)
    requires before + |page| <= |data| && data[before..before + |page|] == page
    requires buffer == Select(data[..before], q) && |buffer| < retainCap && peakBefore <= retainCap
    ensures before <= scanned <= before + |page|
    ensures retained == Select(data[..scanned], q) && matchCount == |retained| && peak <= retainCap
    ensures capped ==> before < scanned && matchCount == retainCap && |Select(data[..scanned - 1], q)| < retainCap
    ensures !capped ==> scanned == before + |page| && matchCount < retainCap
  {
    scanned, retained, matchCount, peak := before, buffer, |buffer|, peakBefore;
    for i := 0 to |page|
      invariant scanned == before + i
      invariant retained == Select(data[..scanned], q)
      invariant matchCount == |retained| < retainCap
      invariant peak <= retainCap
    {
      var row := page[i];
      assert row == data[before..before + |page|][i] == data[scanned];
      SelectGrows(data, scanned, q);
      scanned := scanned + 1;
      var matches := MatchRow(row, q.headerIndex, q.filters);
      if !matches {
        continue;
      }
      matchCount := matchCount + 1;
      if |retained| < retainCap {
        var record := ProjectRow(row, q.headerIndex, q.projection);
        retained := retained + [record];
        peak := if |retained| > peak then |retained| else peak;
      }
      if matchCount >= retainCap {
        capped := true;
        return;
      }
    }
    capped := false;
  }

  /** A page is the next run of data rows, short only at the end of the sheet. */
  lemma PageIsNextRows(grid: seq<Row>, headerRow: nat, scanned: nat, pageSize: nat)
    requires headerRow >= 1 && pageSize >= 1 && scanned <= |DataRows(grid, headerRow)|
    ensures var data := DataRows(grid, headerRow);
            var page := RowsBetween(grid, headerRow + 1 + scanned, headerRow + scanned + pageSize);
            && |page| == (if scanned + pageSize <= |data| then pageSize else |data| - scanned)
            && page == data[scanned..scanned + |page|]
  {
  }

  // ----- the scan -----

  /** The number of rows in so many full pages. */
  function FullPages(pages: nat, pageSize: nat): nat {
    if pages == 0 then 0 else FullPages(pages - 1, pageSize) + pageSize
  }

  lemma {:induction false} FullPagesIsProduct(pages: nat, pageSize: nat)
    ensures FullPages(pages, pageSize) == pages * pageSize
  {
    if pages > 0 {
      FullPagesIsProduct(pages - 1, pageSize);
    }
  }

  predicate ChargeAllowed(env: Env, k: nat) {
    env.charger.None? || env.charger.value(k) == Allowed
  }

  /** The charges of the first `pages` pages all went through. */
  predicate AllCharged(env: Env, pages: nat) {
    pages == 0 || (AllCharged(env, pages - 1) && ChargeAllowed(env, pages - 1))
  }

  /** The only ways a scan fails: the charge of page k or its fetch went wrong. */
  predicate UpstreamFailed(env: Env, k: nat, e: ScanError) {
    || (e == FetchFailed(k) && env.fetchFails(k))
    || (e == ChargeFailed && env.charger.Some? && env.charger.value(k) == Failed)
  }

  /** The loop variables of a scan; `peak` is the largest length the retained buffer reached. */
  datatype Progress = Progress(pages: nat, scanned: nat, retained: seq<Record>, matchCount: nat, peak: nat)

  /** The arguments of a scan that stay fixed while it runs. */
  datatype Plan = Plan(grid: seq<Row>, headerRow: nat, q: Selection, retainCap: nat, env: Env,
                       pageSize: nat, scanBudget: int, rangeOf: (nat, nat) -> string)
  {
    predicate Valid() {
      headerRow >= 1 && pageSize >= 1 && retainCap >= 1
    }

    function Data(): seq<Row> {
      DataRows(grid, headerRow)
    }

    /** The matches among the first k data rows. */
    function Found(k: nat): seq<Record>
      requires k <= |Data()|
    {
      Select(Data()[..k], q)
    }

    /** How a scan ended: after `pages` fetched pages and `scanned` rows, of which the last
        page may be read only in part. */
    ghost predicate Stopped(stop: Stop, pages: nat, scanned: nat) {
      && scanned <= |Data()|
      && AllCharged(env, pages)
      && (pages >= 2 ==> FullPages(pages - 1, pageSize) < scanBudget)
      && if stop == Bucket then
           scanned == FullPages(pages, pageSize) && !ChargeAllowed(env, pages) && |Found(scanned)| < retainCap
         else
           && pages >= 1
           && FullPages(pages - 1, pageSize) <= scanned
           && EndsAt(FullPages(pages - 1, pageSize), stop, scanned)
    }

    /** How a page that began at row `before` ended the scan. */
    ghost predicate EndsAt(before: nat, stop: Stop, scanned: nat)
      requires before <= scanned <= |Data()|
    {
      match stop
      case Cap =>
        && before < scanned <= before + pageSize
        && |Found(scanned)| == retainCap && |Found(scanned - 1)| < retainCap
      case End => scanned < before + pageSize && scanned == |Data()| && |Found(scanned)| < retainCap
      case Budget => scanned == before + pageSize && scanBudget <= scanned && |Found(scanned)| < retainCap
      case Bucket => false
    }

    /** The calls of the page starting at row1: it is charged, then fetched. */
    function StepCalls(row1: nat): seq<Call>
      requires Valid()
    {
      (if env.charger.Some? then [Charge] else []) + [Values(rangeOf(row1, row1 + pageSize - 1))]
    }

    /** The calls of the first `pages` pages. */
    function PageCalls(pages: nat): seq<Call>
      requires Valid()
    {
      if pages == 0 then [] else PageCalls(pages - 1) + StepCalls(headerRow + 1 + FullPages(pages - 1, pageSize))
    }

    /** All calls of a scan that failed at page k: its charge, and its fetch if that was what failed. */
    function FailedCalls(k: nat, e: ScanError): seq<Call>
      requires Valid()
    {
      if e == ChargeFailed then PageCalls(k) + [Charge] else PageCalls(k + 1)
    }

    /** How a scan fails: after `pages` full pages that left it unfinished, by the charge or the
        fetch of the next one. */
    ghost predicate FailedAt(pages: nat, scanned: nat, e: ScanError)
      requires Valid()
    {
      && scanned == FullPages(pages, pageSize) <= |Data()| && |Found(scanned)| < retainCap
      && AllCharged(env, pages) && (pages >= 1 ==> scanned < scanBudget)
      && UpstreamFailed(env, pages, e) && (e.FetchFailed? ==> ChargeAllowed(env, pages))
    }

    /** A scan's result, and the calls it made on the way. */
    ghost predicate Ended(r: Result<Stop, ScanError>, pages: nat, scanned: nat, calls: seq<Call>)
      requires Valid()
    {
      match r
      case Ok(stop) => Stopped(stop, pages, scanned) && calls == ScanCalls(stop, pages)
      case Err(e) => FailedAt(pages, scanned, e) && calls == FailedCalls(pages, e)
    }

    /** All calls of a scan that stops: one more charge when the bucket was found empty. */
    function ScanCalls(stop: Stop, pages: nat): seq<Call>
      requires Valid()
    {
      if stop == Bucket then PageCalls(pages) + [Charge] else PageCalls(pages)
    }

    /** What every prefix of the scan has retained. */
    ghost predicate Consistent(p: Progress) {
      && p.scanned <= |Data()|
      && p.retained == Found(p.scanned)
      && p.matchCount == |p.retained|
      && p.peak <= retainCap
    }

    /** Between two pages: every page so far was full, charged and left the scan unfinished. */
    ghost predicate BetweenPages(p: Progress)
      requires Valid()
    {
      && p.scanned == FullPages(p.pages, pageSize)
      && p.matchCount < retainCap
      && AllCharged(env, p.pages)
      && (p.pages >= 1 ==> p.scanned < scanBudget)
    }

    /** Charge for page k and fetch it: a refused charge ends the scan, it is never an error. */
    method FetchPage(k: nat, row1: nat) returns (r: Result<bool, ScanError>, calls: seq<Call>)
      requires Valid()
      ensures r.Err? ==> UpstreamFailed(env, k, r.error)
      ensures r.Err? ==> calls == if r.error == ChargeFailed then [Charge] else StepCalls(row1)
      ensures r.Err? && r.error.FetchFailed? ==> ChargeAllowed(env, k)
      ensures r == Ok(true) ==> ChargeAllowed(env, k) && calls == StepCalls(row1)
      ensures r == Ok(false) ==> !ChargeAllowed(env, k) && calls == [Charge]
    {
      calls := [];
      if env.charger.Some? {
        calls := calls + [Charge];
        var outcome := env.charger.value(k);
        if outcome == Failed {
          return Err(ChargeFailed), calls;
        }
        if outcome != Allowed {
          return Ok(false), calls;
        }
      }
      calls := calls + [Values(rangeOf(row1, row1 + pageSize - 1))];
      if env.fetchFails(k) {
        return Err(FetchFailed(k)), calls;
      }
      return Ok(true), calls;
    }

    /** What upstream returns for the page below the rows scanned so far. */
    method NextPage(scanned: nat) returns (page: seq<Row>)
      requires Valid() && scanned <= |Data()|
      ensures |page| == (if scanned + pageSize <= |Data()| then pageSize else |Data()| - scanned)
      ensures page == Data()[scanned..scanned + |page|]
    {
      var currentRow := headerRow + 1 + scanned;
      var endRow := currentRow + pageSize - 1;
      page := RowsBetween(grid, currentRow, endRow);
      PageIsNextRows(grid, headerRow, scanned, pageSize);
    }

    /** One fetched page: scan it, then decide whether to stop. */
    method TakePage(p: Progress) returns (stop: Option<Stop>, next: Progress)
      requires Valid() && Consistent(p) && p.matchCount < retainCap
      ensures Consistent(next) && p.scanned <= next.scanned
      ensures next.pages == p.pages + 1
      ensures stop.Some? ==> EndsAt(p.scanned, stop.value, next.scanned)
      ensures stop.None? ==> next.scanned == p.scanned + pageSize < scanBudget && next.matchCount < retainCap
    {
      var page := NextPage(p.scanned);
      var capped, scanned, retained, matchCount, peak :=
        ScanPage(page, Data(), q, retainCap, p.scanned, p.retained, p.peak);
      next := Progress(p.pages + 1, scanned, retained, matchCount, peak);
      stop := if capped then Some(Cap)
              else if |page| < pageSize then Some(End)
              else if scanned >= scanBudget then Some(Budget)
              else None;
    }

    lemma FailsHere(p: Progress, e: ScanError, log: seq<Call>, made: seq<Call>)
      requires Valid() && Consistent(p) && BetweenPages(p) && log == PageCalls(p.pages)
      requires UpstreamFailed(env, p.pages, e) && (e.FetchFailed? ==> ChargeAllowed(env, p.pages))
      requires made == if e == ChargeFailed then [Charge] else StepCalls(headerRow + 1 + p.scanned)
      ensures Ended(Err(e), p.pages, p.scanned, log + made)
    {
    }

    lemma BucketIsEmpty(p: Progress, log: seq<Call>, made: seq<Call>)
      requires Valid() && Consistent(p) && BetweenPages(p) && log == PageCalls(p.pages)
      requires !ChargeAllowed(env, p.pages) && made == [Charge]
      ensures Ended(Ok(Bucket), p.pages, p.scanned, log + made)
    {
    }

    lemma StopsHere(p: Progress, next: Progress, stop: Stop, log: seq<Call>, made: seq<Call>)
      requires Valid() && BetweenPages(p) && Consistent(next) && ChargeAllowed(env, p.pages)
      requires next.pages == p.pages + 1 && p.scanned <= next.scanned && EndsAt(p.scanned, stop, next.scanned)
      requires log == PageCalls(p.pages) && made == StepCalls(headerRow + 1 + p.scanned)
      ensures Ended(Ok(stop), next.pages, next.scanned, log + made)
    {
    }

    lemma GoesOn(p: Progress, next: Progress, log: seq<Call>, made: seq<Call>)
      requires Valid() && BetweenPages(p) && Consistent(next) && ChargeAllowed(env, p.pages)
      requires log == PageCalls(p.pages) && made == StepCalls(headerRow + 1 + p.scanned)
      requires next.pages == p.pages + 1 && next.scanned == p.scanned + pageSize < scanBudget
               && next.matchCount < retainCap
      ensures BetweenPages(next) && log + made == PageCalls(next.pages)
    {
    }

    /** One iteration of the page loop; no answer means that the scan goes on. */
    method Step(p: Progress, log: seq<Call>)
      returns (answer: Option<Result<Stop, ScanError>>, next: Progress, calls: seq<Call>)
      requires Valid() && Consistent(p) && BetweenPages(p) && log == PageCalls(p.pages)
      ensures Consistent(next)
      ensures answer.None? ==> BetweenPages(next) && calls == PageCalls(next.pages) && p.scanned < next.scanned
      ensures answer.Some? ==> Ended(answer.value, next.pages, next.scanned, calls)
    {
      var fetched, made := FetchPage(p.pages, headerRow + 1 + p.scanned);
      calls := log + made;
      if fetched.Err? {
        FailsHere(p, fetched.error, log, made);
        return Some(Err(fetched.error)), p, calls;
      }
      if !fetched.value {
        BucketIsEmpty(p, log, made);
        return Some(Ok(Bucket)), p, calls;
      }
      var stop;
      stop, next := TakePage(p);
      if stop.Some? {
        StopsHere(p, next, stop.value, log, made);
        return Some(Ok(stop.value)), next, calls;
      }
      GoesOn(p, next, log, made);
      return None, next, calls;
    }

    /** The page loop. */
    method Scan() returns (r: Result<Stop, ScanError>, p: Progress, calls: seq<Call>)
      requires Valid()
      ensures Consistent(p)
      ensures Ended(r, p.pages, p.scanned, calls)
    {
      p, calls := Progress(0, 0, [], 0, 0), [];
      while true
        invariant Consistent(p) && BetweenPages(p) && calls == PageCalls(p.pages)
        decreases |Data()| - p.scanned
      {
        var answer;
        answer, p, calls := Step(p, calls);
        if answer.Some? {
          return answer.value, p, calls;
        }
      }
    }
  }
}
