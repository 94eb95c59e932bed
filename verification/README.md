# Verified models of the gateway's core mechanisms

This project models seven mechanisms of the backend and one of the frontend, and proves what the
code and its comments promise about them. Where a promise does not hold as stated, the project
proves the exact condition under which it does, with a concrete input for the rest.

- **A1 ranges** (`Decimal`, `A1Columns`, `A1Range`, `A1Grammar`, `ReadRange`): printing and parsing of sheet
  ranges, column letters as bijective base 26, the pre-fetch size caps on 64-bit integers, and
  `sheets_read_range` end to end.
- **The bounded sheet scan** (`Sheets`, `RowScan`, `QueryRows`, `QueryAnswer`): `sheets_query_rows` as a
  refinement of "filter the whole sheet, then take a window", and what its answers say about the raw sheet.
- **Usage rollup and prune** (`Calendar`, `UsageRollup`, `UsageJob`): an idempotent recompute against a
  retention prune, on the real UTC calendar.
- **The fleet lock** (`FleetLock`, `Worker`): replicas racing for a key with a TTL; the lock client, the
  attempt and the job statistics.
- **The token bucket** (`TokenBucket`): the atomic refill-and-take script and its key expiry.
- **The email outbox** (`EmailSchedule`, `ErrorText`, `EmailOutbox`, `EmailDispatch`, `EmailRun`): lease-based
  claims under overlapping runs and crashes, the attempt budget, backoff, and UTF-8-safe truncation
  (sections 3 and 4 of RFC 3629).
- **The token-source cache** (`TokenSources`): fingerprints by length-prefixed encoding, and a cache that
  agrees with building fresh.
- **The browser session** (`SessionRefresh`, `SessionIdentity`, `SessionRetry`, `SessionImpersonation`,
  `SessionClient`): single-flight refresh, retries, impersonation and sign-out as an event loop.

`Wrappers` holds the shared `Option` and `Result`, `Durations` the unit of time. Code that works step by
step is a method with a loop or a class with fields, proved against a function; the function is what the
lemmas speak about. Protocols are state machines whose steps are the atomic actions of the participants, and
their theorems hold in every state that any interleaving reaches. Lemmas with a proof carry
`{:induction false}`, so that no proof rests on automatic induction.

## Where the code and its comments differ

- `worker.go:12-18` promises at most one run per interval, fleet wide. The lock spaces runs by its TTL
  only, nine tenths of the interval; `FleetLock.OneRunPerIntervalExactly` shows that the promise holds
  exactly for intervals below ten nanoseconds, and gives two runs within one interval otherwise.
- `usagerollup/service.go:15-24,227-236` takes the clamp to be safe for any retention. The clamp uses the
  retention itself while the prune gets it in truncated seconds; `UsageRollup.SafeRetentionExactly` shows
  that the two agree exactly for whole seconds or at least 92 days, and
  `UsageRollup.UnsafeRetentionLosesCounts` loses a count otherwise.
- `emaildispatch/service.go:366-367` takes job timeout plus interval to be always safe. Truncation to whole
  seconds can undercut it: `EmailSchedule.LeaseOutlivesRunExactly` gives the exact condition, and
  `EmailOutbox.DispatcherSafeExactly` the one for the runs themselves, their last write included.
  The comment at `service.go:42-43` says `baseBackoff<<7` is 1920s; it is `<<6`, and the code is right.
- `ratelimit.go:129-133` reports a wait after which enough tokens would be available. For a request larger
  than the bucket no wait suffices; `TokenBucket.RetryAfterIsExact` shows that these are the only ones.
- `token-store.ts:71-80` and `client.ts:113-127` keep a restored admin token away from a screen that shows
  impersonation. A background refresh under way when impersonation begins, or one that an unanswered request
  of the admin's own still starts, puts it there: `SessionImpersonation.BeginningIsSafeExactly` has the exact
  condition, and `SessionImpersonation.LateRefreshCrossesOver` a run from sign-in.
- `use-session.tsx:131-142` clears the session on logout. A refresh under way at that moment can bring it
  back when it settles (`client.ts:90-95`): `SessionImpersonation.SignOutHoldsExactly` has the exact condition, and
  `SessionImpersonation.SignOutMayBeUndone` a sign-out in a reachable state that does not hold.

## Assumptions

- A page of a tab is `min(pageSize, rows left)` consecutive rows (`api.go:53-57`, `query.go:266-271`), a tab
  has at most 18,278 columns, and `offset + limit + 1` is an int.
- The database clock, Redis' clock and the workers' clocks are one clock that never goes back, except where
  a lemma is about a clock that does. The clock stands still within one rollup run in `UsageJob`.
- Rollup runs do not overlap. Retention and lease fit int32 seconds, and attempt counts an int32. Instants
  before year 1 do not occur.
- A row's event id, an outbox row's id and a refresh token are never issued twice.
- In the browser, a task (a network reply, a click) begins only when the continuations of the previous one, its
  microtasks, have all run; a request may also be started by a continuation. Impersonation begins when a request
  that asked for it has been answered (`page-client.tsx:93-97` of the admin's user page, `use-session.tsx:151-153`).
- An email run, its last write included, ends within a given span of its claim; the lemmas say how that
  span must relate to the lease.
- Strings are sequences of Unicode scalar values in the range codec (all delimiters are ASCII), and stand for
  byte strings in `TokenSources`.

## Model

| member | source | states |
|---|---|---|
| `Decimal.AtoiOfFormat` | apps/backend/internal/adapter/googlesheets/readrange.go:149-155 | reading a printed number gives it back exactly when it fits a 64-bit int, and fails otherwise |
| `A1Columns.ColumnLetter` | apps/backend/internal/adapter/googlesheets/describe.go:164-178 | the loop gives the letters of the index, and nothing for a negative one |
| `A1Columns.ColumnIndex` | apps/backend/internal/adapter/googlesheets/readrange.go:182-198 | the loop gives the index or the first error it meets, in scanning order |
| `A1Columns.ColumnIndexAccepts` | apps/backend/internal/adapter/googlesheets/readrange.go:171-198 | a nonempty letter string is accepted exactly up to three letters; its letters are the string in upper case |
| `A1Columns.IndexOfLetters` | apps/backend/internal/adapter/googlesheets/readrange.go:179-198 | index after letters is the identity on exactly the columns a sheet can have, and an error past them |
| `A1Columns.NumeralOfLetters` | apps/backend/internal/adapter/googlesheets/describe.go:162-178 | the printed letters denote the index in bijective base 26 |
| `A1Columns.LettersOfNumeral` | apps/backend/internal/adapter/googlesheets/describe.go:162-178 | every upper-case letter string is printed by exactly the number that it denotes |
| `A1Columns.ColumnOrder` | apps/backend/internal/adapter/googlesheets/readrange.go:186-196 | index order is length first, then alphabetical, both directions |
| `A1Range.SplitSheetAndRange` | apps/backend/internal/adapter/googlesheets/readrange.go:209-240 | the loop splits off the sheet name, or reports a missing quote or bang |
| `A1Range.UnquoteInverse` | apps/backend/internal/adapter/googlesheets/readrange.go:210-235 | a quoted name is read back as n exactly when the text is n with its quotes doubled, a closing quote and no further quote |
| `A1Grammar.QuotesAreDoubled` | apps/backend/internal/adapter/googlesheets/describe.go:133-135 | quoting doubles each quote of a name and touches nothing else |
| `A1Grammar.SplitExactly` | apps/backend/internal/adapter/googlesheets/readrange.go:209-240 | a text splits into name and range exactly if it is a quoted name, "!" and the range, or a plain name up to the first "!", or has no name at all |
| `A1Grammar.QuoteErrors` | apps/backend/internal/adapter/googlesheets/readrange.go:210-235 | an unterminated quote is reported exactly if no quoted name begins the text; otherwise only a missing "!" is |
| `A1Grammar.MeansExactly` | apps/backend/internal/adapter/googlesheets/readrange.go:141-170 | a half is read as a cell exactly if it is a column's letters in either case and a row, as a row exactly if it is a row number, and as a column exactly if it is letters |
| `A1Grammar.ClassifyRefuses` | apps/backend/internal/adapter/googlesheets/readrange.go:141-170 | a half is refused for its column exactly with more than three letters before digits, for its row exactly if no sheet has it, else as no reference |
| `A1Grammar.ParseExactly` | apps/backend/internal/adapter/googlesheets/readrange.go:267-324 | a text is accepted and read as a range exactly if it is, but for white space around it, an optional sheet name and two corners in any order, or two rows, that span the range |
| `A1Grammar.ParseOfPadded` | apps/backend/internal/adapter/googlesheets/readrange.go:268-271 | white space around a text makes no difference |
| `A1Grammar.ParseOfTyped` | apps/backend/internal/adapter/googlesheets/readrange.go:267-324 | a typed range with a plain sheet name or none is read as its cell, or as the ascending rectangle between its corners |
| `A1Range.ParseOfFormat` | apps/backend/internal/adapter/googlesheets/readrange.go:492-494 | parsing undoes formatting for every sheet name, with any quotes and bangs, and every range within the column ceiling |
| `A1Range.ParseOfRowRange` | apps/backend/internal/adapter/googlesheets/describe.go:129-135 | parsing a printed row range gives the same rows under the same name, with open columns |
| `A1Range.FormatInjective` | apps/backend/internal/adapter/googlesheets/readrange.go:489-494 | two different ranges are never sent upstream as the same string |
| `A1Range.FormatOfParse` | apps/backend/internal/adapter/googlesheets/readrange.go:489-494 | formatting an accepted range and parsing the echo changes nothing |
| `A1Range.AcceptedIsWellFormed` | apps/backend/internal/adapter/googlesheets/readrange.go:267-324 | every accepted range has ascending bounds, rows from 1, and both columns open or within the ceiling |
| `A1Range.AcceptedIsOneRange` | apps/backend/internal/adapter/googlesheets/readrange.go:200-208 | a sheet name cannot hide a second range: past the split there are letters, digits and one colon |
| `A1Range.UnboundedExactly` | apps/backend/internal/adapter/googlesheets/readrange.go:295-298 | a range is refused as unbounded exactly when both halves are bare letters |
| `A1Range.CapsAreExact` | apps/backend/internal/adapter/googlesheets/readrange.go:78-102 | in spite of 64-bit wrap-around the caps decide the true size of every well-formed range |
| `A1Range.NoOverflowSlipsPast` | apps/backend/internal/adapter/googlesheets/readrange.go:171-177 | no cell count that overflows negative slips past the size check: the row span of its range is over the cap |
| `A1Range.CellCountExactly` | apps/backend/internal/adapter/googlesheets/readrange.go:92-102 | the cell count is rows times columns exactly if that product fits a 64-bit int |
| `A1Range.ValidateExactly` | apps/backend/internal/adapter/googlesheets/readrange.go:350-362 | validation passes exactly the parsed ranges of at most 1000 rows and, if columns are known, 20000 cells |
| `A1Range.CellCountCanWrapNegative` | apps/backend/internal/adapter/googlesheets/readrange.go:171-177 | two columns over all rows wrap to a count of -2; the row cap refuses that range |
| `ReadRange.ReadRange` | apps/backend/internal/adapter/googlesheets/readrange.go:401-487 | tab, size, charge, read and pad in that order: nothing is charged or fetched for an oversized rectangle, rows come back as rectangles under their columns, and the size error comes exactly when the padded rows are too large |
| `ReadRange.Assemble` | apps/backend/internal/adapter/googlesheets/readrange.go:446-473 | the columns of the rectangle in order, and every fetched row cut or padded to their number |
| `ReadRange.ResolvedRect` | apps/backend/internal/adapter/googlesheets/readrange.go:406-432 | resolving keeps the rows and any given columns and names a tab that exists |
| `ReadRange.TargetExactly` | apps/backend/internal/adapter/googlesheets/readrange.go:407-424 | a named range reads the first tab of that name, an unnamed one the first tab; otherwise the error says which was missing |
| `ReadRange.RefusedBeforeReading` | apps/backend/internal/adapter/googlesheets/readrange.go:426-451 | a rectangle of the named tab over 1000 rows or 20000 cells is refused before any charge, an empty bucket or failed charge before any read; the read asks for exactly that rectangle |
| `ReadRange.ReadIsTrue` | apps/backend/internal/adapter/googlesheets/readrange.go:446-487 | an answer has the rectangle's columns, and in each place the text of the fetched cell, or "" where its row has ended |
| `ReadRange.RequestIsExact` | apps/backend/internal/adapter/googlesheets/readrange.go:438-442 | the string sent upstream reads back as exactly the resolved rectangle |
| `RowScan.MatchRow` | apps/backend/internal/adapter/googlesheets/query.go:316-333 | a row matches exactly if every filter's column exists and accepts the row's cell there, missing cells being empty |
| `RowScan.ProjectRow` | apps/backend/internal/adapter/googlesheets/query.go:338-352 | every requested column once, with "" for cells the row does not reach |
| `RowScan.ScanPage` | apps/backend/internal/adapter/googlesheets/query.go:244-264 | the buffer is the matches of the rows scanned so far, never longer than the cap, and a capped page stops at the row that reached it |
| `RowScan.Plan.Scan` | apps/backend/internal/adapter/googlesheets/query.go:219-277 | the page loop ends on one of its four stops with what that stop implies, charging before each fetch; it fails only between full, charged pages, by the charge or the fetch of the next one, and its calls are exactly those |
| `QueryRows.ReadHeader` | apps/backend/internal/adapter/googlesheets/query.go:186-196 | headers in order, and the header index |
| `QueryRows.HeaderIndexMeaning` | apps/backend/internal/adapter/googlesheets/query.go:186-196 | the index holds exactly the nonempty headers, each at its last column |
| `QueryRows.QueryRows` | apps/backend/internal/adapter/googlesheets/query.go:165-312 | errors in the order of the code; an answer is the window and flags of where the scan stopped, a size error has an answer that is too large, an empty bucket is never an error, and the calls made are exactly those of the pages |
| `QueryAnswer.ColumnsAreChecked` | apps/backend/internal/adapter/googlesheets/query.go:186-215 | a query is refused for the first named column that the header row lacks, the filters' columns before the requested ones, and otherwise never |
| `QueryAnswer.AnswerIsTrue` | apps/backend/internal/adapter/googlesheets/query.go:203-312 | over the raw sheet: the columns asked for or all headers; the rows below the header that every filter accepts, from offset on, at most limit, in order, each with the text under the last column of each name; and what each stop, count and flag says about them |
| `QueryAnswer.RequestsNameTheTab` | apps/backend/internal/adapter/googlesheets/query.go:175-242 | the calls of an answer are the metadata, the header row and the pages of the queried tab in order, each page after its own charge |
| `QueryRows.RefinesWholeSheet` | apps/backend/internal/adapter/googlesheets/query.go:279-305 | rows are the window of the scanned prefix, and of the whole sheet on cap or end; more exactly on cap; a total exactly at the end, where it is the true count and within the window |
| `QueryRows.ScanIsBounded` | apps/backend/internal/adapter/googlesheets/query.go:154-164 | at most budget/pageSize pages, rounded up, and fewer than budget + pageSize rows, whatever the sheet holds |
| `QueryRows.PageCallsAt` | apps/backend/internal/adapter/googlesheets/query.go:226-242 | one fetch per page, each directly after its own charge |
| `QueryRows.PagesTile` | apps/backend/internal/adapter/googlesheets/query.go:224-276 | the requested pages tile the rows below the header without gap or overlap, and each request reads back as its rows |
| `QueryRows.StopsOnCapOrEnd` | apps/backend/internal/adapter/googlesheets/query.go:256-275 | without charger and below the budget, the cap is the stop exactly when there are enough matches, and it is reached at the first such row |
| `QueryRows.PageSizeUnobservable` | apps/backend/internal/adapter/googlesheets/query.go:165-312 | without charger or failing fetch and below the budget, the whole result is the same for every page size, be it an answer or the size error |
| `QueryRows.PagingCollectsEverything` | apps/backend/internal/adapter/googlesheets/query.go:281-298 | following NextOffset while HasMore concatenates to all matching rows, once each and in order |
| `QueryRows.PagingEnds` | apps/backend/internal/adapter/googlesheets/query.go:281-298 | every call but the last moves on by a whole window and stays below the number of matches, so with a positive limit the client comes to an end |
| `Calendar.MonthOfUnique` | apps/backend/internal/job/usagerollup/service.go:28-37 | an instant's month is the one month that contains it |
| `Calendar.DaysBeforeYear` | apps/backend/internal/job/usagerollup/service.go:243-245 | the month lengths add up to the Gregorian calendar with its leap years |
| `Calendar.MonthStarts` | apps/backend/internal/job/usagerollup/service.go:28-37 | every month starts where the closed form of the Gregorian calendar puts it, leap days included |
| `Calendar.MonthRuns` | apps/backend/internal/job/usagerollup/service.go:63-72 | two consecutive months have at least 59 days, three at most 92 |
| `UsageRollup.SinceIsMonthStart` | apps/backend/internal/job/usagerollup/service.go:242-262 | the window starts with a month |
| `UsageRollup.SinceIsFirst` | apps/backend/internal/job/usagerollup/service.go:238-262 | that month is the first one neither before the cutoff nor beyond the lookback |
| `UsageRollup.SafeRetentionExactly` | apps/backend/internal/job/usagerollup/service.go:193-262 | the window never reaches behind the prune's cutoff exactly for retentions in whole seconds or of at least 92 days |
| `UsageRollup.UnsafeRetentionLosesCounts` | apps/backend/internal/job/usagerollup/service.go:8-18 | any other retention has a run of insertions and two job runs that overwrites a count of 2 with 1 |
| `UsageRollup.NeverDecreasesExactly` | apps/backend/internal/job/usagerollup/service.go:8-26 | over every run no rollup count decreases, exactly for those retentions |
| `UsageRollup.RollUpWholeMonths` | apps/backend/internal/job/usagerollup/service.go:10-15 | every organization, tool and whole month gets the number of its calls in that month, every other rollup is left alone, and the rows affected are exactly those |
| `UsageRollup.RollUpIdempotent` | apps/backend/internal/job/usagerollup/service.go:10-12 | recomputing again changes nothing |
| `UsageRollup.RollupsNeverDecrease` | apps/backend/internal/job/usagerollup/service.go:20-26 | with such a retention, over every run of inserts, rollups, partial prunes and crashes no rollup count decreases |
| `UsageRollup.RecomputedPeriodsAreExact` | apps/backend/internal/job/usagerollup/service.go:20-26 | each fold writes, for every organization, tool and month from the window on, the number of its calls ever inserted in that month, and leaves all others |
| `UsageRollup.RecentIsCovered` | apps/backend/internal/job/usagerollup/service.go:222-262 | with runs less than 59 days apart and a month more of retention, the window covers every event younger than that gap |
| `UsageRollup.EveryEventIsConserved` | apps/backend/internal/job/usagerollup/service.go:128-153 | on timely runs an event is pruned only once folded, and every fold leaves each rollup equal to the calls ever inserted of its organization to its tool in its month |
| `UsageJob.UsageStore.PruneUsageEvents` | apps/backend/internal/job/usagerollup/service.go:204-214 | one batch deletes only expired events, and a short one leaves none |
| `UsageJob.Prune` | apps/backend/internal/job/usagerollup/service.go:193-220 | only expired events go; drained means none is left; no batch is made once the context or the delete fails, and that failure is returned; otherwise all hundred batches were full |
| `UsageJob.Run` | apps/backend/internal/job/usagerollup/service.go:128-153 | the rollup counts every event present at the start, before the prune, and stays whatever the prune does; every batch made was undisturbed, and what cancels or fails one before the table is drained is returned as the error |
| `UsageJob.RunIsThreeSteps` | apps/backend/internal/job/usagerollup/service.go:126-153 | such a run is begin, fold and prune of the protocol |
| `FleetLock.LockTTLBounds` | apps/backend/internal/worker/worker.go:181-190 | the TTL is nine tenths of the interval, rounded up, and never zero |
| `FleetLock.StepKeepsInv` | apps/backend/internal/worker/worker.go:98-168 | every step of every replica keeps the lock, the acquisitions and the replicas' phases in agreement |
| `FleetLock.EarlyAcquisitionNeedsRelease` | apps/backend/internal/worker/worker.go:140-155 | two acquisitions less than a TTL apart: the earlier run failed and its own owner released in between |
| `FleetLock.ReleaseDropsExactlyItsOwn` | apps/backend/internal/worker/lock.go:21-23 | a failed run's release frees the key exactly if that run is the latest acquisition and its lease has not lapsed, and drops no other key |
| `FleetLock.RefusedExactly` | apps/backend/internal/worker/worker.go:181-190 | the key is refused exactly within a TTL of the latest unreleased acquisition; never a whole interval after it |
| `FleetLock.FewRunsOverlap` | apps/backend/internal/worker/worker.go:133-137 | at most timeout/TTL runs, rounded up, go on at once in the fleet |
| `FleetLock.NoOverlapWithinTTL` | apps/backend/internal/worker/worker.go:12-18 | runs that end within the TTL never overlap |
| `FleetLock.RunsApartByTTL` | apps/backend/internal/worker/worker.go:4-10 | an unfailed run keeps every later one a TTL away |
| `FleetLock.OneRunPerIntervalExactly` | apps/backend/internal/worker/worker.go:12-18 | at most one unfailed run per interval holds exactly when the TTL is the whole interval |
| `Worker.RedisLock.Acquire` | apps/backend/internal/worker/lock.go:42-44 | SET NX with a TTL on the job's own key, also when the reply is lost |
| `Worker.RedisLock.Release` | apps/backend/internal/worker/lock.go:46-55 | compare-and-delete on the job's own key |
| `Worker.KeysAreApart` | apps/backend/internal/worker/lock.go:40-40 | jobs of different names never touch one another's keys |
| `Worker.AttemptFollowsProtocol` | apps/backend/internal/worker/worker.go:115-168 | an attempt moves its key by an acquire step, its answer lost or not, and, if the run failed, a release step of the fleet protocol |
| `Worker.OutcomeIsRecorded` | apps/backend/internal/worker/worker.go:120-167 | a run that returns an error or panics is a run and a failure with that error; one that returns clears the error and sets the affected count; duration and start are those of the run |
| `Worker.FailureFreesKey` | apps/backend/internal/worker/worker.go:120-158 | a free key is taken for a TTL; a run that fails or panics frees it again if the release is carried out while the key is its own; a run that returns leaves it |
| `Worker.Worker.TryRun` | apps/backend/internal/worker/worker.go:115-168 | keys and statistics after an attempt, for every way its commands and its run can go; nothing when cancelled |
| `Worker.Worker.Register` | apps/backend/internal/worker/worker.go:71-79 | a taken name is refused and changes nothing; names stay distinct |
| `Worker.Worker.Stats` | apps/backend/internal/worker/worker.go:201-211 | one summary per job in registration order |
| `Worker.StatsClassifyAttempts` | apps/backend/internal/worker/worker.go:120-167 | over any history the counters classify every attempt as run, skip or lock error, and failures are failed runs and lock errors |
| `Worker.LastErrorIsCurrent` | apps/backend/internal/worker/worker.go:147-167 | the reported error is that of the latest attempt that was not skipped, cleared by a completed run |
| `TokenBucket.RefillIsProduct` | apps/backend/internal/infra/redis/ratelimit.go:61-65 | what comes in over an elapsed time is its seconds times the rate |
| `TokenBucket.ExpiryUnobservableExactly` | apps/backend/internal/infra/redis/ratelimit.go:15-20 | dropping idle keys changes no answer of any sequence of calls exactly if a bucket refills within the TTL |
| `TokenBucket.ConfigForIsSafe` | apps/backend/internal/infra/redis/ratelimit.go:116-127 | every limiter that is built holds a minute's tokens, 60 by default, and refills in 60 seconds, within its TTL |
| `TokenBucket.TakesWhatItAdmits` | apps/backend/internal/infra/redis/ratelimit.go:61-85 | a call is admitted exactly if its tokens are there, takes exactly those, or none if denied; what comes in later is added up to the capacity |
| `TokenBucket.KeepsLedger` | apps/backend/internal/infra/redis/ratelimit.go:42-85 | over any calls in time order the verdicts are those of a ledger kept without any bucket, full for a connector never seen |
| `TokenBucket.AdmittedWhileThere` | apps/backend/internal/infra/redis/ratelimit.go:61-85 | calls that together ask for no more than is there at the first of them are all admitted |
| `TokenBucket.BucketsAreApart` | apps/backend/internal/infra/redis/ratelimit.go:136-141 | different connectors have different buckets |
| `TokenBucket.AdmissionBound` | apps/backend/internal/infra/redis/ratelimit.go:22-85 | from any stored bucket and over any calls, at most capacity plus refill is admitted between two instants |
| `TokenBucket.SteppingBackBreaksBound` | apps/backend/internal/infra/redis/ratelimit.go:61-64 | a clock that steps back lets two full buckets out at one instant |
| `TokenBucket.DenialHarmlessExactly` | apps/backend/internal/infra/redis/ratelimit.go:61-84 | a denied call changes no later level exactly if it is not earlier than the last one, or the bucket was full |
| `TokenBucket.DenialLeavesLaterAnswers` | apps/backend/internal/infra/redis/ratelimit.go:70-85 | a denied call leaves every later answer as if it had not been made |
| `TokenBucket.RetryAfterIsExact` | apps/backend/internal/infra/redis/ratelimit.go:73-76 | the reported wait is the least whole number of seconds that admits the same request, exactly if it fits the bucket; a larger one is admitted never, from any bucket |
| `TokenBucket.RateLimiter.Run` | apps/backend/internal/infra/redis/ratelimit.go:42-88 | the script's answer and the stored bucket, every other bucket unchanged |
| `TokenBucket.RateLimiter.Charge` | apps/backend/internal/infra/redis/ratelimit.go:136-163 | at least one token, on the connector's own key; an unreachable store is an error and changes nothing |
| `EmailSchedule.BackoffIsClampedDoubling` | apps/backend/internal/job/emaildispatch/service.go:305-327 | short-circuit and clamp are 30 seconds doubled per attempt up to 30 minutes, for every int32 count |
| `EmailSchedule.BackoffIsMonotone` | apps/backend/internal/job/emaildispatch/service.go:250-262 | the backoff never shrinks and is whole seconds, so the column's int32 seconds lose nothing |
| `EmailSchedule.LeaseOutlivesRunExactly` | apps/backend/internal/job/emaildispatch/service.go:356-374 | the lease exceeds the job timeout exactly below the floor or when the interval fills the truncated second |
| `EmailSchedule.LeaseCoversWriteExactly` | apps/backend/internal/job/emaildispatch/service.go:356-374 | the lease exceeds the timeout and the last write exactly below the floor or when the interval exceeds that write and the truncated fraction |
| `EmailSchedule.LeaseCoversLastWrite` | apps/backend/internal/job/emaildispatch/service.go:366-367 | an interval of a second more than the last write takes is always enough |
| `ErrorText.TruncateError` | apps/backend/internal/job/emaildispatch/service.go:330-354 | the loop drops broken tails below 500 bytes and nothing else |
| `ErrorText.TruncationIsLongestValidPrefix` | apps/backend/internal/job/emaildispatch/service.go:335-354 | on valid UTF-8 the result is the longest valid prefix of at most 500 bytes, at least 497 when it cuts |
| `ErrorText.ValidExactly` | apps/backend/internal/job/emaildispatch/service.go:330-354 | valid UTF-8 is exactly what encodes a text of Unicode scalar values, by the table of section 3 of RFC 3629 |
| `ErrorText.TruncationKeepsWholeCharacters` | apps/backend/internal/job/emaildispatch/service.go:330-354 | of such a text, the first characters are kept that fit into 500 bytes; one more would not fit |
| `ErrorText.TruncationDropsBrokenTails` | apps/backend/internal/job/emaildispatch/service.go:330-354 | of any bytes at most the first 500 are kept, and only broken tails are dropped below that |
| `ErrorText.GenuineReplacementSurvives` | apps/backend/internal/job/emaildispatch/service.go:343-345 | a real U+FFFD at the limit is kept |
| `EmailOutbox.StepKeepsInv` | apps/backend/internal/job/emaildispatch/service.go:141-262 | every claim, send, record, crash and prune keeps each open row leased by exactly one run, and every budget |
| `EmailOutbox.NoDoubleSendExactly` | apps/backend/internal/job/emaildispatch/service.go:356-367 | over every history no two runs send one row at once, exactly if the lease outlives every run with its last write |
| `EmailOutbox.DispatcherSafeExactly` | apps/backend/internal/job/emaildispatch/service.go:356-374 | with the lease the job computes, no two runs ever send one row at once exactly below the floor or when the interval exceeds the last write and the truncated fraction |
| `EmailOutbox.DispatcherNeverDoubles` | apps/backend/internal/job/emaildispatch/service.go:368-374 | with the lease the job computes this holds whenever the interval is a second more than the last write takes |
| `EmailOutbox.BudgetHolds` | apps/backend/internal/job/emaildispatch/service.go:211-223 | sends are at most claims, claims at most the budget plus lost ones, and an idle pending row has a claim left |
| `EmailOutbox.OutcomeShows` | apps/backend/internal/job/emaildispatch/service.go:192-262 | a delivered row ends as sent, a refused one with its budget used up or one without a body as failed, both without body; only a refusal within the budget leaves it pending |
| `EmailOutbox.TerminalStays` | apps/backend/internal/job/emaildispatch/service.go:192-248 | a sent or failed row is never touched or sent again, only deleted |
| `EmailOutbox.IdleStays` | apps/backend/internal/job/emaildispatch/service.go:139-149 | a pending row no run is busy with changes only by a claim, at its due time at the earliest |
| `EmailOutbox.RetryWaitsForBackoff` | apps/backend/internal/job/emaildispatch/service.go:252-262 | a refused row with budget left waits for exactly its backoff |
| `EmailDispatch.EachRowItsOwn` | apps/backend/internal/job/emaildispatch/service.go:157-174 | each row the run reaches gets its own outcome and no other, each row it does not reach keeps its lease |
| `EmailDispatch.RowsEndAsDelivered` | apps/backend/internal/job/emaildispatch/service.go:141-262 | field by field, each row reached ends as sent, failed, or due again 30 seconds later, doubled per attempt up to 30 minutes; a row not reached keeps its lease and one outside the batch is untouched |
| `EmailDispatch.HandedOnce` | apps/backend/internal/job/emaildispatch/service.go:192-209 | exactly the reached rows with a body are handed to the sender, each once |
| `EmailDispatch.SentAreDelivered` | apps/backend/internal/job/emaildispatch/service.go:152-174 | the run reports the number of rows that were delivered |
| `EmailDispatch.Dispatcher.SendRow` | apps/backend/internal/job/emaildispatch/service.go:192-233 | a bodyless row never reaches the sender; every other outcome is recorded on the row itself |
| `EmailDispatch.Dispatcher.Run` | apps/backend/internal/job/emaildispatch/service.go:141-186 | the rows up to the first cancellation, in order; an error exactly for a failed claim or a cancelled run, never for a refused mail |
| `EmailRun.RowFollowsProtocol` | apps/backend/internal/job/emaildispatch/service.go:192-233 | what is done to one row is a begin step, an end step if it has a body, and a record or lose step of the outbox protocol |
| `EmailRun.RunFollowsProtocol` | apps/backend/internal/job/emaildispatch/service.go:141-186 | a run takes the table where the protocol takes it by the claim, the steps of each row that it reaches, its sweep and its end |
| `EmailDispatch.Dispatcher.MaybePrune` | apps/backend/internal/job/emaildispatch/service.go:264-303 | once an hour; exactly as many expired rows go as the batches before the first cancellation or failure take, at most twenty of 1000 |
| `EmailDispatch.ExpiredExactly` | apps/backend/internal/job/emaildispatch/service.go:264-303 | a sweep may delete exactly the sent and failed rows last touched longer ago than the retention |
| `TokenSources.WriteFingerprintFields` | apps/backend/internal/adapter/googlesheets/oauth.go:164-168 | the loop writes the length-prefixed encoding |
| `TokenSources.EncodeInjective` | apps/backend/internal/adapter/googlesheets/oauth.go:162-168 | field lists of any lengths and contents are written alike only if they are the same |
| `TokenSources.EncodingIdentifiesSource` | apps/backend/internal/adapter/googlesheets/oauth.go:144-160 | what is hashed is the same exactly for the same service account, or without one the same client, secret and refresh token |
| `TokenSources.TokenSourceCache.Get` | apps/backend/internal/adapter/googlesheets/oauth.go:118-129 | the cached source for an unchanged credential, else a new one; built from exactly this credential unless its digest collides with the cached one's |
| `TokenSources.MaterialExactly` | apps/backend/internal/adapter/googlesheets/oauth.go:45-72 | a source is built from the service account if there is one, else from the OAuth client, else from nothing |
| `TokenSources.RebuildsExactlyOnChange` | apps/backend/internal/adapter/googlesheets/oauth.go:109-129 | a second Get returns a new source, built from its own credential, exactly if that builds another source than the first one's, barring a collision |
| `TokenSources.TokenSourceCache.Delete` | apps/backend/internal/adapter/googlesheets/oauth.go:171-175 | the connector's entry goes, the others stay |
| `TokenSources.CacheIsTransparent` | apps/backend/internal/adapter/googlesheets/oauth.go:109-129 | over any sequence of calls every Get returns what building fresh would, the digest being free of collisions on the credentials in play |
| `SessionRefresh.StepKeepsInv` | apps/frontend/lib/api/client.ts:80-200 | every step of every interleaving keeps single flight, fresh refresh tokens, and requests sent in turn |
| `SessionRefresh.SingleFlight` | apps/frontend/lib/api/client.ts:102-109 | at most one refresh and one restoration are outstanding, and the slot is taken exactly while one is |
| `SessionRefresh.NeverPresentedTwice` | apps/frontend/lib/api/client.ts:83-100 | no refresh token is presented to the server twice |
| `SessionRefresh.SentAtMostTwice` | apps/frontend/lib/api/client.ts:178-200 | every request goes out once or twice, and exactly once when begun while impersonating or not to be retried |
| `SessionRefresh.ClusterSharesRefresh` | apps/frontend/lib/api/client.ts:80-109 | over every run, whatever fails between two refresh replies presents one refresh token at most, and none if a refresh is out already |
| `SessionRefresh.ClusterSharesRestore` | apps/frontend/lib/api/client.ts:154-169 | over every run, until a restoration is finished no further one starts, so the expiry is announced once |
| `SessionIdentity.RetryCarriesRefreshedToken` | apps/frontend/lib/api/client.ts:90-109 | in every reachable state, a request sent again went out with exactly the access token that the refresh it awaited brought, never as somebody else |
| `SessionRetry.TokensAfter` | apps/frontend/lib/auth/token-store.ts:17-104 | what each step does to access token, flag and refresh token: a pair signs in, a refused refresh and a sign-out clear all, impersonation touches the access token only, leaving it lowers the flag only |
| `SessionRetry.BegunAsAsked` | apps/frontend/lib/api/client.ts:178-188 | only a start begins a request, with the token and flag then in the store |
| `SessionRetry.RefusalOutcome` | apps/frontend/lib/api/client.ts:179-200 | an answered request is done, unless its first send was refused and it may be retried: then it awaits the refresh under way, begun with the stored token if none was, or the restoration |
| `SessionRetry.NeverStuck` | apps/frontend/lib/api/client.ts:83-169 | in every reachable state a waiting request waits for a refresh that is still out, or some continuation can run |
| `SessionRetry.ReplyIsBrought` | apps/frontend/lib/api/client.ts:83-109 | over every run, what the server answers to a refresh is what that refresh brings from then on |
| `SessionRetry.RefusedIsSentAgain` | apps/frontend/lib/api/client.ts:187-200 | over every run, a refused request that may be retried awaits one refresh and, when it goes on, is sent again with exactly the token that refresh brought, or given up if it brought none |
| `SessionImpersonation.AgreementExactly` | apps/frontend/lib/auth/token-store.ts:87-95 | looking back at a run, flag and token agreed throughout exactly if no pair arrived while the flag was up |
| `SessionImpersonation.BeginningIsSafeExactly` | apps/frontend/lib/auth/token-store.ts:71-99 | from the moment impersonation begins, flag and token agree until the flag falls, whatever but a sign-in happens, exactly if no refresh is under way and no unanswered own request can start one |
| `SessionImpersonation.ImpersonatedStayImpersonated` | apps/frontend/lib/api/client.ts:179-194 | if every impersonation begins so, no request begun while impersonating is ever sent under the user's own token |
| `SessionImpersonation.LateRefreshCrossesOver` | apps/frontend/lib/api/client.ts:90-99 | a run from sign-in in which a background refresh settles under the raised flag, and a request shown as impersonated goes out with the user's own token |
| `SessionImpersonation.SignOutHoldsExactly` | apps/frontend/lib/auth/use-session.tsx:131-142 | after a sign-out no refresh token reaches the store, whatever but a sign-in happens, exactly if no refresh was under way |
| `SessionImpersonation.SignOutMayBeUndone` | apps/frontend/lib/auth/use-session.tsx:131-142 | a state reached from sign-in in which signing out does not hold |
| `SessionClient.Client.Respond` | apps/frontend/lib/api/client.ts:187-199 | what a request does once answered: done, await the restoration, or await the refresh |
| `SessionClient.Client.Refresh` | apps/frontend/lib/api/client.ts:83-109 | join the refresh under way, or start one with the stored token; without a token everything is cleared |
| `SessionClient.Client.Restore` | apps/frontend/lib/api/client.ts:142-169 | join the restoration under way, or lower the flag and start one |
| `SessionClient.Client.Settle` | apps/frontend/lib/api/client.ts:90-99 | the server's answer stores the new pair or clears the session |
| `SessionClient.Client.Resume` | apps/frontend/lib/api/client.ts:191-196 | after a refresh that succeeded the request goes out again with what the store then holds; else it is done |

## Left out

- Google, Redis, Postgres and the network: each call is the step that it performs on the modelled state, with its failures as parameters.
- JSON encoding: the encoded size of a result is a parameter, and the size cap a possible error once the result is fixed.
- Number formatting of cells (`describe.go:141-160`): a number cell carries its printed form. Filter predicates are given functions.
- Validation of the filters' own shape in `ValidateQueryRowsInput`, and the allowlist check before the scan.
- `checkDrift` in the rollup job: a diagnostic that changes nothing. The log and the attributes of results are not modelled anywhere.
- Rounding of `tokens` and `ts` by Lua's `tostring`, and floating point in the bucket: levels are reals, instants whole microseconds.
- Tickers: a replica of the fleet lock may try at any time. Two replicas' runs of different jobs are independent because their keys are.
- A command that its client gave up on but that Redis carries out later: a lost command takes effect at once or not at all.
- EmailOutbox.StepKeepsInv: assumes that a run's writes land before its lease lapses; a later reschedule has no guard of its own in SQL.
- EmailDispatch.Dispatcher.Run: takes the batch that Postgres picked as given (due, distinct rows), not its oldest-first order or its size.
- SessionRefresh.SingleFlight: covers refreshes through `ensureRefreshed`; the session bootstrap's own refresh and other tabs sharing localStorage are not part of this model.
- The active organization, toasts and React subscriptions of the frontend.
- Recipients, subjects and bodies of mails (a row only knows whether it has a body), and the provider's handling of idempotency keys.
- Cryptography: the digest of the cache is a given function, and lemmas say where a collision would matter.
- The parsed service-account key: a token source is built from the key JSON, of which the parsed key is a function.
- Session cleanup, connector health, drive and list adapters, admin handlers, guards and configuration: loops or branches that would only add easy members.
