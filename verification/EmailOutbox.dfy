/** The email outbox as a protocol: overlapping dispatch runs claim rows by lease, send them, and
    record what came of it, unless they crash first. */
module EmailOutbox {
  import opened Wrappers
  import opened Durations
  import opened EmailSchedule
  import opened ErrorText

  type Id = string

  datatype Status = Pending | Sent | Failed

  datatype Row = Row(status: Status, attempts: nat, nextAttemptAt: nat, updatedAt: nat, hasBody: bool,
                     lastError: Option<seq<Byte>>)

  /** Lease, the longest time from a run's claim to its last write, and the attempt budget. */
  datatype Settings = Settings(lease: nat, span: nat, maxAttempts: nat) {
    ghost predicate Valid() {
      maxAttempts >= 1
    }
  }

  // ----- the statements on one row -----

  predicate Due(row: Row, now: nat) {
    row.status == Pending && row.nextAttemptAt <= now
  }

  function Claimed(row: Row, now: nat, lease: nat): Row {
    row.(attempts := row.attempts + 1, nextAttemptAt := now + lease, updatedAt := now)
  }

  function MarkedSent(row: Row, now: nat): Row {
    row.(status := Sent, updatedAt := now, hasBody := false, lastError := None)
  }

  function MarkedFailed(row: Row, now: nat, error: seq<Byte>): Row {
    row.(status := Failed, updatedAt := now, hasBody := false, lastError := Some(Truncated(error)))
  }

  function Rescheduled(row: Row, now: nat, error: seq<Byte>, seconds: nat): Row {
    row.(nextAttemptAt := now + seconds * SECOND, updatedAt := now, lastError := Some(Truncated(error)))
  }

  /** What comes of one claimed row: delivered, refused by the sender, or without a body to send. */
  datatype Outcome = Delivered | Refused(error: seq<Byte>) | NoBody(error: seq<Byte>)

  function Recorded(maxAttempts: nat, row: Row, attempts: nat, o: Outcome, now: nat): Row {
    match o
    case Delivered => MarkedSent(row, now)
    case NoBody(e) => MarkedFailed(row, now, e)
    case Refused(e) =>
      if attempts >= maxAttempts then MarkedFailed(row, now, e)
      else Rescheduled(row, now, e, BackoffFor(attempts) / SECOND)
  }

  // ----- the protocol -----

  /** A row, with what a history would tell about it: the sends begun, the claims that ended
      without a recorded outcome, and the run now holding its lease. */
  datatype Entry = Entry(row: Row, sends: nat, lost: nat, holder: Option<nat>)

  /** The row as a claim returned it. */
  datatype Ticket = Ticket(id: Id, attempts: nat, hasBody: bool)

  datatype Phase = Idle | Sending | Recording(outcome: Outcome)

  /** A run and the rows it has still to deal with; the phase is about the first of them. */
  datatype Run = Run(claimedAt: nat, open: seq<Ticket>, phase: Phase)

  type Rows = map<Id, Entry>

  datatype State = State(now: nat, rows: Rows, runs: map<nat, Run>)

  datatype Step =
    | Elapse(to: nat)
    | Enqueue(id: Id, hasBody: bool)
    | Claim(run: nat, ids: seq<Id>)
    | Begin(run: nat)
    | End(run: nat, outcome: Outcome)
    | Record(run: nat)
    | Lose(run: nat)
    | Quit(run: nat)
    | Prune(gone: set<Id>)

  predicate Mentions(open: seq<Ticket>, id: Id) {
    exists i :: 0 <= i < |open| && open[i].id == id
  }

  function ClaimAll(rows: Rows, ids: seq<Id>, now: nat, lease: nat, run: nat): Rows {
    map id | id in rows ::
      if id in ids then rows[id].(row := Claimed(rows[id].row, now, lease), holder := Some(run)) else rows[id]
  }

  function TicketFor(rows: Rows, id: Id): Ticket
    requires id in rows
  {
    Ticket(id, rows[id].row.attempts, rows[id].row.hasBody)
  }

  function LoseAll(rows: Rows, open: seq<Ticket>): Rows {
    map id | id in rows :: if Mentions(open, id) then rows[id].(lost := rows[id].lost + 1, holder := None) else rows[id]
  }

  /** A run is over, its last write included, within the span of its claim. */
  ghost predicate InTime(c: Settings, s: State, to: nat) {
    forall r :: r in s.runs ==> to <= s.runs[r].claimedAt + c.span
  }

  ghost predicate ClaimStep(c: Settings, s: State, r: nat, ids: seq<Id>, t: State) {
    && r !in s.runs
    && (forall i, j :: 0 <= i < j < |ids| ==> ids[i] != ids[j])
    && (forall i :: 0 <= i < |ids| ==> ids[i] in s.rows && Due(s.rows[ids[i]].row, s.now))
    && t.now == s.now
    && t.rows == ClaimAll(s.rows, ids, s.now, c.lease, r)
    && t.runs.Keys == s.runs.Keys + {r}
    && (forall q :: q in s.runs ==> t.runs[q] == s.runs[q])
    && t.runs[r].claimedAt == s.now && t.runs[r].phase == Idle
    && |t.runs[r].open| == |ids|
    && forall i :: 0 <= i < |ids| ==> t.runs[r].open[i] == TicketFor(t.rows, ids[i])
  }

  ghost predicate Busy(s: State, r: nat) {
    r in s.runs && s.runs[r].open != []
  }

  /** The first open row is dealt with, in whatever way its entry shows. */
  function Closed(s: State, r: nat, rows: Rows): State
    requires Busy(s, r)
  {
    s.(rows := rows, runs := s.runs[r := s.runs[r].(open := s.runs[r].open[1..], phase := Idle)])
  }

  ghost predicate Next(c: Settings, s: State, step: Step, t: State) {
    match step
    case Elapse(to) => s.now <= to && InTime(c, s, to) && t == s.(now := to)
    case Enqueue(id, hasBody) =>
      id !in s.rows && t == s.(rows := s.rows[id := Entry(Row(Pending, 0, s.now, s.now, hasBody, None), 0, 0, None)])
    case Claim(r, ids) => ClaimStep(c, s, r, ids, t)
    case Begin(r) =>
      && Busy(s, r) && s.runs[r].phase == Idle
      && var ticket := s.runs[r].open[0];
      && ticket.id in s.rows
      && var e := s.rows[ticket.id];
      && if ticket.hasBody then
           t == s.(rows := s.rows[ticket.id := e.(sends := e.sends + 1)],
                   runs := s.runs[r := s.runs[r].(phase := Sending)])
         else
           exists error :: t == s.(runs := s.runs[r := s.runs[r].(phase := Recording(NoBody(error)))])
    case End(r, o) =>
      && Busy(s, r) && s.runs[r].phase == Sending && !o.NoBody?
      && t == s.(runs := s.runs[r := s.runs[r].(phase := Recording(o))])
    case Record(r) =>
      && Busy(s, r) && s.runs[r].phase.Recording?
      && var ticket := s.runs[r].open[0];
      && t == Closed(s, r,
                     if ticket.id in s.rows then
                       var e := s.rows[ticket.id];
                       var row := Recorded(c.maxAttempts, e.row, ticket.attempts, s.runs[r].phase.outcome, s.now);
                       s.rows[ticket.id := e.(row := row, holder := None)]
                     else s.rows)
    case Lose(r) =>
      && Busy(s, r) && s.runs[r].phase.Recording?
      && t == Closed(s, r, LoseAll(s.rows, s.runs[r].open[..1]))
    case Quit(r) =>
      r in s.runs && t == s.(rows := LoseAll(s.rows, s.runs[r].open), runs := s.runs - {r})
    case Prune(gone) =>
      && (forall id :: id in gone && id in s.rows ==> s.rows[id].row.status != Pending)
      && t == s.(rows := s.rows - gone)
  }

  ghost predicate Init(s: State) {
    s.rows == map[] && s.runs == map[]
  }

  // ----- the invariant -----

  ghost predicate RunsInTime(c: Settings, s: State) {
    forall r :: r in s.runs ==> s.runs[r].claimedAt <= s.now <= s.runs[r].claimedAt + c.span
  }

  /** The run really holds the ticket's row: pending, leased by its own claim, and not touched since. */
  ghost predicate Holds(c: Settings, s: State, r: nat, ticket: Ticket) {
    && r in s.runs
    && ticket.id in s.rows
    && var e := s.rows[ticket.id];
    && e.holder == Some(r) && e.row.status == Pending
    && e.row.nextAttemptAt == s.runs[r].claimedAt + c.lease
    && e.row.attempts == ticket.attempts
  }

  ghost predicate TicketsHold(c: Settings, s: State) {
    forall r, i :: r in s.runs && 0 <= i < |s.runs[r].open| ==> Holds(c, s, r, s.runs[r].open[i])
  }

  ghost predicate TicketsDiffer(s: State) {
    forall r, i, j :: r in s.runs && 0 <= i < j < |s.runs[r].open| ==> s.runs[r].open[i].id != s.runs[r].open[j].id
  }

  ghost predicate HoldersRun(s: State) {
    forall id :: id in s.rows && s.rows[id].holder.Some? ==>
                   s.rows[id].holder.value in s.runs && Mentions(s.runs[s.rows[id].holder.value].open, id)
  }

  /** The attempt budget, and the claims spent on it. */
  ghost predicate WithinBudget(c: Settings, e: Entry) {
    && e.sends <= e.row.attempts
    && e.row.attempts <= c.maxAttempts + e.lost
    && (e.row.status == Pending && e.holder.None? ==> e.row.attempts <= c.maxAttempts - 1 + e.lost)
  }

  ghost predicate Budgets(c: Settings, s: State) {
    forall id :: id in s.rows ==> WithinBudget(c, s.rows[id])
  }

  /** A row waiting in an open run has not been sent in this claim. */
  ghost predicate Unsent(s: State) {
    forall r, i :: r in s.runs && 0 <= i < |s.runs[r].open| && (i > 0 || s.runs[r].phase == Idle) ==>
                     s.runs[r].open[i].id in s.rows
                     && s.rows[s.runs[r].open[i].id].sends < s.rows[s.runs[r].open[i].id].row.attempts
  }

  ghost predicate Inv(c: Settings, s: State) {
    && RunsInTime(c, s) && TicketsHold(c, s) && TicketsDiffer(s) && HoldersRun(s)
    && Budgets(c, s) && Unsent(s)
  }

  // ----- every step keeps it -----

  lemma {:induction false} HeldIsNotDue(c: Settings, s: State, id: Id)
    requires c.span < c.lease && Inv(c, s) && id in s.rows && s.rows[id].holder.Some?
    ensures s.rows[id].row.status == Pending && !Due(s.rows[id].row, s.now)
  {
    var r := s.rows[id].holder.value;
    assert Mentions(s.runs[r].open, id);
    var i :| 0 <= i < |s.runs[r].open| && s.runs[r].open[i].id == id;
    assert Holds(c, s, r, s.runs[r].open[i]);
  }

  lemma {:induction false} ClaimedAreFree(c: Settings, s: State, r: nat, ids: seq<Id>, t: State)
    requires c.span < c.lease && Inv(c, s) && ClaimStep(c, s, r, ids, t)
    ensures forall id :: id in ids ==> id in s.rows && s.rows[id].holder.None? && s.rows[id].row.status == Pending
  {
    forall id | id in ids ensures id in s.rows && s.rows[id].holder.None? && s.rows[id].row.status == Pending {
      if s.rows[id].holder.Some? {
        HeldIsNotDue(c, s, id);
      }
    }
  }

  lemma {:induction false} ClaimKeepsTickets(c: Settings, s: State, r: nat, ids: seq<Id>, t: State)
    requires c.span < c.lease && Inv(c, s) && ClaimStep(c, s, r, ids, t)
    ensures TicketsHold(c, t) && TicketsDiffer(t) && Unsent(t)
  {
    ClaimedAreFree(c, s, r, ids, t);
    forall q, i | q in t.runs && 0 <= i < |t.runs[q].open|
      ensures Holds(c, t, q, t.runs[q].open[i])
      ensures i > 0 || t.runs[q].phase == Idle ==>
                t.rows[t.runs[q].open[i].id].sends < t.rows[t.runs[q].open[i].id].row.attempts
    {
      if q != r {
        assert Holds(c, s, q, s.runs[q].open[i]);
      }
    }
  }

  lemma {:induction false} ClaimKeepsHolders(c: Settings, s: State, r: nat, ids: seq<Id>, t: State)
    requires c.span < c.lease && Inv(c, s) && ClaimStep(c, s, r, ids, t)
    ensures HoldersRun(t) && Budgets(c, t)
  {
    ClaimedAreFree(c, s, r, ids, t);
    forall id | id in t.rows && t.rows[id].holder.Some?
      ensures t.rows[id].holder.value in t.runs && Mentions(t.runs[t.rows[id].holder.value].open, id)
    {
      if id in ids {
        var i :| 0 <= i < |ids| && ids[i] == id;
        assert t.runs[r].open[i].id == id;
      } else {
        assert Mentions(s.runs[s.rows[id].holder.value].open, id);
      }
    }
  }

  /** What closing a run's first row may do to the rows. */
  ghost predicate OnlyFreed(c: Settings, s: State, id: Id, rows: Rows) {
    && rows.Keys == s.rows.Keys
    && (forall other :: other in rows && other != id ==> rows[other] == s.rows[other])
    && (id in rows ==> rows[id].holder.None? && WithinBudget(c, rows[id]))
  }

  lemma {:induction false} CloseKeepsTickets(c: Settings, s: State, r: nat, rows: Rows)
    requires Inv(c, s) && Busy(s, r) && OnlyFreed(c, s, s.runs[r].open[0].id, rows)
    ensures TicketsHold(c, Closed(s, r, rows)) && TicketsDiffer(Closed(s, r, rows)) && Unsent(Closed(s, r, rows))
  {
    var t := Closed(s, r, rows);
    var first := s.runs[r].open[0];
    assert Holds(c, s, r, first);
    forall q, i | q in t.runs && 0 <= i < |t.runs[q].open|
      ensures Holds(c, t, q, t.runs[q].open[i])
      ensures i > 0 || t.runs[q].phase == Idle ==>
                t.rows[t.runs[q].open[i].id].sends < t.rows[t.runs[q].open[i].id].row.attempts
    {
      var k := if q == r then i + 1 else i;
      assert t.runs[q].open[i] == s.runs[q].open[k];
      assert Holds(c, s, q, s.runs[q].open[k]);
      assert s.runs[q].open[k].id != first.id;
    }
  }

  lemma {:induction false} CloseKeepsHolders(c: Settings, s: State, r: nat, rows: Rows)
    requires Inv(c, s) && Busy(s, r) && OnlyFreed(c, s, s.runs[r].open[0].id, rows)
    ensures HoldersRun(Closed(s, r, rows)) && Budgets(c, Closed(s, r, rows))
  {
    var t := Closed(s, r, rows);
    var open := s.runs[r].open;
    forall id | id in t.rows && t.rows[id].holder.Some?
      ensures t.rows[id].holder.value in t.runs && Mentions(t.runs[t.rows[id].holder.value].open, id)
    {
      var q := s.rows[id].holder.value;
      assert Mentions(s.runs[q].open, id);
      var i :| 0 <= i < |s.runs[q].open| && s.runs[q].open[i].id == id;
      var k := if q == r then i - 1 else i;
      assert t.runs[q].open[k].id == id;
    }
  }

  lemma {:induction false} CloseKeepsInv(c: Settings, s: State, r: nat, rows: Rows)
    requires Inv(c, s) && Busy(s, r) && OnlyFreed(c, s, s.runs[r].open[0].id, rows)
    ensures Inv(c, Closed(s, r, rows))
  {
    CloseKeepsTickets(c, s, r, rows);
    CloseKeepsHolders(c, s, r, rows);
  }

  lemma {:induction false} QuitKeepsInv(c: Settings, s: State, r: nat, t: State)
    requires Inv(c, s) && r in s.runs && t == s.(rows := LoseAll(s.rows, s.runs[r].open), runs := s.runs - {r})
    ensures Inv(c, t)
  {
    var open := s.runs[r].open;
    forall id | Mentions(open, id) ensures id in s.rows && s.rows[id].holder == Some(r) {
      var i :| 0 <= i < |open| && open[i].id == id;
      assert Holds(c, s, r, open[i]);
    }
    forall q, i | q in t.runs && 0 <= i < |t.runs[q].open|
      ensures Holds(c, t, q, t.runs[q].open[i])
      ensures i > 0 || t.runs[q].phase == Idle ==>
                t.rows[t.runs[q].open[i].id].sends < t.rows[t.runs[q].open[i].id].row.attempts
    {
      assert Holds(c, s, q, s.runs[q].open[i]);
    }
    forall id | id in t.rows && t.rows[id].holder.Some?
      ensures t.rows[id].holder.value in t.runs && Mentions(t.runs[t.rows[id].holder.value].open, id)
    {
      assert !Mentions(open, id);
    }
  }

  lemma {:induction false} PruneKeepsInv(c: Settings, s: State, gone: set<Id>, t: State)
    requires Inv(c, s) && Next(c, s, Prune(gone), t)
    ensures Inv(c, t)
  {
    forall q, i | q in t.runs && 0 <= i < |t.runs[q].open|
      ensures Holds(c, t, q, t.runs[q].open[i])
      ensures i > 0 || t.runs[q].phase == Idle ==>
                t.rows[t.runs[q].open[i].id].sends < t.rows[t.runs[q].open[i].id].row.attempts
    {
      assert Holds(c, s, q, s.runs[q].open[i]);
    }
    forall id | id in t.rows && t.rows[id].holder.Some?
      ensures t.rows[id].holder.value in t.runs && Mentions(t.runs[t.rows[id].holder.value].open, id)
    {
      assert Mentions(s.runs[s.rows[id].holder.value].open, id);
    }
  }

  /** A run moves on with its first row: to sending it, or to recording what came of it. */
  lemma {:induction false} AdvanceKeepsInv(c: Settings, s: State, r: nat, phase: Phase, rows: Rows, t: State)
    requires Inv(c, s) && Busy(s, r) && phase != Idle
    requires var id := s.runs[r].open[0].id;
             && id in s.rows
             && (|| rows == s.rows
                 || (&& s.runs[r].phase == Idle
                     && rows == s.rows[id := s.rows[id].(sends := s.rows[id].sends + 1)]))
    requires t == s.(rows := rows, runs := s.runs[r := s.runs[r].(phase := phase)])
    ensures Inv(c, t)
  {
    var first := s.runs[r].open[0];
    assert Holds(c, s, r, first);
    forall q, i | q in t.runs && 0 <= i < |t.runs[q].open|
      ensures Holds(c, t, q, t.runs[q].open[i])
      ensures i > 0 || t.runs[q].phase == Idle ==>
                t.rows[t.runs[q].open[i].id].sends < t.rows[t.runs[q].open[i].id].row.attempts
    {
      assert t.runs[q].open == s.runs[q].open;
      assert Holds(c, s, q, s.runs[q].open[i]);
    }
    forall id | id in t.rows && t.rows[id].holder.Some?
      ensures t.rows[id].holder.value in t.runs && Mentions(t.runs[t.rows[id].holder.value].open, id)
    {
      assert Mentions(s.runs[s.rows[id].holder.value].open, id);
    }
  }

  /** Time passing, or a new row: runs and the other rows stay as they are. */
  lemma {:induction false} QuietStepKeepsInv(c: Settings, s: State, t: State)
    requires c.Valid() && Inv(c, s) && RunsInTime(c, t) && t.runs == s.runs
    requires forall id :: id in s.rows ==> id in t.rows && t.rows[id] == s.rows[id]
    requires forall id :: id in t.rows && id !in s.rows ==>
                            t.rows[id].sends == t.rows[id].row.attempts == 0 && t.rows[id].holder.None?
    ensures Inv(c, t)
  {
    forall q, i | q in t.runs && 0 <= i < |t.runs[q].open|
      ensures Holds(c, t, q, t.runs[q].open[i])
      ensures i > 0 || t.runs[q].phase == Idle ==>
                t.rows[t.runs[q].open[i].id].sends < t.rows[t.runs[q].open[i].id].row.attempts
    {
      assert Holds(c, s, q, s.runs[q].open[i]);
    }
    forall id | id in t.rows && t.rows[id].holder.Some?
      ensures t.rows[id].holder.value in t.runs && Mentions(t.runs[t.rows[id].holder.value].open, id)
    {
      assert Mentions(s.runs[s.rows[id].holder.value].open, id);
    }
  }

  lemma {:induction false} RecordKeepsInv(c: Settings, s: State, r: nat, t: State)
    requires c.Valid() && Inv(c, s) && Next(c, s, Record(r), t)
    ensures Inv(c, t)
  {
    assert Holds(c, s, r, s.runs[r].open[0]);
    CloseKeepsInv(c, s, r, t.rows);
  }

  lemma {:induction false} LoseKeepsInv(c: Settings, s: State, r: nat, t: State)
    requires Inv(c, s) && Next(c, s, Lose(r), t)
    ensures Inv(c, t)
  {
    var open := s.runs[r].open;
    assert Holds(c, s, r, open[0]);
    assert forall id :: Mentions(open[..1], id) <==> id == open[0].id by {
      assert open[..1][0] == open[0];
    }
    CloseKeepsInv(c, s, r, t.rows);
  }

  lemma {:induction false} BeginKeepsInv(c: Settings, s: State, r: nat, t: State)
    requires Inv(c, s) && Next(c, s, Begin(r), t)
    ensures Inv(c, t)
  {
    AdvanceKeepsInv(c, s, r, t.runs[r].phase, t.rows, t);
  }

  lemma {:induction false} EndKeepsInv(c: Settings, s: State, r: nat, o: Outcome, t: State)
    requires Inv(c, s) && Next(c, s, End(r, o), t)
    ensures Inv(c, t)
  {
    assert Holds(c, s, r, s.runs[r].open[0]);
    AdvanceKeepsInv(c, s, r, Recording(o), s.rows, t);
  }

  lemma {:induction false} ClaimKeepsInv(c: Settings, s: State, r: nat, ids: seq<Id>, t: State)
    requires c.span < c.lease && Inv(c, s) && ClaimStep(c, s, r, ids, t)
    ensures Inv(c, t)
  {
    ClaimKeepsTickets(c, s, r, ids, t);
    ClaimKeepsHolders(c, s, r, ids, t);
  }

  lemma {:induction false} StepKeepsInv(c: Settings, s: State, step: Step, t: State)
    requires c.Valid() && c.span < c.lease && Inv(c, s) && Next(c, s, step, t)
    ensures Inv(c, t)
  {
    match step
    case Elapse(_) => QuietStepKeepsInv(c, s, t);
    case Enqueue(_, _) => QuietStepKeepsInv(c, s, t);
    case Claim(r, ids) => ClaimKeepsInv(c, s, r, ids, t);
    case Begin(r) => BeginKeepsInv(c, s, r, t);
    case End(r, o) => EndKeepsInv(c, s, r, o, t);
    case Record(r) => RecordKeepsInv(c, s, r, t);
    case Lose(r) => LoseKeepsInv(c, s, r, t);
    case Quit(r) => QuitKeepsInv(c, s, r, t);
    case Prune(gone) => PruneKeepsInv(c, s, gone, t);
  }

  // ----- whole histories -----

  /** States linked by steps. */
  ghost predicate Linked(c: Settings, states: seq<State>, steps: seq<Step>) {
    && |states| == |steps| + 1
    && forall i :: 0 <= i < |steps| ==> Next(c, states[i], steps[i], states[i + 1])
  }

  ghost predicate IsHistory(c: Settings, states: seq<State>, steps: seq<Step>) {
    Linked(c, states, steps) && Init(states[0])
  }

  ghost predicate Reachable(c: Settings, s: State) {
    exists states: seq<State>, steps: seq<Step> :: IsHistory(c, states, steps) && states[|steps|] == s
  }

  lemma {:induction false} HistoryKeepsInv(c: Settings, states: seq<State>, steps: seq<Step>, k: nat)
    requires c.Valid() && c.span < c.lease && IsHistory(c, states, steps) && k <= |steps|
    ensures Inv(c, states[k])
  {
    if k > 0 {
      HistoryKeepsInv(c, states, steps, k - 1);
      StepKeepsInv(c, states[k - 1], steps[k - 1], states[k]);
    }
  }

  lemma {:induction false} ReachableInv(c: Settings, s: State)
    requires c.Valid() && c.span < c.lease && Reachable(c, s)
    ensures Inv(c, s)
  {
    var states: seq<State>, steps: seq<Step> :| IsHistory(c, states, steps) && states[|steps|] == s;
    HistoryKeepsInv(c, states, steps, |steps|);
  }

  lemma {:induction false} ReachableStep(c: Settings, s: State, step: Step, t: State)
    requires Reachable(c, s) && Next(c, s, step, t)
    ensures Reachable(c, t)
  {
    var states: seq<State>, steps: seq<Step> :| IsHistory(c, states, steps) && states[|steps|] == s;
    assert IsHistory(c, states + [t], steps + [step]);
  }

  // ----- no row is sent by two runs at once -----

  ghost predicate IsSending(s: State, r: nat, id: Id) {
    Busy(s, r) && s.runs[r].phase == Sending && s.runs[r].open[0].id == id
  }

  ghost predicate NoDoubleSend(s: State) {
    forall q, r, id :: IsSending(s, q, id) && IsSending(s, r, id) ==> q == r
  }

  lemma {:induction false} LeaseExcludes(c: Settings, s: State)
    requires c.Valid() && c.span < c.lease && Reachable(c, s)
    ensures NoDoubleSend(s)
  {
    ReachableInv(c, s);
    forall q, r, id | IsSending(s, q, id) && IsSending(s, r, id) ensures q == r {
      assert Holds(c, s, q, s.runs[q].open[0]);
      assert Holds(c, s, r, s.runs[r].open[0]);
    }
  }

  /** One row, claimed by a first run. */
  function FirstClaimed(c: Settings): State {
    State(0, map["m" := Entry(Row(Pending, 1, c.lease, 0, true, None), 0, 0, Some(0))],
          map[0 := Run(0, [Ticket("m", 1, true)], Idle)])
  }

  lemma {:induction false} FirstClaims(c: Settings)
    ensures Reachable(c, FirstClaimed(c))
  {
    var s0 := State(0, map[], map[]);
    var s1 := State(0, map["m" := Entry(Row(Pending, 0, 0, 0, true, None), 0, 0, None)], map[]);
    assert IsHistory(c, [s0], []);
    ReachableStep(c, s0, Enqueue("m", true), s1);
    assert ClaimStep(c, s1, 0, ["m"], FirstClaimed(c));
    ReachableStep(c, s1, Claim(0, ["m"]), FirstClaimed(c));
  }

  /** ...which begins to send it, and is still at it when the lease lapses. */
  function FirstLate(c: Settings): State {
    State(c.lease, map["m" := Entry(Row(Pending, 1, c.lease, 0, true, None), 1, 0, Some(0))],
          map[0 := Run(0, [Ticket("m", 1, true)], Sending)])
  }

  lemma {:induction false} FirstIsLate(c: Settings)
    requires c.lease <= c.span
    ensures Reachable(c, FirstLate(c))
  {
    FirstClaims(c);
    var s := FirstLate(c).(now := 0);
    ReachableStep(c, FirstClaimed(c), Begin(0), s);
    ReachableStep(c, s, Elapse(c.lease), FirstLate(c));
  }

  /** A run that is still sending when its lease lapses is overtaken by the next claim. */
  lemma {:induction false} LapsedLeaseDoubles(c: Settings) returns (t: State)
    requires c.lease <= c.span
    ensures Reachable(c, t) && !NoDoubleSend(t)
  {
    FirstIsLate(c);
    var e := Entry(Row(Pending, 2, c.lease + c.lease, c.lease, true, None), 1, 0, Some(1));
    var run := Run(c.lease, [Ticket("m", 2, true)], Idle);
    var s := State(c.lease, map["m" := e], FirstLate(c).runs[1 := run]);
    assert ClaimStep(c, FirstLate(c), 1, ["m"], s);
    ReachableStep(c, FirstLate(c), Claim(1, ["m"]), s);
    t := State(c.lease, map["m" := e.(sends := 2)], s.runs[1 := run.(phase := Sending)]);
    ReachableStep(c, s, Begin(1), t);
    assert IsSending(t, 0, "m") && IsSending(t, 1, "m");
  }

  /** Over every history, no two runs ever send the same row at once, exactly if the lease outlives
      every run and its last write. */
  lemma {:induction false} NoDoubleSendExactly(c: Settings)
    requires c.Valid()
    ensures (forall s :: Reachable(c, s) ==> NoDoubleSend(s)) <==> c.span < c.lease
  {
    if c.span < c.lease {
      forall s | Reachable(c, s) ensures NoDoubleSend(s) {
        LeaseExcludes(c, s);
      }
    } else {
      var s := LapsedLeaseDoubles(c);
    }
  }

  /** The settings of the dispatcher, for a job timeout, an interval, and the time a last write may take. */
  function SettingsFor(jobTimeout: nat, interval: nat, write: nat, maxAttempts: nat): Settings {
    Settings(LeaseSeconds(jobTimeout, interval) * SECOND, jobTimeout + write, maxAttempts)
  }

  /** With the lease that the job computes, no two runs ever send one row at once exactly if the timeout
      and the last write stay below the floor, or the interval exceeds that write and the fraction of a
      second that truncation drops. */
  lemma {:induction false} DispatcherSafeExactly(jobTimeout: nat, interval: nat, write: nat, maxAttempts: nat)
    requires maxAttempts >= 1
    ensures (forall s :: Reachable(SettingsFor(jobTimeout, interval, write, maxAttempts), s) ==> NoDoubleSend(s))
            <==> || jobTimeout + write < MIN_LEASE_SECONDS * SECOND
                 || interval > write + (jobTimeout + interval) % SECOND
  {
    LeaseCoversWriteExactly(jobTimeout, interval, write);
    NoDoubleSendExactly(SettingsFor(jobTimeout, interval, write, maxAttempts));
  }

  /** With an interval of a second more than the last write takes, overlapping runs are safe. */
  lemma {:induction false} DispatcherNeverDoubles(jobTimeout: nat, interval: nat, write: nat, maxAttempts: nat,
                                                  s: State)
    requires interval >= SECOND + write && maxAttempts >= 1
    requires Reachable(SettingsFor(jobTimeout, interval, write, maxAttempts), s)
    ensures NoDoubleSend(s)
  {
    LeaseCoversLastWrite(jobTimeout, interval, write);
    LeaseExcludes(SettingsFor(jobTimeout, interval, write, maxAttempts), s);
  }

  // ----- the attempt budget -----

  ghost predicate Open(s: State, id: Id) {
    exists r :: r in s.runs && Mentions(s.runs[r].open, id)
  }

  /** A row is sent at most once per claim, and claimed at most once beyond its budget for every
      claim that got lost; and a pending row no run is busy with always has a claim left. */
  lemma {:induction false} BudgetHolds(c: Settings, s: State, id: Id)
    requires c.Valid() && c.span < c.lease && Reachable(c, s) && id in s.rows
    ensures s.rows[id].sends <= s.rows[id].row.attempts <= c.maxAttempts + s.rows[id].lost
    ensures s.rows[id].row.status == Pending && !Open(s, id) ==>
              s.rows[id].row.attempts <= c.maxAttempts - 1 + s.rows[id].lost
  {
    ReachableInv(c, s);
    if s.rows[id].holder.Some? {
      assert s.rows[id].holder.value in s.runs;
    }
  }

  /** A recorded outcome shows on its row: delivered ends as sent, and refused with the budget used up, or
      without a body, as failed; only a refusal within the budget leaves the row pending. */
  lemma {:induction false} OutcomeShows(c: Settings, s: State, r: nat, t: State)
    requires c.Valid() && c.span < c.lease && Inv(c, s) && Next(c, s, Record(r), t)
    ensures var id, o := s.runs[r].open[0].id, s.runs[r].phase.outcome;
            && id in s.rows && id in t.rows && t.rows[id].holder.None?
            && t.rows[id].row.attempts == s.rows[id].row.attempts
            && (o.Delivered? <==> t.rows[id].row.status == Sent)
            && (t.rows[id].row.status == Failed <==>
                  o.NoBody? || (o.Refused? && s.rows[id].row.attempts >= c.maxAttempts))
            && (o.Delivered? <==> t.rows[id].row.lastError.None?)
            && (t.rows[id].row.status != Pending ==> !t.rows[id].row.hasBody)
  {
    assert Holds(c, s, r, s.runs[r].open[0]);
  }

  /** Once sent or failed, a row is never touched again except to be deleted, and never sent again. */
  lemma {:induction false} TerminalStays(c: Settings, s: State, step: Step, t: State, id: Id)
    requires c.Valid() && c.span < c.lease && Inv(c, s) && Next(c, s, step, t)
    requires id in s.rows && s.rows[id].row.status != Pending
    ensures id in t.rows ==> t.rows[id] == s.rows[id]
    ensures id !in t.rows ==> step.Prune?
  {
    forall r, i | r in s.runs && 0 <= i < |s.runs[r].open| ensures s.runs[r].open[i].id != id {
      assert Holds(c, s, r, s.runs[r].open[i]);
    }
  }

  /** A row that no run is busy with is left alone until some run claims it, at its due time at the earliest. */
  lemma {:induction false} IdleStays(c: Settings, s: State, step: Step, t: State, id: Id)
    requires c.Valid() && c.span < c.lease && Inv(c, s) && Next(c, s, step, t)
    requires id in s.rows && s.rows[id].row.status == Pending && s.rows[id].holder.None?
    ensures id in t.rows
    ensures t.rows[id] == s.rows[id] || (step.Claim? && id in step.ids && s.rows[id].row.nextAttemptAt <= s.now)
  {
    forall r, i | r in s.runs && 0 <= i < |s.runs[r].open| ensures s.runs[r].open[i].id != id {
      assert Holds(c, s, r, s.runs[r].open[i]);
    }
  }

  /** The run is about to record that the sender refused this row. */
  ghost predicate IsRefused(s: State, r: nat, ticket: Ticket) {
    Busy(s, r) && s.runs[r].open[0] == ticket && s.runs[r].phase.Recording? && s.runs[r].phase.outcome.Refused?
  }

  /** A pending row nobody is busy with, due at a given instant. */
  ghost predicate Waits(s: State, id: Id, attempts: nat, due: nat) {
    && id in s.rows && s.rows[id].row.status == Pending && s.rows[id].holder.None?
    && s.rows[id].row.attempts == attempts && s.rows[id].row.nextAttemptAt == due
  }

  lemma {:induction false} RefusalWaits(c: Settings, s: State, r: nat, ticket: Ticket, t: State)
    requires Inv(c, s) && Next(c, s, Record(r), t) && IsRefused(s, r, ticket) && ticket.attempts < c.maxAttempts
    ensures Waits(t, ticket.id, ticket.attempts, s.now + BackoffFor(ticket.attempts) / SECOND * SECOND)
  {
    assert Holds(c, s, r, ticket);
  }

  /** A refused send with budget left waits for exactly its backoff: until then the row stays as it was recorded. */
  lemma {:induction false} RetryWaitsForBackoff(c: Settings, states: seq<State>, steps: seq<Step>, i: nat, j: nat,
                                                r: nat, ticket: Ticket, due: nat)
    requires c.Valid() && c.span < c.lease && IsHistory(c, states, steps) && i < j <= |steps|
    requires steps[i] == Record(r) && IsRefused(states[i], r, ticket) && ticket.attempts < c.maxAttempts
    requires due == states[i].now + BackoffFor(ticket.attempts) / SECOND * SECOND && states[j].now < due
    ensures Waits(states[j], ticket.id, ticket.attempts, due)
  {
    HistoryKeepsInv(c, states, steps, j - 1);
    var s, step, t := states[j - 1], steps[j - 1], states[j];
    if j == i + 1 {
      RefusalWaits(c, s, r, ticket, t);
    } else {
      NowGrows(c, s, step, t);
      RetryWaitsForBackoff(c, states, steps, i, j - 1, r, ticket, due);
      IdleStays(c, s, step, t, ticket.id);
    }
  }

  lemma NowGrows(c: Settings, s: State, step: Step, t: State)
    requires Next(c, s, step, t)
    ensures s.now <= t.now
  {
  }
}
