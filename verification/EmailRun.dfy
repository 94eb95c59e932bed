/** One dispatch run as steps of the outbox protocol: claim, then each row that it reaches, then the
    sweep, and the end. */
module EmailRun {
  import opened Wrappers
  import opened EmailOutbox
  import opened EmailDispatch

  /** The rows of the table, without what only a history tells. */
  function TableOf(rows: Rows): Table {
    map id | id in rows :: rows[id].row
  }

  /** One row: it is sent if it has a body, and its outcome is written, or lost. */
  function RowSteps(job: Job, run: nat, row: Row, d: Delivery): seq<Step> {
    SendSteps(job, run, row, d) + [Elapse(d.writtenAt), if d.writeFails then Lose(run) else Record(run)]
  }

  function SendSteps(job: Job, run: nat, row: Row, d: Delivery): seq<Step> {
    if row.hasBody then [Begin(run), End(run, OutcomeOf(job, row, d))] else [Begin(run)]
  }

  function BatchSteps(job: Job, run: nat, claimed: Table, ids: seq<Id>, env: nat -> Delivery, k: nat): seq<Step>
    requires k <= |ids| && forall i :: 0 <= i < |ids| ==> ids[i] in claimed
  {
    if k == 0 then []
    else BatchSteps(job, run, claimed, ids, env, k - 1) + RowSteps(job, run, claimed[ids[k - 1]], env(k - 1))
  }

  /** The steps lead from s to t. */
  ghost predicate Leads(c: Settings, s: State, steps: seq<Step>, t: State) {
    exists states: seq<State> :: Linked(c, states, steps) && states[0] == s && states[|steps|] == t
  }

  lemma {:induction false} StepLeads(c: Settings, s: State, step: Step, t: State)
    requires Next(c, s, step, t)
    ensures Leads(c, s, [step], t)
  {
    assert Linked(c, [s, t], [step]);
  }

  lemma {:induction false} LeadsOn(c: Settings, s: State, first: seq<Step>, t: State, second: seq<Step>, u: State)
    requires Leads(c, s, first, t) && Leads(c, t, second, u)
    ensures Leads(c, s, first + second, u)
  {
    var a: seq<State> :| Linked(c, a, first) && a[0] == s && a[|first|] == t;
    var b: seq<State> :| Linked(c, b, second) && b[0] == t && b[|second|] == u;
    var states := a + b[1..];
    forall i | 0 <= i < |first + second| ensures Next(c, states[i], (first + second)[i], states[i + 1]) {
      if i >= |first| {
        assert states[i] == b[i - |first|] && states[i + 1] == b[i - |first| + 1];
      }
    }
    assert Linked(c, states, first + second);
  }

  // ----- one row -----

  lemma {:induction false} SendFirst(c: Settings, job: Job, s: State, run: nat, row: Row, d: Delivery)
    returns (t: State)
    requires Busy(s, run) && s.runs[run].phase == Idle
    requires s.runs[run].open[0].id in s.rows && s.runs[run].open[0].hasBody == row.hasBody
    ensures Leads(c, s, SendSteps(job, run, row, d), t)
    ensures t.now == s.now && TableOf(t.rows) == TableOf(s.rows)
    ensures t.runs == s.runs[run := s.runs[run].(phase := Recording(OutcomeOf(job, row, d)))]
  {
    var id := s.runs[run].open[0].id;
    var e := s.rows[id];
    t := s.(runs := s.runs[run := s.runs[run].(phase := Recording(OutcomeOf(job, row, d)))]);
    if row.hasBody {
      var sending := s.(rows := s.rows[id := e.(sends := e.sends + 1)],
                        runs := s.runs[run := s.runs[run].(phase := Sending)]);
      t := t.(rows := sending.rows);
      assert sending.runs[run := sending.runs[run].(phase := Recording(OutcomeOf(job, row, d)))] == t.runs;
      StepLeads(c, s, Begin(run), sending);
      StepLeads(c, sending, End(run, OutcomeOf(job, row, d)), t);
      LeadsOn(c, s, [Begin(run)], sending, [End(run, OutcomeOf(job, row, d))], t);
      assert [Begin(run)] + [End(run, OutcomeOf(job, row, d))] == SendSteps(job, run, row, d);
    } else {
      StepLeads(c, s, Begin(run), t);
    }
  }

  lemma {:induction false} WriteFirst(c: Settings, job: Job, s: State, run: nat, row: Row, d: Delivery)
    returns (t: State)
    requires Busy(s, run) && s.runs[run].phase == Recording(OutcomeOf(job, row, d)) && s.now == d.writtenAt
    requires s.runs[run].open[0].id in s.rows && s.runs[run].open[0].attempts == row.attempts
    requires c.maxAttempts == job.maxAttempts
    ensures Next(c, s, if d.writeFails then Lose(run) else Record(run), t)
    ensures t.now == s.now
    ensures t.runs == s.runs[run := s.runs[run].(open := s.runs[run].open[1..], phase := Idle)]
    ensures TableOf(t.rows) == AfterRow(job, TableOf(s.rows), s.runs[run].open[0].id, row, d)
  {
    var ticket := s.runs[run].open[0];
    var e := s.rows[ticket.id];
    if d.writeFails {
      t := Closed(s, run, LoseAll(s.rows, s.runs[run].open[..1]));
    } else {
      var written := Recorded(c.maxAttempts, e.row, ticket.attempts, OutcomeOf(job, row, d), s.now);
      t := Closed(s, run, s.rows[ticket.id := e.(row := written, holder := None)]);
    }
  }

  /** The first open row of a run is dealt with as SendRow deals with it. */
  lemma {:induction false} RowFollowsProtocol(c: Settings, job: Job, s: State, run: nat, row: Row, d: Delivery)
    returns (t: State)
    requires Busy(s, run) && s.runs[run].phase == Idle && s.runs[run].open[0].id in s.rows
    requires s.runs[run].open[0].hasBody == row.hasBody && s.runs[run].open[0].attempts == row.attempts
    requires c.maxAttempts == job.maxAttempts && s.now <= d.writtenAt && InTime(c, s, d.writtenAt)
    ensures Leads(c, s, RowSteps(job, run, row, d), t)
    ensures t.now == d.writtenAt
    ensures t.runs == s.runs[run := s.runs[run].(open := s.runs[run].open[1..], phase := Idle)]
    ensures TableOf(t.rows) == AfterRow(job, TableOf(s.rows), s.runs[run].open[0].id, row, d)
  {
    var u := SendFirst(c, job, s, run, row, d);
    var v := u.(now := d.writtenAt);
    assert s.runs[run].open[0].id in TableOf(u.rows);
    t := WriteFirst(c, job, v, run, row, d);
    var last := if d.writeFails then Lose(run) else Record(run);
    StepLeads(c, u, Elapse(d.writtenAt), v);
    StepLeads(c, v, last, t);
    LeadsOn(c, u, [Elapse(d.writtenAt)], v, [last], t);
    assert [Elapse(d.writtenAt)] + [last] == [Elapse(d.writtenAt), last];
    LeadsOn(c, s, SendSteps(job, run, row, d), u, [Elapse(d.writtenAt), last], t);
  }

  // ----- the batch -----

  /** The instant at which the first k rows are dealt with. */
  function WrittenBy(s: State, env: nat -> Delivery, k: nat): nat {
    if k == 0 then s.now else env(k - 1).writtenAt
  }

  /** An outcome is written within the spans of the run that begins at s and of all others. */
  ghost predicate InSpan(c: Settings, s: State, at: nat) {
    at <= s.now + c.span && InTime(c, s, at)
  }

  /** The instants at which the outcomes are written follow one another, all of them in span. */
  ghost predicate OnTime(c: Settings, s: State, env: nat -> Delivery, k: nat) {
    k > 0 ==>
      && OnTime(c, s, env, k - 1)
      && WrittenBy(s, env, k - 1) <= env(k - 1).writtenAt && InSpan(c, s, env(k - 1).writtenAt)
  }

  /** The rows as the claim returned them. */
  function Tickets(claimed: Table, ids: seq<Id>): (tickets: seq<Ticket>)
    requires forall i :: 0 <= i < |ids| ==> ids[i] in claimed
    ensures |tickets| == |ids|
    ensures forall i :: 0 <= i < |ids| ==>
              tickets[i] == Ticket(ids[i], claimed[ids[i]].attempts, claimed[ids[i]].hasBody)
  {
    seq(|ids|, i requires 0 <= i < |ids| => Ticket(ids[i], claimed[ids[i]].attempts, claimed[ids[i]].hasBody))
  }

  /** The run that began at s has dealt with k of its rows. */
  ghost predicate Midway(job: Job, s: State, run: nat, claimed: Table, ids: seq<Id>, env: nat -> Delivery, k: nat,
                         t: State)
    requires k <= |ids| && forall i :: 0 <= i < |ids| ==> ids[i] in claimed
  {
    && t.now == WrittenBy(s, env, k)
    && TableOf(t.rows) == AfterRows(job, claimed, ids, env, k)
    && t.runs == s.runs[run := Run(s.now, Tickets(claimed, ids)[k..], Idle)]
  }

  lemma {:induction false} RowsStay(job: Job, claimed: Table, ids: seq<Id>, env: nat -> Delivery, k: nat)
    requires k <= |ids| && forall i :: 0 <= i < |ids| ==> ids[i] in claimed
    ensures AfterRows(job, claimed, ids, env, k).Keys == claimed.Keys
  {
    if k > 0 {
      RowsStay(job, claimed, ids, env, k - 1);
    }
  }

  lemma {:induction false} NextRow(c: Settings, job: Job, s: State, run: nat, claimed: Table, ids: seq<Id>,
                                   env: nat -> Delivery, k: nat, t: State)
    returns (u: State)
    requires 0 < k <= |ids| && forall i :: 0 <= i < |ids| ==> ids[i] in claimed
    requires Midway(job, s, run, claimed, ids, env, k - 1, t) && run !in s.runs
    requires c.maxAttempts == job.maxAttempts && OnTime(c, s, env, k)
    ensures Leads(c, t, RowSteps(job, run, claimed[ids[k - 1]], env(k - 1)), u)
    ensures Midway(job, s, run, claimed, ids, env, k, u)
  {
    RowsStay(job, claimed, ids, env, k - 1);
    assert ids[k - 1] in TableOf(t.rows);
    u := RowFollowsProtocol(c, job, t, run, claimed[ids[k - 1]], env(k - 1));
    assert Tickets(claimed, ids)[k - 1..][1..] == Tickets(claimed, ids)[k..];
  }

  lemma {:induction false} BatchFollowsProtocol(c: Settings, job: Job, s: State, run: nat, claimed: Table, ids: seq<Id>,
                                                env: nat -> Delivery, k: nat, t: State)
    returns (u: State)
    requires k <= |ids| && forall i :: 0 <= i < |ids| ==> ids[i] in claimed
    requires Midway(job, s, run, claimed, ids, env, 0, t) && run !in s.runs
    requires c.maxAttempts == job.maxAttempts && OnTime(c, s, env, k)
    ensures Leads(c, t, BatchSteps(job, run, claimed, ids, env, k), u)
    ensures Midway(job, s, run, claimed, ids, env, k, u)
  {
    if k == 0 {
      u := t;
      assert Linked(c, [t], []);
    } else {
      var before := BatchFollowsProtocol(c, job, s, run, claimed, ids, env, k - 1, t);
      u := NextRow(c, job, s, run, claimed, ids, env, k, before);
      LeadsOn(c, t, BatchSteps(job, run, claimed, ids, env, k - 1), before,
              RowSteps(job, run, claimed[ids[k - 1]], env(k - 1)), u);
    }
  }

  // ----- the run -----

  /** The claimed batch, still untouched. */
  function AfterClaim(c: Settings, s: State, run: nat, claimed: Table, ids: seq<Id>): State
    requires forall i :: 0 <= i < |ids| ==> ids[i] in claimed
  {
    s.(rows := ClaimAll(s.rows, ids, s.now, c.lease, run),
       runs := s.runs[run := Run(s.now, Tickets(claimed, ids), Idle)])
  }

  lemma {:induction false} ClaimFollowsProtocol(c: Settings, job: Job, s: State, run: nat, claimed: Table, ids: seq<Id>,
                                                env: nat -> Delivery)
    requires run !in s.runs && Distinct(ids) && c.lease == job.lease
    requires forall i :: 0 <= i < |ids| ==> ids[i] in s.rows && Due(s.rows[ids[i]].row, s.now)
    requires claimed == ClaimedTable(TableOf(s.rows), ids, s.now, job.lease)
    ensures forall i :: 0 <= i < |ids| ==> ids[i] in claimed
    ensures Next(c, s, Claim(run, ids), AfterClaim(c, s, run, claimed, ids))
    ensures Midway(job, s, run, claimed, ids, env, 0, AfterClaim(c, s, run, claimed, ids))
  {
    var t := AfterClaim(c, s, run, claimed, ids);
    assert TableOf(t.rows) == claimed;
    forall i | 0 <= i < |ids| ensures t.runs[run].open[i] == TicketFor(t.rows, ids[i]) {
      assert claimed[ids[i]] == t.rows[ids[i]].row;
    }
    assert Tickets(claimed, ids)[0..] == Tickets(claimed, ids);
  }

  /** How a run ends: with its sweep, and without the rows that it has not reached. */
  function EndSteps(run: nat, at: nat, gone: set<Id>): seq<Step> {
    [Elapse(at), Prune(gone), Quit(run)]
  }

  lemma {:induction false} EndFollowsProtocol(c: Settings, job: Job, s: State, run: nat, claimed: Table, ids: seq<Id>,
                                              env: nat -> Delivery, k: nat, t: State, at: nat, gone: set<Id>)
    returns (u: State)
    requires k <= |ids| && forall i :: 0 <= i < |ids| ==> ids[i] in claimed
    requires Midway(job, s, run, claimed, ids, env, k, t) && run !in s.runs
    requires t.now <= at && InSpan(c, s, at)
    requires gone <= Expired(AfterRows(job, claimed, ids, env, k), PruneCutoff(job, at))
    ensures Leads(c, t, EndSteps(run, at, gone), u)
    ensures TableOf(u.rows) == AfterRows(job, claimed, ids, env, k) - gone && u.runs == s.runs
  {
    var later := t.(now := at);
    var swept := later.(rows := t.rows - gone);
    forall id | id in gone && id in t.rows ensures t.rows[id].row.status != Pending {
      assert TableOf(t.rows)[id] == t.rows[id].row;
    }
    u := swept.(rows := LoseAll(swept.rows, t.runs[run].open), runs := t.runs - {run});
    assert Linked(c, [t, later, swept, u], EndSteps(run, at, gone));
  }

  /** A run of the dispatcher takes the table where the protocol takes it: by its claim, by Begin, End and
      Record or Lose for every row that it reaches, by its sweep, and by its end. */
  lemma {:induction false} RunFollowsProtocol(c: Settings, job: Job, s: State, run: nat, claimed: Table, ids: seq<Id>,
                                              env: nat -> Delivery, k: nat, at: nat, gone: set<Id>)
    returns (u: State)
    requires run !in s.runs && Distinct(ids) && k <= |ids| && c.lease == job.lease && c.maxAttempts == job.maxAttempts
    requires forall i :: 0 <= i < |ids| ==> ids[i] in s.rows && Due(s.rows[ids[i]].row, s.now)
    requires claimed == ClaimedTable(TableOf(s.rows), ids, s.now, job.lease)
    requires forall i :: 0 <= i < |ids| ==> ids[i] in claimed
    requires OnTime(c, s, env, k) && WrittenBy(s, env, k) <= at && InSpan(c, s, at)
    requires gone <= Expired(AfterRows(job, claimed, ids, env, k), PruneCutoff(job, at))
    ensures Leads(c, s, [Claim(run, ids)] + BatchSteps(job, run, claimed, ids, env, k) + EndSteps(run, at, gone), u)
    ensures TableOf(u.rows) == AfterRows(job, claimed, ids, env, k) - gone && u.runs == s.runs
  {
    ClaimFollowsProtocol(c, job, s, run, claimed, ids, env);
    var t := AfterClaim(c, s, run, claimed, ids);
    StepLeads(c, s, Claim(run, ids), t);
    var through := BatchFollowsProtocol(c, job, s, run, claimed, ids, env, k, t);
    LeadsOn(c, s, [Claim(run, ids)], t, BatchSteps(job, run, claimed, ids, env, k), through);
    u := EndFollowsProtocol(c, job, s, run, claimed, ids, env, k, through, at, gone);
    LeadsOn(c, s, [Claim(run, ids)] + BatchSteps(job, run, claimed, ids, env, k), through, EndSteps(run, at, gone), u);
  }
}
