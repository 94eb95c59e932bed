/** The dispatch job itself: one run over a claimed batch, and the retention sweep that follows it. */
module EmailDispatch {
  import opened Wrappers
  import opened Durations
  import opened EmailSchedule
  import opened ErrorText
  import opened EmailOutbox

  const PRUNE_INTERVAL: nat := 3600 * SECOND
  const PRUNE_BATCH_SIZE: nat := 1000
  const MAX_PRUNE_BATCHES: nat := 20

  type Table = map<Id, Row>

  // ----- what a run should do -----

  function Least(a: nat, b: nat): nat {
    if a <= b then a else b
  }

  /** What one row of a batch meets: whether the run is cancelled when it is reached, the sender's
      answer, and when and whether the outcome is written. */
  datatype Delivery = Delivery(cancelled: bool, refusal: Option<seq<Byte>>, writtenAt: nat, writeFails: bool)

  datatype Job = Job(lease: nat, maxAttempts: nat, retention: nat, missingBody: seq<Byte>)

  function OutcomeOf(job: Job, row: Row, d: Delivery): Outcome {
    if !row.hasBody then NoBody(job.missingBody)
    else match d.refusal case Some(error) => Refused(error) case None => Delivered
  }

  function ClaimedTable(table: Table, ids: seq<Id>, now: nat, lease: nat): Table {
    map id | id in table :: if id in ids then Claimed(table[id], now, lease) else table[id]
  }

  function AfterRow(job: Job, table: Table, id: Id, row: Row, d: Delivery): Table {
    if d.writeFails || id !in table then table
    else table[id := Recorded(job.maxAttempts, table[id], row.attempts, OutcomeOf(job, row, d), d.writtenAt)]
  }

  /** The table once the first k claimed rows are dealt with; `claimed` is the table the claim left. */
  function AfterRows(job: Job, claimed: Table, ids: seq<Id>, env: nat -> Delivery, k: nat): Table
    requires k <= |ids| && forall i :: 0 <= i < |ids| ==> ids[i] in claimed
  {
    if k == 0 then claimed
    else AfterRow(job, AfterRows(job, claimed, ids, env, k - 1), ids[k - 1], claimed[ids[k - 1]], env(k - 1))
  }

  /** How far a run gets: to the first row it reaches cancelled. */
  ghost predicate Reaches(ids: seq<Id>, env: nat -> Delivery, k: nat) {
    && k <= |ids|
    && (forall i: nat :: i < k ==> !env(i).cancelled)
    && (k < |ids| ==> env(k).cancelled)
  }

  /** The messages handed to the sender, each under its row's own id. */
  function Handed(claimed: Table, ids: seq<Id>, k: nat): seq<Id>
    requires k <= |ids| && forall i :: 0 <= i < |ids| ==> ids[i] in claimed
  {
    if k == 0 then []
    else Handed(claimed, ids, k - 1) + if claimed[ids[k - 1]].hasBody then [ids[k - 1]] else []
  }

  function SentCount(job: Job, claimed: Table, ids: seq<Id>, env: nat -> Delivery, k: nat): nat
    requires k <= |ids| && forall i :: 0 <= i < |ids| ==> ids[i] in claimed
  {
    if k == 0 then 0
    else
      SentCount(job, claimed, ids, env, k - 1)
        + if OutcomeOf(job, claimed[ids[k - 1]], env(k - 1)).Delivered? then 1 else 0
  }

  ghost predicate Distinct(ids: seq<Id>) {
    forall i, j :: 0 <= i < j < |ids| ==> ids[i] != ids[j]
  }

  /** Each claimed row that the run reaches gets the outcome of its own delivery and nothing else;
      each row that it does not reach keeps the lease its claim took. */
  lemma {:induction false} EachRowItsOwn(job: Job, claimed: Table, ids: seq<Id>, env: nat -> Delivery, k: nat, id: Id)
    requires k <= |ids| && Distinct(ids) && (forall i :: 0 <= i < |ids| ==> ids[i] in claimed) && id in claimed
    ensures id in AfterRows(job, claimed, ids, env, k)
    ensures id !in ids[..k] ==> AfterRows(job, claimed, ids, env, k)[id] == claimed[id]
    ensures forall i: nat :: i < k && ids[i] == id ==>
                               AfterRows(job, claimed, ids, env, k)[id]
                               == if env(i).writeFails then claimed[id]
                                  else Recorded(job.maxAttempts, claimed[id], claimed[id].attempts,
                                                OutcomeOf(job, claimed[id], env(i)), env(i).writtenAt)
  {
    if k > 0 {
      EachRowItsOwn(job, claimed, ids, env, k - 1, id);
      assert ids[..k] == ids[..k - 1] + [ids[k - 1]];
      assert id == ids[k - 1] ==> id !in ids[..k - 1];
    }
  }

  // ----- what becomes of a row -----

  /** The wait after so many attempts: 30 seconds, doubled for each attempt after the first, up to 30 minutes. */
  function Wait(attempts: nat): nat {
    if attempts <= 1 then 30 * SECOND else Least(2 * Wait(attempts - 1), 1800 * SECOND)
  }

  lemma {:induction false} WaitIsBackoff(attempts: nat)
    requires 1 <= attempts < 0x8000_0000
    ensures BackoffFor(attempts) / SECOND * SECOND == Wait(attempts)
  {
    BackoffIsMonotone(attempts, attempts);
    BackoffIsClampedDoubling(attempts);
    if attempts > 1 {
      WaitIsBackoff(attempts - 1);
      BackoffIsMonotone(attempts - 1, attempts - 1);
      BackoffIsClampedDoubling(attempts - 1);
    }
  }

  /** A row as the run leaves it, given the row that it claimed: delivered, and so sent, its body gone;
      without a body, and so failed; refused for good, with its attempts used up; or refused and due
      again after its wait. If the outcome is not written, only the claim shows. */
  ghost predicate EndsAs(job: Job, was: Row, claimedAt: nat, d: Delivery, row: Row) {
    var attempts := was.attempts + 1;
    && row.attempts == attempts
    && if d.writeFails then
         && row.status == Pending && row.hasBody == was.hasBody && row.lastError == was.lastError
         && row.nextAttemptAt == claimedAt + job.lease && row.updatedAt == claimedAt
       else
         && row.updatedAt == d.writtenAt
         && if was.hasBody && d.refusal.None? then row.status == Sent && !row.hasBody && row.lastError.None?
            else
              && row.lastError == Some(Truncated(if was.hasBody then d.refusal.value else job.missingBody))
              && if was.hasBody && attempts < job.maxAttempts then
                   && row.status == Pending && row.hasBody
                   && row.nextAttemptAt == d.writtenAt + Wait(attempts)
                 else row.status == Failed && !row.hasBody
  }

  lemma {:induction false} DealtWith(job: Job, was: Row, now: nat, d: Delivery)
    requires was.status == Pending && was.attempts + 1 < 0x8000_0000
    ensures var row := Claimed(was, now, job.lease);
            EndsAs(job, was, now, d,
                   if d.writeFails then row
                   else Recorded(job.maxAttempts, row, row.attempts, OutcomeOf(job, row, d), d.writtenAt))
  {
    WaitIsBackoff(was.attempts + 1);
  }

  /** Every row that a run reaches ends as its delivery says; every other one of its batch stays leased,
      and a row outside the batch is not touched. */
  lemma {:induction false} RowsEndAsDelivered(job: Job, table: Table, ids: seq<Id>, now: nat, env: nat -> Delivery,
                                              k: nat, id: Id)
    requires Distinct(ids) && k <= |ids| && id in table
    requires forall i :: 0 <= i < |ids| ==> ids[i] in table && Due(table[ids[i]], now)
    requires table[id].attempts + 1 < 0x8000_0000
    ensures var claimed := ClaimedTable(table, ids, now, job.lease);
            var after := AfterRows(job, claimed, ids, env, k);
            && id in after
            && (forall i: nat :: i < k && ids[i] == id ==> EndsAs(job, table[id], now, env(i), after[id]))
            && (id in ids[k..] ==>
                 after[id] == table[id].(attempts := table[id].attempts + 1, nextAttemptAt := now + job.lease,
                                         updatedAt := now))
            && (id !in ids ==> after[id] == table[id])
  {
    var claimed := ClaimedTable(table, ids, now, job.lease);
    EachRowItsOwn(job, claimed, ids, env, k, id);
    forall i: nat | i < k && ids[i] == id
      ensures EndsAs(job, table[id], now, env(i), AfterRows(job, claimed, ids, env, k)[id])
    {
      DealtWith(job, table[id], now, env(i));
    }
    assert id in ids[k..] || id !in ids ==> id !in ids[..k];
  }

  /** Exactly the reached rows with a body are handed to the sender, each once. */
  lemma {:induction false} HandedOnce(claimed: Table, ids: seq<Id>, k: nat, id: Id)
    requires Distinct(ids) && k <= |ids| && forall i :: 0 <= i < |ids| ==> ids[i] in claimed
    ensures id in Handed(claimed, ids, k) <==> id in ids[..k] && claimed[id].hasBody
    ensures Distinct(Handed(claimed, ids, k))
  {
    if k > 0 {
      HandedOnce(claimed, ids, k - 1, id);
      HandedOnce(claimed, ids, k - 1, ids[k - 1]);
      assert ids[..k] == ids[..k - 1] + [ids[k - 1]];
      assert ids[k - 1] !in ids[..k - 1];
    }
  }

  /** The run reports the rows that were delivered. */
  lemma {:induction false} SentAreDelivered(job: Job, claimed: Table, ids: seq<Id>, env: nat -> Delivery, k: nat)
    requires k <= |ids| && forall i :: 0 <= i < |ids| ==> ids[i] in claimed
    ensures SentCount(job, claimed, ids, env, k)
         == |set i | 0 <= i < k && claimed[ids[i]].hasBody && env(i).refusal.None?|
  {
    if k > 0 {
      SentAreDelivered(job, claimed, ids, env, k - 1);
      var before := set i | 0 <= i < k - 1 && claimed[ids[i]].hasBody && env(i).refusal.None?;
      var after := set i | 0 <= i < k && claimed[ids[i]].hasBody && env(i).refusal.None?;
      assert after == before + if claimed[ids[k - 1]].hasBody && env(k - 1).refusal.None? then {k - 1} else {};
    }
  }

  // ----- the retention sweep -----

  function Expired(table: Table, cutoff: int): set<Id> {
    set id | id in table && table[id].status != Pending && table[id].updatedAt < cutoff
  }

  /** Rows last touched before this are past retention, which is passed on in whole seconds. */
  function PruneCutoff(job: Job, now: nat): int {
    now - job.retention / SECOND * SECOND
  }

  /** What a sweep may delete: sent and failed rows that were last touched longer ago than the retention,
      which is passed on in whole seconds. */
  lemma {:induction false} ExpiredExactly(job: Job, table: Table, now: nat, id: Id)
    ensures id in Expired(table, PruneCutoff(job, now))
            <==> && id in table && (table[id].status == Sent || table[id].status == Failed)
                 && table[id].updatedAt + job.retention / SECOND * SECOND < now
  {
  }

  lemma {:induction false} SubsetOfSize<T>(s: set<T>, n: nat) returns (t: set<T>)
    requires n <= |s|
    ensures t <= s && |t| == n
  {
    t := {};
    while |t| < n
      invariant t <= s && |t| <= n
    {
      assert s == t + (s - t);
      var x :| x in s - t;
      t := t + {x};
    }
  }

  /** A DELETE's fate: cut off before it is issued, failed, or carried out. */
  datatype Deletion = Cancelled | Failing | Deleting

  /** How many deletions a sweep carries out, from the given one on, before it is disturbed or at its cap. */
  function CleanBatches(env: nat -> Deletion, from: nat): (n: nat)
    requires from <= MAX_PRUNE_BATCHES
    ensures n <= MAX_PRUNE_BATCHES - from
    ensures (forall i :: env(i).Deleting?) ==> n == MAX_PRUNE_BATCHES - from
    decreases MAX_PRUNE_BATCHES - from
  {
    if from == MAX_PRUNE_BATCHES || !env(from).Deleting? then 0 else 1 + CleanBatches(env, from + 1)
  }

  class Outbox {
    var table: Table

    constructor (table: Table)
      ensures this.table == table
    {
      this.table := table;
    }

    /** UPDATE ... RETURNING over the batch Postgres picked among the due rows. */
    method ClaimPending(ids: seq<Id>, now: nat, lease: nat)
      requires forall i :: 0 <= i < |ids| ==> ids[i] in table && Due(table[ids[i]], now)
      modifies this
      ensures table == ClaimedTable(old(table), ids, now, lease)
    {
      table := map id | id in table :: if id in ids then Claimed(table[id], now, lease) else table[id];
    }

    /** DELETE with a LIMIT: some of the expired rows, as many as the limit allows. */
    method PruneBatch(cutoff: int, limit: nat) returns (deleted: nat)
      modifies this
      ensures deleted == Least(|Expired(old(table), cutoff)|, limit)
      ensures exists gone: set<Id> ::
                gone <= Expired(old(table), cutoff) && |gone| == deleted && table == old(table) - gone
    {
      var expired := Expired(table, cutoff);
      deleted := Least(|expired|, limit);
      ghost var some := SubsetOfSize(expired, deleted);
      var gone :| gone <= expired && |gone| == deleted;
      table := table - gone;
    }
  }

  /** What a row not expired, or only some of them, loses to a deletion. */
  lemma {:induction false} ExpiredAfter(before: Table, gone: set<Id>, cutoff: int)
    requires gone <= Expired(before, cutoff)
    ensures Expired(before - gone, cutoff) == Expired(before, cutoff) - gone
    ensures |Expired(before - gone, cutoff)| == |Expired(before, cutoff)| - |gone|
  {
    assert Expired(before - gone, cutoff) == Expired(before, cutoff) - gone;
  }

  lemma {:induction false} SubsetCard<T>(a: set<T>, b: set<T>)
    requires a <= b
    ensures |a| <= |b|
  {
    assert b == a + (b - a);
  }

  /** One deletion after another is one deletion of both. */
  lemma {:induction false} OneMoreDeletion(before: Table, gone: set<Id>, table: Table, more: set<Id>, after: Table,
                                           cutoff: int)
    requires gone <= Expired(before, cutoff) && table == before - gone
    requires more <= Expired(table, cutoff) && after == table - more
    ensures gone + more <= Expired(before, cutoff) && |gone + more| == |gone| + |more|
    ensures after == before - (gone + more)
    ensures |Expired(table, cutoff)| == |Expired(before, cutoff)| - |gone|
    ensures |gone + more| <= |Expired(before, cutoff)|
  {
    ExpiredAfter(before, gone, cutoff);
    assert gone !! more;
    SubsetCard(gone + more, Expired(before, cutoff));
  }

  class Dispatcher {
    const job: Job
    const outbox: Outbox
    var lastPrunedAt: Option<nat>
    var handed: seq<Id>

    constructor (job: Job, outbox: Outbox)
      ensures this.job == job && this.outbox == outbox && lastPrunedAt == None && handed == []
    {
      this.job, this.outbox := job, outbox;
      lastPrunedAt, handed := None, [];
    }

    /** One row: hand it to the sender unless it has no body, and write down what came of it. */
    method SendRow(id: Id, row: Row, d: Delivery) returns (sent: bool)
      modifies outbox, this`handed
      ensures outbox.table == AfterRow(job, old(outbox.table), id, row, d)
      ensures handed == old(handed) + if row.hasBody then [id] else []
      ensures sent <==> OutcomeOf(job, row, d).Delivered?
    {
      var table := outbox.table;
      var now := d.writtenAt;
      if !row.hasBody {
        if !d.writeFails && id in table {
          outbox.table := table[id := MarkedFailed(table[id], now, job.missingBody)];
        }
        return false;
      }
      handed := handed + [id];
      if d.refusal.Some? {
        if !d.writeFails && id in table {
          var error := d.refusal.value;
          if row.attempts >= job.maxAttempts {
            outbox.table := table[id := MarkedFailed(table[id], now, error)];
          } else {
            outbox.table := table[id := Rescheduled(table[id], now, error, BackoffFor(row.attempts) / SECOND)];
          }
        }
        return false;
      }
      if !d.writeFails && id in table {
        outbox.table := table[id := MarkedSent(table[id], now)];
      }
      return true;
    }

    /** The rows of one run, up to the first that it reaches cancelled. */
    method SendBatch(ids: seq<Id>, claimed: Table, env: nat -> Delivery) returns (reached: nat, sent: nat, failed: nat)
      requires outbox.table == claimed && forall i :: 0 <= i < |ids| ==> ids[i] in claimed
      modifies outbox, this`handed
      ensures Reaches(ids, env, reached)
      ensures outbox.table == AfterRows(job, claimed, ids, env, reached)
      ensures handed == old(handed) + Handed(claimed, ids, reached)
      ensures sent == SentCount(job, claimed, ids, env, reached) && sent + failed == reached
    {
      reached, sent, failed := 0, 0, 0;
      while reached < |ids|
        invariant reached <= |ids| && forall i: nat :: i < reached ==> !env(i).cancelled
        invariant outbox.table == AfterRows(job, claimed, ids, env, reached)
        invariant handed == old(handed) + Handed(claimed, ids, reached)
        invariant sent == SentCount(job, claimed, ids, env, reached) && sent + failed == reached
      {
        if env(reached).cancelled {
          return;
        }
        var ok := SendRow(ids[reached], claimed[ids[reached]], env(reached));
        if ok {
          sent := sent + 1;
        } else {
          failed := failed + 1;
        }
        reached := reached + 1;
      }
    }

    /** The batches of a sweep: only expired rows go, and as many as the undisturbed batches take. */
    method Sweep(cutoff: int, env: nat -> Deletion) returns (total: nat)
      modifies outbox
      ensures total == Least(|Expired(old(outbox.table), cutoff)|, CleanBatches(env, 0) * PRUNE_BATCH_SIZE)
      ensures exists gone: set<Id> ::
                && gone <= Expired(old(outbox.table), cutoff) && |gone| == total
                && outbox.table == old(outbox.table) - gone
    {
      total := 0;
      ghost var gone: set<Id> := {};
      ghost var before := outbox.table;
      assert before - gone == before;
      var batches := 0;
      while batches < MAX_PRUNE_BATCHES
        invariant 0 <= batches <= MAX_PRUNE_BATCHES && total == batches * PRUNE_BATCH_SIZE
        invariant gone <= Expired(before, cutoff) && |gone| == total <= |Expired(before, cutoff)|
        invariant outbox.table == before - gone
        invariant CleanBatches(env, 0) == batches + CleanBatches(env, batches)
      {
        if env(batches).Cancelled? || env(batches).Failing? {
          break;
        }
        ghost var table := outbox.table;
        var deleted := outbox.PruneBatch(cutoff, PRUNE_BATCH_SIZE);
        ghost var more: set<Id> :| more <= Expired(table, cutoff) && |more| == deleted && outbox.table == table - more;
        OneMoreDeletion(before, gone, table, more, outbox.table, cutoff);
        gone := gone + more;
        total := total + deleted;
        if deleted < PRUNE_BATCH_SIZE {
          return;
        }
        batches := batches + 1;
      }
    }

    /** The sweep, at most one an hour: batches until one comes back short, one fails, the run is
        cancelled, or twenty are done. */
    method MaybePrune(now: nat, env: nat -> Deletion) returns (total: nat, swept: bool)
      modifies outbox, this`lastPrunedAt
      ensures swept <==> old(lastPrunedAt).None? || now - old(lastPrunedAt).value >= PRUNE_INTERVAL
      ensures lastPrunedAt == if swept then Some(now) else old(lastPrunedAt)
      ensures !swept ==> total == 0 && outbox.table == old(outbox.table)
      ensures exists gone: set<Id> ::
                && gone <= Expired(old(outbox.table), PruneCutoff(job, now)) && |gone| == total
                && outbox.table == old(outbox.table) - gone
      ensures swept ==>
                total == Least(|Expired(old(outbox.table), PruneCutoff(job, now))|,
                               CleanBatches(env, 0) * PRUNE_BATCH_SIZE)
    {
      if lastPrunedAt.Some? && now - lastPrunedAt.value < PRUNE_INTERVAL {
        ghost var none: set<Id> := {};
        assert outbox.table - none == outbox.table;
        return 0, false;
      }
      total := Sweep(PruneCutoff(job, now), env);
      lastPrunedAt := Some(now);
      swept := true;
    }

    /** One run: claim, send, and sweep if the batch was worked off. It fails only for a failed claim
        or a cancelled context, never for a mail that was refused. */
    method Run(now: nat, cancelled: bool, claimFails: bool, ids: seq<Id>, env: nat -> Delivery,
               sweepAt: nat, sweep: nat -> Deletion) returns (ok: bool, sent: nat, failed: nat, reached: nat)
      requires Distinct(ids) && forall i :: 0 <= i < |ids| ==> ids[i] in outbox.table && Due(outbox.table[ids[i]], now)
      modifies outbox, this`handed, this`lastPrunedAt
      ensures cancelled || claimFails ==>
                !ok && sent == failed == reached == 0 && outbox.table == old(outbox.table) && handed == old(handed)
      ensures !cancelled && !claimFails ==>
                var claimed := ClaimedTable(old(outbox.table), ids, now, job.lease);
                && Reaches(ids, env, reached)
                && (ok <==> reached == |ids|)
                && handed == old(handed) + Handed(claimed, ids, reached)
                && sent == SentCount(job, claimed, ids, env, reached) && sent + failed == reached
                && (!ok ==> outbox.table == AfterRows(job, claimed, ids, env, reached))
                && (exists gone: set<Id> ::
                      && gone <= Expired(AfterRows(job, claimed, ids, env, reached), PruneCutoff(job, sweepAt))
                      && outbox.table == AfterRows(job, claimed, ids, env, reached) - gone)
    {
      if cancelled || claimFails {
        return false, 0, 0, 0;
      }
      outbox.ClaimPending(ids, now, job.lease);
      ghost var none: set<Id> := {};
      reached, sent, failed := SendBatch(ids, outbox.table, env);
      assert outbox.table - none == outbox.table;
      if reached < |ids| {
        return false, sent, failed, reached;
      }
      var total, swept := MaybePrune(sweepAt, sweep);
      ok := true;
    }
  }
}
