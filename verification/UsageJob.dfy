/** The rollup job itself: one run over the store, in the order rollup, then prune. */
module UsageJob {
  import opened Wrappers
  import opened Durations
  import opened UsageRollup

  datatype JobError = Cancelled | RollupFailed | PruneFailed

  /** The two usage tables and the database clock, which stands still during one run. */
  class UsageStore {
    var now: nat
    var events: set<Event>
    var rollups: Rollups

    constructor (now: nat, events: set<Event>)
      ensures this.now == now && this.events == events && rollups == map[]
    {
      this.now, this.events, rollups := now, events, map[];
    }

    method RollupUsageEvents(since: nat) returns (affected: nat)
      modifies `rollups
      ensures rollups == RollUp(events, old(rollups), since)
      ensures affected == |Keys(Since(events, since))|
    {
      rollups := RollUp(events, rollups, since);
      affected := |Keys(Since(events, since))|;
    }

    /** Deletes some expired events, at most `batchSize`; fewer only when none are left. */
    method PruneUsageEvents(retention: nat, batchSize: nat) returns (deleted: nat)
      modifies `events
      ensures events <= old(events)
      ensures forall e :: e in old(events) - events ==> e.occurredAt < PruneCutoff(now, retention)
      ensures deleted == |old(events)| - |events| <= batchSize
      ensures deleted < batchSize ==> forall e :: e in events ==> PruneCutoff(now, retention) <= e.occurredAt
    {
      deleted := 0;
      var expired := set e | e in events && e.occurredAt < PruneCutoff(now, retention);
      while deleted < batchSize && expired != {}
        invariant expired == set e | e in events && e.occurredAt < PruneCutoff(now, retention)
        invariant events <= old(events)
        invariant forall e :: e in old(events) - events ==> e.occurredAt < PruneCutoff(now, retention)
        invariant deleted == |old(events)| - |events| <= batchSize
      {
        var e :| e in expired;
        assert events == (events - {e}) + {e};
        events := events - {e};
        expired := expired - {e};
        deleted := deleted + 1;
      }
      assert expired == {} ==> forall e :: e in events ==> e in expired || PruneCutoff(now, retention) <= e.occurredAt;
    }
  }

  /** `prune`: batches until one comes back short, a check fails, or the batch cap is reached.
      `cancelled(i)` and `fails(i)` are what the context and the i-th delete report. */
  method Prune(store: UsageStore, retention: nat, batchSize: nat, cancelled: nat -> bool, fails: nat -> bool)
    returns (total: nat, batches: nat, drained: bool, err: Option<JobError>)
    requires batchSize >= 1
    modifies store`events
    ensures store.events <= old(store.events)
    ensures total == |old(store.events)| - |store.events|
    ensures forall e :: e in old(store.events) - store.events ==> e.occurredAt + retention / SECOND * SECOND < store.now
    ensures drained ==> err == None && forall e :: e in store.events ==>
              store.now <= e.occurredAt + retention / SECOND * SECOND
    ensures !drained && err == None ==> batches == MAX_PRUNE_BATCHES && total == batches * batchSize
    ensures forall b :: 0 <= b < batches ==> !cancelled(b) && !fails(b)
    ensures err == Some(Cancelled) ==> cancelled(batches)
    ensures err == Some(PruneFailed) ==> !cancelled(batches) && fails(batches)
    ensures !drained && (exists b: nat :: b < MAX_PRUNE_BATCHES && (cancelled(b) || fails(b))) ==> err.Some?
    ensures err.Some? ==> !drained && err.value in {Cancelled, PruneFailed} && batches < MAX_PRUNE_BATCHES
  {
    total, batches, drained, err := 0, 0, false, None;
    while batches < MAX_PRUNE_BATCHES
      invariant batches <= MAX_PRUNE_BATCHES && total == batches * batchSize
      invariant store.events <= old(store.events)
      invariant total == |old(store.events)| - |store.events|
      invariant forall e :: e in old(store.events) - store.events ==> e.occurredAt < PruneCutoff(store.now, retention)
      invariant forall b :: 0 <= b < batches ==> !cancelled(b) && !fails(b)
      invariant !drained && err == None
    {
      if cancelled(batches) {
        err := Some(Cancelled);
        return;
      }
      if fails(batches) {
        err := Some(PruneFailed);
        return;
      }
      var deleted := store.PruneUsageEvents(retention, batchSize);
      total := total + deleted;
      batches := batches + 1;
      if deleted < batchSize {
        drained := true;
        return;
      }
    }
  }

  /** `Run`. The rollup is taken over every event present when the run starts, before the prune
      deletes any, and survives whatever the prune does. */
  method Run(store: UsageStore, retention: nat, batchSize: nat, cancelledFirst: bool, rollupFails: bool,
             cancelled: nat -> bool, fails: nat -> bool)
    returns (affected: nat, pruned: nat, batches: nat, err: Option<JobError>)
    requires batchSize >= 1 && InRange(store.now, retention)
    modifies store`events, store`rollups
    ensures cancelledFirst || rollupFails ==>
              && err == Some(if cancelledFirst then Cancelled else RollupFailed)
              && store.events == old(store.events) && store.rollups == old(store.rollups)
    ensures !cancelledFirst && !rollupFails ==>
              && store.rollups == RollUp(old(store.events), old(store.rollups), RollupSince(store.now, retention))
              && store.events <= old(store.events)
              && affected == |Keys(Since(old(store.events), RollupSince(store.now, retention)))|
              && pruned == |old(store.events)| - |store.events|
              && (err == None ==>
                    || (forall e :: e in store.events ==> store.now <= e.occurredAt + retention / SECOND * SECOND)
                    || pruned == MAX_PRUNE_BATCHES * batchSize)
              && (forall e :: e in old(store.events) - store.events ==>
                   e.occurredAt + retention / SECOND * SECOND < store.now)
              && (err.Some? ==> err.value in {Cancelled, PruneFailed} && batches < MAX_PRUNE_BATCHES)
              && (forall b :: 0 <= b < batches ==> !cancelled(b) && !fails(b))
              && (err == Some(Cancelled) ==> cancelled(batches))
              && (err == Some(PruneFailed) ==> !cancelled(batches) && fails(batches))
              && (err == None && (exists b: nat :: b < MAX_PRUNE_BATCHES && (cancelled(b) || fails(b))) ==>
                    forall e :: e in store.events ==> store.now <= e.occurredAt + retention / SECOND * SECOND)
  {
    affected, pruned, batches := 0, 0, 0;
    if cancelledFirst {
      return affected, pruned, batches, Some(Cancelled);
    }
    var since := RollupSince(store.now, retention);
    if rollupFails {
      return affected, pruned, batches, Some(RollupFailed);
    }
    affected := store.RollupUsageEvents(since);
    var drained;
    pruned, batches, drained, err := Prune(store, retention, batchSize, cancelled, fails);
  }

  /** One run as steps of the protocol: begin, fold, and one prune of everything it deleted. */
  lemma {:induction false} RunIsThreeSteps(retention: nat, s: State, events: set<Event>, rollups: Rollups)
    requires InRange(s.now, retention) && s.phase == Idle
    requires rollups == RollUp(s.events, s.rollups, RollupSince(s.now, retention))
    requires events <= s.events
    requires forall e :: e in s.events - events ==> e.occurredAt < PruneCutoff(s.now, retention)
    ensures exists t, u, v ::
              && Next(retention, s, Begin, t) && t.now == s.now
              && Next(retention, t, Fold, u) && u.now == s.now
              && Next(retention, u, PruneBatch(s.events - events), v)
              && v.events == events && v.rollups == rollups && v.history == s.history
  {
    var t := s.(phase := Started(RollupSince(s.now, retention)));
    var u := t.(phase := RolledUp, rollups := rollups, folded := s.history, lastFold := s.now);
    var cutoff := PruneCutoff(s.now, retention);
    var v := u.(events := u.events - (s.events - events), cutoff := if u.cutoff < cutoff then cutoff else u.cutoff);
    assert v.events == events;
    assert Next(retention, s, Begin, t) && Next(retention, t, Fold, u);
    assert Next(retention, u, PruneBatch(s.events - events), v);
  }
}
