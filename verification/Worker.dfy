/** The worker process itself: the Redis lock client, one attempt of a job, and its statistics. */
module Worker {
  import opened Wrappers
  import opened FleetLock

  type Keys = map<string, Lease>

  function LockAt(keys: Keys, key: string): Option<Lease> {
    if key in keys then Some(keys[key]) else None
  }

  function WithLock(keys: Keys, key: string, lock: Option<Lease>): Keys {
    match lock
    case Some(lease) => keys[key := lease]
    case None => keys - {key}
  }

  /** How a command fares: carried out and answered, never carried out, or carried out with the answer lost. */
  datatype Reply = Answered | NotSent(error: string) | AnswerLost(error: string)

  /** The lock client over one shared Redis. */
  class RedisLock {
    const prefix: string
    var keys: Keys

    constructor (prefix: string, keys: Keys)
      ensures this.prefix == prefix && this.keys == keys
    {
      this.prefix, this.keys := prefix, keys;
    }

    function Key(name: string): string {
      prefix + "worker:lock:" + name
    }

    method Acquire(name: string, owner: string, ttl: nat, now: nat, reply: Reply) returns (r: Result<bool, string>)
      modifies this`keys
      ensures keys == if reply.NotSent? then old(keys)
                      else WithLock(old(keys), Key(name), AcquireOn(LockAt(old(keys), Key(name)), now, owner, ttl).0)
      ensures r == if reply.Answered? then Ok(AcquireOn(LockAt(old(keys), Key(name)), now, owner, ttl).1)
              else Err(reply.error)
    {
      var taken := false;
      if !reply.NotSent? {
        if Key(name) !in keys || keys[Key(name)].expiry <= now {
          keys := keys[Key(name) := Lease(owner, now + ttl)];
          taken := true;
        } else {
          assert keys == keys[Key(name) := keys[Key(name)]];
        }
      }
      r := if reply.Answered? then Ok(taken) else Err(reply.error);
    }

    method Release(name: string, owner: string, now: nat, reply: Reply)
      modifies this`keys
      ensures keys == if reply.NotSent? then old(keys)
                      else WithLock(old(keys), Key(name), ReleaseOn(LockAt(old(keys), Key(name)), now, owner))
    {
      if !reply.NotSent? {
        if Key(name) in keys && now < keys[Key(name)].expiry && keys[Key(name)].owner == owner {
          keys := keys - {Key(name)};
        } else {
          assert keys == if Key(name) in keys then keys[Key(name) := keys[Key(name)]] else keys - {Key(name)};
        }
      }
    }
  }

  /** Jobs with different names never share a key, so the protocol of each job is its own. */
  lemma {:induction false} KeysAreApart(lock: RedisLock, a: string, b: string, keys: Keys, change: Option<Lease>)
    requires a != b
    ensures lock.Key(a) != lock.Key(b)
    ensures LockAt(WithLock(keys, lock.Key(a), change), lock.Key(b)) == LockAt(keys, lock.Key(b))
    ensures LockAt(WithLock(keys, lock.Key(a), change), lock.Key(a)) == change
  {
    var head := lock.prefix + "worker:lock:";
    assert lock.Key(a)[|head|..] == a && lock.Key(b)[|head|..] == b;
  }

  // ----- job statistics -----

  datatype JobStats = JobStats(name: string, runs: nat, failures: nat, skipped: nat, lastRunAt: Option<nat>,
                               lastDurMs: nat, lastError: string, lastAffected: int)

  function FreshStats(name: string): JobStats {
    JobStats(name, 0, 0, 0, None, 0, "", 0)
  }

  /** What one attempt of a job came to. */
  datatype Attempt =
    | LockFailed(error: string)
    | Skipped
    | RunFailed(error: string, started: nat, durMs: nat)
    | Completed(affected: int, started: nat, durMs: nat)

  function Recorded(s: JobStats, a: Attempt): JobStats {
    match a
    case LockFailed(e) => s.(failures := s.failures + 1, lastError := e)
    case Skipped => s.(skipped := s.skipped + 1)
    case RunFailed(e, at, ms) =>
      s.(runs := s.runs + 1, failures := s.failures + 1, lastError := e, lastDurMs := ms, lastRunAt := Some(at))
    case Completed(n, at, ms) =>
      s.(runs := s.runs + 1, lastError := "", lastAffected := n, lastDurMs := ms, lastRunAt := Some(at))
  }

  function AllRecorded(name: string, history: seq<Attempt>): JobStats {
    if history == [] then FreshStats(name)
    else Recorded(AllRecorded(name, history[..|history| - 1]), history[|history| - 1])
  }

  function CountOf(history: seq<Attempt>, p: Attempt -> bool): nat {
    if history == [] then 0 else CountOf(history[..|history| - 1], p) + if p(history[|history| - 1]) then 1 else 0
  }

  /** The counters classify every attempt: each is a run, a skip or a lock error, and the failures
      are the failed runs together with the lock errors. */
  lemma {:induction false} StatsClassifyAttempts(name: string, history: seq<Attempt>)
    ensures var s := AllRecorded(name, history);
            && s.runs == CountOf(history, (a: Attempt) => a.RunFailed? || a.Completed?)
            && s.skipped == CountOf(history, (a: Attempt) => a.Skipped?)
            && s.failures == CountOf(history, (a: Attempt) => a.RunFailed? || a.LockFailed?)
            && |history| == s.skipped + s.failures + CountOf(history, (a: Attempt) => a.Completed?)
  {
    if history != [] {
      StatsClassifyAttempts(name, history[..|history| - 1]);
    }
  }

  /** Attempt k is the latest that was not skipped. */
  ghost predicate LatestUnskipped(history: seq<Attempt>, k: nat) {
    k < |history| && !history[k].Skipped? && forall i :: k < i < |history| ==> history[i].Skipped?
  }

  /** The reported error is that of the latest attempt that was not skipped, and a completed run clears it. */
  lemma {:induction false} LastErrorIsCurrent(name: string, history: seq<Attempt>, k: nat)
    requires LatestUnskipped(history, k)
    ensures AllRecorded(name, history).lastError == if history[k].Completed? then "" else history[k].error
    ensures !history[k].LockFailed? ==> AllRecorded(name, history).lastRunAt == Some(history[k].started)
  {
    var prefix := history[..|history| - 1];
    if k < |prefix| {
      assert LatestUnskipped(prefix, k);
      LastErrorIsCurrent(name, prefix, k);
    }
  }

  // ----- the worker -----

  datatype Job = Job(name: string, interval: nat)

  /** What the run of a job returns; a panic becomes an error. */
  datatype RunOutcome = Returned(affected: int) | Failed(error: string) | Panicked(value: string)

  function SafeRun(outcome: RunOutcome): Result<int, string> {
    match outcome
    case Returned(n) => Ok(n)
    case Failed(e) => Err(e)
    case Panicked(v) => Err("panic: " + v)
  }

  /** Everything outside the worker that one attempt meets: instants, how the two commands fare,
      what the run comes to, and what all other clients do to the keys meanwhile. */
  datatype Surroundings = Surroundings(tried: nat, acquiring: Reply, started: nat, outcome: RunOutcome, durMs: nat,
                                       others: Keys -> Keys, ended: nat, releasing: Reply)

  function AttemptOf(lock: Option<Lease>, owner: string, ttl: nat, env: Surroundings): Attempt {
    if !env.acquiring.Answered? then LockFailed(env.acquiring.error)
    else if !AcquireOn(lock, env.tried, owner, ttl).1 then Skipped
    else
      match SafeRun(env.outcome)
      case Ok(n) => Completed(n, env.started, env.durMs)
      case Err(e) => RunFailed(e, env.started, env.durMs)
  }

  /** The keys once SET NX is through. */
  function KeysTaken(keys: Keys, key: string, owner: string, ttl: nat, env: Surroundings): Keys {
    if env.acquiring.NotSent? then keys else WithLock(keys, key, AcquireOn(LockAt(keys, key), env.tried, owner, ttl).0)
  }

  /** The keys after an attempt: a run that fails, and only that, ends with compare-and-delete. */
  function KeysAfter(keys: Keys, key: string, owner: string, ttl: nat, env: Surroundings): Keys {
    var taken := KeysTaken(keys, key, owner, ttl, env);
    match AttemptOf(LockAt(keys, key), owner, ttl, env)
    case LockFailed(_) => taken
    case Skipped => taken
    case Completed(_, _, _) => env.others(taken)
    case RunFailed(_, _, _) =>
      var late := env.others(taken);
      if env.releasing.NotSent? then late else WithLock(late, key, ReleaseOn(LockAt(late, key), env.ended, owner))
  }

  /** An attempt moves the job's key by the fleet protocol: an acquire step at the instant of the try,
      if the command is carried out at all, with its answer lost or not; and, when the run fails, a
      release step at the instant it ends. */
  lemma {:induction false} AttemptFollowsProtocol(keys: Keys, key: string, owner: string, ttl: nat, env: Surroundings,
                                                  s: State, u: State)
    returns (t: State, v: State, w: State)
    requires s.now == env.tried && s.lock == LockAt(keys, key) && PhaseOf(s, owner) == Waiting
    requires u.now == env.ended && u.lock == LockAt(env.others(KeysTaken(keys, key, owner, ttl, env)), key)
    requires PhaseOf(u, owner).Running?
    ensures if env.acquiring.NotSent? then t == s
            else Next(ttl, s, if env.acquiring.Answered? then Acquire(owner) else AcquireLost(owner), t)
    ensures t.lock == LockAt(KeysTaken(keys, key, owner, ttl, env), key)
    ensures AttemptOf(s.lock, owner, ttl, env).LockFailed? || AttemptOf(s.lock, owner, ttl, env).Skipped?
            <==> PhaseOf(t, owner) == Waiting
    ensures PhaseOf(t, owner) == Waiting ==> t.lock == LockAt(KeysAfter(keys, key, owner, ttl, env), key)
    ensures AttemptOf(s.lock, owner, ttl, env).Completed? ==>
              Next(ttl, u, Succeed(owner), v) && v.lock == LockAt(KeysAfter(keys, key, owner, ttl, env), key)
    ensures AttemptOf(s.lock, owner, ttl, env).RunFailed? ==>
              && Next(ttl, u, Fail(owner), v)
              && Next(ttl, v, if env.releasing.NotSent? then ReleaseFailed(owner) else Release(owner), w)
              && w.lock == LockAt(KeysAfter(keys, key, owner, ttl, env), key)
  {
    var (lock, acquired) := AcquireOn(s.lock, s.now, owner, ttl);
    var lost := env.acquiring.AnswerLost?;
    t := if env.acquiring.NotSent? || !acquired then s
         else s.(lock := lock, phases := if lost then s.phases else s.phases[owner := Running(|s.log|)],
                 log := s.log + [Acquisition(owner, s.now, lost, false, None)]);
    var n := PhaseOf(u, owner).n;
    var failed := env.outcome.Failed? || env.outcome.Panicked?;
    v := u.(phases := u.phases[owner := if failed then Failing(n) else Waiting], log := EndRun(u.log, n, failed));
    var dropped := if env.releasing.NotSent? then v.lock else ReleaseOn(v.lock, v.now, owner);
    w := v.(lock := dropped, phases := v.phases[owner := Waiting],
            log := if dropped != v.lock && n < |v.log| then v.log[n := v.log[n].(released := Some(v.now))] else v.log);
  }

  /** Nobody holds the key. */
  predicate Free(keys: Keys, key: string, now: nat) {
    key in keys ==> keys[key].expiry <= now
  }

  /** What each way an attempt can go does to the job's statistics: a run that returns an error or
      panics is a failed run and reports that error; only one that returns clears it. */
  lemma {:induction false} OutcomeIsRecorded(keys: Keys, key: string, owner: string, ttl: nat, env: Surroundings,
                                             s: JobStats)
    ensures var after := Recorded(s, AttemptOf(LockAt(keys, key), owner, ttl, env));
            if !env.acquiring.Answered? then
              after == s.(failures := s.failures + 1, lastError := env.acquiring.error)
            else if !Free(keys, key, env.tried) then after == s.(skipped := s.skipped + 1)
            else
              && after.runs == s.runs + 1 && after.skipped == s.skipped && after.name == s.name
              && after.lastRunAt == Some(env.started) && after.lastDurMs == env.durMs
              && match env.outcome
                 case Returned(n) => after.failures == s.failures && after.lastError == "" && after.lastAffected == n
                 case Failed(e) =>
                   after.failures == s.failures + 1 && after.lastError == e && after.lastAffected == s.lastAffected
                 case Panicked(v) =>
                   && after.failures == s.failures + 1 && after.lastError == "panic: " + v
                   && after.lastAffected == s.lastAffected
  {
  }

  /** ...and to the keys: a free key is taken for a TTL, even if the answer gets lost; a run that fails
      or panics frees it again, if the release is carried out while the key is still its own; a run that
      returns leaves it. */
  lemma {:induction false} FailureFreesKey(keys: Keys, key: string, owner: string, ttl: nat, env: Surroundings)
    ensures var after := KeysAfter(keys, key, owner, ttl, env);
            var taken := if env.acquiring.NotSent? || !Free(keys, key, env.tried) then keys
                         else keys[key := Lease(owner, env.tried + ttl)];
            if !env.acquiring.Answered? || !Free(keys, key, env.tried) then after == taken
            else
              var late := env.others(taken);
              var own := key in late && late[key].owner == owner && env.ended < late[key].expiry;
              after == if own && !env.outcome.Returned? && !env.releasing.NotSent? then late - {key} else late
  {
    var taken := KeysTaken(keys, key, owner, ttl, env);
    SameLock(keys, key);
    SameLock(env.others(taken), key);
  }

  /** Writing back what is there changes nothing. */
  lemma {:induction false} SameLock(keys: Keys, key: string)
    ensures WithLock(keys, key, LockAt(keys, key)) == keys
  {
    if key in keys {
      assert keys[key := keys[key]] == keys;
    }
  }

  class Worker {
    const owner: string
    const locker: RedisLock
    var jobs: seq<Job>
    var stats: map<string, JobStats>

    /** Job names are distinct, and exactly the registered jobs have statistics, under their own name. */
    ghost predicate Valid()
      reads this
    {
      && (forall i, j :: 0 <= i < j < |jobs| ==> jobs[i].name != jobs[j].name)
      && (forall name :: name in stats <==> exists j :: 0 <= j < |jobs| && jobs[j].name == name)
      && (forall name :: name in stats ==> stats[name].name == name)
    }

    constructor (owner: string, locker: RedisLock)
      ensures Valid() && jobs == [] && this.owner == owner && this.locker == locker
    {
      this.owner, this.locker := owner, locker;
      jobs, stats := [], map[];
    }

    /** Refuses a name that is taken, which in Go is a panic; the jobs are then unchanged. */
    method Register(j: Job) returns (ok: bool)
      requires Valid()
      modifies this
      ensures Valid()
      ensures ok <==> j.name !in old(stats)
      ensures ok ==> jobs == old(jobs) + [j] && stats == old(stats)[j.name := FreshStats(j.name)]
      ensures !ok ==> jobs == old(jobs) && stats == old(stats)
    {
      var i := 0;
      while i < |jobs|
        invariant 0 <= i <= |jobs|
        invariant forall k :: 0 <= k < i ==> jobs[k].name != j.name
        invariant jobs == old(jobs) && stats == old(stats)
      {
        if jobs[i].name == j.name {
          return false;
        }
        i := i + 1;
      }
      jobs := jobs + [j];
      stats := stats[j.name := FreshStats(j.name)];
      assert jobs[|jobs| - 1].name == j.name;
      assert forall k :: 0 <= k < |old(jobs)| ==> jobs[k] == old(jobs)[k];
      ok := true;
    }

    method Record(name: string, a: Attempt)
      requires Valid()
      modifies this`stats
      ensures Valid()
      ensures stats == if name in old(stats) then old(stats)[name := Recorded(old(stats)[name], a)] else old(stats)
    {
      if name in stats {
        stats := stats[name := Recorded(stats[name], a)];
      }
    }

    /** One attempt. A cancelled worker does nothing at all. */
    method TryRun(j: Job, cancelled: bool, env: Surroundings)
      requires Valid() && j in jobs
      modifies this`stats, locker`keys
      ensures Valid()
      ensures cancelled ==> stats == old(stats) && locker.keys == old(locker.keys)
      ensures !cancelled ==>
                var key, ttl := locker.Key(j.name), LockTTL(j.interval);
                var attempt := AttemptOf(LockAt(old(locker.keys), key), owner, ttl, env);
                && locker.keys == KeysAfter(old(locker.keys), key, owner, ttl, env)
                && j.name in old(stats)
                && stats == old(stats)[j.name := Recorded(old(stats)[j.name], attempt)]
    {
      assert j.name in stats;
      if cancelled {
        return;
      }
      var attempt;
      var acquired := locker.Acquire(j.name, owner, LockTTL(j.interval), env.tried, env.acquiring);
      if acquired.Err? {
        attempt := LockFailed(acquired.error);
      } else if !acquired.value {
        attempt := Skipped;
      } else {
        locker.keys := env.others(locker.keys);
        var result := SafeRun(env.outcome);
        if result.Err? {
          locker.Release(j.name, owner, env.ended, env.releasing);
          attempt := RunFailed(result.error, env.started, env.durMs);
        } else {
          attempt := Completed(result.value, env.started, env.durMs);
        }
      }
      Record(j.name, attempt);
    }

    /** One summary per job, in registration order. */
    method Stats() returns (summaries: seq<JobStats>)
      requires Valid()
      ensures |summaries| == |jobs|
      ensures forall i :: 0 <= i < |jobs| ==> jobs[i].name in stats && summaries[i] == stats[jobs[i].name]
    {
      summaries := [];
      var i := 0;
      while i < |jobs|
        invariant 0 <= i <= |jobs| && |summaries| == i
        invariant forall k :: 0 <= k < i ==> jobs[k].name in stats && summaries[k] == stats[jobs[k].name]
      {
        if jobs[i].name in stats {
          summaries := summaries + [stats[jobs[i].name]];
        }
        i := i + 1;
      }
    }
  }
}
