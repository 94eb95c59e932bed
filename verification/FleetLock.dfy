/** The worker's fleet-wide job lock: replicas race for a key with a TTL, and only a failed run
    gives it back early. */
module FleetLock {
  import opened Wrappers

  // ----- the lock keys -----

  /** A key's holder and the instant it expires. */
  datatype Lease = Lease(owner: string, expiry: nat)

  predicate Held(lock: Option<Lease>, now: nat) {
    lock.Some? && now < lock.value.expiry
  }

  /** SET NX with a TTL. */
  function AcquireOn(lock: Option<Lease>, now: nat, owner: string, ttl: nat): (Option<Lease>, bool) {
    if Held(lock, now) then (lock, false) else (Some(Lease(owner, now + ttl)), true)
  }

  /** Compare and delete: only the owner's own live key is dropped. */
  function ReleaseOn(lock: Option<Lease>, now: nat, owner: string): Option<Lease> {
    if Held(lock, now) && lock.value.owner == owner then None else lock
  }

  /** The lock's lifetime: slightly less than the interval, but never zero for a real interval. */
  function LockTTL(interval: nat): nat {
    var ttl := interval - interval / 10;
    if ttl <= 0 then interval else ttl
  }

  lemma LockTTLBounds(interval: nat)
    requires interval > 0
    ensures 0 < LockTTL(interval) <= interval
    ensures 9 * interval <= 10 * LockTTL(interval) < 9 * interval + 10
  {
  }

  // ----- the protocol, for one job -----

  /** Where a replica is in its sequential loop: waiting for a tick, running since `at` (the
      n-th acquisition), about to release after that run failed, or dead. */
  datatype Phase = Waiting | Running(n: nat) | Failing(n: nat) | Dead

  /** One successful acquisition: by whom, when, whether its run is over, and when its own owner
      dropped the key again, if it did. */
  datatype Acquisition = Acquisition(owner: string, at: nat, over: bool, failed: bool, released: Option<nat>)

  datatype State = State(now: nat, lock: Option<Lease>, phases: map<string, Phase>, log: seq<Acquisition>)

  datatype Step =
    | Elapse(to: nat)
    | Acquire(owner: string)
    | AcquireLost(owner: string)
    | Succeed(owner: string)
    | Fail(owner: string)
    | Release(owner: string)
    | ReleaseFailed(owner: string)
    | Crash(owner: string)

  function PhaseOf(s: State, owner: string): Phase {
    if owner in s.phases then s.phases[owner] else Dead
  }

  /** The n-th acquisition's run is over. */
  function EndRun(log: seq<Acquisition>, n: nat, failed: bool): seq<Acquisition> {
    if n < |log| then log[n := log[n].(over := true, failed := failed)] else log
  }

  /** One step of one replica, or time passing. A replica tries the key only while waiting; an
      attempt may be refused, succeed, or succeed with the reply lost. A failed run is followed
      by its release, which may arrive at any later time, or never. */
  ghost predicate Next(ttl: nat, s: State, step: Step, t: State) {
    match step
    case Elapse(to) => s.now <= to && t == s.(now := to)
    case Acquire(o) =>
      && PhaseOf(s, o) == Waiting
      && var (lock, acquired) := AcquireOn(s.lock, s.now, o, ttl);
      && t == if acquired then
                s.(lock := lock, phases := s.phases[o := Running(|s.log|)],
                   log := s.log + [Acquisition(o, s.now, false, false, None)])
              else s
    case AcquireLost(o) =>
      && PhaseOf(s, o) == Waiting
      && var (lock, acquired) := AcquireOn(s.lock, s.now, o, ttl);
      && t == if acquired then s.(lock := lock, log := s.log + [Acquisition(o, s.now, true, false, None)]) else s
    case Succeed(o) =>
      && PhaseOf(s, o).Running?
      && t == s.(phases := s.phases[o := Waiting], log := EndRun(s.log, PhaseOf(s, o).n, false))
    case Fail(o) =>
      && PhaseOf(s, o).Running?
      && t == s.(phases := s.phases[o := Failing(PhaseOf(s, o).n)], log := EndRun(s.log, PhaseOf(s, o).n, true))
    case Release(o) =>
      && PhaseOf(s, o).Failing?
      && var n := PhaseOf(s, o).n;
      && var dropped := ReleaseOn(s.lock, s.now, o);
      && t == s.(lock := dropped, phases := s.phases[o := Waiting],
                 log := if dropped != s.lock && n < |s.log| then s.log[n := s.log[n].(released := Some(s.now))]
                   else s.log)
    case ReleaseFailed(o) =>
      && PhaseOf(s, o).Failing?
      && t == s.(phases := s.phases[o := Waiting])
    case Crash(o) =>
      && PhaseOf(s, o) != Dead
      && t == s.(phases := s.phases[o := Dead],
                 log := if PhaseOf(s, o).Running? then EndRun(s.log, PhaseOf(s, o).n, false) else s.log)
  }

  ghost predicate Init(s: State) {
    s.lock.None? && s.log == [] && forall o :: o in s.phases ==> s.phases[o] == Waiting
  }

  /** The replica is busy with acquisition n: its run is going on, or has failed and not yet released. */
  ghost predicate BusyWith(s: State, o: string, n: nat) {
    PhaseOf(s, o) == Running(n) || PhaseOf(s, o) == Failing(n)
  }

  /** The key, if present, is the last acquisition's; if absent, that one was released. */
  ghost predicate LockMatchesLog(ttl: nat, s: State) {
    if s.log == [] then s.lock.None?
    else
      var last := s.log[|s.log| - 1];
      if last.released.Some? then s.lock.None? else s.lock == Some(Lease(last.owner, last.at + ttl))
  }

  /** The next acquisition waited for the key to expire, or for its owner to drop it after a failure. */
  ghost predicate After(ttl: nat, a: Acquisition, b: Acquisition) {
    a.at <= b.at && (a.at + ttl <= b.at || (a.released.Some? && a.released.value <= b.at))
  }

  ghost predicate WellTimed(now: nat, a: Acquisition) {
    && a.at <= now
    && (a.released.Some? ==> a.failed && a.over && a.at <= a.released.value <= now)
  }

  ghost predicate Spaced(ttl: nat, s: State) {
    && (forall i :: 0 <= i < |s.log| ==> WellTimed(s.now, s.log[i]))
    && (forall i :: 0 < i < |s.log| ==> After(ttl, s.log[i - 1], s.log[i]))
  }

  /** Acquisition n is the replica's own latest, not released, and failed if the replica is about to release it. */
  ghost predicate StandsBehind(s: State, o: string, n: nat) {
    && n < |s.log| && s.log[n].owner == o && s.log[n].released.None?
    && (PhaseOf(s, o).Failing? ==> s.log[n].over && s.log[n].failed)
    && (forall m :: n < m < |s.log| ==> s.log[m].owner != o)
  }

  ghost predicate PhasesMatchLog(s: State) {
    forall o: string, n: nat :: BusyWith(s, o, n) ==> StandsBehind(s, o, n)
  }

  /** A run that is not over is being run by its owner. */
  ghost predicate RunsAreRunning(s: State) {
    forall n: nat :: n < |s.log| && !s.log[n].over ==> PhaseOf(s, s.log[n].owner) == Running(n)
  }

  ghost predicate Inv(ttl: nat, s: State) {
    LockMatchesLog(ttl, s) && Spaced(ttl, s) && PhasesMatchLog(s) && RunsAreRunning(s)
  }

  lemma InitInv(ttl: nat, s: State)
    requires Init(s)
    ensures Inv(ttl, s)
  {
  }

  /** A successful SET NX adds an acquisition after all earlier ones. */
  lemma AcquireKeepsSpacing(ttl: nat, s: State, o: string, over: bool)
    requires LockMatchesLog(ttl, s) && Spaced(ttl, s) && !Held(s.lock, s.now)
    ensures var t := s.(lock := Some(Lease(o, s.now + ttl)), log := s.log + [Acquisition(o, s.now, over, false, None)]);
            LockMatchesLog(ttl, t) && Spaced(ttl, t)
  {
  }

  lemma {:induction false} AcquireKeepsPhases(s: State, t: State, o: string, over: bool)
    requires PhasesMatchLog(s) && RunsAreRunning(s) && PhaseOf(s, o) == Waiting
    requires t.log == s.log + [Acquisition(o, s.now, over, false, None)]
    requires t.phases == if over then s.phases else s.phases[o := Running(|s.log|)]
    ensures PhasesMatchLog(t) && RunsAreRunning(t)
  {
    forall p: string, n: nat | BusyWith(t, p, n) ensures StandsBehind(t, p, n) {
      if p != o {
        assert BusyWith(s, p, n);
      }
    }
    forall n: nat | n < |t.log| && !t.log[n].over ensures PhaseOf(t, t.log[n].owner) == Running(n) {
      if n < |s.log| {
        assert PhaseOf(s, s.log[n].owner) == Running(n);
      }
    }
  }

  /** A replica whose run ends touches the log only at its own acquisition. */
  lemma {:induction false} EndKeepsPhases(s: State, t: State, o: string, n: nat, failed: bool, next: Phase)
    requires PhasesMatchLog(s) && RunsAreRunning(s) && PhaseOf(s, o) == Running(n)
    requires next == Waiting || next == Dead || (failed && next == Failing(n))
    requires t.log == EndRun(s.log, n, failed) && t.phases == s.phases[o := next]
    ensures n < |s.log| && s.log[n].released.None?
    ensures PhasesMatchLog(t) && RunsAreRunning(t)
  {
    assert BusyWith(s, o, n);
    forall p: string, m: nat | BusyWith(t, p, m) ensures StandsBehind(t, p, m) {
      if p != o {
        assert BusyWith(s, p, m);
        assert m != n;
      }
    }
  }

  /** A replica that goes back to waiting after its release, whether or not the key was its own. */
  lemma {:induction false} ReleaseKeepsPhases(s: State, t: State, o: string, n: nat, next: Phase)
    requires PhasesMatchLog(s) && RunsAreRunning(s) && PhaseOf(s, o) == Failing(n) && n < |s.log|
    requires next == Waiting || next == Dead
    requires t.log == s.log || t.log == s.log[n := s.log[n].(released := Some(s.now))]
    requires t.phases == s.phases[o := next]
    ensures PhasesMatchLog(t) && RunsAreRunning(t)
  {
    assert BusyWith(s, o, n);
    forall p: string, m: nat | BusyWith(t, p, m) ensures StandsBehind(t, p, m) {
      if p != o {
        assert BusyWith(s, p, m);
        assert m != n;
      }
    }
  }

  /** Compare-and-delete by a failed run's owner drops that very run's key, and only if it is the last one taken. */
  lemma ReleaseKeepsSpacing(ttl: nat, s: State, o: string, n: nat)
    requires LockMatchesLog(ttl, s) && Spaced(ttl, s) && StandsBehind(s, o, n) && PhaseOf(s, o) == Failing(n)
    requires ReleaseOn(s.lock, s.now, o) != s.lock
    ensures n == |s.log| - 1
    ensures var t := s.(lock := None, log := s.log[n := s.log[n].(released := Some(s.now))]);
            LockMatchesLog(ttl, t) && Spaced(ttl, t)
  {
  }

  lemma EndKeepsSpacing(ttl: nat, s: State, n: nat, failed: bool)
    requires LockMatchesLog(ttl, s) && Spaced(ttl, s) && n < |s.log| && s.log[n].released.None?
    ensures var t := s.(log := EndRun(s.log, n, failed));
            LockMatchesLog(ttl, t) && Spaced(ttl, t)
  {
  }

  lemma {:induction false} StepKeepsInv(ttl: nat, s: State, step: Step, t: State)
    requires Inv(ttl, s) && Next(ttl, s, step, t)
    ensures Inv(ttl, t)
  {
    match step
    case Elapse(to) => ElapseKeepsInv(ttl, s, t);
    case Acquire(o) =>
      if !Held(s.lock, s.now) {
        AcquireKeepsSpacing(ttl, s, o, false);
        AcquireKeepsPhases(s, t, o, false);
      }
    case AcquireLost(o) =>
      if !Held(s.lock, s.now) {
        AcquireKeepsSpacing(ttl, s, o, true);
        AcquireKeepsPhases(s, t, o, true);
      }
    case Succeed(o) => EndKeepsInv(ttl, s, t, o, false, Waiting);
    case Fail(o) => EndKeepsInv(ttl, s, t, o, true, Failing(PhaseOf(s, o).n));
    case Release(o) => ReleaseKeepsInv(ttl, s, t, o);
    case ReleaseFailed(o) =>
      assert BusyWith(s, o, PhaseOf(s, o).n);
      ReleaseKeepsPhases(s, t, o, PhaseOf(s, o).n, Waiting);
    case Crash(o) => CrashKeepsInv(ttl, s, t, o);
  }

  lemma {:induction false} ElapseKeepsInv(ttl: nat, s: State, t: State)
    requires Inv(ttl, s) && s.now <= t.now && t == s.(now := t.now)
    ensures Inv(ttl, t)
  {
    forall p: string, m: nat | BusyWith(t, p, m) ensures StandsBehind(t, p, m) {
      assert BusyWith(s, p, m);
    }
  }

  lemma {:induction false} EndKeepsInv(ttl: nat, s: State, t: State, o: string, failed: bool, next: Phase)
    requires Inv(ttl, s) && PhaseOf(s, o).Running?
    requires next == Waiting || next == Dead || (failed && next == Failing(PhaseOf(s, o).n))
    requires t == s.(phases := s.phases[o := next], log := EndRun(s.log, PhaseOf(s, o).n, failed))
    ensures Inv(ttl, t)
  {
    EndKeepsPhases(s, t, o, PhaseOf(s, o).n, failed, next);
    EndKeepsSpacing(ttl, s, PhaseOf(s, o).n, failed);
  }

  lemma {:induction false} ReleaseKeepsInv(ttl: nat, s: State, t: State, o: string)
    requires Inv(ttl, s) && Next(ttl, s, Release(o), t)
    ensures Inv(ttl, t)
  {
    var n := PhaseOf(s, o).n;
    assert BusyWith(s, o, n);
    ReleaseKeepsPhases(s, t, o, n, Waiting);
    if ReleaseOn(s.lock, s.now, o) != s.lock {
      ReleaseKeepsSpacing(ttl, s, o, n);
    }
  }

  lemma {:induction false} CrashKeepsInv(ttl: nat, s: State, t: State, o: string)
    requires Inv(ttl, s) && Next(ttl, s, Crash(o), t)
    ensures Inv(ttl, t)
  {
    if PhaseOf(s, o).Running? {
      EndKeepsInv(ttl, s, t, o, false, Dead);
    } else if PhaseOf(s, o).Failing? {
      assert BusyWith(s, o, PhaseOf(s, o).n);
      ReleaseKeepsPhases(s, t, o, PhaseOf(s, o).n, Dead);
    } else {
      DeathKeepsPhases(s, t, o);
    }
  }

  lemma {:induction false} DeathKeepsPhases(s: State, t: State, o: string)
    requires PhasesMatchLog(s) && RunsAreRunning(s) && PhaseOf(s, o) == Waiting
    requires t.log == s.log && t.phases == s.phases[o := Dead]
    ensures PhasesMatchLog(t) && RunsAreRunning(t)
  {
    forall p: string, m: nat | BusyWith(t, p, m) ensures StandsBehind(t, p, m) {
      assert BusyWith(s, p, m);
    }
  }

  // ----- whole runs -----

  ghost predicate IsRun(ttl: nat, states: seq<State>, steps: seq<Step>) {
    && |states| == |steps| + 1
    && Init(states[0])
    && forall i :: 0 <= i < |steps| ==> Next(ttl, states[i], steps[i], states[i + 1])
  }

  /** A state some interleaving of the replicas reaches. */
  ghost predicate Reachable(ttl: nat, s: State) {
    exists states: seq<State>, steps: seq<Step> :: IsRun(ttl, states, steps) && states[|steps|] == s
  }

  lemma {:induction false} RunKeepsInv(ttl: nat, states: seq<State>, steps: seq<Step>, k: nat)
    requires IsRun(ttl, states, steps) && k <= |steps|
    ensures Inv(ttl, states[k])
  {
    if k == 0 {
      InitInv(ttl, states[0]);
    } else {
      RunKeepsInv(ttl, states, steps, k - 1);
      StepKeepsInv(ttl, states[k - 1], steps[k - 1], states[k]);
    }
  }

  lemma {:induction false} ReachableInv(ttl: nat, s: State)
    requires Reachable(ttl, s)
    ensures Inv(ttl, s)
  {
    var states: seq<State>, steps: seq<Step> :| IsRun(ttl, states, steps) && states[|steps|] == s;
    RunKeepsInv(ttl, states, steps, |steps|);
  }

  lemma {:induction false} ReachableFromInit(ttl: nat, s: State)
    requires Init(s)
    ensures Reachable(ttl, s)
  {
    assert IsRun(ttl, [s], []);
  }

  lemma {:induction false} ReachableStep(ttl: nat, s: State, step: Step, t: State)
    requires Reachable(ttl, s) && Next(ttl, s, step, t)
    ensures Reachable(ttl, t)
  {
    var states: seq<State>, steps: seq<Step> :| IsRun(ttl, states, steps) && states[|steps|] == s;
    assert IsRun(ttl, states + [t], steps + [step]);
  }

  lemma {:induction false} AcquiredInOrder(ttl: nat, s: State, i: nat, j: nat)
    requires Spaced(ttl, s) && i <= j < |s.log|
    ensures s.log[i].at <= s.log[j].at
  {
    if i < j {
      AcquiredInOrder(ttl, s, i, j - 1);
      assert After(ttl, s.log[j - 1], s.log[j]);
    }
  }

  /** Two acquisitions less than a TTL apart: the earlier run failed, and its own owner dropped
      the key in between. */
  lemma {:induction false} EarlyAcquisitionNeedsRelease(ttl: nat, s: State, i: nat, j: nat)
    requires Reachable(ttl, s) && i < j < |s.log|
    requires s.log[j].at < s.log[i].at + ttl
    ensures s.log[i].over && s.log[i].failed
    ensures s.log[i].released.Some? && s.log[i].at <= s.log[i].released.value <= s.log[j].at
  {
    ReachableInv(ttl, s);
    AcquiredInOrder(ttl, s, i + 1, j);
    assert After(ttl, s.log[i], s.log[i + 1]);
    assert WellTimed(s.now, s.log[i]);
  }

  /** The key is refused exactly while the latest acquisition is younger than the TTL and not
      given back; so a lock never outlives its TTL, and a replica that waits a whole interval
      after the latest acquisition is never refused. */
  lemma {:induction false} RefusedExactly(interval: nat, s: State)
    requires interval > 0 && Reachable(LockTTL(interval), s)
    ensures Held(s.lock, s.now) <==>
            (&& s.log != []
             && s.log[|s.log| - 1].released.None?
             && s.now < s.log[|s.log| - 1].at + LockTTL(interval))
    ensures s.log != [] && s.log[|s.log| - 1].at + interval <= s.now ==> !Held(s.lock, s.now)
  {
    ReachableInv(LockTTL(interval), s);
  }

  /** A release frees the key exactly if the failed run is the latest acquisition and its lease has not
      lapsed; it never drops a key some other acquisition set. So if the key is held afterwards, it is by
      an acquisition after the failed run. */
  lemma {:induction false} ReleaseDropsExactlyItsOwn(ttl: nat, s: State, o: string, t: State)
    requires Reachable(ttl, s) && Next(ttl, s, Release(o), t)
    ensures PhaseOf(s, o).n < |s.log| && s.log[PhaseOf(s, o).n].owner == o && s.log[PhaseOf(s, o).n].failed
    ensures t.lock != s.lock <==> PhaseOf(s, o).n == |s.log| - 1 && s.now < s.log[PhaseOf(s, o).n].at + ttl
    ensures t.lock != s.lock ==> t.lock.None? && t.log[PhaseOf(s, o).n].released == Some(s.now)
    ensures t.lock == s.lock ==> t.log == s.log
    ensures Held(t.lock, t.now) ==> PhaseOf(s, o).n < |s.log| - 1
  {
    ReachableInv(ttl, s);
    assert BusyWith(s, o, PhaseOf(s, o).n);
  }

  // ----- how many runs overlap -----

  function LiveRuns(log: seq<Acquisition>): (n: nat) {
    if log == [] then 0 else LiveRuns(log[..|log| - 1]) + if log[|log| - 1].over then 0 else 1
  }

  /** Every run still going on started less than `timeout` ago. */
  ghost predicate WithinTimeout(timeout: nat, s: State) {
    forall i :: 0 <= i < |s.log| && !s.log[i].over ==> s.now < s.log[i].at + timeout
  }

  lemma OneLess(n: nat, ttl: nat)
    requires n > 0
    ensures (n - 1) * ttl == n * ttl - ttl && n * ttl >= ttl
  {
  }

  /** The live runs among the first k acquisitions start a TTL apart from one another. */
  lemma {:induction false} LiveRunsSpread(ttl: nat, timeout: nat, s: State, k: nat)
    requires Spaced(ttl, s) && WithinTimeout(timeout, s) && 0 < k <= |s.log|
    requires LiveRuns(s.log[..k]) > 0
    ensures s.now + LiveRuns(s.log[..k]) * ttl < s.log[k - 1].at + ttl + timeout
    ensures k < |s.log| ==> s.now + LiveRuns(s.log[..k]) * ttl < s.log[k].at + timeout
  {
    assert s.log[..k][..k - 1] == s.log[..k - 1];
    assert k < |s.log| ==> After(ttl, s.log[k - 1], s.log[k]);
    assert WellTimed(s.now, s.log[k - 1]);
    var n := LiveRuns(s.log[..k - 1]);
    OneLess(n + 1, ttl);
    if n > 0 {
      LiveRunsSpread(ttl, timeout, s, k - 1);
    }
  }

  /** At most timeout / TTL runs of a job, rounded up, go on at once anywhere in the fleet. */
  lemma {:induction false} FewRunsOverlap(ttl: nat, timeout: nat, s: State)
    requires Reachable(ttl, s) && WithinTimeout(timeout, s) && LiveRuns(s.log) > 0
    ensures (LiveRuns(s.log) - 1) * ttl < timeout
  {
    ReachableInv(ttl, s);
    assert s.log[..|s.log|] == s.log;
    OneLess(LiveRuns(s.log), ttl);
    LiveRunsSpread(ttl, timeout, s, |s.log|);
    assert WellTimed(s.now, s.log[|s.log| - 1]);
  }

  /** Runs that end within the TTL never overlap. */
  lemma {:induction false} NoOverlapWithinTTL(ttl: nat, timeout: nat, s: State)
    requires 0 < timeout <= ttl && Reachable(ttl, s) && WithinTimeout(timeout, s)
    ensures LiveRuns(s.log) <= 1
  {
    if LiveRuns(s.log) > 1 {
      OneLess(LiveRuns(s.log), ttl);
      OneLess(LiveRuns(s.log) - 1, ttl);
      FewRunsOverlap(ttl, timeout, s);
    }
  }

  // ----- one run per interval? -----

  /** A run that has not failed keeps every later run `gap` away. */
  ghost predicate RunsApart(gap: nat, s: State) {
    forall i, j :: 0 <= i < j < |s.log| && !s.log[i].failed ==> s.log[i].at + gap <= s.log[j].at
  }

  /** The lock spaces runs by its TTL, at least nine tenths of the interval. */
  lemma {:induction false} RunsApartByTTL(interval: nat, s: State)
    requires interval > 0 && Reachable(LockTTL(interval), s)
    ensures RunsApart(LockTTL(interval), s)
    ensures 10 * LockTTL(interval) >= 9 * interval
  {
    forall i, j | 0 <= i < j < |s.log| && !s.log[i].failed
      ensures s.log[i].at + LockTTL(interval) <= s.log[j].at
    {
      if s.log[j].at < s.log[i].at + LockTTL(interval) {
        EarlyAcquisitionNeedsRelease(LockTTL(interval), s, i, j);
      }
    }
  }

  /** Two replicas whose ticks fall a TTL apart both run the job, without a failure. */
  lemma {:induction false} TwoRunsInOneInterval(interval: nat) returns (s: State)
    requires interval >= 10
    ensures Reachable(LockTTL(interval), s) && !RunsApart(interval, s)
  {
    var ttl := LockTTL(interval);
    var first := Acquisition("a", 0, true, false, None);
    var s0 := State(0, None, map["a" := Waiting, "b" := Waiting], []);
    var s1 := State(0, Some(Lease("a", ttl)), s0.phases["a" := Running(0)], [first.(over := false)]);
    var s2 := s1.(phases := s1.phases["a" := Waiting], log := [first]);
    var s3 := s2.(now := ttl);
    s := State(ttl, Some(Lease("b", ttl + ttl)), s3.phases["b" := Running(1)],
               [first, Acquisition("b", ttl, false, false, None)]);
    ReachableFromInit(ttl, s0);
    ReachableStep(ttl, s0, Acquire("a"), s1);
    ReachableStep(ttl, s1, Succeed("a"), s2);
    ReachableStep(ttl, s2, Elapse(ttl), s3);
    ReachableStep(ttl, s3, Acquire("b"), s);
    assert !s.log[0].failed && s.log[0].at + interval > s.log[1].at;
  }

  /** At most one unfailed run per interval, fleet wide, holds exactly for intervals too short to
      shave a tenth off; every practical interval admits two within it. */
  lemma {:induction false} OneRunPerIntervalExactly(interval: nat)
    requires interval > 0
    ensures (forall s :: Reachable(LockTTL(interval), s) ==> RunsApart(interval, s)) <==> interval < 10
  {
    if interval < 10 {
      forall s | Reachable(LockTTL(interval), s) ensures RunsApart(interval, s) {
        RunsApartByTTL(interval, s);
      }
    } else {
      var s := TwoRunsInOneInterval(interval);
    }
  }
}
