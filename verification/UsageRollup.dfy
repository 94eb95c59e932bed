/** The usage rollup: an idempotent recompute that a retention prune must never undercut. */
module UsageRollup {
  import opened Calendar

  const LOOKBACK_MONTHS := 3
  const MAX_PRUNE_BATCHES := 100

  // ----- the rollup window -----

  /** Clock readings for which no instant before year 1 is needed. */
  predicate InRange(now: nat, retention: nat) {
    retention <= now && LOOKBACK_MONTHS - 1 <= MonthOf(now)
  }

  /** `rollupSince`: the lookback, clamped to the first month that starts at or after the cutoff. */
  function RollupSince(now: nat, retention: nat): nat
    requires InRange(now, retention)
  {
    var lookback := StartOf(MonthOf(now) - (LOOKBACK_MONTHS - 1));
    var cutoff := now - retention;
    var cutoffMonthStart := StartOf(MonthOf(cutoff));
    var floor := if cutoff > cutoffMonthStart then StartOf(MonthOf(cutoff) + 1) else cutoffMonthStart;
    if lookback < floor then floor else lookback
  }

  /** The instant before which a prune at `now` deletes: retention is passed in whole seconds. */
  function PruneCutoff(now: nat, retention: nat): int {
    now - Seconds(InSeconds(retention))
  }

  /** The first month that starts at or after t. */
  function FirstMonthFrom(t: nat): nat {
    if t == 0 then 0 else MonthOf(t - 1) + 1
  }

  lemma {:induction false} FirstMonthIsFirst(t: nat, m: nat)
    ensures t <= StartOf(m) <==> FirstMonthFrom(t) <= m
  {
    if t > 0 {
      AtOrAfter(t - 1, m);
    }
  }

  /** As RollupSince splits cases: the month of t if it starts at t, else the next one. */
  lemma {:induction false} FirstMonthCases(t: nat)
    ensures FirstMonthFrom(t) == if t > StartOf(MonthOf(t)) then MonthOf(t) + 1 else MonthOf(t)
  {
    var c := MonthOf(t);
    AtOrAfter(t, c);
    AtOrAfter(t, c + 1);
    FirstMonthIsFirst(t, c);
    FirstMonthIsFirst(t, c + 1);
    if c > 0 {
      FirstMonthIsFirst(t, c - 1);
      StartStrict(c - 1, c);
    }
  }

  /** The first month a run recomputes. */
  function SinceMonth(now: nat, retention: nat): nat
    requires InRange(now, retention)
  {
    var lookback := MonthOf(now) - (LOOKBACK_MONTHS - 1);
    var first := FirstMonthFrom(now - retention);
    if lookback < first then first else lookback
  }

  lemma {:induction false} SinceIsMonthStart(now: nat, retention: nat)
    requires InRange(now, retention)
    ensures RollupSince(now, retention) == StartOf(SinceMonth(now, retention))
  {
    FirstMonthCases(now - retention);
    StartStrict(MonthOf(now) - (LOOKBACK_MONTHS - 1), FirstMonthFrom(now - retention));
  }

  /** The recomputed window starts with the first month that neither starts before the cutoff
      nor lies before the lookback. */
  lemma {:induction false} SinceIsFirst(now: nat, retention: nat, m: nat)
    requires InRange(now, retention)
    ensures now - retention <= StartOf(SinceMonth(now, retention))
    ensures SinceMonth(now, retention) <= m
            <==> now - retention <= StartOf(m) && MonthOf(now) <= m + 2
  {
    FirstMonthIsFirst(now - retention, SinceMonth(now, retention));
    FirstMonthIsFirst(now - retention, m);
  }

  lemma {:induction false} SinceMonotone(now: nat, later: nat, retention: nat)
    requires InRange(now, retention) && now <= later
    ensures InRange(later, retention)
    ensures SinceMonth(now, retention) <= SinceMonth(later, retention)
  {
    MonthMonotone(now, later);
    var m := SinceMonth(later, retention);
    SinceIsFirst(later, retention, m);
    SinceIsFirst(now, retention, m);
  }

  /** Retentions for which the clamp and the prune agree. */
  predicate SafeRetention(retention: nat) {
    retention == Seconds(InSeconds(retention)) || Days(92) <= retention
  }

  lemma {:induction false} SafeRetentionSuffices(now: nat, retention: nat)
    requires InRange(now, retention) && SafeRetention(retention)
    ensures PruneCutoff(now, retention) <= StartOf(SinceMonth(now, retention))
  {
    var m := SinceMonth(now, retention);
    SinceIsFirst(now, retention, m);
    if Days(92) <= retention {
      StartStrict(MonthOf(now) - 2, m);
      MonthRuns(MonthOf(now) - 2);
      AtOrAfter(now, MonthOf(now) + 1);
      TruncatedAtLeast(retention, 92 * 86_400);
    }
  }

  lemma TruncatedAtLeast(d: nat, seconds: nat)
    requires Seconds(seconds) <= d
    ensures Seconds(seconds) <= Seconds(InSeconds(d)) <= d
  {
  }

  /** Any other retention fails: when a month start has just aged past the truncated retention,
      its month is still recomputed although its first instant can already be pruned. */
  lemma {:induction false} UnsafeAt(retention: nat, m: nat, now: nat)
    requires !SafeRetention(retention) && InRange(now, retention)
    requires StartOf(m + 3) == StartOf(m) + Days(92)
    requires now == StartOf(m) + Seconds(InSeconds(retention)) + 1
    ensures SinceMonth(now, retention) == m && StartOf(m) < PruneCutoff(now, retention)
  {
    Truncation(retention);
    AtOrAfter(now, m + 3);
    SinceIsFirst(now, retention, m);
    var s := SinceMonth(now, retention);
    if s < m {
      StartGap(s, m);
    }
  }

  lemma Truncation(d: nat)
    ensures d - Seconds(1) < Seconds(InSeconds(d)) <= d
  {
  }

  /** June to August have 92 days in every year. */
  lemma {:induction false} JuneToAugust(y: nat)
    requires y > 0
    ensures StartOf(12 * y + 5 + 3) == StartOf(12 * y + 5) + Days(92)
    ensures StartOf(12 * y + 5) >= Days(92)
  {
    Quarter(12 * y + 5);
    DaysInAt(y, 5);
    DaysInAt(y, 6);
    DaysInAt(y, 7);
    InDays(DaysBefore(12 * y + 5), DaysBefore(12 * y + 8));
    InDays(92, DaysBefore(12 * y + 5));
  }

  /** A retention never lets a run recompute a partly pruned month exactly when it is a whole
      number of seconds or at least 92 days. */
  lemma {:induction false} SafeRetentionExactly(retention: nat)
    ensures SafeRetention(retention)
       <==> forall now: nat :: InRange(now, retention) ==>
           PruneCutoff(now, retention) <= StartOf(SinceMonth(now, retention))
  {
    if SafeRetention(retention) {
      forall now: nat | InRange(now, retention)
        ensures PruneCutoff(now, retention) <= StartOf(SinceMonth(now, retention))
      {
        SafeRetentionSuffices(now, retention);
      }
    } else {
      var y: nat :| y > 0;
      JuneToAugust(y);
      var m := 12 * y + 5;
      var now := StartOf(m) + Seconds(InSeconds(retention)) + 1;
      AtOrAfter(now, m);
      UnsafeAt(retention, m, now);
    }
  }

  // ----- the store -----

  datatype Event = Event(id: nat, org: string, tool: string, occurredAt: nat)

  /** The natural key of a rollup row; `month` stands for the period from StartOf(month) to
      StartOf(month + 1). */
  datatype Key = Key(org: string, month: nat, tool: string)

  type Rollups = map<Key, nat>

  function KeyOf(e: Event): Key {
    Key(e.org, MonthOf(e.occurredAt), e.tool)
  }

  function Keys(events: set<Event>): set<Key> {
    set e | e in events :: KeyOf(e)
  }

  /** One group of the GROUP BY. */
  function Group(events: set<Event>, k: Key): set<Event> {
    set e | e in events && KeyOf(e) == k
  }

  function Since(events: set<Event>, since: nat): set<Event> {
    set e | e in events && since <= e.occurredAt
  }

  /** The calls of an organization to a tool within a calendar month. */
  function Calls(events: set<Event>, k: Key): set<Event> {
    set e | e in events && e.org == k.org && e.tool == k.tool && StartOf(k.month) <= e.occurredAt < StartOf(k.month + 1)
  }

  function Count(events: set<Event>, k: Key): nat {
    |Calls(events, k)|
  }

  /** A group is the calls of one organization to one tool in one month. */
  lemma {:induction false} GroupIsCalls(events: set<Event>, k: Key)
    ensures Group(events, k) == Calls(events, k)
  {
    forall e | e in events ensures e in Group(events, k) <==> e in Calls(events, k) {
      MonthOfUnique(e.occurredAt, k.month);
    }
  }

  function Get(rollups: Rollups, k: Key): nat {
    if k in rollups then rollups[k] else 0
  }

  /** The UPSERT: every key with an event in the window gets the number of its events there. */
  function RollUp(events: set<Event>, rollups: Rollups, since: nat): Rollups {
    rollups + map k | k in Keys(Since(events, since)) :: |Group(Since(events, since), k)|
  }

  lemma {:induction false} SubsetCard<T>(a: set<T>, b: set<T>)
    requires a <= b
    ensures |a| <= |b|
  {
    assert b == a + (b - a);
  }

  lemma {:induction false} CountMonotone(a: set<Event>, b: set<Event>, k: Key)
    requires a <= b
    ensures Count(a, k) <= Count(b, k)
  {
    SubsetCard(Calls(a, k), Calls(b, k));
  }

  lemma {:induction false} RollUpCounts(events: set<Event>, rollups: Rollups, m: nat, k: Key)
    ensures k in Keys(Since(events, StartOf(m))) <==> k.month >= m && Count(events, k) > 0
    ensures var after := RollUp(events, rollups, StartOf(m));
            if k.month >= m && Count(events, k) > 0 then k in after && after[k] == Count(events, k)
            else (k in after <==> k in rollups) && Get(after, k) == Get(rollups, k)
  {
    var window := Since(events, StartOf(m));
    GroupIsCalls(window, k);
    StartStrict(m, k.month);
    if k.month >= m {
      assert Calls(window, k) == Calls(events, k);
    }
    if k in Keys(window) {
      var e :| e in window && KeyOf(e) == k;
      assert e in Group(window, k);
      AtOrAfter(e.occurredAt, m);
    } else if Count(events, k) > 0 {
      var e :| e in Calls(events, k);
      MonthOfUnique(e.occurredAt, k.month);
      assert e !in window;
    }
  }

  /** A recompute from the start of month m on gives every organization, tool and month from m on the
      number of its calls in that month, and leaves every other rollup alone. */
  lemma {:induction false} RollUpWholeMonths(events: set<Event>, rollups: Rollups, m: nat, k: Key)
    ensures var after := RollUp(events, rollups, StartOf(m));
            var calls := set e | e in events && e.org == k.org && e.tool == k.tool
                                 && StartOf(k.month) <= e.occurredAt < StartOf(k.month + 1);
            && (k in Keys(Since(events, StartOf(m))) <==> k.month >= m && |calls| > 0)
            && if k.month >= m && |calls| > 0 then k in after && after[k] == |calls|
               else (k in after <==> k in rollups) && Get(after, k) == Get(rollups, k)
  {
    RollUpCounts(events, rollups, m, k);
  }

  /** The recompute is idempotent: running it again over the same events changes nothing. */
  lemma RollUpIdempotent(events: set<Event>, rollups: Rollups, since: nat)
    ensures RollUp(events, RollUp(events, rollups, since), since) == RollUp(events, rollups, since)
  {
  }

  // ----- runs of the job, interleaved with everything else -----

  /** The job's control state: idle, window computed, or rolled up and now pruning. */
  datatype Phase = Idle | Started(since: nat) | RolledUp

  /** The database, the job, and what has happened so far: `history` holds every event ever
      inserted, `folded` those present in history at the last rollup, taken at `lastFold`, and
      `cutoff` the largest prune cutoff so far. */
  datatype State = State(
    now: nat, events: set<Event>, rollups: Rollups, phase: Phase,
    history: set<Event>, folded: set<Event>, lastFold: nat, cutoff: int)

  datatype Step =
    | Elapse(to: nat)
    | Insert(event: Event)
    | Begin
    | Fold
    | PruneBatch(victims: set<Event>)
    | Stop

  /** One step. A run begins by computing its window, folds, prunes batches of expired events
      and stops; it may also stop, by finishing, failing or dying, at any other point. */
  ghost predicate Next(retention: nat, s: State, step: Step, t: State)
    requires InRange(s.now, retention)
  {
    match step
    case Elapse(to) => s.now <= to && t == s.(now := to)
    case Insert(e) => e !in s.history && t == s.(events := s.events + {e}, history := s.history + {e})
    case Begin => s.phase == Idle && t == s.(phase := Started(RollupSince(s.now, retention)))
    case Fold =>
      && s.phase.Started?
      && t == s.(phase := RolledUp, rollups := RollUp(s.events, s.rollups, s.phase.since),
                 folded := s.history, lastFold := s.now)
    case PruneBatch(victims) =>
      && s.phase == RolledUp
      && victims <= s.events
      && (forall e :: e in victims ==> e.occurredAt < PruneCutoff(s.now, retention))
      && t == s.(events := s.events - victims,
                 cutoff := if s.cutoff < PruneCutoff(s.now, retention) then PruneCutoff(s.now, retention) else s.cutoff)
    case Stop => t == s.(phase := Idle)
  }

  ghost predicate Init(retention: nat, s: State) {
    && InRange(s.now, retention)
    && s.events == s.history == s.folded == {} && s.rollups == map[] && s.phase == Idle
    && s.lastFold == s.now
    && s.cutoff <= PruneCutoff(s.now, retention)
  }

  /** What keeps the rollup safe: only events before every later window have been pruned. */
  ghost predicate Safe(retention: nat, s: State) {
    && InRange(s.now, retention)
    && s.events <= s.history
    && (forall e :: e in s.history - s.events ==> e.occurredAt < s.cutoff)
    && s.cutoff <= PruneCutoff(s.now, retention)
    && (s.phase.Started? ==> exists m: nat :: s.phase.since == StartOf(m) && s.cutoff <= s.phase.since)
    && (forall k :: k in s.rollups ==> s.rollups[k] <= Count(s.history, k))
  }

  lemma InitIsSafe(retention: nat, s: State)
    requires Init(retention, s)
    ensures Safe(retention, s)
  {
  }

  /** Every event ever inserted in a month from m on is still there if m starts at or after the cutoff. */
  lemma {:induction false} MonthIsWhole(s: State, m: nat, k: Key)
    requires s.events <= s.history && (forall e :: e in s.history - s.events ==> e.occurredAt < s.cutoff)
    requires s.cutoff <= StartOf(m) && m <= k.month
    ensures Count(s.events, k) == Count(s.history, k)
  {
    StartStrict(m, k.month);
    assert Calls(s.events, k) == Calls(s.history, k);
  }

  /** A fold recomputes whole months exactly, leaves older ones alone, and never lowers a count. */
  lemma {:induction false} FoldIsExact(retention: nat, s: State, t: State, m: nat, k: Key)
    requires Safe(retention, s) && Next(retention, s, Fold, t)
    requires s.phase.since == StartOf(m) && s.cutoff <= StartOf(m)
    ensures Get(t.rollups, k) == if k.month >= m then Count(s.history, k) else Get(s.rollups, k)
    ensures k in s.rollups ==> k in t.rollups
    ensures k in t.rollups ==> t.rollups[k] <= Count(t.history, k)
  {
    RollUpCounts(s.events, s.rollups, m, k);
    if k.month >= m {
      MonthIsWhole(s, m, k);
    }
  }

  /** Every step keeps the store safe and lowers no rollup count. */
  lemma {:induction false} SafeStep(retention: nat, s: State, step: Step, t: State)
    requires SafeRetention(retention) && Safe(retention, s) && Next(retention, s, step, t)
    ensures Safe(retention, t)
    ensures forall k :: k in s.rollups ==> k in t.rollups && s.rollups[k] <= t.rollups[k]
  {
    match step
    case Elapse(to) => SinceMonotone(s.now, to, retention);
    case Insert(e) =>
      forall k | k in s.rollups ensures s.rollups[k] <= Count(t.history, k) {
        CountMonotone(s.history, t.history, k);
      }
    case Begin =>
      SinceIsMonthStart(s.now, retention);
      SafeRetentionSuffices(s.now, retention);
    case Fold =>
      var m: nat :| s.phase.since == StartOf(m) && s.cutoff <= s.phase.since;
      forall k
        ensures k in s.rollups ==> k in t.rollups && s.rollups[k] <= t.rollups[k]
        ensures k in t.rollups ==> t.rollups[k] <= Count(t.history, k)
      {
        FoldIsExact(retention, s, t, m, k);
      }
    case PruneBatch(victims) =>
    case Stop =>
  }

  /** A run: states linked by steps, from an empty store. */
  ghost predicate IsRun(retention: nat, states: seq<State>, steps: seq<Step>) {
    && |states| == |steps| + 1
    && Init(retention, states[0])
    && forall i :: 0 <= i < |steps| ==>
         InRange(states[i].now, retention) && Next(retention, states[i], steps[i], states[i + 1])
  }

  lemma {:induction false} RunIsSafe(retention: nat, states: seq<State>, steps: seq<Step>, i: nat)
    requires SafeRetention(retention) && IsRun(retention, states, steps) && i < |states|
    ensures Safe(retention, states[i])
  {
    if i == 0 {
      InitIsSafe(retention, states[0]);
    } else {
      RunIsSafe(retention, states, steps, i - 1);
      SafeStep(retention, states[i - 1], steps[i - 1], states[i]);
    }
  }

  /** Over every run, whatever is inserted, pruned or interrupted, no rollup count decreases. */
  lemma {:induction false} RollupsNeverDecrease(retention: nat, states: seq<State>, steps: seq<Step>, i: nat, j: nat,
                                                k: Key)
    requires SafeRetention(retention) && IsRun(retention, states, steps) && i <= j < |states|
    ensures k in states[i].rollups ==> k in states[j].rollups && states[i].rollups[k] <= states[j].rollups[k]
    decreases j
  {
    if i < j {
      RollupsNeverDecrease(retention, states, steps, i, j - 1, k);
      RunIsSafe(retention, states, steps, j - 1);
      SafeStep(retention, states[j - 1], steps[j - 1], states[j]);
    }
  }

  /** Every recomputed period gets the count of all events ever inserted in it, pruned or not. */
  lemma {:induction false} RecomputedPeriodsAreExact(retention: nat, states: seq<State>, steps: seq<Step>, i: nat,
                                                     k: Key)
    requires SafeRetention(retention) && IsRun(retention, states, steps) && i < |steps| && steps[i] == Fold
    ensures states[i].phase.Started?
    ensures var calls := set e | e in states[i].history && e.org == k.org && e.tool == k.tool
                                 && StartOf(k.month) <= e.occurredAt < StartOf(k.month + 1);
            Get(states[i + 1].rollups, k)
            == if states[i].phase.since <= StartOf(k.month) then |calls| else Get(states[i].rollups, k)
  {
    RunIsSafe(retention, states, steps, i);
    var s := states[i];
    assert Next(retention, s, steps[i], states[i + 1]);
    var m: nat :| s.phase.since == StartOf(m) && s.cutoff <= s.phase.since;
    StartStrict(m, k.month);
    FoldIsExact(retention, s, states[i + 1], m, k);
  }

  // ----- an unsafe retention loses counts -----

  lemma {:induction false} Extended(retention: nat, states: seq<State>, steps: seq<Step>, step: Step, t: State)
    returns (states': seq<State>, steps': seq<Step>)
    requires IsRun(retention, states, steps)
    requires InRange(states[|steps|].now, retention) && Next(retention, states[|steps|], step, t)
    ensures states' == states + [t] && steps' == steps + [step] && IsRun(retention, states', steps')
  {
    states', steps' := states + [t], steps + [step];
  }

  lemma {:induction false} LaterInRange(now: nat, later: nat, retention: nat)
    requires InRange(now, retention) && now <= later
    ensures InRange(later, retention)
  {
    MonthMonotone(now, later);
  }

  /** A June that starts after every instant the retention reaches back from. */
  lemma {:induction false} LateJune(retention: nat) returns (m: nat)
    ensures StartOf(m + 3) == StartOf(m) + Days(92) && InRange(StartOf(m), retention)
  {
    var y := retention + 1;
    m := 12 * y + 5;
    JuneToAugust(y);
    MonthOfUnique(StartOf(m), m);
    StartStrict(m, m + 1);
  }

  /** Two events of one month are inserted when they occur. */
  lemma {:induction false} TwoInserted(retention: nat, start: nat, now: nat, e: Event, f: Event)
    returns (states: seq<State>, steps: seq<Step>)
    requires InRange(start, retention) && start < now && e != f
    requires e.occurredAt == start && f.occurredAt == start + 1
    ensures IsRun(retention, states, steps) && |steps| == 4
    ensures states[4] == State(now, {e, f}, map[], Idle, {e, f}, {}, start, PruneCutoff(start, retention))
  {
    LaterInRange(start, start + 1, retention);
    var s0 := State(start, {}, map[], Idle, {}, {}, start, PruneCutoff(start, retention));
    var s1 := s0.(events := {e}, history := {e});
    var s2 := s1.(now := start + 1);
    var s3 := s2.(events := {e, f}, history := {e, f});
    states, steps := [s0], [];
    states, steps := Extended(retention, states, steps, Insert(e), s1);
    states, steps := Extended(retention, states, steps, Elapse(start + 1), s2);
    states, steps := Extended(retention, states, steps, Insert(f), s3);
    states, steps := Extended(retention, states, steps, Elapse(now), s3.(now := now));
  }

  /** Just when the first is older than the truncated retention, one run of the job still counts it,
      and prunes it... */
  lemma {:induction false} FirstIsPruned(retention: nat, m: nat, now: nat, e: Event, f: Event)
    returns (states: seq<State>, steps: seq<Step>)
    requires !SafeRetention(retention) && StartOf(m + 3) == StartOf(m) + Days(92) && InRange(StartOf(m), retention)
    requires now == StartOf(m) + Seconds(InSeconds(retention)) + 1
    requires e.occurredAt == StartOf(m) && f.occurredAt == StartOf(m) + 1 && e != f
    ensures IsRun(retention, states, steps) && |steps| == 8 && InRange(now, retention)
    ensures states[6].rollups == RollUp({e, f}, map[], StartOf(m))
    ensures states[8].now == now && states[8].events == {f} && states[8].phase == Idle
    ensures states[8].rollups == states[6].rollups
  {
    var start := StartOf(m);
    LaterInRange(start, now, retention);
    UnsafeAt(retention, m, now);
    SinceIsMonthStart(now, retention);
    states, steps := TwoInserted(retention, start, now, e, f);
    var s5 := states[4].(phase := Started(start));
    var s6 := s5.(phase := RolledUp, rollups := RollUp({e, f}, map[], start), folded := {e, f}, lastFold := now);
    var s7 := s6.(events := {f}, cutoff := PruneCutoff(now, retention));
    states, steps := Extended(retention, states, steps, Begin, s5);
    states, steps := Extended(retention, states, steps, Fold, s6);
    states, steps := Extended(retention, states, steps, PruneBatch({e}), s7);
    states, steps := Extended(retention, states, steps, Stop, s7.(phase := Idle));
  }

  /** ...and the next run overwrites the count of 2 with 1. */
  lemma {:induction false} UnsafeRetentionLosesCounts(retention: nat)
    returns (states: seq<State>, steps: seq<Step>, i: nat, j: nat, k: Key)
    requires !SafeRetention(retention)
    ensures IsRun(retention, states, steps) && i < j < |states|
    ensures k in states[i].rollups && states[i].rollups[k] == 2
    ensures k in states[j].rollups && states[j].rollups[k] == 1
  {
    var m := LateJune(retention);
    var now := StartOf(m) + Seconds(InSeconds(retention)) + 1;
    var e, f := Event(0, "org", "tool", StartOf(m)), Event(1, "org", "tool", StartOf(m) + 1);
    states, steps := FirstIsPruned(retention, m, now, e, f);
    UnsafeAt(retention, m, now);
    SinceIsMonthStart(now, retention);
    var first := states[8].rollups;
    var t := states[8].(phase := Started(StartOf(m)));
    states, steps := Extended(retention, states, steps, Begin, t);
    var u := t.(phase := RolledUp, rollups := RollUp({f}, first, StartOf(m)), folded := t.history, lastFold := now);
    states, steps := Extended(retention, states, steps, Fold, u);
    i, j, k := 6, 10, KeyOf(e);
    CountsOfTwo(m, e, f);
  }

  lemma {:induction false} CallsAreCounted(events: set<Event>, rollups: Rollups, m: nat, k: Key)
    requires k.month == m && Count(events, k) > 0
    ensures k in RollUp(events, rollups, StartOf(m)) && RollUp(events, rollups, StartOf(m))[k] == Count(events, k)
  {
    RollUpCounts(events, rollups, m, k);
  }

  lemma {:induction false} CountsOfTwo(m: nat, e: Event, f: Event)
    requires e.occurredAt == StartOf(m) && f.occurredAt == StartOf(m) + 1 && e != f && e.org == f.org
             && e.tool == f.tool
    ensures var first := RollUp({e, f}, map[], StartOf(m));
            var second := RollUp({f}, first, StartOf(m));
            && KeyOf(e) in first && first[KeyOf(e)] == 2
            && KeyOf(e) in second && second[KeyOf(e)] == 1
  {
    var k := KeyOf(e);
    StartGap(m, m + 1);
    MonthOfUnique(StartOf(m), m);
    MonthOfUnique(StartOf(m) + 1, m);
    assert Calls({e, f}, k) == {e, f} && Calls({f}, k) == {f};
    CallsAreCounted({e, f}, map[], m, k);
    CallsAreCounted({f}, RollUp({e, f}, map[], StartOf(m)), m, k);
  }

  /** No rollup of the run ever goes down. */
  ghost predicate NeverDecreases(states: seq<State>) {
    forall i, j, k :: 0 <= i <= j < |states| && k in states[i].rollups ==>
                        k in states[j].rollups && states[i].rollups[k] <= states[j].rollups[k]
  }

  /** Rollup counts never decrease, over every run, exactly for the safe retentions. */
  lemma {:induction false} NeverDecreasesExactly(retention: nat)
    ensures (forall states: seq<State>, steps: seq<Step> :: IsRun(retention, states, steps) ==> NeverDecreases(states))
            <==> SafeRetention(retention)
  {
    if SafeRetention(retention) {
      forall states: seq<State>, steps: seq<Step> | IsRun(retention, states, steps) ensures NeverDecreases(states) {
        forall i, j, k | 0 <= i <= j < |states| && k in states[i].rollups
          ensures k in states[j].rollups && states[i].rollups[k] <= states[j].rollups[k]
        {
          RollupsNeverDecrease(retention, states, steps, i, j, k);
        }
      }
    } else {
      var states, steps, i, j, k := UnsafeRetentionLosesCounts(retention);
    }
  }

  // ----- conservation -----

  /** Runs at most `gap` apart, on a retention that leaves a full month plus that gap. */
  predicate Spaced(retention: nat, gap: nat) {
    SafeRetention(retention) && Days(31) + gap <= retention && gap < Days(59)
  }

  /** Events are inserted when they occur, and neither a fold nor a prune comes more than `gap`
      after the previous fold. */
  ghost predicate Timely(gap: nat, s: State, step: Step) {
    match step
    case Insert(e) => e.occurredAt == s.now
    case Fold => s.now <= s.lastFold + gap
    case PruneBatch(_) => s.now <= s.lastFold + gap
    case _ => true
  }

  /** The window always covers the month of an event younger than the gap; in particular it
      never starts after the current month does. */
  lemma {:induction false} RecentIsCovered(retention: nat, gap: nat, t: nat, now: nat)
    requires Spaced(retention, gap) && InRange(now, retention) && t <= now <= t + gap
    ensures SinceMonth(now, retention) <= MonthOf(t)
    ensures RollupSince(now, retention) <= StartOf(MonthOf(now))
  {
    var m := MonthOf(t);
    AtOrAfter(t, m);
    AtOrAfter(t, m + 1);
    MonthAtMost31Days(m);
    MonthRuns(m + 1);
    AtOrAfter(now, m + 3);
    SinceIsFirst(now, retention, m);
    MonthMonotone(t, now);
    SinceIsMonthStart(now, retention);
    StartStrict(SinceMonth(now, retention), MonthOf(now));
  }

  /** The rollups hold exactly the events of the last fold; whatever came later is still stored. */
  ghost predicate Conserving(retention: nat, s: State) {
    && InRange(s.now, retention)
    && s.folded <= s.history
    && (forall k :: Get(s.rollups, k) == Count(s.folded, k))
    && (forall e :: e in s.history - s.folded ==> s.lastFold <= e.occurredAt <= s.now && e in s.events)
    && s.lastFold <= s.now
    && (s.phase.Started? ==> s.phase.since <= StartOf(SinceMonth(s.now, retention)))
  }

  lemma {:induction false} FoldConserves(retention: nat, gap: nat, s: State, t: State)
    requires Spaced(retention, gap) && Safe(retention, s) && Conserving(retention, s)
    requires Next(retention, s, Fold, t) && Timely(gap, s, Fold)
    ensures forall k :: Get(t.rollups, k) == Count(s.history, k)
  {
    var m: nat :| s.phase.since == StartOf(m) && s.cutoff <= s.phase.since;
    StartStrict(m, SinceMonth(s.now, retention));
    forall k ensures Get(t.rollups, k) == Count(s.history, k) {
      FoldIsExact(retention, s, t, m, k);
      if k.month < m {
        forall e | e in Calls(s.history, k) ensures e in s.folded {
          MonthOfUnique(e.occurredAt, k.month);
          if e !in s.folded {
            RecentIsCovered(retention, gap, e.occurredAt, s.now);
          }
        }
        assert Calls(s.folded, k) == Calls(s.history, k);
      }
    }
  }

  lemma {:induction false} ConservingStep(retention: nat, gap: nat, s: State, step: Step, t: State)
    requires Spaced(retention, gap) && Safe(retention, s) && Conserving(retention, s)
    requires Next(retention, s, step, t) && Timely(gap, s, step)
    ensures Conserving(retention, t)
    ensures step.PruneBatch? ==> step.victims <= s.folded
  {
    match step
    case Elapse(to) =>
      SinceMonotone(s.now, to, retention);
      StartStrict(SinceMonth(s.now, retention), SinceMonth(to, retention));
    case Insert(e) =>
    case Begin => SinceIsMonthStart(s.now, retention);
    case Fold => FoldConserves(retention, gap, s, t);
    case PruneBatch(victims) => Truncation(retention);
    case Stop =>
  }

  lemma {:induction false} RunConserves(retention: nat, gap: nat, states: seq<State>, steps: seq<Step>, i: nat)
    requires Spaced(retention, gap) && IsRun(retention, states, steps) && i < |states|
    requires forall j :: 0 <= j < |steps| ==> Timely(gap, states[j], steps[j])
    ensures Conserving(retention, states[i])
  {
    if i > 0 {
      RunConserves(retention, gap, states, steps, i - 1);
      RunIsSafe(retention, states, steps, i - 1);
      ConservingStep(retention, gap, states[i - 1], steps[i - 1], states[i]);
    }
  }

  /** Conservation over every timely run: an event is only ever pruned after it was folded, and
      every fold leaves each rollup equal to the number of calls ever inserted of its organization to
      its tool in its month. */
  lemma {:induction false} EveryEventIsConserved(retention: nat, gap: nat, states: seq<State>, steps: seq<Step>,
                                                 i: nat, k: Key)
    requires Spaced(retention, gap) && IsRun(retention, states, steps) && i < |steps|
    requires forall j :: 0 <= j < |steps| ==> Timely(gap, states[j], steps[j])
    ensures steps[i].PruneBatch? ==> steps[i].victims <= states[i].folded
    ensures var calls := set e | e in states[i + 1].history && e.org == k.org && e.tool == k.tool
                                 && StartOf(k.month) <= e.occurredAt < StartOf(k.month + 1);
            steps[i] == Fold ==> Get(states[i + 1].rollups, k) == |calls|
    ensures states[i].history - states[i].events <= states[i].folded
  {
    RunConserves(retention, gap, states, steps, i);
    RunIsSafe(retention, states, steps, i);
    ConservingStep(retention, gap, states[i], steps[i], states[i + 1]);
    if steps[i] == Fold {
      FoldConserves(retention, gap, states[i], states[i + 1]);
    }
  }
}
