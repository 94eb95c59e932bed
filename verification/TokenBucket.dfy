/** The per-connector token bucket: an atomic refill-and-take whose idle keys expire. Instants are
    whole microseconds, as Redis' TIME gives them. */
module TokenBucket {
  import opened Wrappers

  /** Tokens are refilled continuously at `rate` per second; an untouched key survives `ttl` seconds. */
  datatype Config = Config(capacity: nat, rate: real, ttl: nat) {
    ghost predicate Valid() {
      capacity >= 1 && rate >= 0.0
    }

    /** A key left alone until it expires would have been full anyway. */
    ghost predicate FullBeforeExpiry() {
      Refill(rate, Micros(ttl)) >= capacity as real
    }
  }

  const IDLE_TTL: nat := 120

  /** The configuration for a rate per minute; a nonpositive one falls back to 60. */
  function ConfigFor(perMinute: int): Config {
    var capacity: nat := if perMinute <= 0 then 60 else perMinute;
    Config(capacity, capacity as real / 60.0, IDLE_TTL)
  }

  function Micros(seconds: nat): nat {
    1000000 * seconds
  }

  /** The tokens that come in over some microseconds, one microsecond at a time. */
  function Refill(rate: real, micros: nat): real {
    if micros == 0 then 0.0 else Refill(rate, micros - 1) + rate / 1000000.0
  }

  /** ...which is their rate times the elapsed seconds. */
  lemma {:induction false} RefillIsProduct(rate: real, micros: nat)
    ensures Refill(rate, micros) == (micros as real / 1000000.0) * rate
  {
    if micros > 0 {
      RefillIsProduct(rate, micros - 1);
    }
  }

  lemma {:induction false} RefillAdds(rate: real, a: nat, b: nat)
    ensures Refill(rate, a + b) == Refill(rate, a) + Refill(rate, b)
  {
    if b > 0 {
      RefillAdds(rate, a, b - 1);
    }
  }

  lemma {:induction false} RefillGrows(rate: real, a: nat, b: nat)
    requires rate >= 0.0 && a <= b
    ensures 0.0 <= Refill(rate, a) <= Refill(rate, b)
  {
    if a < b {
      RefillGrows(rate, a, b - 1);
    } else if a > 0 {
      RefillGrows(rate, a - 1, a - 1);
    }
  }

  /** The stored hash, and the instant its key expires. */
  datatype Bucket = Bucket(tokens: real, ts: nat, expiry: nat)

  datatype Answer = Answer(allowed: bool, retryAfter: int)

  function Min(a: real, b: real): real {
    if a <= b then a else b
  }

  function Ceil(x: real): int {
    -(-x).Floor
  }

  /** The tokens at hand at `now`. With `keep`, keys never expire: the bucket the expiring one should be
      mistaken for. */
  function Level(c: Config, keep: bool, b: Option<Bucket>, now: nat): real {
    if b.Some? && (keep || now < b.value.expiry) then
      Min(c.capacity as real, b.value.tokens + Refill(c.rate, if now < b.value.ts then 0 else now - b.value.ts))
    else c.capacity as real
  }

  /** One run of the script: take n tokens if they are there; either way the bucket is written back. */
  function Take(c: Config, keep: bool, b: Option<Bucket>, now: nat, n: nat): (Answer, Bucket) {
    var level := Level(c, keep, b, now);
    if level >= n as real then
      (Answer(true, 0), Bucket(level - n as real, now, now + Micros(c.ttl)))
    else
      (Answer(false, RetryAfter(c, n as real - level)), Bucket(level, now, now + Micros(c.ttl)))
  }

  function RetryAfter(c: Config, deficit: real): int {
    if c.rate > 0.0 then Ceil(deficit / c.rate) else c.ttl
  }

  datatype Request = Request(now: nat, n: nat)

  /** The calls on one bucket, with Redis' clock never going back. */
  ghost predicate OnTime(from: nat, calls: seq<Request>) {
    && (calls != [] ==> from <= calls[0].now)
    && forall i :: 0 < i < |calls| ==> calls[i - 1].now <= calls[i].now
  }

  function Answers(c: Config, keep: bool, b: Option<Bucket>, calls: seq<Request>): seq<Answer>
    decreases |calls|
  {
    if calls == [] then []
    else
      var (answer, next) := Take(c, keep, b, calls[0].now, calls[0].n);
      [answer] + Answers(c, keep, Some(next), calls[1..])
  }

  lemma {:induction false} AnswerEach(c: Config, keep: bool, b: Option<Bucket>, calls: seq<Request>)
    ensures |Answers(c, keep, b, calls)| == |calls|
    decreases |calls|
  {
    if calls != [] {
      AnswerEach(c, keep, Some(Take(c, keep, b, calls[0].now, calls[0].n).1), calls[1..]);
    }
  }

  /** The tokens handed out over a sequence of calls. */
  function Admitted(calls: seq<Request>, answers: seq<Answer>): nat
    requires |calls| == |answers|
  {
    if calls == [] then 0
    else (if answers[0].allowed then calls[0].n else 0) + Admitted(calls[1..], answers[1..])
  }

  /** What every stored bucket satisfies: tokens between zero and capacity, and a key that expires a TTL after
      its last use. */
  ghost predicate Sound(c: Config, b: Option<Bucket>, now: nat) {
    b.Some? ==>
      && 0.0 <= b.value.tokens <= c.capacity as real
      && b.value.ts <= now
      && b.value.expiry == b.value.ts + Micros(c.ttl)
  }

  lemma {:induction false} TakeKeepsSound(c: Config, keep: bool, b: Option<Bucket>, now: nat, n: nat)
    requires c.Valid() && Sound(c, b, now)
    ensures 0.0 <= Level(c, keep, b, now) <= c.capacity as real
    ensures Sound(c, Some(Take(c, keep, b, now, n).1), now)
  {
    if b.Some? {
      RefillGrows(c.rate, 0, now - b.value.ts);
    }
  }

  // ----- expiry is unobservable -----

  lemma {:induction false} ExpiredIsFull(c: Config, b: Option<Bucket>, now: nat)
    requires c.Valid() && c.FullBeforeExpiry() && Sound(c, b, now)
    ensures Level(c, false, b, now) == Level(c, true, b, now)
  {
    if b.Some? && now >= b.value.expiry {
      RefillGrows(c.rate, Micros(c.ttl), now - b.value.ts);
    }
  }

  lemma {:induction false} ExpiryUnobservable(c: Config, b: Option<Bucket>, calls: seq<Request>, from: nat)
    requires c.Valid() && c.FullBeforeExpiry() && Sound(c, b, from) && OnTime(from, calls)
    ensures Answers(c, false, b, calls) == Answers(c, true, b, calls)
    decreases |calls|
  {
    if calls != [] {
      var now := calls[0].now;
      ExpiredIsFull(c, b, now);
      TakeKeepsSound(c, true, b, now, calls[0].n);
      ExpiryUnobservable(c, Some(Take(c, true, b, now, calls[0].n).1), calls[1..], now);
    }
  }

  lemma {:induction false} TwoAnswers(c: Config, keep: bool, b: Option<Bucket>, first: Request, second: Request)
    ensures var next := Take(c, keep, b, first.now, first.n).1;
            Answers(c, keep, b, [first, second])
            == [Take(c, keep, b, first.now, first.n).0, Take(c, keep, Some(next), second.now, second.n).0]
  {
    var next := Take(c, keep, b, first.now, first.n).1;
    assert [first, second][1..] == [second] && [second][1..] == [];
    assert Answers(c, keep, Some(next), [second]) == [Take(c, keep, Some(next), second.now, second.n).0];
  }

  /** Emptied, and asked for a full bucket again one TTL later. */
  function EmptyThenFull(c: Config): seq<Request> {
    [Request(0, c.capacity), Request(Micros(c.ttl), c.capacity)]
  }

  lemma {:induction false} ExpiryShows(c: Config)
    requires c.Valid() && !c.FullBeforeExpiry()
    ensures Answers(c, false, None, EmptyThenFull(c)) != Answers(c, true, None, EmptyThenFull(c))
  {
    var calls := EmptyThenFull(c);
    TwoAnswers(c, false, None, calls[0], calls[1]);
    TwoAnswers(c, true, None, calls[0], calls[1]);
    assert Answers(c, false, None, calls)[1].allowed && !Answers(c, true, None, calls)[1].allowed;
  }

  /** Dropping idle keys never changes an answer exactly if a bucket refills completely within the TTL. */
  lemma {:induction false} ExpiryUnobservableExactly(c: Config)
    requires c.Valid()
    ensures (forall b, calls, from :: Sound(c, b, from) && OnTime(from, calls)
                                      ==> Answers(c, false, b, calls) == Answers(c, true, b, calls))
            <==> c.FullBeforeExpiry()
  {
    if c.FullBeforeExpiry() {
      forall b, calls, from | Sound(c, b, from) && OnTime(from, calls)
        ensures Answers(c, false, b, calls) == Answers(c, true, b, calls)
      {
        ExpiryUnobservable(c, b, calls, from);
      }
    } else {
      ExpiryShows(c);
      assert Sound(c, None, 0) && OnTime(0, EmptyThenFull(c));
    }
  }

  /** Every configuration the limiter builds holds a minute's calls, refills in 60 seconds, and does so
      within its TTL. */
  lemma {:induction false} ConfigForIsSafe(perMinute: int)
    ensures ConfigFor(perMinute).capacity == if perMinute >= 1 then perMinute else 60
    ensures ConfigFor(perMinute).Valid() && ConfigFor(perMinute).FullBeforeExpiry()
    ensures Refill(ConfigFor(perMinute).rate, Micros(60)) == ConfigFor(perMinute).capacity as real
  {
    var c := ConfigFor(perMinute);
    RefillIsProduct(c.rate, Micros(60));
    RefillIsProduct(c.rate, Micros(c.ttl));
  }

  // ----- the ledger -----

  /** What a bucket admits, told without any bucket: a call is admitted exactly if what is there covers it,
      takes that much and nothing if it is denied; and between calls rate / 1000000 tokens come in per
      microsecond, up to the capacity. */
  function Ledger(c: Config, there: real, calls: seq<Request>): seq<bool>
    decreases |calls|
  {
    if calls == [] then []
    else
      var admitted := calls[0].n as real <= there;
      var left := if admitted then there - calls[0].n as real else there;
      if |calls| == 1 then [admitted]
      else [admitted] + Ledger(c, Grown(c, left, calls[1].now - calls[0].now), calls[1..])
  }

  function Grown(c: Config, left: real, micros: int): real {
    var come := (micros as real / 1000000.0) * c.rate;
    if left + come <= c.capacity as real then left + come else c.capacity as real
  }

  function Verdicts(answers: seq<Answer>): (allowed: seq<bool>)
    ensures |allowed| == |answers| && forall i :: 0 <= i < |answers| ==> allowed[i] == answers[i].allowed
  {
    seq(|answers|, i requires 0 <= i < |answers| => answers[i].allowed)
  }

  /** An admitted call takes exactly what it asked for, a denied one nothing; what comes in later is added. */
  lemma {:induction false} TakesWhatItAdmits(c: Config, b: Option<Bucket>, now: nat, n: nat, later: nat)
    requires c.Valid() && c.FullBeforeExpiry() && Sound(c, b, now) && now <= later
    ensures var (answer, next) := Take(c, false, b, now, n);
            var left := Level(c, false, b, now) - if answer.allowed then n as real else 0.0;
            && (answer.allowed <==> n as real <= Level(c, false, b, now)) && (answer.allowed ==> answer.retryAfter == 0)
            && Level(c, false, Some(next), now) == left
            && Level(c, false, Some(next), later) == Grown(c, left, later - now)
  {
    TakeKeepsSound(c, false, b, now, n);
    var next := Take(c, false, b, now, n).1;
    LevelLater(c, next, now, now);
    LevelLater(c, next, now, later);
  }

  lemma {:induction false} LevelLater(c: Config, b: Bucket, now: nat, later: nat)
    requires c.Valid() && c.FullBeforeExpiry() && Sound(c, Some(b), now) && b.ts == now <= later
    ensures Level(c, false, Some(b), later) == Grown(c, b.tokens, later - now)
    ensures later == now ==> Level(c, false, Some(b), later) == b.tokens
  {
    RefillIsProduct(c.rate, later - now);
    ExpiredIsFull(c, Some(b), later);
  }

  lemma {:induction false} FirstVerdict(c: Config, b: Option<Bucket>, calls: seq<Request>)
    requires calls != []
    ensures var (answer, next) := Take(c, false, b, calls[0].now, calls[0].n);
            Verdicts(Answers(c, false, b, calls))
            == [answer.allowed] + Verdicts(Answers(c, false, Some(next), calls[1..]))
  {
  }

  /** The limiter keeps the ledger, from whatever stored bucket; a connector never seen before has a full one. */
  lemma {:induction false} KeepsLedger(c: Config, b: Option<Bucket>, calls: seq<Request>, from: nat)
    requires c.Valid() && c.FullBeforeExpiry() && calls != [] && Sound(c, b, from) && OnTime(from, calls)
    ensures Verdicts(Answers(c, false, b, calls)) == Ledger(c, Level(c, false, b, calls[0].now), calls)
    ensures b.None? ==> Level(c, false, b, calls[0].now) == c.capacity as real
    decreases |calls|
  {
    var now, n := calls[0].now, calls[0].n;
    var (answer, next) := Take(c, false, b, now, n);
    var rest := calls[1..];
    FirstVerdict(c, b, calls);
    TakesWhatItAdmits(c, b, now, n, if rest == [] then now else rest[0].now);
    if rest != [] {
      TakeKeepsSound(c, false, b, now, n);
      KeepsLedger(c, Some(next), rest, now);
    }
  }

  /** What the calls ask for in all. */
  function Requested(calls: seq<Request>): nat {
    if calls == [] then 0 else calls[0].n + Requested(calls[1..])
  }

  /** Calls that together ask for no more than is there at the first of them are all admitted. */
  lemma {:induction false} AdmittedWhileThere(c: Config, b: Option<Bucket>, calls: seq<Request>, from: nat)
    requires c.Valid() && c.FullBeforeExpiry() && calls != [] && Sound(c, b, from) && OnTime(from, calls)
    requires Requested(calls) as real <= Level(c, false, b, calls[0].now)
    ensures |Answers(c, false, b, calls)| == |calls|
    ensures forall i :: 0 <= i < |calls| ==> Answers(c, false, b, calls)[i].allowed
    decreases |calls|
  {
    AnswerEach(c, false, b, calls);
    var now, n := calls[0].now, calls[0].n;
    var (answer, next) := Take(c, false, b, now, n);
    var rest := calls[1..];
    assert Answers(c, false, b, calls) == [answer] + Answers(c, false, Some(next), rest);
    if rest != [] {
      TakesWhatItAdmits(c, b, now, n, rest[0].now);
      RefillIsProduct(c.rate, rest[0].now - now);
      RefillGrows(c.rate, 0, rest[0].now - now);
      TakeKeepsSound(c, false, b, now, n);
      AdmittedWhileThere(c, Some(next), rest, now);
    }
  }

  // ----- the admission bound -----

  lemma Spend(c: Config, b: Option<Bucket>, now: nat, n: nat, later: nat)
    requires c.Valid() && Sound(c, b, now) && now <= later
    ensures Level(c, true, Some(Take(c, true, b, now, n).1), later)
            <= Level(c, true, b, now) - (if Take(c, true, b, now, n).0.allowed then n as real else 0.0)
               + Refill(c.rate, later - now)
  {
  }

  lemma {:induction false} NeverExpiringBound(c: Config, b: Option<Bucket>, calls: seq<Request>, from: nat)
    requires c.Valid() && calls != [] && Sound(c, b, from) && OnTime(from, calls)
    ensures |Answers(c, true, b, calls)| == |calls| && calls[0].now <= calls[|calls| - 1].now
    ensures Admitted(calls, Answers(c, true, b, calls)) as real
            <= Level(c, true, b, calls[0].now) + Refill(c.rate, calls[|calls| - 1].now - calls[0].now)
    decreases |calls|
  {
    AnswerEach(c, true, b, calls);
    var now, n := calls[0].now, calls[0].n;
    TakeKeepsSound(c, true, b, now, n);
    AdmittedFirst(c, b, calls);
    var rest := calls[1..];
    if rest != [] {
      NeverExpiringBound(c, Some(Take(c, true, b, now, n).1), rest, now);
      Spend(c, b, now, n, rest[0].now);
      RefillAdds(c.rate, rest[0].now - now, calls[|calls| - 1].now - rest[0].now);
    }
  }

  lemma {:induction false} AdmittedFirst(c: Config, b: Option<Bucket>, calls: seq<Request>)
    requires calls != [] && |Answers(c, true, b, calls)| == |calls|
    ensures var (answer, next) := Take(c, true, b, calls[0].now, calls[0].n);
            && |Answers(c, true, Some(next), calls[1..])| == |calls[1..]|
            && Admitted(calls, Answers(c, true, b, calls))
               == (if answer.allowed then calls[0].n else 0)
                  + Admitted(calls[1..], Answers(c, true, Some(next), calls[1..]))
  {
    var (answer, next) := Take(c, true, b, calls[0].now, calls[0].n);
    assert Answers(c, true, b, calls)[1..] == Answers(c, true, Some(next), calls[1..]);
  }

  /** Whatever the calls, and from whatever stored bucket, the tokens admitted between two instants
      are at most the capacity plus what was refilled between them. */
  lemma {:induction false} AdmissionBound(c: Config, b: Option<Bucket>, calls: seq<Request>, from: nat)
    requires c.Valid() && c.FullBeforeExpiry() && calls != [] && Sound(c, b, from) && OnTime(from, calls)
    ensures |Answers(c, false, b, calls)| == |calls| && calls[0].now <= calls[|calls| - 1].now
    ensures Admitted(calls, Answers(c, false, b, calls)) as real
            <= c.capacity as real + Refill(c.rate, calls[|calls| - 1].now - calls[0].now)
  {
    ExpiryUnobservable(c, b, calls, from);
    NeverExpiringBound(c, b, calls, from);
    TakeKeepsSound(c, true, b, calls[0].now, calls[0].n);
  }

  /** A clock that steps back refills the same seconds twice, since a denied call rewrites the time
      stamp: two full buckets go out at one instant. */
  lemma {:induction false} SteppingBackBreaksBound(c: Config, t: nat)
    requires c.Valid() && Refill(c.rate, t) >= c.capacity as real && t < Micros(c.ttl)
    ensures var calls := [Request(t, c.capacity), Request(0, 1), Request(t, c.capacity)];
            && |Answers(c, false, None, calls)| == |calls|
            && Admitted(calls, Answers(c, false, None, calls)) as real > c.capacity as real + Refill(c.rate, t - t)
  {
    var calls := [Request(t, c.capacity), Request(0, 1), Request(t, c.capacity)];
    var b1, b2 := Some(Bucket(0.0, t, t + Micros(c.ttl))), Some(Bucket(0.0, 0, Micros(c.ttl)));
    assert Take(c, false, None, t, c.capacity) == (Answer(true, 0), b1.value);
    assert !Take(c, false, b1, 0, 1).0.allowed && Take(c, false, b1, 0, 1).1 == b2.value;
    assert Take(c, false, b2, t, c.capacity).0.allowed;
    assert calls[1..] == [calls[1], calls[2]];
    TwoAnswers(c, false, b1, calls[1], calls[2]);
    var answers := Answers(c, false, None, calls);
    assert answers[1..] == Answers(c, false, b1, calls[1..]);
    assert Admitted(calls[1..], answers[1..]) == Admitted([calls[2]], [answers[2]]) == c.capacity by {
      assert calls[1..][1..] == [calls[2]] && answers[1..][1..] == [answers[2]];
    }
  }

  // ----- denials -----

  /** Refill composes: a denied call changes no later level exactly if it is not earlier than the
      last call, or the bucket was full. */
  lemma {:induction false} DenialHarmlessExactly(c: Config, b: Bucket, now: nat, n: nat)
    requires c.Valid() && c.rate > 0.0 && 0.0 <= b.tokens <= c.capacity as real
    requires !Take(c, true, Some(b), now, n).0.allowed
    ensures (forall t :: t >= now && t >= b.ts ==>
                           Level(c, true, Some(Take(c, true, Some(b), now, n).1), t) == Level(c, true, Some(b), t))
            <==> now >= b.ts || b.tokens == c.capacity as real
  {
    var next := Take(c, true, Some(b), now, n).1;
    if now >= b.ts {
      forall t | t >= now ensures Level(c, true, Some(next), t) == Level(c, true, Some(b), t) {
        RefillComposes(c, b, now, t);
      }
    } else if b.tokens == c.capacity as real {
      forall t | t >= b.ts ensures Level(c, true, Some(next), t) == Level(c, true, Some(b), t) {
        RefillGrows(c.rate, 0, t - b.ts);
        RefillGrows(c.rate, 0, t - now);
      }
    } else {
      RefillGrows(c.rate, 1, b.ts - now);
      assert Refill(c.rate, 1) == Refill(c.rate, 0) + c.rate / 1000000.0;
      assert Level(c, true, Some(next), b.ts) > Level(c, true, Some(b), b.ts);
    }
  }

  lemma {:induction false} RefillComposes(c: Config, b: Bucket, now: nat, t: nat)
    requires c.Valid() && b.ts <= now <= t
    ensures Level(c, true, Some(Bucket(Level(c, true, Some(b), now), now, now + Micros(c.ttl))), t)
         == Level(c, true, Some(b), t)
  {
    RefillAdds(c.rate, now - b.ts, t - now);
    RefillGrows(c.rate, 0, t - now);
  }

  /** A denied call is as good as never made: every later answer is what it would have been. */
  lemma {:induction false} DenialLeavesLaterAnswers(c: Config, b: Option<Bucket>, now: nat, n: nat, calls: seq<Request>)
    requires c.Valid() && c.FullBeforeExpiry() && Sound(c, b, now) && OnTime(now, calls)
    requires !Take(c, false, b, now, n).0.allowed
    ensures Answers(c, false, Some(Take(c, false, b, now, n).1), calls) == Answers(c, false, b, calls)
  {
    var next := Some(Take(c, false, b, now, n).1);
    TakeKeepsSound(c, false, b, now, n);
    ExpiredIsFull(c, b, now);
    ExpiryUnobservable(c, next, calls, now);
    ExpiryUnobservable(c, b, calls, now);
    if calls != [] {
      var later := calls[0].now;
      if b.Some? {
        RefillComposes(c, b.value, now, later);
      } else {
        RefillGrows(c.rate, 0, later - now);
      }
      assert Level(c, true, next, later) == Level(c, true, b, later);
    }
  }

  lemma CeilBounds(x: real)
    ensures x <= Ceil(x) as real < x + 1.0
  {
  }

  lemma QuotientIsPositive(a: real, b: real)
    requires a > 0.0 && b > 0.0
    ensures a / b > 0.0 && (a / b) * b == a
  {
  }

  lemma {:induction false} ProductOrder(rate: real, a: real, b: real)
    requires rate > 0.0
    ensures a <= b ==> a * rate <= b * rate
    ensures a < b ==> a * rate < b * rate
  {
    if a < b {
      assert (b - a) * rate > 0.0;
    }
  }

  /** The least number of whole seconds that refill a deficit. */
  lemma {:induction false} RetryAfterRefills(c: Config, deficit: real)
    requires c.rate > 0.0 && deficit > 0.0
    ensures RetryAfter(c, deficit) >= 1
    ensures Refill(c.rate, Micros(RetryAfter(c, deficit))) >= deficit
    ensures Refill(c.rate, Micros(RetryAfter(c, deficit) - 1)) < deficit
  {
    var wait := deficit / c.rate;
    QuotientIsPositive(deficit, c.rate);
    CeilBounds(wait);
    var s := RetryAfter(c, deficit);
    ProductOrder(c.rate, wait, s as real);
    ProductOrder(c.rate, s as real - 1.0, wait);
    RefillIsProduct(c.rate, Micros(s));
    RefillIsProduct(c.rate, Micros(s - 1));
    assert Micros(s) as real / 1000000.0 == s as real;
    assert Micros(s - 1) as real / 1000000.0 == s as real - 1.0;
  }

  /** The reported wait is the least whole number of seconds after which the same request, made
      alone, is admitted, exactly if it is no larger than the bucket; a larger one is never admitted. */
  lemma {:induction false} RetryAfterIsExact(c: Config, b: Option<Bucket>, now: nat, n: nat)
    requires c.Valid() && c.rate > 0.0 && c.FullBeforeExpiry() && Sound(c, b, now)
    requires !Take(c, false, b, now, n).0.allowed
    ensures n > c.capacity ==> forall b', t :: !Take(c, false, b', t, n).0.allowed
    ensures var (answer, next) := Take(c, false, b, now, n);
            && answer.retryAfter >= 1
            && (n <= c.capacity <==> Take(c, false, Some(next), now + Micros(answer.retryAfter), n).0.allowed)
            && !Take(c, false, Some(next), now + Micros(answer.retryAfter - 1), n).0.allowed
  {
    var level := Level(c, false, b, now);
    RetryAfterRefills(c, n as real - level);
    var s := RetryAfter(c, n as real - level);
    var next := Some(Take(c, false, b, now, n).1);
    TakeKeepsSound(c, false, b, now, n);
    ExpiredIsFull(c, next, now + Micros(s));
    ExpiredIsFull(c, next, now + Micros(s - 1));
    forall b', t | n > c.capacity ensures !Take(c, false, b', t, n).0.allowed {
      TooLargeNeverAdmitted(c, b', t, n);
    }
  }

  lemma TooLargeNeverAdmitted(c: Config, b: Option<Bucket>, now: nat, n: nat)
    requires n > c.capacity
    ensures !Take(c, false, b, now, n).0.allowed
  {
  }

  // ----- the limiter -----

  /** Connectors have buckets of their own. */
  lemma {:induction false} BucketsAreApart(limiter: RateLimiter, a: string, b: string)
    requires a != b
    ensures limiter.Key(a) != limiter.Key(b)
  {
    var head := limiter.prefix + "mcp:ratelimit:";
    assert limiter.Key(a)[|head|..] == a && limiter.Key(b)[|head|..] == b;
  }

  /** The limiter over one shared Redis. */
  class RateLimiter {
    const prefix: string
    const config: Config
    var buckets: map<string, Bucket>

    constructor (perMinute: int, prefix: string, buckets: map<string, Bucket>)
      ensures this.prefix == prefix && this.buckets == buckets && config == ConfigFor(perMinute)
    {
      this.prefix, this.buckets := prefix, buckets;
      config := ConfigFor(perMinute);
    }

    function Key(connectorId: string): string {
      prefix + "mcp:ratelimit:" + connectorId
    }

    function BucketAt(key: string): Option<Bucket>
      reads this`buckets
    {
      if key in buckets then Some(buckets[key]) else None
    }

    /** The atomic script, at Redis' own time. */
    method Run(key: string, requested: nat, now: nat) returns (r: Answer)
      modifies this`buckets
      ensures r == Take(config, false, old(BucketAt(key)), now, requested).0
      ensures buckets == old(buckets)[key := Take(config, false, old(BucketAt(key)), now, requested).1]
    {
      var capacity, refillRate, ttl := config.capacity as real, config.rate, config.ttl;
      var tokens, last := capacity, now;
      if key in buckets && now < buckets[key].expiry {
        tokens, last := buckets[key].tokens, buckets[key].ts;
      }
      var elapsed := now - last;
      if elapsed < 0 {
        elapsed := 0;
      }
      RefillIsProduct(refillRate, elapsed);
      tokens := Min(capacity, tokens + (elapsed as real / 1000000.0) * refillRate);
      var allowed, retryAfter := false, 0;
      if tokens >= requested as real {
        tokens := tokens - requested as real;
        allowed := true;
      } else {
        var deficit := requested as real - tokens;
        if refillRate > 0.0 {
          retryAfter := Ceil(deficit / refillRate);
        } else {
          retryAfter := ttl;
        }
      }
      buckets := buckets[key := Bucket(tokens, now, now + Micros(ttl))];
      r := Answer(allowed, retryAfter);
    }

    /** Charges at least one token to the connector's own bucket; an unreachable Redis is an error, not a denial. */
    method Charge(connectorId: string, n: int, now: nat, failure: Option<string>) returns (r: Result<Answer, string>)
      modifies this`buckets
      ensures failure.Some? ==> r == Err(failure.value) && buckets == old(buckets)
      ensures failure.None? ==>
                var asked := if n < 1 then 1 else n;
                var (answer, next) := Take(config, false, old(BucketAt(Key(connectorId))), now, asked);
                && r.Ok? && r.value.allowed == answer.allowed
                && r.value.retryAfter == (if answer.retryAfter < 0 then 0 else answer.retryAfter)
                && buckets == old(buckets)[Key(connectorId) := next]
    {
      if failure.Some? {
        return Err(failure.value);
      }
      var answer := Run(Key(connectorId), if n < 1 then 1 else n, now);
      r := Ok(Answer(answer.allowed, if answer.retryAfter < 0 then 0 else answer.retryAfter));
    }
  }
}
