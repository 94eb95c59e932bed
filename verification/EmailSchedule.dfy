/** The retry and lease arithmetic of the email dispatcher. Durations are whole nanoseconds. */
module EmailSchedule {
  import opened Durations

  const BASE_BACKOFF: nat := 30 * SECOND
  const MAX_BACKOFF: nat := 1800 * SECOND
  const MAX_BACKOFF_SHIFT: nat := 6
  const MIN_LEASE_SECONDS: nat := 60

  /** int32 arithmetic wraps. */
  function Int32(x: int): int {
    (x + 0x8000_0000) % 0x1_0000_0000 - 0x8000_0000
  }

  function Shifted(d: nat, bits: nat): nat {
    if bits == 0 then d else 2 * Shifted(d, bits - 1)
  }

  /** The wait before a retry, given how often the row has been claimed; attempts is an int32. */
  function BackoffFor(attempts: int): nat {
    var less := Int32(attempts - 1);
    var shift: nat := if less < 0 then 0 else less;
    if shift > MAX_BACKOFF_SHIFT then MAX_BACKOFF
    else
      var d := Shifted(BASE_BACKOFF, shift);
      if d <= 0 || d > MAX_BACKOFF then MAX_BACKOFF else d
  }

  lemma {:induction false} ShiftGrows(d: nat, a: nat, b: nat)
    requires a <= b
    ensures Shifted(d, a) <= Shifted(d, b)
  {
    if a < b {
      ShiftGrows(d, a, b - 1);
    }
  }

  lemma {:induction false} SixDoublings(d: nat)
    ensures Shifted(d, 6) == 64 * d
  {
    assert Shifted(d, 1) == 2 * d;
    assert Shifted(d, 2) == 4 * d;
    assert Shifted(d, 3) == 8 * d;
    assert Shifted(d, 4) == 16 * d;
    assert Shifted(d, 5) == 32 * d;
  }

  /** The short-circuit and the clamp together are exactly exponential backoff with a ceiling, at
      every attempt count an int32 column can hold. */
  lemma {:induction false} BackoffIsClampedDoubling(attempts: int)
    requires 1 <= attempts < 0x8000_0000
    ensures BackoffFor(attempts) ==
            (if Shifted(BASE_BACKOFF, attempts - 1) <= MAX_BACKOFF then Shifted(BASE_BACKOFF, attempts - 1)
              else MAX_BACKOFF)
    ensures BASE_BACKOFF <= BackoffFor(attempts) <= MAX_BACKOFF
  {
    ShiftGrows(BASE_BACKOFF, 0, attempts - 1);
    if attempts - 1 > MAX_BACKOFF_SHIFT {
      ShiftGrows(BASE_BACKOFF, 6, attempts - 1);
      SixDoublings(BASE_BACKOFF);
    }
  }

  /** The backoff never shrinks from one attempt to the next, and is a whole number of seconds, so
      the int32 seconds written to the row lose nothing. */
  lemma {:induction false} BackoffIsMonotone(a: int, b: int)
    requires 1 <= a <= b < 0x8000_0000
    ensures BackoffFor(a) <= BackoffFor(b)
    ensures BackoffFor(a) % SECOND == 0 && BackoffFor(a) / SECOND <= 1800
  {
    BackoffIsClampedDoubling(a);
    BackoffIsClampedDoubling(b);
    ShiftGrows(BASE_BACKOFF, a - 1, b - 1);
    WholeSeconds(30, a - 1);
  }

  lemma {:induction false} WholeSeconds(seconds: nat, bits: nat)
    ensures Shifted(seconds * SECOND, bits) == Shifted(seconds, bits) * SECOND
  {
    if bits > 0 {
      WholeSeconds(seconds, bits - 1);
    }
  }

  /** How long a claimed row is hidden from other runs, in seconds. */
  function LeaseSeconds(jobTimeout: nat, interval: nat): nat {
    var lease := (jobTimeout + interval) / SECOND;
    if lease < MIN_LEASE_SECONDS then MIN_LEASE_SECONDS else lease
  }

  /** The lease outlives every run exactly for runs below the floor, or when the interval fills up
      the second that truncation drops. */
  lemma LeaseOutlivesRunExactly(jobTimeout: nat, interval: nat)
    ensures LeaseSeconds(jobTimeout, interval) * SECOND > jobTimeout
            <==> jobTimeout < MIN_LEASE_SECONDS * SECOND || interval >= SECOND - jobTimeout % SECOND
  {
  }

  /** ...and the last write as well, exactly if the interval covers that too. */
  lemma LeaseCoversWriteExactly(jobTimeout: nat, interval: nat, write: nat)
    ensures LeaseSeconds(jobTimeout, interval) * SECOND > jobTimeout + write
            <==> || jobTimeout + write < MIN_LEASE_SECONDS * SECOND
                 || interval > write + (jobTimeout + interval) % SECOND
  {
  }

  /** A whole second of interval beyond what the last write takes is always enough. */
  lemma LeaseCoversLastWrite(jobTimeout: nat, interval: nat, write: nat)
    requires interval >= SECOND + write
    ensures LeaseSeconds(jobTimeout, interval) * SECOND > jobTimeout + write
  {
  }
}
