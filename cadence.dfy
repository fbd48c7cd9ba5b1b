/**
 * Interval gates on a wrapping clock. The control loop guards two actions with
 * `if (now - last >= interval) { last = now; ... }` where `now` comes from
 * `micros()` or `millis()`: the step pulse (800 us) and the RFID poll (200 ms).
 * A clock reading is the real elapsed time modulo 2^32; the lemmas relate the
 * wrapped test to real time.
 */
module Cadence {
  import opened Uint32

  /** The counter value read at real time `t` (the counter wraps at 2^32). */
  function Reading(t: nat): U32
  {
    t % Modulus
  }

  /** The guard `now - last >= interval` in `uint32_t` arithmetic. */
  predicate Due(now: U32, last: U32, interval: nat)
  {
    Elapsed(now, last) >= interval
  }

  /** The real times at which a gate that last fired at counter value `last` fires when evaluated at `times`. */
  function Fired(last: U32, times: seq<nat>, interval: nat): seq<nat>
    decreases |times|
  {
    if times == [] then []
    else if Due(Reading(times[0]), last, interval) then [times[0]] + Fired(Reading(times[0]), times[1..], interval)
    else Fired(last, times[1..], interval)
  }

  predicate Sorted(times: seq<nat>)
  {
    forall i, j :: 0 <= i < j < |times| ==> times[i] <= times[j]
  }

  /** The wrapped difference of two readings never exceeds the real time between them. */
  lemma ElapsedAtMostRealGap(t1: nat, t2: nat)
    requires t1 <= t2
    ensures Elapsed(Reading(t2), Reading(t1)) <= t2 - t1
  {
    var q1, r1 := t1 / Modulus, t1 % Modulus;
    var q2, r2 := t2 / Modulus, t2 % Modulus;
    assert t1 == q1 * Modulus + r1 && t2 == q2 * Modulus + r2;
    if r2 >= r1 {
      assert q2 >= q1;
    } else {
      assert q2 >= q1 + 1;
    }
  }

  /** Below one full wrap, the wrapped difference is the real time between the readings. */
  lemma ElapsedIsRealGap(t1: nat, t2: nat)
    requires t1 <= t2 < t1 + Modulus
    ensures Elapsed(Reading(t2), Reading(t1)) == t2 - t1
  {
    var q1, r1 := t1 / Modulus, t1 % Modulus;
    var q2, r2 := t2 / Modulus, t2 % Modulus;
    assert t1 == q1 * Modulus + r1 && t2 == q2 * Modulus + r2;
    if r2 >= r1 {
      assert q2 == q1;
    } else {
      assert q2 == q1 + 1;
    }
  }

  /** For gaps shorter than one wrap, the wrapped guard is exactly the real-time guard. */
  lemma DueIffRealGap(t1: nat, t2: nat, interval: nat)
    requires t1 <= t2 < t1 + Modulus
    ensures Due(Reading(t2), Reading(t1), interval) <==> t2 - t1 >= interval
  {
    ElapsedIsRealGap(t1, t2);
  }

  /** Every firing time is one of the evaluation times. */
  lemma {:induction false} FiredFromTimes(last: U32, times: seq<nat>, interval: nat)
    ensures forall k :: 0 <= k < |Fired(last, times, interval)| ==> Fired(last, times, interval)[k] in times
    decreases |times|
  {
    if times != [] {
      var rest := times[1..];
      if Due(Reading(times[0]), last, interval) {
        FiredFromTimes(Reading(times[0]), rest, interval);
      } else {
        FiredFromTimes(last, rest, interval);
      }
      assert forall x :: x in rest ==> x in times;
    }
  }

  /** After firing at real time `t`, the next firing is at least `interval` later. */
  lemma {:induction false} FirstFiringAfter(t: nat, times: seq<nat>, interval: nat)
    requires forall k :: 0 <= k < |times| ==> t <= times[k]
    ensures Fired(Reading(t), times, interval) != [] ==> Fired(Reading(t), times, interval)[0] - t >= interval
    decreases |times|
  {
    if times != [] {
      if Due(Reading(times[0]), Reading(t), interval) {
        ElapsedAtMostRealGap(t, times[0]);
      } else {
        FirstFiringAfter(t, times[1..], interval);
      }
    }
  }

  /** Consecutive firings are at least `interval` apart in real time, however the counter wraps. */
  lemma {:induction false} FiredSpaced(last: U32, times: seq<nat>, interval: nat)
    requires Sorted(times)
    ensures forall k :: 0 < k < |Fired(last, times, interval)| ==>
              Fired(last, times, interval)[k] - Fired(last, times, interval)[k - 1] >= interval
    decreases |times|
  {
    if times != [] {
      var rest := times[1..];
      assert Sorted(rest);
      if Due(Reading(times[0]), last, interval) {
        FiredSpaced(Reading(times[0]), rest, interval);
        FirstFiringAfter(times[0], rest, interval);
      } else {
        FiredSpaced(last, rest, interval);
      }
    }
  }

}
