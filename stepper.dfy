/**
 * `StepperControl` from the firmware's main loop: a STEP/DIR driver that
 * emits one step pulse per `update()` call once 800 us have passed on the
 * wrapping `micros()` counter since the last pulse. Pin writes and the busy
 * wait are recorded as an event trace; the counter value is a parameter.
 */
module Stepper {
  import opened Uint32
  import opened Cadence

  /** Minimum time between step pulses, in microseconds (about 1250 steps per second). */
  const StepIntervalUs: nat := 800
  /** Width of the STEP high pulse, in microseconds. */
  const StepPulseWidthUs: nat := 3

  datatype Pin = StepPin | DirPin

  /** What the driver does to the outside world: a pin write (`high` for HIGH) or a busy wait. */
  datatype Event = Write(pin: Pin, high: bool) | DelayUs(us: nat)

  /** One step: STEP high, hold for the pulse width, STEP low. */
  const Pulse: seq<Event> := [Write(StepPin, true), DelayUs(StepPulseWidthUs), Write(StepPin, false)]

  /** Whether `update()` at counter value `now` emits a pulse. */
  predicate Pulses(moving: bool, lastStepUs: U32, now: U32)
  {
    moving && Due(now, lastStepUs, StepIntervalUs)
  }

  /** One call of `update()`: the real time of the call and whether the motor was moving then. */
  datatype Call = Call(t: nat, moving: bool)

  /**
   * The real times at which a series of `update()` calls pulse, starting
   * from a last step at counter value `lastStepUs`.
   */
  function PulseTimes(lastStepUs: U32, calls: seq<Call>): seq<nat>
    decreases |calls|
  {
    if calls == [] then []
    else if Pulses(calls[0].moving, lastStepUs, Reading(calls[0].t)) then
      [calls[0].t] + PulseTimes(Reading(calls[0].t), calls[1..])
    else PulseTimes(lastStepUs, calls[1..])
  }

  /** The real times of the calls made while moving. */
  function MovingTimes(calls: seq<Call>): (times: seq<nat>)
    ensures |times| <= |calls|
    decreases |calls|
  {
    if calls == [] then []
    else if calls[0].moving then [calls[0].t] + MovingTimes(calls[1..])
    else MovingTimes(calls[1..])
  }

  predicate CallsInOrder(calls: seq<Call>)
  {
    forall i, j :: 0 <= i < j < |calls| ==> calls[i].t <= calls[j].t
  }

  /** A call while stopped never pulses and leaves the last step time alone, so pulses follow the 800 us gate over the moving calls. */
  lemma {:induction false} PulsesFollowGate(lastStepUs: U32, calls: seq<Call>)
    ensures PulseTimes(lastStepUs, calls) == Fired(lastStepUs, MovingTimes(calls), StepIntervalUs)
    decreases |calls|
  {
    if calls != [] {
      var rest := calls[1..];
      if Pulses(calls[0].moving, lastStepUs, Reading(calls[0].t)) {
        PulsesFollowGate(Reading(calls[0].t), rest);
        assert MovingTimes(calls)[1..] == MovingTimes(rest);
      } else if calls[0].moving {
        PulsesFollowGate(lastStepUs, rest);
        assert MovingTimes(calls)[1..] == MovingTimes(rest);
      } else {
        PulsesFollowGate(lastStepUs, rest);
      }
    }
  }

  /** Calls made no earlier than `lo` give moving times no earlier than `lo`. */
  lemma {:induction false} MovingTimesFrom(calls: seq<Call>, lo: nat)
    requires forall k :: 0 <= k < |calls| ==> lo <= calls[k].t
    ensures forall i :: 0 <= i < |MovingTimes(calls)| ==> lo <= MovingTimes(calls)[i]
    decreases |calls|
  {
    if calls != [] {
      var rest := calls[1..];
      assert forall k :: 0 <= k < |rest| ==> rest[k] == calls[k + 1];
      MovingTimesFrom(rest, lo);
    }
  }

  /** A time no later than every time of a sorted series may go in front of it. */
  lemma SortedCons(x: nat, times: seq<nat>)
    requires Sorted(times)
    requires forall i :: 0 <= i < |times| ==> x <= times[i]
    ensures Sorted([x] + times)
  {
    var all := [x] + times;
    forall i, j | 0 <= i < j < |all|
      ensures all[i] <= all[j]
    {
      assert all[j] == times[j - 1];
      if i > 0 {
        assert all[i] == times[i - 1];
      }
    }
  }

  /** Calls made in time order give moving times in order. */
  lemma {:induction false} MovingTimesSorted(calls: seq<Call>)
    requires CallsInOrder(calls)
    ensures Sorted(MovingTimes(calls))
    decreases |calls|
  {
    if calls != [] {
      var rest := calls[1..];
      assert forall k :: 0 <= k < |rest| ==> rest[k] == calls[k + 1];
      assert CallsInOrder(rest);
      MovingTimesSorted(rest);
      if calls[0].moving {
        MovingTimesFrom(rest, calls[0].t);
        SortedCons(calls[0].t, MovingTimes(rest));
      }
    }
  }

  /**
   * Consecutive step pulses are at least 800 us apart in real time, however
   * often `micros()` has wrapped and however the motor was started and stopped.
   */
  lemma PulsesSpaced(lastStepUs: U32, calls: seq<Call>)
    requires CallsInOrder(calls)
    ensures forall k :: 0 < k < |PulseTimes(lastStepUs, calls)| ==>
              PulseTimes(lastStepUs, calls)[k] - PulseTimes(lastStepUs, calls)[k - 1] >= StepIntervalUs
  {
    PulsesFollowGate(lastStepUs, calls);
    MovingTimesSorted(calls);
    FiredSpaced(lastStepUs, MovingTimes(calls), StepIntervalUs);
  }

  /** While the motor is stopped, no call pulses. */
  lemma {:induction false} StoppedNeverPulses(lastStepUs: U32, calls: seq<Call>)
    requires forall k :: 0 <= k < |calls| ==> !calls[k].moving
    ensures PulseTimes(lastStepUs, calls) == []
    decreases |calls|
  {
    if calls != [] {
      StoppedNeverPulses(lastStepUs, calls[1..]);
    }
  }

  /** Called `n` microseconds after the last step, less than one wrap later, `update()` is due exactly when `n` is at least 800. */
  lemma {:induction false} SteadyRate(t: nat, n: nat)
    requires n < Modulus
    ensures Due(Reading(t + n), Reading(t), StepIntervalUs) <==> n >= StepIntervalUs
  {
    DueIffRealGap(t, t + n, StepIntervalUs);
  }

  /** `n` calls of `update()` while moving, one every microsecond from real time `s`. */
  function SteadyCalls(s: nat, n: nat): (calls: seq<Call>)
    ensures |calls| == n
  {
    seq(n, i requires 0 <= i < n => Call(s + i, true))
  }

  /** The times `last + 800`, `last + 1600`, ... before `end`. */
  function StepTimes(last: nat, end: nat): seq<nat>
    decreases end - last
  {
    if last + StepIntervalUs < end then [last + StepIntervalUs] + StepTimes(last + StepIntervalUs, end) else []
  }

  /**
   * With the last step at real time `last` and `update()` called every
   * microsecond from `s` on (no later than the next step is due), the
   * pulses fall exactly at `last + 800`, `last + 1600`, ...
   */
  lemma {:induction false} SteadyPulses(last: nat, s: nat, n: nat)
    requires last < s <= last + StepIntervalUs
    ensures PulseTimes(Reading(last), SteadyCalls(s, n)) == StepTimes(last, s + n)
    decreases n
  {
    var calls := SteadyCalls(s, n);
    if n > 0 {
      assert calls[0] == Call(s, true);
      assert calls[1..] == SteadyCalls(s + 1, n - 1);
      DueIffRealGap(last, s, StepIntervalUs);
      if s < last + StepIntervalUs {
        SteadyPulses(last, s + 1, n - 1);
      } else {
        SteadyPulses(s, s + 1, n - 1);
      }
    }
  }

  /** The `k`-th of those times is `last + 800 * (k + 1)`. */
  lemma {:induction false} StepTimesAt(last: nat, end: nat, k: nat)
    requires k < |StepTimes(last, end)|
    ensures StepTimes(last, end)[k] == last + StepIntervalUs * (k + 1)
    decreases end - last
  {
    if k > 0 {
      StepTimesAt(last + StepIntervalUs, end, k - 1);
    }
  }

  /** Called every microsecond while moving, the motor steps exactly every 800 us: the `k`-th pulse after a step at `last` is at `last + 800 * (k + 1)`. */
  lemma SteadyStepping(last: nat, n: nat)
    ensures var pulses := PulseTimes(Reading(last), SteadyCalls(last + 1, n));
      forall k :: 0 <= k < |pulses| ==> pulses[k] == last + StepIntervalUs * (k + 1)
  {
    SteadyPulses(last, last + 1, n);
    var times := StepTimes(last, last + 1 + n);
    forall k | 0 <= k < |times|
      ensures times[k] == last + StepIntervalUs * (k + 1)
    {
      StepTimesAt(last, last + 1 + n, k);
    }
  }

  /** `StepperControl`: the moving flag, the counter value of the last pulse, and the pins it has driven. */
  class StepperControl {
    var moving: bool
    var lastStepUs: U32
    /** Every pin write and busy wait so far, oldest first. */
    var events: seq<Event>

    /** Member initialisers `m_moving = false`, `m_lastStepUs = 0`; no pin driven yet. */
    constructor ()
      ensures !moving && lastStepUs == 0 && events == []
    {
      moving := false;
      lastStepUs := 0;
      events := [];
    }

    /** `begin()`: both pins driven LOW. */
    method Begin()
      modifies this
      ensures moving == old(moving) && lastStepUs == old(lastStepUs)
      ensures events == old(events) + [Write(StepPin, false), Write(DirPin, false)]
    {
      events := events + [Write(StepPin, false), Write(DirPin, false)];
    }

    /** `setDirection(withdraw)`: DIR is driven HIGH exactly when withdrawing. */
    method SetDirection(withdraw: bool)
      modifies this
      ensures moving == old(moving) && lastStepUs == old(lastStepUs)
      ensures events == old(events) + [Write(DirPin, withdraw)]
    {
      events := events + [Write(DirPin, withdraw)];
    }

    /** `setMoving(m)`: only the moving flag changes. */
    method SetMoving(m: bool)
      modifies this
      ensures moving == m
      ensures lastStepUs == old(lastStepUs) && events == old(events)
    {
      moving := m;
    }

    /** `update()` at counter value `now`: at most one pulse, and only when moving and 800 us are due. */
    method Update(now: U32)
      modifies this
      ensures moving == old(moving)
      ensures Pulses(old(moving), old(lastStepUs), now) ==> lastStepUs == now && events == old(events) + Pulse
      ensures !Pulses(old(moving), old(lastStepUs), now) ==> lastStepUs == old(lastStepUs) && events == old(events)
    {
      if !moving {
        return;
      }
      if Elapsed(now, lastStepUs) < StepIntervalUs {
        return;
      }
      lastStepUs := now;
      events := events + [Write(StepPin, true)];
      events := events + [DelayUs(StepPulseWidthUs)];
      events := events + [Write(StepPin, false)];
    }
  }
}
