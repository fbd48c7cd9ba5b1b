/**
 * One pass of the firmware's `loop()`: read the serial console, poll the
 * RFID reader every 200 ms of the wrapping `millis()` counter and push the
 * latched tag to the web UI, turn the two buttons into a motion, and let
 * the stepper take its step. Clocks, button levels, serial input and the
 * reader's answer are parameters of the pass.
 */
module Firmware {
  import opened Wrappers
  import opened Uint32
  import opened Cadence
  import opened Rfid
  import opened Stepper
  import opened Console
  import opened WebUi
  import opened Storage

  /** The RFID reader is polled at most every 200 ms. */
  const RfidPollIntervalMs: nat := 200
  /** `kWithdrawDirHigh`: DIR is HIGH while withdrawing. */
  const WithdrawDirHigh: bool := true

  /** What the two buttons ask of the motor. */
  datatype Motion = Withdraw | Dispense | Stop

  /** The buttons as the loop reads them: one button alone moves the motor its way; both or neither stop it. */
  function Arbitrate(withdrawPressed: bool, dispensePressed: bool): Motion
  {
    if withdrawPressed && !dispensePressed then Withdraw
    else if dispensePressed && !withdrawPressed then Dispense
    else Stop
  }

  /** The pin writes the arbitration makes: a DIR write for a motion, none for a stop. */
  function DirectionWrites(m: Motion): seq<Event>
  {
    match m
    case Withdraw => [Write(DirPin, WithdrawDirHigh)]
    case Dispense => [Write(DirPin, !WithdrawDirHigh)]
    case Stop => []
  }

  /**
   * The motor moves exactly when one button is pressed on its own; it then
   * drives DIR HIGH for withdraw and LOW for dispense, and a stop writes no
   * direction. Swapping the buttons swaps the direction.
   */
  lemma ArbitrateCases(w: bool, d: bool)
    ensures Arbitrate(w, d) != Stop <==> w != d
    ensures Arbitrate(w, d) == Withdraw <==> w && !d
    ensures Arbitrate(w, d) == Dispense <==> d && !w
    ensures Arbitrate(w, d) == Withdraw <==> Arbitrate(d, w) == Dispense
    ensures DirectionWrites(Arbitrate(w, d)) == (if w != d then [Write(DirPin, w)] else [])
  {
  }

  /** Polls happen at least 200 ms apart in real time, however often `millis()` wraps. */
  lemma PollsSpaced(lastRfidPoll: U32, times: seq<nat>)
    requires Sorted(times)
    ensures forall k :: 0 < k < |Fired(lastRfidPoll, times, RfidPollIntervalMs)| ==>
              Fired(lastRfidPoll, times, RfidPollIntervalMs)[k] - Fired(lastRfidPoll, times, RfidPollIntervalMs)[k - 1] >= RfidPollIntervalMs
  {
    FiredSpaced(lastRfidPoll, times, RfidPollIntervalMs);
  }

  /** After a poll at real time `t`, a pass less than one wrap later polls again exactly when 200 ms have passed. */
  lemma NextPoll(t: nat, later: nat)
    requires t <= later < t + Modulus
    ensures Due(Reading(later), Reading(t), RfidPollIntervalMs) <==> later - t >= RfidPollIntervalMs
  {
    DueIffRealGap(t, later, RfidPollIntervalMs);
  }

  /** The firmware's objects and the loop's static `lastRfidPoll`. */
  class Firmware {
    const stepper: StepperControl
    const reader: RfidReader
    const console: SerialConsole
    const web: WebUi
    var lastRfidPoll: U32

    /** The web UI shows the tag the reader has latched. */
    predicate Synced()
      reads this, reader, web
    {
      web.currentRfid == reader.currentTag
    }

    /** The global objects as the program starts them; `setup()` is not part of this model. */
    constructor (store: Store)
      ensures fresh(stepper) && fresh(reader) && fresh(console) && fresh(web)
      ensures web.store == store
      ensures lastRfidPoll == 0 && Synced() && !reader.HasTag()
      ensures !stepper.moving && stepper.lastStepUs == 0 && stepper.events == []
      ensures console.input == ""
    {
      stepper := new StepperControl();
      reader := new RfidReader();
      console := new SerialConsole();
      web := new WebUi(store);
      lastRfidPoll := 0;
    }

    /**
     * One pass of `loop()` at `millis()` value `nowMs` and `micros()` value
     * `nowUs`, with `serialIn` waiting on the port, `read` what the reader
     * would answer if polled, and the two buttons' states.
     */
    method Loop(serialIn: string, nowMs: U32, read: Option<Uid>, withdrawPressed: bool, dispensePressed: bool, nowUs: U32)
      returns (commands: seq<Command>)
      modifies this, stepper, reader, console, web
      ensures console.input == Frame(old(console.input), serialIn).pending
      ensures commands == Commands(Frame(old(console.input), serialIn).lines)
      ensures Due(nowMs, old(lastRfidPoll), RfidPollIntervalMs) ==>
                lastRfidPoll == nowMs && reader.currentTag == Latch(old(reader.currentTag), read) &&
                web.currentRfid == reader.currentTag
      ensures !Due(nowMs, old(lastRfidPoll), RfidPollIntervalMs) ==>
                lastRfidPoll == old(lastRfidPoll) && reader.currentTag == old(reader.currentTag) &&
                web.currentRfid == old(web.currentRfid)
      ensures old(Synced()) ==> Synced()
      ensures var motion := Arbitrate(withdrawPressed, dispensePressed);
        var pulses := Pulses(motion != Stop, old(stepper.lastStepUs), nowUs);
        stepper.moving == (motion != Stop) &&
        stepper.events == old(stepper.events) + DirectionWrites(motion) + (if pulses then Pulse else []) &&
        stepper.lastStepUs == (if pulses then nowUs else old(stepper.lastStepUs))
    {
      commands := console.ReadSerialCommands(serialIn);

      if Elapsed(nowMs, lastRfidPoll) >= RfidPollIntervalMs {
        lastRfidPoll := nowMs;
        reader.Poll(read);
        web.SetCurrentRfid(reader.CurrentTag());
      }

      if withdrawPressed && !dispensePressed {
        stepper.SetDirection(WithdrawDirHigh);
        stepper.SetMoving(true);
      } else if dispensePressed && !withdrawPressed {
        stepper.SetDirection(!WithdrawDirHigh);
        stepper.SetMoving(true);
      } else {
        stepper.SetMoving(false);
      }

      stepper.Update(nowUs);
    }
  }
}
