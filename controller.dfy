/** The globals of the filament controller and the code that updates them in
    place: the start-up of the controller thread, one pass of its loop, the
    `/filament-on`, `/filament-off`, `/setup` and `/status` handlers, and the
    active-user registry. */
module Controller {
  import opened ControlLoop
  import opened WebRequests
  import opened Ceiling
  import opened ActiveUsers

  /** The two actions a web handler records in the CSV log (control type WEB). */
  datatype LoggedAction = FilamentOnAction | FilamentOffAction

  datatype LogEntry = LogEntry(action: LoggedAction, ip: string)

  /** The JSON body of `/status`, without the ramp percentage. */
  datatype StatusReport = StatusReport(
    computerControl: bool, message: StatusMessage, activeUsers: nat, maxDacValue: int, dacBits: nat)

  class FilamentController {
    var state: Phase
    var dacValue: int
    var maxDacValue: int
    var onButtonPressed: bool
    var offButtonPressed: bool
    /** Never changed by this version of the program. */
    const computerControl: bool
    var activeUsers: map<string, int>
    /** Whether the controller thread is still running; it ends when an
        iteration raises. */
    var controllerRunning: bool
    /** Every value written to the DAC, in order. */
    ghost var dacWrites: seq<int>
    /** Every row appended to the action log, in order. */
    ghost var log: seq<LogEntry>

    function Snap(): Snapshot
      reads this
    {
      Snapshot(state, dacValue, maxDacValue, onButtonPressed, offButtonPressed, controllerRunning)
    }

    /** The loop's invariant, and the cached level is the last one written. */
    ghost predicate Valid()
      reads this
    {
      && Inv(Snap())
      && (dacWrites != [] ==> dacWrites[|dacWrites| - 1] == dacValue)
    }

    /** Module load (ceiling read from its file, state OFF) followed by the
        start of the controller thread, which reads the DAC once. */
    constructor (storedCeiling: int, dacReading: nat)
      ensures Valid()
      ensures Snap() == Start(dacReading, storedCeiling)
      ensures computerControl && activeUsers == map[] && dacWrites == [] && log == []
    {
      var phase := Off;
      maxDacValue := storedCeiling;
      onButtonPressed, offButtonPressed := false, false;
      computerControl := true;
      activeUsers := map[];
      dacWrites, log := [], [];
      dacValue := dacReading;
      controllerRunning := true;
      if dacReading > 0 {
        phase := RampDown;
      }
      state := phase;
    }

    /** One pass of the control loop of the running controller thread. A ramp
        pass that pauses for 30 / (ceiling + 1) seconds with a ceiling of -1 or
        below raises, which ends the thread before the level is written. */
    method Step()
      requires Valid() && controllerRunning
      modifies this
      ensures Valid()
      ensures Snap() == ControlStep(old(Snap())).next
      ensures dacWrites == old(dacWrites) + Writes(ControlStep(old(Snap())).write)
      ensures activeUsers == old(activeUsers) && log == old(log)
    {
      StepPreservesInv(Snap());
      if state == Off {
        if onButtonPressed {
          state := RampUp;
        }
        offButtonPressed := false;
        onButtonPressed := false;
      } else if state == RampUp {
        offButtonPressed := false;
        onButtonPressed := false;
        if maxDacValue + 1 <= 0 {
          controllerRunning := false;
          return;
        }
        dacValue := dacValue + 1;
        dacWrites := dacWrites + [dacValue];
        if dacValue >= maxDacValue {
          state := On;
        }
      } else if state == On {
        if offButtonPressed {
          state := RampDown;
        }
        offButtonPressed := false;
        onButtonPressed := false;
      } else {
        offButtonPressed := false;
        onButtonPressed := false;
        if maxDacValue + 1 <= 0 {
          controllerRunning := false;
          return;
        }
        dacValue := dacValue - 1;
        dacWrites := dacWrites + [dacValue];
        if dacValue <= 0 {
          state := Off;
        }
      }
    }

    /** The first `iterations` passes of the loop, with no request in between;
        once the thread has ended no further pass runs. */
    method RunLoop(iterations: nat)
      requires Valid()
      modifies this
      ensures Valid()
      ensures Snap() == Iterate(old(Snap()), iterations).final
      ensures dacWrites == old(dacWrites) + Iterate(old(Snap()), iterations).written
      ensures activeUsers == old(activeUsers) && log == old(log)
    {
      ghost var s0, w0 := Snap(), dacWrites;
      var i := 0;
      while i < iterations && controllerRunning
        invariant 0 <= i <= iterations
        invariant Valid()
        invariant Snap() == Iterate(s0, i).final
        invariant dacWrites == w0 + Iterate(s0, i).written
        invariant activeUsers == old(activeUsers) && log == old(log)
      {
        IterateLast(s0, i);
        Step();
        i := i + 1;
      }
      if i < iterations {
        assert !Iterate(s0, i).final.alive;
        IterateAfterHalt(s0, i, iterations);
      }
    }

    /** `/filament-on`: raise the on-request, log it, answer by the state. */
    method FilamentOn(ip: string) returns (reply: OnReply)
      requires Valid()
      modifies this
      ensures Valid()
      ensures Snap() == old(Snap()).(onPressed := true)
      ensures reply == OnReplyFor(state)
      ensures log == old(log) + [LogEntry(FilamentOnAction, ip)]
      ensures activeUsers == old(activeUsers) && dacWrites == old(dacWrites)
    {
      onButtonPressed := true;
      log := log + [LogEntry(FilamentOnAction, ip)];
      reply := OnReplyFor(state);
    }

    /** `/filament-off`: raise the off-request, log it, answer by the state. */
    method FilamentOff(ip: string) returns (reply: OffReply)
      requires Valid()
      modifies this
      ensures Valid()
      ensures Snap() == old(Snap()).(offPressed := true)
      ensures reply == OffReplyFor(state)
      ensures log == old(log) + [LogEntry(FilamentOffAction, ip)]
      ensures activeUsers == old(activeUsers) && dacWrites == old(dacWrites)
    {
      offButtonPressed := true;
      log := log + [LogEntry(FilamentOffAction, ip)];
      reply := OffReplyFor(state);
    }

    /** A `/setup` POST; `knob` is None when the form value is not a number and
        `saved` is whether writing the ceiling file succeeds. */
    method SetCeiling(knob: Option<real>, saved: bool) returns (reply: SetupReply)
      requires Valid()
      modifies this
      ensures Valid()
      ensures var r := Setup(old(state), old(maxDacValue), knob, saved);
        reply == r.reply && Snap() == old(Snap()).(ceiling := r.ceiling)
      ensures old(state) != Off ==> maxDacValue == old(maxDacValue)
      ensures activeUsers == old(activeUsers) && dacWrites == old(dacWrites) && log == old(log)
    {
      if state != Off {
        return NotOff;
      }
      if knob.None? {
        return InvalidValue;
      }
      var v := knob.value;
      if v <= 0.0 || v > MaxKnob {
        return OutOfRange;
      }
      maxDacValue := KnobToCeiling(v);
      if !saved {
        return SaveFailed;
      }
      return Changed;
    }

    /** Record `ip` as seen at `now` and drop every client idle for too long. */
    method UpdateActiveUsers(ip: string, now: int)
      modifies this
      ensures activeUsers == Refreshed(old(activeUsers), ip, now)
      ensures Snap() == old(Snap()) && dacWrites == old(dacWrites) && log == old(log)
    {
      activeUsers := activeUsers[ip := now];
      var kept: map<string, int> := map[];
      var pending := activeUsers.Keys;
      while pending != {}
        invariant pending <= activeUsers.Keys
        invariant forall k :: k in kept ==> k in activeUsers && k !in pending && kept[k] == activeUsers[k]
        invariant forall k :: k in kept ==> now - activeUsers[k] <= MaxIdleSeconds
        invariant forall k :: k in activeUsers && k !in pending && now - activeUsers[k] <= MaxIdleSeconds ==> k in kept
        invariant Snap() == old(Snap()) && dacWrites == old(dacWrites) && log == old(log)
        invariant activeUsers == old(activeUsers)[ip := now]
        decreases pending
      {
        var k :| k in pending;
        if now - activeUsers[k] <= MaxIdleSeconds {
          kept := kept[k := activeUsers[k]];
        }
        pending := pending - {k};
      }
      activeUsers := kept;
    }

    /** `/status`: refresh the registry, then report. */
    method Status(ip: string, now: int) returns (report: StatusReport)
      requires Valid()
      modifies this
      ensures Valid()
      ensures activeUsers == Refreshed(old(activeUsers), ip, now)
      ensures report == StatusReport(computerControl, StatusFor(state), |activeUsers|, maxDacValue, DacBits)
      ensures report.activeUsers >= 1
      ensures Snap() == old(Snap()) && dacWrites == old(dacWrites) && log == old(log)
    {
      UpdateActiveUsers(ip, now);
      RefreshedCount(old(activeUsers), ip, now);
      report := StatusReport(computerControl, StatusFor(state), |activeUsers|, maxDacValue, DacBits);
    }
  }
}
