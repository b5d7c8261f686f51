# Filament controller — Dafny model

The program drives a 12-bit DAC that powers a filament, and it never changes
the output by more than one unit at a time. A controller thread runs a
four-state machine: OFF, RAMP_UP, ON and RAMP_DOWN. Web handlers raise an
on-request or an off-request flag, which the loop consumes. The `/setup`
handler changes the ceiling of the ramp, but only when it finds the machine
OFF (it does not hold it there: see Findings).
The `/status` handler keeps a registry of recently seen clients.

The model has these parts:

- `ControlLoop` (control_loop.dfy) is one loop iteration as a function
  (`ControlStep`) on a snapshot of the globals, including whether the
  controller thread is still running: a ramp iteration whose pause raises
  (a ceiling of -1 or below) ends the thread. It also holds the start-up
  branch (`Start`), runs of n iterations (`Iterate`), and the lemmas about the
  exact sequences of values written to the DAC.
- `WebRequests` is the choice of reply for `/filament-on`, `/filament-off` and
  `/status`, and how each reply relates to what the next iteration does.
- `Ceiling` is the validation of the knob value, its conversion to a ceiling,
  and the state gate of `/setup`.
- `ActiveUsers` is the pruning of the client registry.
- `Interleaving` takes every loop iteration and every handler call as an
  atomic event, in any order. It proves that the invariant and the fixed
  ceiling survive any history. It also models `/setup` as it is written, with
  a gap between the check and the assignment, and a ramp iteration split at
  its pause, with requests landing during the pause.
- `Controller.FilamentController` is the class that holds the globals. Its
  methods update the fields in place. Each method's `ensures` ties the new
  state to the functions above. The DAC is a ghost history of written values,
  and the CSV log is a ghost sequence of entries.

The program's I/O is passed in as parameters:

- the value read from the DAC at start-up;
- the ceiling read from `max_dac_value.txt`;
- the parsed knob value (`None` when it does not parse);
- whether saving the ceiling file succeeded;
- the client address and the current time, as an integer number of seconds.

This version of the program has no shutoff timer, no averaged start-up read,
no panel buttons and no manual/computer gating. `computer_control` is never
changed.

## Model

| member | source | states |
|---|---|---|
| ControlLoop.ControlStep | app.py:88-116 | once the thread has ended nothing changes; otherwise every iteration clears both flags and keeps the ceiling; OFF goes to RAMP_UP iff the on-flag is set (off-flag ignored), ON goes to RAMP_DOWN iff the off-flag is set (on-flag ignored), neither writes nor changes the level; a ramp iteration with a ceiling of -1 or below ends the thread without writing or changing state or level (the pause at lines 98 and 112 raises); otherwise RAMP_UP raises the level by exactly 1, writes it, and is ON next iff the new level is >= the ceiling, and RAMP_DOWN lowers it by 1, writes it, and is OFF next iff it is <= 0 |
| ControlLoop.StepPreservesInv | app.py:88-116 | one iteration keeps the invariant: OFF at level 0, RAMP_UP at 0 or below the ceiling, ON at max(ceiling, 1), RAMP_DOWN above 0, and a thread that has ended did so in a ramp with a ceiling of -1 or below |
| ControlLoop.Start | app.py:83-86 | start-up keeps the level read from the DAC; the thread is running; it is OFF exactly when that level is 0, never ON or RAMP_UP, and the invariant holds |
| ControlLoop.Up | app.py:95-102 | the ascending levels lo, ..., hi-1: the right length, element i is lo + i |
| ControlLoop.Down | app.py:109-116 | the descending levels hi-1, ..., lo: the right length, element i is hi - 1 - i |
| ControlLoop.Iterate | app.py:88-116 | n iterations write at most n values and keep the ceiling; a thread that has ended stays where it is; after at least one iteration of a running thread both flags are clear |
| ControlLoop.IterateLast | app.py:88 | n + 1 iterations are n iterations then one more, both in final state and in the values written |
| ControlLoop.RampUpCompletes | app.py:95-102 | a ramp up at level d below ceiling C takes exactly C - d iterations, writes d+1, ..., C, stays in RAMP_UP until then and ends in ON at C with both flags clear |
| ControlLoop.RampDownCompletes | app.py:109-116 | with a ceiling of 0 or more, a ramp down at level v >= 1 takes exactly v iterations, writes v-1, ..., 0, stays in RAMP_DOWN until then and ends in OFF at 0 |
| ControlLoop.SwitchOnRamp | app.py:89-102 | from OFF at 0 with an on-request and ceiling C >= 1, C + 1 iterations write exactly 1, 2, ..., C and end in ON; every state in between is RAMP_UP |
| ControlLoop.SwitchOffRamp | app.py:103-116 | from ON at C >= 1 with an off-request, C + 1 iterations write exactly C-1, ..., 0 and end in OFF; every state in between is RAMP_DOWN |
| ControlLoop.ZeroCeilingRamp | app.py:99-102 | with a ceiling of 0 the ramp up writes the single value 1, above the ceiling, and is ON after two iterations, where the invariant holds (ON at level 1) |
| ControlLoop.ColdStart | app.py:83-116 | after start-up with a reading v and a ceiling of 0 or more, exactly v iterations write v-1, ..., 0 and reach OFF at 0, every earlier state being RAMP_DOWN, so ON and RAMP_UP are never visited; with a ceiling below 0 and v > 0 the thread ends at the first iteration, nothing is ever written and the DAC keeps v |
| ControlLoop.HaltedStaysHalted | app.py:88-116 | once the controller thread has ended, any number of further iterations changes nothing and writes nothing |
| ControlLoop.IterateAfterHalt | app.py:88-116 | if the thread has ended after i iterations, every longer run has the same final state and the same writes as the first i iterations |
| ControlLoop.NegativeCeilingHalts | app.py:95-116 | a ramp with a ceiling of -1 or below ends the thread at its first iteration: the flags are cleared, nothing is written then or later, and the state and level stay where they were |
| ControlLoop.OffIsStable | app.py:89-94 | OFF without an on-request stays OFF at the same level for any number of iterations and writes nothing |
| ControlLoop.OnIsStable | app.py:103-108 | ON without an off-request stays ON at the same level for any number of iterations and writes nothing |
| ControlLoop.IterateKeepsInv | app.py:88-116 | any run keeps the invariant and the ceiling; the level held is the last value written, or the starting level if nothing was written |
| ControlLoop.DownIsReversedUp | app.py:95-116 | the levels of a ramp down are exactly the levels of a ramp up in reverse order |
| ControlLoop.OnOffCycle | app.py:89-116 | for C >= 1, an on-request from OFF at 0 ramps through 1..C to ON, an off-request then writes the reverse of 0..C-1 and returns to OFF at 0 |
| WebRequests.OnTextIdentifiesPhase | app.py:167-174 | the `/filament-on` reply depends only on the state, and two states give two different replies |
| WebRequests.OffTextIdentifiesPhase | app.py:182-189 | the `/filament-off` reply depends only on the state, and two states give two different replies |
| WebRequests.OnReplyFor | app.py:167-174 | "turning on" exactly in OFF, "already on" exactly in ON, and one refusal for each ramp |
| WebRequests.OffReplyFor | app.py:182-189 | "turning off" exactly in ON, "already off" exactly in OFF, and one refusal for each ramp |
| WebRequests.StatusFor | app.py:196-203 | one status message per state: ON, OFF, ramping up, ramping down |
| WebRequests.OnText | app.py:167-174 | the text is "Turning filament on..." exactly for the accepted request; every refusal starts "Filament is " |
| WebRequests.OffText | app.py:182-189 | the text is "Turning filament off..." exactly for the accepted request; every refusal starts "Filament is " |
| WebRequests.OnReplyMatchesEffect | app.py:165-174 | "Turning filament on..." is answered exactly when the controller thread is running and the raised on-flag changes its next iteration, and then that iteration enters RAMP_UP |
| WebRequests.OffReplyMatchesEffect | app.py:180-189 | "Turning filament off..." is answered exactly when the controller thread is running and the raised off-flag changes its next iteration, and then that iteration enters RAMP_DOWN |
| Ceiling.KnobToCeiling | app.py:154 | an accepted knob value gives a ceiling in [0, 4095], the floor of knob/10 * 4095, and 10.0 gives 4095 |
| Ceiling.KnobToCeilingMonotone | app.py:154 | a larger knob value never gives a smaller ceiling |
| Ceiling.SmallKnobGivesZeroCeiling | app.py:152-154 | knob values in (0, 10/4095) pass validation and give a ceiling of 0 |
| Ceiling.Setup | app.py:146-159 | outside OFF the reply is the state error and the ceiling is unchanged; in OFF a missing or malformed value, then a value outside (0, 10], is refused with the ceiling unchanged; any change happens only in OFF; an accepted value sets the converted ceiling in [0, 4095] and keeps it even when saving fails, with the reply telling the two apart |
| ActiveUsers.Refreshed | app.py:119-127 | afterwards the caller maps to `now`; every entry is within 5 seconds of `now`; every other entry within the window is kept with its timestamp; no key other than the caller is added and no timestamp other than the caller's is changed |
| ActiveUsers.RefreshedIdempotent | app.py:119-127 | refreshing twice for the same caller at the same time is the same as refreshing once |
| ActiveUsers.StaleEntryDropped | app.py:124-126 | an entry older than 5 seconds is gone afterwards |
| ActiveUsers.RefreshedCount | app.py:119-127 | afterwards there is at least one active client and at most one more than before |
| Interleaving.Apply | app.py:88-189 | only a loop iteration moves the state, the level or the running flag; the ceiling changes only through `/setup` while OFF |
| Interleaving.ApplyAll | app.py:88-189 | a history with no loop iteration leaves state, level and running flag as they were; a history with no `/setup` leaves the ceiling as it was |
| Interleaving.RequestsOnlySetFlags | app.py:163-181 | an on or off request raises its own flag and changes neither the state, nor the level, nor the ceiling, nor the other flag |
| Interleaving.ApplyKeepsInv | app.py:88-189 | every loop iteration, request and setup call keeps the invariant |
| Interleaving.ApplyAllKeepsInv | app.py:88-189 | any interleaving of loop iterations and handler calls keeps the invariant |
| Interleaving.CeilingFixedAwayFromOff | app.py:146-154 | with atomic handlers, a history in which no event meets the machine in OFF ends with the ceiling it started with: the ceiling is constant through a RAMP_UP/ON/RAMP_DOWN episode |
| Interleaving.SetupInterleaved | app.py:146-154 | `/setup` with its check and its assignment apart: with nothing in between it is the atomic handler, and when the check fails it only lets the other events happen |
| Interleaving.SetupRaceChangesCeilingMidRamp | app.py:146-154 | a loop iteration between the check and the assignment lets the ceiling change while RAMP_UP is running |
| Interleaving.PauseBegins | app.py:96-98 | the part of a ramp iteration before its pause (also lines 110-112) clears both flags and changes nothing else |
| Interleaving.PauseEnds | app.py:99-102 | the part of a ramp iteration after its pause (also lines 113-116) keeps the flags raised during the pause and otherwise ends where `ControlStep` ends |
| Interleaving.RequestsOnlyRaiseFlags | app.py:163-181 | any sequence of on and off requests changes nothing but the two flags |
| Interleaving.SplitRampIteration | app.py:95-116 | a ramp iteration split at its pause, with any requests in the pause, keeps state, level, ceiling and the running thread during the pause, and ends where the atomic iteration ends apart from the pending flags |
| Interleaving.RefusedOffActedOn | app.py:95-106 | an off-request made during the last pause of a ramp up is refused as "ramping up", yet the ON iteration that follows starts the ramp down |
| Interleaving.RefusedOnActedOn | app.py:89-116 | an on-request made during the last pause of a ramp down is refused as "ramping down", yet the OFF iteration that follows starts the ramp up |
| Controller.FilamentController.constructor | app.py:83-86 | the globals after start-up are `Start` of the DAC reading and the stored ceiling; no write, no log entry, no client |
| Controller.FilamentController.Step | app.py:88-116 | for a running thread, the globals afterwards (including whether the thread still runs) are `ControlStep` of the globals before; the DAC history grows by exactly the value that step writes; the invariant and "the level held is the last value written" are kept |
| Controller.FilamentController.RunLoop | app.py:88-116 | n passes of the loop, stopping early when the thread ends, give `Iterate` of the state before, and the DAC history grows by exactly the values `Iterate` writes |
| Controller.FilamentController.FilamentOn | app.py:162-174 | sets the on-flag in every state, changes nothing else of the machine, appends one FILAMENT_ON log entry, and replies according to the state |
| Controller.FilamentController.FilamentOff | app.py:177-189 | sets the off-flag in every state, changes nothing else of the machine, appends one FILAMENT_OFF log entry, and replies according to the state |
| Controller.FilamentController.SetCeiling | app.py:141-159 | reply and new ceiling are those of `Ceiling.Setup`; outside OFF the ceiling is unchanged; nothing else changes |
| Controller.FilamentController.UpdateActiveUsers | app.py:119-127 | the registry afterwards is `Refreshed` of the registry before; the machine is untouched |
| Controller.FilamentController.Status | app.py:192-204 | refreshes the registry, then reports computer control, the state's message, the number of active clients (at least 1), the ceiling and 12 bits |

## Left out

- Flask routing, `render_template`, `make_response`/`jsonify`, the HTTP status codes and the secret-key file (app.py:130-144, 206-212): HTTP plumbing.
- `log_action` and `mac_for_ip` (app.py:43-71): CSV formatting, timestamps and network-interface lookup. A log row is modelled as a ghost entry holding the action and the client address.
- The I2C/MCP4725 set-up (app.py:80-81): a foreign hardware library. The DAC is read once, and the value is a parameter of the constructor. Writes are a ghost history. The library's own range check on `raw_value` is not modelled.
- `time.sleep` pacing of the loop (app.py:94, 98, 108, 112): one iteration is one step, without timing.
- Threads (app.py:206-210): each handler and each loop iteration is an atomic event, and events may come in any order. The gap inside `/setup` is modelled (see Findings). The other gaps listed below are not modelled.
- WebRequests.OnReplyMatchesEffect, WebRequests.OffReplyMatchesEffect: take a loop iteration as atomic, which the code is not. A ramp iteration clears both flags (lines 96-97, 110-111) before its pause (98, 112) and changes state only after it (101-102, 115-116). A request made during the last pause of a ramp survives into the rest state, which acts on it, although the request was refused. Example: ceiling 0, OFF, an on-request; during the RAMP_UP pause a `/filament-off` is answered "Filament is ramping up; you cannot turn it off while it is already turning on." (line 187), and the ON iteration then ramps down (line 104). The split iteration in `Interleaving` (`PauseBegins`, `PauseEnds`, `RefusedOffActedOn`, `RefusedOnActedOn`) shows this; the two lemmas here are stated over atomic iterations only.
- WebRequests.OnReplyMatchesEffect, WebRequests.OffReplyMatchesEffect: take the handler as atomic. `filamentOn` raises the flag at line 165, calls `log_action` at 166 and only then reads `state` at 167; `filamentOff` does the same at lines 180, 181 and 182. If the loop consumes the flag in between, the request that started the ramp is answered "ramping up" (or "ramping down").
- WebRequests.OnReplyMatchesEffect, WebRequests.OffReplyMatchesEffect: take a loop iteration as atomic. The loop reads a flag at line 90 (or 104) and clears it at 93 (or 106). A request that lands in between is lost, although it was answered "Turning filament on..." (or off).
- WebRequests.OffReplyMatchesEffect: takes the handler as atomic. The elif chains (lines 167-174 and 182-189) read `state` again on each line. A RAMP_UP to ON move in the middle of the chain gives no match, and the handler returns `None`.
- Controller.FilamentController.Status: the same re-reading in the chain at lines 196-203 can match no branch. On the first call of `/status` the global `filament_status_message` is then never assigned, and line 204 raises NameError.
- Before lines 83-86 run, handlers see OFF at level 0 whatever the DAC holds. `/setup` is accepted in that window; the model starts at the state after line 86.
- Any other exception in the loop also ends the controller thread with the DAC left where it is: an I2C write error, or the DAC library refusing a value above 4095 when the ceiling is above 4095. Only the failing pause is modelled.
- `while True` never terminates. The model runs a bounded number of iterations (`Iterate`, `RunLoop`).
- Controller.FilamentController.Status: returns the state part of the message only. The ramp percentage (app.py:201-203) is floating-point formatting, and it divides by zero when the ceiling is 0.
- Ceiling.KnobToCeiling: computes on exact reals, so IEEE rounding is idealised. Parsing the form field (app.py:149) is a parameter: `None` when it fails. A NaN value passes the range check and then makes `int()` raise; this is not modelled.
- Persisting the ceiling (app.py:37, 156-158): the file contents are not modelled. The outcome of the write is a boolean parameter. The stored ceiling read at start-up is a parameter of the constructor.
- Timestamps are integers passed in; `time.time()` returns floating-point seconds.
- test.py is not part of this model. It is a GPIO edge-callback demo that only does hardware I/O and printing.

## Findings

| source | as written | input that shows it | evidently intended | confidence | as-written member | corrected member |
|---|---|---|---|---|---|---|
| app.py:146-154 | `/setup` checks `state != OFF` at line 146, then parses and validates the form, then assigns `max_dac_value` at line 154. Nothing stops the controller thread from running in between. | OFF, on-request pending, ceiling 100; `/setup` with knob 10.0 passes the check; one loop iteration enters RAMP_UP; the assignment then sets the ceiling to 4095 during the ramp | the ceiling only changes while the machine is OFF, so no ramp sees a new ceiling | not executed; needs this thread interleaving | Interleaving.SetupRaceChangesCeilingMidRamp | Interleaving.CeilingFixedAwayFromOff |
