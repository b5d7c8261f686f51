/** The control-loop thread and the web handlers share the same globals. Each
    loop iteration and each handler is taken as one atomic event; any order of
    events is a possible history. */
module Interleaving {
  import opened ControlLoop
  import opened Ceiling
  import opened WebRequests

  datatype Event =
    | LoopIteration                                // one pass of the control loop
    | OnRequest                                    // `/filament-on`
    | OffRequest                                   // `/filament-off`
    | SetupRequest(knob: Option<real>, saved: bool) // a `/setup` POST

  /** The globals after one event. Only a loop iteration moves the state or
      the level; the ceiling changes only through `/setup` in OFF. */
  function Apply(s: Snapshot, e: Event): (r: Snapshot)
    ensures e != LoopIteration ==> r.phase == s.phase && r.dac == s.dac && r.alive == s.alive
    ensures r.ceiling != s.ceiling ==> e.SetupRequest? && s.phase == Off
  {
    match e
    case LoopIteration => ControlStep(s).next
    case OnRequest => s.(onPressed := true)
    case OffRequest => s.(offPressed := true)
    case SetupRequest(knob, saved) => s.(ceiling := Setup(s.phase, s.ceiling, knob, saved).ceiling)
  }

  /** The globals after the events `es`, in order. */
  function ApplyAll(s: Snapshot, es: seq<Event>): (r: Snapshot)
    ensures (forall i :: 0 <= i < |es| ==> es[i] != LoopIteration) ==>
      r.phase == s.phase && r.dac == s.dac && r.alive == s.alive
    ensures (forall i :: 0 <= i < |es| ==> !es[i].SetupRequest?) ==> r.ceiling == s.ceiling
    decreases |es|
  {
    if es == [] then s else Apply(ApplyAll(s, es[..|es| - 1]), es[|es| - 1])
  }

  /** A web request only raises its flag: the state and the level are left to
      the control loop. */
  lemma RequestsOnlySetFlags(s: Snapshot, e: Event)
    requires e == OnRequest || e == OffRequest
    ensures Apply(s, e).phase == s.phase && Apply(s, e).dac == s.dac && Apply(s, e).ceiling == s.ceiling
    ensures e == OnRequest ==> Apply(s, e).onPressed && Apply(s, e).offPressed == s.offPressed
    ensures e == OffRequest ==> Apply(s, e).offPressed && Apply(s, e).onPressed == s.onPressed
  {
  }

  /** Every event keeps the invariant of the control loop. */
  lemma ApplyKeepsInv(s: Snapshot, e: Event)
    requires Inv(s)
    ensures Inv(Apply(s, e))
  {
    if e.LoopIteration? {
      StepPreservesInv(s);
    }
  }

  /** Whatever the order of iterations and requests, the invariant holds:
      OFF is at 0, ON is at the ramp's top, a ramp down is above 0. */
  lemma {:induction false} ApplyAllKeepsInv(s: Snapshot, es: seq<Event>)
    requires Inv(s)
    ensures Inv(ApplyAll(s, es))
    decreases |es|
  {
    if es != [] {
      ApplyAllKeepsInv(s, es[..|es| - 1]);
      ApplyKeepsInv(ApplyAll(s, es[..|es| - 1]), es[|es| - 1]);
    }
  }

  /** The ceiling cannot change during an episode: if no event of a history
      meets the machine in OFF, the ceiling at the end is the one at the start,
      whatever `/setup` requests arrive. */
  lemma {:induction false} CeilingFixedAwayFromOff(s: Snapshot, es: seq<Event>)
    requires forall i :: 0 <= i < |es| ==> ApplyAll(s, es[..i]).phase != Off
    ensures ApplyAll(s, es).ceiling == s.ceiling
    decreases |es|
  {
    if es != [] {
      var front := es[..|es| - 1];
      forall i | 0 <= i < |front|
        ensures ApplyAll(s, front[..i]).phase != Off
      {
        assert front[..i] == es[..i];
      }
      CeilingFixedAwayFromOff(s, front);
      assert es[..|es| - 1] == front;
      assert ApplyAll(s, es[..|front|]).phase != Off;
    }
  }

  /** The `/setup` handler as written: the state is checked first, the new
      ceiling is assigned later, and other events may run in between. With
      nothing in between it is the atomic gate `Apply(s, SetupRequest(...))`. */
  function SetupInterleaved(s: Snapshot, knob: Option<real>, saved: bool, between: seq<Event>): (r: Snapshot)
    ensures between == [] ==> r == Apply(s, SetupRequest(knob, saved))
    ensures s.phase != Off ==> r == ApplyAll(s, between)
  {
    var later := ApplyAll(s, between);
    later.(ceiling := Setup(s.phase, later.ceiling, knob, saved).ceiling)
  }

  /** The gap between the check and the assignment lets a ceiling change land
      in the middle of a ramp: the check sees OFF with an on-request pending,
      the control loop starts RAMP_UP, then the new ceiling is assigned. */
  lemma SetupRaceChangesCeilingMidRamp()
    ensures
      var s := Snapshot(Off, 0, 100, true, false, true);
      var r := SetupInterleaved(s, Some(MaxKnob), true, [LoopIteration]);
      && r.phase == RampUp
      && r.ceiling == FullScale()
      && r.ceiling != s.ceiling
  {
    var s := Snapshot(Off, 0, 100, true, false, true);
    assert ApplyAll(s, [LoopIteration]) == Apply(s, LoopIteration) by {
      assert [LoopIteration][..0] == [];
    }
  }

  /** The first half of a ramp iteration of a running thread, up to its pause
      (app.py:96-98, 110-112): both requests are dropped, nothing else changes. */
  function PauseBegins(s: Snapshot): (r: Snapshot)
    ensures !r.onPressed && !r.offPressed
    ensures r.phase == s.phase && r.dac == s.dac && r.ceiling == s.ceiling && r.alive == s.alive
  {
    s.(onPressed := false, offPressed := false)
  }

  /** The second half of a ramp iteration, after a pause that did not raise
      (app.py:99-102, 113-116): move the level by one and maybe change state.
      The requests raised during the pause are left for the next iteration;
      with none raised, the two halves make up one `ControlStep`. */
  function PauseEnds(s: Snapshot): (r: Snapshot)
    requires s.alive && (s.phase == RampUp || s.phase == RampDown) && !PauseFails(s.ceiling)
    ensures r.onPressed == s.onPressed && r.offPressed == s.offPressed
    ensures r.(onPressed := false, offPressed := false) == ControlStep(s).next
  {
    if s.phase == RampUp then
      var level := s.dac + 1;
      s.(phase := if level >= s.ceiling then On else RampUp, dac := level)
    else
      var level := s.dac - 1;
      s.(phase := if level <= 0 then Off else RampDown, dac := level)
  }

  /** A ramp iteration split at its pause, with the requests `during` it
      landing in between, ends where the atomic iteration ends, except that
      the requests raised during the pause are still pending. */
  lemma SplitRampIteration(s: Snapshot, during: seq<Event>)
    requires s.alive && (s.phase == RampUp || s.phase == RampDown) && !PauseFails(s.ceiling)
    requires forall i :: 0 <= i < |during| ==> during[i] == OnRequest || during[i] == OffRequest
    ensures var mid := ApplyAll(PauseBegins(s), during);
      && mid.phase == s.phase && mid.dac == s.dac && mid.ceiling == s.ceiling && mid.alive
      && PauseEnds(mid).(onPressed := false, offPressed := false) == ControlStep(s).next
  {
    RequestsOnlyRaiseFlags(PauseBegins(s), during);
  }

  /** A history of requests alone changes nothing but the two flags. */
  lemma {:induction false} RequestsOnlyRaiseFlags(s: Snapshot, es: seq<Event>)
    requires forall i :: 0 <= i < |es| ==> es[i] == OnRequest || es[i] == OffRequest
    ensures ApplyAll(s, es).(onPressed := s.onPressed, offPressed := s.offPressed) == s
    decreases |es|
  {
    if es != [] {
      RequestsOnlyRaiseFlags(s, es[..|es| - 1]);
    }
  }

  /** The last pause of a ramp up: an off-request made then is refused with
      "you cannot turn it off while it is already turning on", yet it survives
      the end of the iteration and the next iteration, in ON, starts the ramp
      down. */
  lemma RefusedOffActedOn(s: Snapshot)
    requires Inv(s) && s.alive && s.phase == RampUp && !PauseFails(s.ceiling) && s.dac + 1 >= s.ceiling
    ensures OffReplyFor(PauseBegins(s).phase) == OffWhileRampingUp
    ensures var after := PauseEnds(PauseBegins(s).(offPressed := true));
      && after.phase == On && after.offPressed
      && ControlStep(after).next.phase == RampDown
  {
  }

  /** The last pause of a ramp down: an on-request made then is refused with
      "you cannot turn it on while it is already turning off", yet the next
      iteration, in OFF, starts the ramp up. */
  lemma RefusedOnActedOn(s: Snapshot)
    requires Inv(s) && s.alive && s.phase == RampDown && !PauseFails(s.ceiling) && s.dac <= 1
    ensures OnReplyFor(PauseBegins(s).phase) == OnWhileRampingDown
    ensures var after := PauseEnds(PauseBegins(s).(onPressed := true));
      && after.phase == Off && after.onPressed
      && ControlStep(after).next.phase == RampUp
  {
  }
}
