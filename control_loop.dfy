/** The filament controller's state machine: one iteration of the control loop
    (the body of `while True` in `controller_thread`) as a function on a snapshot
    of the globals it reads and writes, the start-up branch, runs of several
    iterations, and what those runs write to the DAC. */
module ControlLoop {

  datatype Option<T> = None | Some(value: T)

  /** The four states of the controller state machine. */
  datatype Phase = Off | On | RampUp | RampDown

  /** The globals the control loop works on: `state`, `dac_value`,
      `max_dac_value`, `on_button_pressed` and `off_button_pressed`, and
      whether the controller thread is still running (it ends when an
      iteration raises). */
  datatype Snapshot = Snapshot(phase: Phase, dac: int, ceiling: int, onPressed: bool, offPressed: bool, alive: bool)

  /** One iteration: the globals afterwards and the value written to the DAC, if any. */
  datatype Transition = Transition(next: Snapshot, write: Option<int>)

  /** Several iterations: the globals afterwards and every value written, in order. */
  datatype Run = Run(final: Snapshot, written: seq<int>)

  function Writes(w: Option<int>): seq<int>
  {
    if w.Some? then [w.value] else []
  }

  /** A ramp iteration first pauses for 30 / (ceiling + 1) seconds. That raises
      when the ceiling is -1 (division by zero) or below (a negative pause),
      which ends the controller thread before anything is written. */
  predicate PauseFails(ceiling: int)
  {
    ceiling + 1 <= 0
  }

  /** One iteration of the control loop; once the thread has ended nothing runs. */
  function ControlStep(s: Snapshot): (t: Transition)
    ensures !s.alive ==> t == Transition(s, None)
    // every iteration, in every state, drops both requests and keeps the ceiling
    ensures s.alive ==> !t.next.onPressed && !t.next.offPressed
    ensures t.next.ceiling == s.ceiling
    // rest states: only the matching request matters; the output is neither changed nor written
    ensures s.alive && s.phase == Off ==>
      && t.next.alive && t.write == None && t.next.dac == s.dac
      && (t.next.phase == RampUp <==> s.onPressed)
      && (t.next.phase == Off <==> !s.onPressed)
    ensures s.alive && s.phase == On ==>
      && t.next.alive && t.write == None && t.next.dac == s.dac
      && (t.next.phase == RampDown <==> s.offPressed)
      && (t.next.phase == On <==> !s.offPressed)
    // a ramp iteration whose pause raises ends the thread, writing nothing and changing neither state nor level
    ensures s.alive && (s.phase == RampUp || s.phase == RampDown) ==> (t.next.alive <==> !PauseFails(s.ceiling))
    ensures s.alive && (s.phase == RampUp || s.phase == RampDown) && PauseFails(s.ceiling) ==>
      t.write == None && t.next.phase == s.phase && t.next.dac == s.dac
    // otherwise a ramp moves exactly one unit per iteration, writes every new level and ends at its bound
    ensures s.alive && s.phase == RampUp && !PauseFails(s.ceiling) ==>
      && t.next.dac == s.dac + 1 && t.write == Some(t.next.dac)
      && (t.next.phase == On <==> t.next.dac >= s.ceiling)
      && (t.next.phase == RampUp <==> t.next.dac < s.ceiling)
    ensures s.alive && s.phase == RampDown && !PauseFails(s.ceiling) ==>
      && t.next.dac == s.dac - 1 && t.write == Some(t.next.dac)
      && (t.next.phase == Off <==> t.next.dac <= 0)
      && (t.next.phase == RampDown <==> t.next.dac > 0)
  {
    if !s.alive then Transition(s, None)
    else
      match s.phase
      case Off =>
        Transition(Snapshot(if s.onPressed then RampUp else Off, s.dac, s.ceiling, false, false, true), None)
      case RampUp =>
        if PauseFails(s.ceiling) then Transition(Snapshot(RampUp, s.dac, s.ceiling, false, false, false), None)
        else
          var level := s.dac + 1;
          Transition(Snapshot(if level >= s.ceiling then On else RampUp, level, s.ceiling, false, false, true), Some(level))
      case On =>
        Transition(Snapshot(if s.offPressed then RampDown else On, s.dac, s.ceiling, false, false, true), None)
      case RampDown =>
        if PauseFails(s.ceiling) then Transition(Snapshot(RampDown, s.dac, s.ceiling, false, false, false), None)
        else
          var level := s.dac - 1;
          Transition(Snapshot(if level <= 0 then Off else RampDown, level, s.ceiling, false, false, true), Some(level))
  }

  /** The level at which a ramp up from 0 stops: the ceiling, but at least 1,
      because the comparison comes after the first increment. */
  function Top(ceiling: int): int
  {
    if ceiling >= 1 then ceiling else 1
  }

  /** What holds of the globals between iterations, whatever requests arrive. */
  predicate Inv(s: Snapshot)
  {
    && s.dac >= 0
    && (s.phase == Off ==> s.dac == 0)
    && (s.phase == RampUp ==> s.dac == 0 || s.dac < s.ceiling)
    && (s.phase == On ==> s.dac == Top(s.ceiling))
    && (s.phase == RampDown ==> s.dac >= 1)
    && (!s.alive ==> (s.phase == RampUp || s.phase == RampDown) && PauseFails(s.ceiling))
  }

  lemma StepPreservesInv(s: Snapshot)
    requires Inv(s)
    ensures Inv(ControlStep(s).next)
    ensures ControlStep(s).next.dac >= 0
  {
  }

  /** The start-up branch: the level read from the DAC becomes `dac_value`; a
      nonzero level is ramped down, never treated as on. */
  function Start(reading: nat, ceiling: int): (s: Snapshot)
    ensures Inv(s)
    ensures s.dac == reading && s.ceiling == ceiling && !s.onPressed && !s.offPressed
    ensures s.phase != On && s.phase != RampUp && s.alive
    ensures s.phase == Off <==> reading == 0
  {
    Snapshot(if reading > 0 then RampDown else Off, reading, ceiling, false, false, true)
  }

  /** `n` iterations of the control loop with no request arriving in between. */
  function Iterate(s: Snapshot, n: nat): (r: Run)
    ensures |r.written| <= n
    ensures r.final.ceiling == s.ceiling
    ensures !s.alive ==> r.final == s
    ensures n > 0 && s.alive ==> !r.final.onPressed && !r.final.offPressed
    decreases n
  {
    if n == 0 then Run(s, [])
    else
      var t := ControlStep(s);
      var rest := Iterate(t.next, n - 1);
      Run(rest.final, Writes(t.write) + rest.written)
  }

  /** The ascending levels lo, lo + 1, ..., hi - 1. */
  function Up(lo: int, hi: int): (r: seq<int>)
    ensures |r| == if lo < hi then hi - lo else 0
    ensures forall i :: 0 <= i < |r| ==> r[i] == lo + i
    decreases hi - lo
  {
    if lo >= hi then [] else [lo] + Up(lo + 1, hi)
  }

  /** The descending levels hi - 1, hi - 2, ..., lo. */
  function Down(hi: int, lo: int): (r: seq<int>)
    ensures |r| == if lo < hi then hi - lo else 0
    ensures forall i :: 0 <= i < |r| ==> r[i] == hi - 1 - i
    decreases hi - lo
  {
    if hi <= lo then [] else [hi - 1] + Down(hi - 1, lo)
  }

  function Reversed(s: seq<int>): seq<int>
  {
    if s == [] then [] else Reversed(s[1..]) + [s[0]]
  }

  lemma {:induction false} DownLast(hi: int, lo: int)
    requires lo < hi
    ensures Down(hi, lo) == Down(hi, lo + 1) + [lo]
    decreases hi - lo
  {
    if lo + 1 < hi {
      DownLast(hi - 1, lo);
    }
  }

  /** A ramp down retraces the levels of a ramp up in reverse order. */
  lemma {:induction false} DownIsReversedUp(lo: int, hi: int)
    ensures Down(hi, lo) == Reversed(Up(lo, hi))
    decreases hi - lo
  {
    if lo < hi {
      var u := Up(lo, hi);
      assert u[1..] == Up(lo + 1, hi);
      DownIsReversedUp(lo + 1, hi);
      DownLast(hi, lo);
    }
  }

  /** Running n + 1 iterations is running n and then one more. */
  lemma {:induction false} IterateLast(s: Snapshot, n: nat)
    ensures Iterate(s, n + 1).final == ControlStep(Iterate(s, n).final).next
    ensures Iterate(s, n + 1).written == Iterate(s, n).written + Writes(ControlStep(Iterate(s, n).final).write)
    decreases n
  {
    if n > 0 {
      var t := ControlStep(s);
      IterateLast(t.next, n - 1);
    }
  }

  /** A ramp up in progress below the ceiling writes every level up to the
      ceiling, stays in RAMP_UP until then, and ends in ON at the ceiling. */
  lemma {:induction false} RampUpCompletes(s: Snapshot)
    requires s.alive && s.phase == RampUp && 0 <= s.dac < s.ceiling
    ensures Iterate(s, s.ceiling - s.dac) == Run(Snapshot(On, s.ceiling, s.ceiling, false, false, true), Up(s.dac + 1, s.ceiling + 1))
    ensures forall k :: 0 <= k < s.ceiling - s.dac ==> Iterate(s, k).final.phase == RampUp
    decreases s.ceiling - s.dac
  {
    var n := s.ceiling - s.dac;
    var t := ControlStep(s);
    if s.dac + 1 < s.ceiling {
      RampUpCompletes(t.next);
      forall k | 0 < k < n
        ensures Iterate(s, k).final.phase == RampUp
      {
        assert Iterate(s, k).final == Iterate(t.next, k - 1).final;
      }
    }
  }

  /** A ramp down in progress, with a ceiling whose pause does not raise,
      writes every level below the current one down to 0, stays in RAMP_DOWN
      until then, and ends in OFF at 0. */
  lemma {:induction false} RampDownCompletes(s: Snapshot)
    requires s.alive && s.phase == RampDown && s.dac >= 1 && s.ceiling >= 0
    ensures Iterate(s, s.dac) == Run(Snapshot(Off, 0, s.ceiling, false, false, true), Down(s.dac, 0))
    ensures forall k :: 0 <= k < s.dac ==> Iterate(s, k).final.phase == RampDown
    decreases s.dac
  {
    var t := ControlStep(s);
    if s.dac > 1 {
      RampDownCompletes(t.next);
      forall k | 0 < k < s.dac
        ensures Iterate(s, k).final.phase == RampDown
      {
        assert Iterate(s, k).final == Iterate(t.next, k - 1).final;
      }
    }
  }

  /** From OFF at 0 with an on-request and a ceiling C >= 1, the next C + 1
      iterations write exactly 1, 2, ..., C and end in ON; the off-request is
      ignored. */
  lemma SwitchOnRamp(s: Snapshot)
    requires s.alive && s.phase == Off && s.dac == 0 && s.onPressed && s.ceiling >= 1
    ensures Iterate(s, s.ceiling + 1) == Run(Snapshot(On, s.ceiling, s.ceiling, false, false, true), Up(1, s.ceiling + 1))
    ensures forall k :: 1 <= k <= s.ceiling ==> Iterate(s, k).final.phase == RampUp
  {
    var t := ControlStep(s);
    RampUpCompletes(t.next);
    forall k | 1 <= k <= s.ceiling
      ensures Iterate(s, k).final.phase == RampUp
    {
      assert Iterate(s, k).final == Iterate(t.next, k - 1).final;
    }
  }

  /** From ON at a ceiling C >= 1 with an off-request, the next C + 1
      iterations write exactly C - 1, ..., 0 and end in OFF; the on-request is
      ignored. */
  lemma SwitchOffRamp(s: Snapshot)
    requires s.alive && s.phase == On && s.dac == s.ceiling && s.offPressed && s.ceiling >= 1
    ensures Iterate(s, s.ceiling + 1) == Run(Snapshot(Off, 0, s.ceiling, false, false, true), Down(s.ceiling, 0))
    ensures forall k :: 1 <= k <= s.ceiling ==> Iterate(s, k).final.phase == RampDown
  {
    var t := ControlStep(s);
    RampDownCompletes(t.next);
    forall k | 1 <= k <= s.ceiling
      ensures Iterate(s, k).final.phase == RampDown
    {
      assert Iterate(s, k).final == Iterate(t.next, k - 1).final;
    }
  }

  /** A ceiling of 0 (a small enough knob value gives it): the ramp up writes
      1, above the ceiling, and goes ON after one ramp iteration. */
  lemma ZeroCeilingRamp(s: Snapshot)
    requires s.alive && s.phase == Off && s.dac == 0 && s.onPressed && s.ceiling == 0
    ensures Iterate(s, 2) == Run(Snapshot(On, 1, 0, false, false, true), [1])
    ensures Inv(Iterate(s, 2).final)
  {
    var t := ControlStep(s);
    assert Iterate(t.next, 1).written == [1];
  }

  /** Once the thread has ended, no iteration runs again. */
  lemma {:induction false} HaltedStaysHalted(s: Snapshot, n: nat)
    requires !s.alive
    ensures Iterate(s, n) == Run(s, [])
    decreases n
  {
    if n > 0 {
      HaltedStaysHalted(s, n - 1);
    }
  }

  /** After the thread has ended at iteration i, later iterations add nothing. */
  lemma {:induction false} IterateAfterHalt(s: Snapshot, i: nat, n: nat)
    requires i <= n && !Iterate(s, i).final.alive
    ensures Iterate(s, n) == Iterate(s, i)
    decreases n - i
  {
    if i < n {
      IterateAfterHalt(s, i, n - 1);
      IterateLast(s, n - 1);
    }
  }

  /** A ramp with a ceiling of -1 or below (only a hand-edited ceiling file
      gives one) ends the thread at its first iteration: nothing is written
      then or later, and the state and level stay where they were. */
  lemma NegativeCeilingHalts(s: Snapshot, n: nat)
    requires s.alive && (s.phase == RampUp || s.phase == RampDown) && s.ceiling <= -1 && n >= 1
    ensures Iterate(s, n) == Run(s.(onPressed := false, offPressed := false, alive := false), [])
  {
    HaltedStaysHalted(ControlStep(s).next, n - 1);
  }

  /** After start-up with a level v read from the DAC and a ceiling of 0 or
      more, the machine reaches OFF at 0 after exactly v iterations, writing
      v - 1, ..., 0; with a ceiling below 0 and v > 0 the thread ends at the
      first iteration and the DAC keeps v. ON and RAMP_UP are never visited. */
  lemma ColdStart(reading: nat, ceiling: int)
    ensures ceiling >= 0 ==>
      Iterate(Start(reading, ceiling), reading) == Run(Snapshot(Off, 0, ceiling, false, false, true), Down(reading, 0))
    ensures ceiling >= 0 ==>
      forall k :: 0 <= k < reading ==> Iterate(Start(reading, ceiling), k).final.phase == RampDown
    ensures ceiling < 0 && reading > 0 ==>
      forall n: nat :: n >= 1 ==> Iterate(Start(reading, ceiling), n) == Run(Snapshot(RampDown, reading, ceiling, false, false, false), [])
  {
    var s := Start(reading, ceiling);
    if reading > 0 {
      if ceiling >= 0 {
        RampDownCompletes(s);
      } else {
        forall n: nat | n >= 1
          ensures Iterate(s, n) == Run(Snapshot(RampDown, reading, ceiling, false, false, false), [])
        {
          NegativeCeilingHalts(s, n);
        }
      }
    }
  }

  /** OFF with no on-request stays OFF, with no write, however many iterations
      run; a pending off-request is dropped. */
  lemma {:induction false} OffIsStable(s: Snapshot, n: nat)
    requires s.phase == Off && !s.onPressed
    ensures Iterate(s, n).final.phase == Off && Iterate(s, n).final.dac == s.dac
    ensures Iterate(s, n).written == []
    decreases n
  {
    if n > 0 {
      OffIsStable(ControlStep(s).next, n - 1);
    }
  }

  /** ON with no off-request stays ON, with no write, however many iterations
      run; a pending on-request is dropped. */
  lemma {:induction false} OnIsStable(s: Snapshot, n: nat)
    requires s.phase == On && !s.offPressed
    ensures Iterate(s, n).final.phase == On && Iterate(s, n).final.dac == s.dac
    ensures Iterate(s, n).written == []
    decreases n
  {
    if n > 0 {
      OnIsStable(ControlStep(s).next, n - 1);
    }
  }

  /** Between iterations the level last written is the level held: every run
      from a state satisfying the invariant keeps it, and a run that wrote
      anything ends at the last value written. */
  lemma {:induction false} IterateKeepsInv(s: Snapshot, n: nat)
    requires Inv(s)
    ensures Inv(Iterate(s, n).final)
    ensures Iterate(s, n).final.ceiling == s.ceiling
    ensures Iterate(s, n).written == [] ==> Iterate(s, n).final.dac == s.dac
    ensures Iterate(s, n).written != [] ==> Iterate(s, n).written[|Iterate(s, n).written| - 1] == Iterate(s, n).final.dac
    decreases n
  {
    if n > 0 {
      var t := ControlStep(s);
      StepPreservesInv(s);
      IterateKeepsInv(t.next, n - 1);
    }
  }

  /** A full episode with a ceiling C >= 1: an on-request from OFF at 0 ramps
      through 1, ..., C to ON; an off-request then ramps back through the same
      levels in reverse order, to 0, and the machine is OFF again. */
  lemma OnOffCycle(c: int, offAlsoPressed: bool, onAlsoPressed: bool)
    requires c >= 1
    ensures
      var up := Iterate(Snapshot(Off, 0, c, true, offAlsoPressed, true), c + 1);
      var down := Iterate(up.final.(onPressed := onAlsoPressed, offPressed := true), c + 1);
      && up.final == Snapshot(On, c, c, false, false, true)
      && up.written == Up(1, c + 1)
      && down.final == Snapshot(Off, 0, c, false, false, true)
      && down.written == Reversed(Up(0, c))
  {
    SwitchOnRamp(Snapshot(Off, 0, c, true, offAlsoPressed, true));
    SwitchOffRamp(Snapshot(On, c, c, onAlsoPressed, true, true));
    DownIsReversedUp(0, c);
  }
}
