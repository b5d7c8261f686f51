/** The `/setup` POST handler: the gate on the controller state, the validation
    of the virtual-knob value and its conversion to a DAC ceiling. */
module Ceiling {
  import opened ControlLoop

  /** Number of bits of the DAC. */
  const DacBits: nat := 12

  /** Largest virtual-knob value accepted. */
  const MaxKnob: real := 10.0

  function Pow2(n: nat): (r: nat)
    ensures r >= 1
  {
    if n == 0 then 1 else 2 * Pow2(n - 1)
  }

  /** The largest DAC value, 2^DacBits - 1. */
  function FullScale(): (r: int)
    ensures r == 4095
  {
    Pow2(DacBits) - 1
  }

  /** How the handler answers a POST. */
  datatype SetupReply =
    | NotOff        // the filament is on or ramping
    | InvalidValue  // the form field is missing or not a number
    | OutOfRange    // the value is outside (0.0, 10.0]
    | SaveFailed    // the ceiling changed but could not be written to disk
    | Changed

  /** The reply and the ceiling held afterwards. */
  datatype SetupResult = SetupResult(reply: SetupReply, ceiling: int)

  /** `int((v / 10.0) * (2^12 - 1))` on exact reals; `int` truncates, which is
      the floor for the positive values that reach it. */
  function KnobToCeiling(knob: real): (r: int)
    requires 0.0 < knob <= MaxKnob
    ensures 0 <= r <= FullScale()
    ensures r as real <= knob / MaxKnob * FullScale() as real < r as real + 1.0
    ensures knob == MaxKnob ==> r == FullScale()
  {
    (knob / MaxKnob * FullScale() as real).Floor
  }

  /** A larger knob value never gives a smaller ceiling. */
  lemma KnobToCeilingMonotone(a: real, b: real)
    requires 0.0 < a <= b <= MaxKnob
    ensures KnobToCeiling(a) <= KnobToCeiling(b)
  {
    var x, y := a / MaxKnob * FullScale() as real, b / MaxKnob * FullScale() as real;
    assert x <= y;
  }

  /** Values this small still pass validation and give a ceiling of 0. */
  lemma SmallKnobGivesZeroCeiling(knob: real)
    requires 0.0 < knob < MaxKnob / FullScale() as real
    ensures KnobToCeiling(knob) == 0
  {
  }

  /** The POST handler on the state it reads: `knob` is None when the form
      value cannot be parsed as a number, and `saved` is whether writing the
      ceiling file succeeded. */
  function Setup(phase: Phase, ceiling: int, knob: Option<real>, saved: bool): (r: SetupResult)
    // outside OFF nothing is looked at and nothing changes
    ensures phase != Off ==> r == SetupResult(NotOff, ceiling)
    ensures r.ceiling != ceiling ==> phase == Off
    // in OFF, a missing or malformed value, then a value outside (0, 10], is refused
    ensures phase == Off && knob.None? ==> r == SetupResult(InvalidValue, ceiling)
    ensures phase == Off && knob.Some? && !(0.0 < knob.value <= MaxKnob) ==> r == SetupResult(OutOfRange, ceiling)
    // an accepted value sets a ceiling in [0, 2^12 - 1], kept even when saving fails
    ensures (r.reply == Changed || r.reply == SaveFailed) <==> phase == Off && knob.Some? && 0.0 < knob.value <= MaxKnob
    ensures r.reply == Changed || r.reply == SaveFailed ==>
      && r.ceiling == KnobToCeiling(knob.value)
      && 0 <= r.ceiling <= FullScale()
      && (r.reply == Changed <==> saved)
  {
    if phase != Off then SetupResult(NotOff, ceiling)
    else if knob.None? then SetupResult(InvalidValue, ceiling)
    else if knob.value <= 0.0 || knob.value > MaxKnob then SetupResult(OutOfRange, ceiling)
    else
      var c := KnobToCeiling(knob.value);
      SetupResult(if saved then Changed else SaveFailed, c)
  }
}
