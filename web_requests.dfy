/** What the web handlers `filamentOn`, `filamentOff` and `status` answer: a
    reply chosen from the controller state alone. */
module WebRequests {
  import opened ControlLoop

  /** The four answers of `/filament-on`. */
  datatype OnReply = TurningOn | AlreadyOn | OnWhileRampingUp | OnWhileRampingDown

  /** The four answers of `/filament-off`. */
  datatype OffReply = TurningOff | AlreadyOff | OffWhileRampingUp | OffWhileRampingDown

  /** The state part of the `/status` message; the percentage shown while
      ramping is not modelled. */
  datatype StatusMessage = FilamentIsOn | FilamentIsOff | RampingUp | RampingDown

  /** The `/filament-on` answer: only OFF is a request the loop acts on; each
      other state gets its own refusal. */
  function OnReplyFor(p: Phase): (r: OnReply)
    ensures r == TurningOn <==> p == Off
    ensures r == AlreadyOn <==> p == On
    ensures r == OnWhileRampingUp <==> p == RampUp
    ensures r == OnWhileRampingDown <==> p == RampDown
  {
    match p
    case On => AlreadyOn
    case Off => TurningOn
    case RampUp => OnWhileRampingUp
    case RampDown => OnWhileRampingDown
  }

  /** The `/filament-off` answer: only ON is a request the loop acts on; each
      other state gets its own refusal. */
  function OffReplyFor(p: Phase): (r: OffReply)
    ensures r == TurningOff <==> p == On
    ensures r == AlreadyOff <==> p == Off
    ensures r == OffWhileRampingUp <==> p == RampUp
    ensures r == OffWhileRampingDown <==> p == RampDown
  {
    match p
    case On => TurningOff
    case Off => AlreadyOff
    case RampUp => OffWhileRampingUp
    case RampDown => OffWhileRampingDown
  }

  /** The state part of the `/status` message, one message per state. */
  function StatusFor(p: Phase): (r: StatusMessage)
    ensures r == FilamentIsOn <==> p == On
    ensures r == FilamentIsOff <==> p == Off
    ensures r == RampingUp <==> p == RampUp
    ensures r == RampingDown <==> p == RampDown
  {
    match p
    case On => FilamentIsOn
    case Off => FilamentIsOff
    case RampUp => RampingUp
    case RampDown => RampingDown
  }

  /** How every refusal of `/filament-on` and `/filament-off` begins. */
  const RefusalPrefix: string := "Filament is "

  /** The text sent for each `/filament-on` answer: only the accepted request
      is answered "Turning filament on..."; every refusal starts "Filament is ". */
  function OnText(reply: OnReply): (r: string)
    ensures r == "Turning filament on..." <==> reply == TurningOn
    ensures reply != TurningOn ==> |r| > |RefusalPrefix| && r[..|RefusalPrefix|] == RefusalPrefix
  {
    match reply
    case AlreadyOn => RefusalPrefix + "already on; you cannot turn it on while it is already on."
    case TurningOn => "Turning filament on..."
    case OnWhileRampingUp => RefusalPrefix + "ramping up; you cannot turn it on while it is already turning on."
    case OnWhileRampingDown => RefusalPrefix + "ramping down; you cannot turn it on while it is already turning off."
  }

  /** The text sent for each `/filament-off` answer: only the accepted request
      is answered "Turning filament off..."; every refusal starts "Filament is ". */
  function OffText(reply: OffReply): (r: string)
    ensures r == "Turning filament off..." <==> reply == TurningOff
    ensures reply != TurningOff ==> |r| > |RefusalPrefix| && r[..|RefusalPrefix|] == RefusalPrefix
  {
    match reply
    case TurningOff => "Turning filament off..."
    case AlreadyOff => RefusalPrefix + "already off; you cannot turn it off while it is already off."
    case OffWhileRampingUp => RefusalPrefix + "ramping up; you cannot turn it off while it is already turning on."
    case OffWhileRampingDown => RefusalPrefix + "ramping down; you cannot turn it off while it is already turning off."
  }

  /** The on-reply text tells the four states apart: it is a function of the
      state and the state can be read back from it. */
  lemma OnTextIdentifiesPhase(p: Phase, q: Phase)
    ensures OnText(OnReplyFor(p)) == OnText(OnReplyFor(q)) <==> p == q
  {
    match p
    case On => assert OnText(OnReplyFor(p)) == OnText(OnReplyFor(On));
    case Off => assert OnText(OnReplyFor(p)) == OnText(OnReplyFor(Off));
    case RampUp => assert OnText(OnReplyFor(p)) == OnText(OnReplyFor(RampUp));
    case RampDown => assert OnText(OnReplyFor(p)) == OnText(OnReplyFor(RampDown));
  }

  /** The off-reply text tells the four states apart. */
  lemma OffTextIdentifiesPhase(p: Phase, q: Phase)
    ensures OffText(OffReplyFor(p)) == OffText(OffReplyFor(q)) <==> p == q
  {
    match p
    case On => assert OffText(OffReplyFor(p)) == OffText(OffReplyFor(On));
    case Off => assert OffText(OffReplyFor(p)) == OffText(OffReplyFor(Off));
    case RampUp => assert OffText(OffReplyFor(p)) == OffText(OffReplyFor(RampUp));
    case RampDown => assert OffText(OffReplyFor(p)) == OffText(OffReplyFor(RampDown));
  }

  /** "Turning filament on..." is answered exactly when the controller thread
      is running and the on-request changes what its next iteration does, and
      then that iteration starts the ramp up; in every other state the request
      is dropped unseen. */
  lemma OnReplyMatchesEffect(s: Snapshot)
    requires Inv(s)
    ensures OnReplyFor(s.phase) == TurningOn <==>
            s.alive && ControlStep(s.(onPressed := true)) != ControlStep(s.(onPressed := false))
    ensures OnReplyFor(s.phase) == TurningOn ==> ControlStep(s.(onPressed := true)).next.phase == RampUp
  {
  }

  /** "Turning filament off..." is answered exactly when the controller thread
      is running and the off-request changes what its next iteration does, and
      then that iteration starts the ramp down. */
  lemma OffReplyMatchesEffect(s: Snapshot)
    requires Inv(s)
    ensures OffReplyFor(s.phase) == TurningOff <==>
            s.alive && ControlStep(s.(offPressed := true)) != ControlStep(s.(offPressed := false))
    ensures OffReplyFor(s.phase) == TurningOff ==> ControlStep(s.(offPressed := true)).next.phase == RampDown
  {
  }
}
