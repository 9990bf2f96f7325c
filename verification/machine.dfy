/**
 The office as an abstract state machine over `Mode`: the reference the
 string-level controller is proved against. A request is normalised and
 parsed once, then judged by the legality table alone.
 */
module Machine {
  import opened Wrappers
  import opened Text
  import opened Modes
  import opened Transitions

  /** Identity label, current mode, and the mode held just before the most
      recent entry into an emergency mode (if there was one). */
  datatype Office = Office(id: string, mode: Mode, previous: Option<Mode>)

  /** Whether a request was accepted, and the office after it. */
  datatype Outcome = Outcome(accepted: bool, office: Office)

  /** A freshly constructed office. */
  function Start(id: string): (o: Office)
    ensures IsLower(o.id) && |o.id| == |id|
    ensures !IsEmergency(o.mode) && o.previous == None
  {
    Office(ToLower(id), OutOfHours, None)
  }

  /** One mode-change request. An accepted request moves to the requested
      mode, recording the old mode when the new one is an emergency mode. */
  function Step(o: Office, input: Option<string>): (r: Outcome)
    ensures !r.accepted ==> r.office == o
    ensures r.office.id == o.id
    ensures r.accepted ==> Legal(o.mode, r.office.mode)
  {
    match Request(input)
    case None => Outcome(false, o)
    case Some(target) =>
      if Legal(o.mode, target) then
        var previous := if IsEmergency(target) then Some(o.mode) else o.previous;
        Outcome(true, Office(o.id, target, previous))
      else Outcome(false, o)
  }

  /** A request is accepted exactly when it names a mode the table allows
      from the current one, and then that mode becomes current. */
  lemma StepAcceptsExactlyLegal(o: Office, input: Option<string>)
    ensures Step(o, input).accepted <==> Request(input).Some? && Legal(o.mode, Request(input).value)
    ensures Step(o, input).accepted ==> Step(o, input).office.mode == Request(input).value
  {
  }

  /** The history changes exactly on an accepted entry into an emergency
      mode, and then holds the mode that was left. */
  lemma StepHistory(o: Office, input: Option<string>)
    ensures var r := Step(o, input);
      r.office.previous != o.previous ==> r.accepted && IsEmergency(r.office.mode) && r.office.previous == Some(o.mode)
    ensures var r := Step(o, input);
      r.accepted && IsEmergency(r.office.mode) ==> r.office.previous == Some(o.mode)
  {
  }

  /** Requesting the current mode, in any capitalisation and padding, is
      accepted and keeps the mode. */
  lemma StepSelfLoop(o: Office, s: string)
    requires Normalize(s) == Name(o.mode)
    ensures Step(o, Some(s)).accepted
    ensures Step(o, Some(s)).office.mode == o.mode
  {
    RequestIgnoresCaseAndPadding(s, o.mode);
    SelfLoopLegal(o.mode);
  }
}
