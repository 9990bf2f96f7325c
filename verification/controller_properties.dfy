/**
 Properties of the state-change request that hold for every controller and
 every input: how the input's spelling matters, which requests a fresh
 controller accepts, which pairs are refused, and how the record of the
 state left before an emergency can come to hold an emergency state.
 */
module ControllerProperties {
  import opened Wrappers
  import opened Text
  import opened Modes
  import opened Transitions
  import opened OfficeController

  /** Two inputs with the same normal form get the same reply. */
  lemma ReplyDependsOnNormalForm(c: Controller, s: string, t: string)
    requires Normalize(s) == Normalize(t)
    ensures SetCurrentState(c, Some(s)) == SetCurrentState(c, Some(t))
  {
  }

  /** Capitalisation of the request does not matter. */
  lemma RequestCaseInsensitive(c: Controller, s: string)
    ensures SetCurrentState(c, Some(ToLower(s))) == SetCurrentState(c, Some(s))
  {
    NormalizeIgnoresCase(s);
    ReplyDependsOnNormalForm(c, ToLower(s), s);
  }

  /** White space around a request does not matter. */
  lemma RequestPaddingIgnored(c: Controller, p: string, s: string, q: string)
    requires IsBlank(p) && IsBlank(q) && s != [] && IsTrimmed(s)
    ensures SetCurrentState(c, Some(p + s + q)) == SetCurrentState(c, Some(s))
  {
    NormalizePadded(p, s, q);
    ReplyDependsOnNormalForm(c, p + s + q, s);
  }

  /** A freshly constructed controller, being out of hours, accepts a
      request for any of the five modes, however it is spelled. */
  lemma FreshAcceptsEveryMode(officeID: string, s: string, m: Mode)
    requires Normalize(s) == Name(m)
    ensures SetCurrentState(Construct(officeID), Some(s)).result
    ensures SetCurrentState(Construct(officeID), Some(s)).controller.currentState == Name(m)
  {
    NameRoundTrip(OutOfHours);
    NamedRequest(Construct(officeID), s, m);
  }

  /** A request for a mode the table does not allow from the current state
      is refused, and the controller is left as it was. */
  lemma IllegalRequestRefused(c: Controller, s: string, to: Mode)
    requires Valid(c) && Normalize(s) == Name(to) && !Legal(Parse(c.currentState).value, to)
    ensures !SetCurrentState(c, Some(s)).result
    ensures SetCurrentState(c, Some(s)).controller == c
  {
    NamedRequest(c, s, to);
  }

  /** Helper for `PreviousStateCanBeEmergency`: running three requests is
      applying them one after another. */
  lemma RunThree(c: Controller, a: Option<string>, b: Option<string>, d: Option<string>)
    ensures Run(c, [a, b, d])
         == SetCurrentState(SetCurrentState(SetCurrentState(c, a).controller, b).controller, d).controller
  {
    var inputs := [a, b, d];
    var c1 := SetCurrentState(c, a).controller;
    var c2 := SetCurrentState(c1, b).controller;
    var c3 := SetCurrentState(c2, d).controller;
    assert inputs[1..] == [b, d];
    assert [b, d][1..] == [d];
    assert [d][1..] == [];
    assert Run(c, inputs) == Run(c1, [b, d]);
    assert Run(c1, [b, d]) == Run(c2, [d]);
    assert Run(c2, [d]) == Run(c3, []);
  }

  /** Requesting the fire alarm while in it records the fire alarm itself
      as the state left. */
  lemma AlarmSelfLoopRecordsAlarm(c: Controller, alarm: string)
    requires Valid(c) && c.currentState == Name(FireAlarm) && Normalize(alarm) == Name(FireAlarm)
    ensures SetCurrentState(c, Some(alarm)).controller == c.(previousState := Some(Name(FireAlarm)))
  {
    NameRoundTrip(FireAlarm);
    SelfTransition(c, alarm);
  }

  /** The record of the state left is not confined to normal states: from
      any state the fire alarm may be entered from, requesting the fire
      alarm twice and then opening leaves "fire alarm" as the recorded state. */
  lemma PreviousStateCanBeEmergency(c: Controller, alarm: string, open: string)
    requires Valid(c) && Legal(Parse(c.currentState).value, FireAlarm)
    requires Normalize(alarm) == Name(FireAlarm) && Normalize(open) == Name(Open)
    ensures var c' := Run(c, [Some(alarm), Some(alarm), Some(open)]);
      c'.currentState == Name(Open) && c'.previousState == Some(Name(FireAlarm))
  {
    NamedRequest(c, alarm, FireAlarm);
    var c1 := SetCurrentState(c, Some(alarm)).controller;
    AlarmSelfLoopRecordsAlarm(c1, alarm);
    var c2 := SetCurrentState(c1, Some(alarm)).controller;
    NameRoundTrip(FireAlarm);
    NamedRequest(c2, open, Open);
    RunThree(c, Some(alarm), Some(alarm), Some(open));
  }
}
