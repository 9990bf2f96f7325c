/**
 The office controller as written: its fields are plain strings, the
 requested state is checked against the list of valid names and then
 dispatched by a switch on the name, each case comparing the current state
 name with the sources it accepts.
 */
module OfficeController {
  import opened Wrappers
  import opened Text
  import opened Modes
  import opened Transitions
  import opened Machine

  /** The controller's three fields. `previousState` is `None` until the
      first entry into an emergency mode (a null reference in the C# class). */
  datatype Controller = Controller(officeID: string, currentState: string, previousState: Option<string>)

  /** The boolean a state-change request returns, and the controller after it. */
  datatype Reply = Reply(result: bool, controller: Controller)

  /** What holds of every controller the public operations can produce:
      the identity has no capitals, and both state fields hold valid names. */
  predicate Valid(c: Controller) {
    && IsLower(c.officeID)
    && c.currentState in ValidStates
    && (c.previousState.Some? ==> c.previousState.value in ValidStates)
  }

  /** The fields before the constructor body runs. The string fields are
      null there; nothing reads them before they are assigned, so the empty
      string stands in for null. */
  const Unassigned: Controller := Controller("", "", None)

  /** The constructor: sets the identity, then the initial state. */
  function Construct(officeID: string): (c: Controller)
    ensures c.officeID == ToLower(officeID)
    ensures c.currentState == Name(OutOfHours)
    ensures c.previousState == None
    ensures Valid(c)
  {
    InitializeState(SetOfficeID(Unassigned, officeID))
  }

  /** Puts the controller in the out-of-hours state and touches nothing else. */
  function InitializeState(c: Controller): (c': Controller)
    ensures c'.currentState == Name(OutOfHours)
    ensures c'.officeID == c.officeID && c'.previousState == c.previousState
  {
    c.(currentState := "out of hours")
  }

  /** Stores the lower-cased identity; states are untouched, and an identity
      that is already lower case is stored as given. */
  function SetOfficeID(c: Controller, id: string): (c': Controller)
    ensures c'.officeID == ToLower(id) && IsLower(c'.officeID)
    ensures IsLower(id) ==> c'.officeID == id
    ensures c'.currentState == c.currentState && c'.previousState == c.previousState
  {
    ToLowerFixesExactlyLower(id);
    c.(officeID := ToLower(id))
  }

  function GetOfficeID(c: Controller): string {
    c.officeID
  }

  /** The current state name: on a valid controller a valid name that
      lower-casing leaves unchanged. */
  function GetCurrentState(c: Controller): (s: string)
    ensures s == c.currentState
    ensures Valid(c) ==> s in ValidStates && ToLower(s) == s
  {
    ValidStateIsLower(c.currentState);
    c.currentState
  }

  /** Valid state names are their own lower-case form. */
  lemma ValidStateIsLower(s: string)
    ensures s in ValidStates ==> ToLower(s) == s
  {
    if s in ValidStates {
      NameRoundTrip(Parse(s).value);
      ToLowerFixesExactlyLower(s);
    }
  }

  /** A state-change request. Null, blank and unknown names are refused; a
      known name is accepted when the table allows it from the current
      state, and entering an emergency state records the state left. A
      refused request changes nothing. */
  function SetCurrentState(c: Controller, newState: Option<string>): (r: Reply)
    ensures !r.result ==> r.controller == c
    ensures r.controller.officeID == c.officeID
    ensures newState.None? || IsBlank(newState.value) ==> !r.result
    ensures r.result ==> newState.Some? && r.controller.currentState == Normalize(newState.value)
    ensures r.result ==> r.controller.currentState in ValidStates
    ensures r.result ==>
      r.controller.previousState
        == (if IsEmergency(Parse(r.controller.currentState).value) then Some(c.currentState) else c.previousState)
    ensures Valid(c) ==> Valid(r.controller)
    ensures Valid(c) ==>
      (r.result <==> Request(newState).Some? && Legal(Parse(c.currentState).value, Request(newState).value))
  {
    if newState.None? || IsBlank(newState.value) then Reply(false, c)
    else
      var lowerNewState := Normalize(newState.value);
      var lowerCurrentState := ToLower(GetCurrentState(c));
      if lowerNewState !in ValidStates then Reply(false, c)
      else Switch(c, lowerNewState, lowerCurrentState)
  }

  /** The switch on the requested name. Each case accepts exactly the
      sources the legality table lists for its target, compared by name. */
  function Switch(c: Controller, lowerNewState: string, lowerCurrentState: string): (r: Reply)
    requires lowerNewState in ValidStates
    ensures !r.result ==> r.controller == c
    ensures r.result <==>
      Parse(lowerCurrentState).Some? && Legal(Parse(lowerCurrentState).value, Parse(lowerNewState).value)
    ensures r.result ==>
      r.controller == c.(
        currentState := lowerNewState,
        previousState := if IsEmergency(Parse(lowerNewState).value) then Some(c.currentState) else c.previousState)
  {
    match lowerNewState
    case "open" =>
      if lowerCurrentState == "out of hours" || lowerCurrentState == "open"
        || lowerCurrentState == "fire alarm" || lowerCurrentState == "fire drill"
      then Reply(true, c.(currentState := "open"))
      else Reply(false, c)
    case "out of hours" =>
      if lowerCurrentState == "open" || lowerCurrentState == "closed"
        || lowerCurrentState == "fire alarm" || lowerCurrentState == "out of hours"
      then Reply(true, c.(currentState := "out of hours"))
      else Reply(false, c)
    case "closed" =>
      if lowerCurrentState == "closed" || lowerCurrentState == "out of hours"
        || lowerCurrentState == "fire alarm"
      then Reply(true, c.(currentState := "closed"))
      else Reply(false, c)
    case "fire alarm" =>
      if lowerCurrentState == "open" || lowerCurrentState == "closed"
        || lowerCurrentState == "out of hours" || lowerCurrentState == "fire alarm"
      then Reply(true, c.(previousState := Some(c.currentState), currentState := "fire alarm"))
      else Reply(false, c)
    case "fire drill" =>
      if lowerCurrentState == "open" || lowerCurrentState == "fire drill"
        || lowerCurrentState == "out of hours"
      then Reply(true, c.(previousState := Some(c.currentState), currentState := "fire drill"))
      else Reply(false, c)
    case _ =>
      // The "return to the previous state" branch: the requires leaves only
      // the five names, each with its own case.
      assert false;
      Reply(false, c)
  }

  /** A sequence of state-change requests applied in order. */
  function Run(c: Controller, inputs: seq<Option<string>>): Controller
    decreases |inputs|
  {
    if inputs == [] then c else Run(SetCurrentState(c, inputs[0]).controller, inputs[1..])
  }

  /** Every request keeps the controller valid and its identity fixed. */
  lemma {:induction false} RunPreservesValid(c: Controller, inputs: seq<Option<string>>)
    requires Valid(c)
    ensures Valid(Run(c, inputs))
    ensures Run(c, inputs).officeID == c.officeID
    decreases |inputs|
  {
    if inputs != [] {
      RunPreservesValid(SetCurrentState(c, inputs[0]).controller, inputs[1..]);
    }
  }

  /** Whatever requests follow construction, the identity is the lower-cased
      label it was built with and the current state is one of the five valid
      names, equal to its own lower-case form. */
  lemma ReachableIsValid(officeID: string, inputs: seq<Option<string>>)
    ensures Valid(Run(Construct(officeID), inputs))
    ensures GetOfficeID(Run(Construct(officeID), inputs)) == ToLower(officeID)
    ensures GetCurrentState(Run(Construct(officeID), inputs)) in ValidStates
    ensures ToLower(GetCurrentState(Run(Construct(officeID), inputs)))
         == GetCurrentState(Run(Construct(officeID), inputs))
  {
    RunPreservesValid(Construct(officeID), inputs);
  }

  /** The abstract office a valid controller stands for. */
  function Abs(c: Controller): (o: Office)
    requires Valid(c)
    ensures Name(o.mode) == c.currentState && o.id == c.officeID
  {
    Office(c.officeID, Parse(c.currentState).value,
      if c.previousState.Some? then Parse(c.previousState.value) else None)
  }

  /** Construction yields the abstract start state. */
  lemma ConstructRefinesStart(officeID: string)
    ensures Abs(Construct(officeID)) == Start(officeID)
  {
    NameRoundTrip(OutOfHours);
  }

  /** The string-level controller and the table-driven machine agree on
      every request: same answer, same resulting office. */
  lemma SetCurrentStateRefinesStep(c: Controller, newState: Option<string>)
    requires Valid(c)
    ensures var r := SetCurrentState(c, newState);
      Step(Abs(c), newState) == Outcome(r.result, Abs(r.controller))
  {
    var r := SetCurrentState(c, newState);
    var o := Abs(c);
    if r.result {
      var m := Request(newState).value;
      NameRoundTrip(m);
      NameRoundTrip(o.mode);
    }
  }

  /** Setting the identity stores its lower-case form; setting the stored
      form again changes nothing. */
  lemma SetOfficeIDIdempotent(c: Controller, id: string)
    ensures GetOfficeID(SetOfficeID(c, id)) == ToLower(id)
    ensures var c' := SetOfficeID(c, id); SetOfficeID(c', GetOfficeID(c')) == c'
    ensures Valid(c) ==> Valid(SetOfficeID(c, id))
  {
  }

  /** Requesting the current state, in any capitalisation and padding, is
      accepted and keeps the state; when that state is an emergency state
      the history is overwritten with it. */
  lemma SelfTransition(c: Controller, s: string)
    requires Valid(c) && Normalize(s) == GetCurrentState(c)
    ensures SetCurrentState(c, Some(s)).result
    ensures var c' := SetCurrentState(c, Some(s)).controller;
      c' == (if IsEmergency(Parse(c.currentState).value) then c.(previousState := Some(c.currentState)) else c)
  {
    var m := Parse(c.currentState).value;
    RequestIgnoresCaseAndPadding(s, m);
    SelfLoopLegal(m);
  }

  /** A request naming mode `m`, in any capitalisation and padding, is
      answered by the legality table and on acceptance makes `m` current. */
  lemma NamedRequest(c: Controller, s: string, m: Mode)
    requires Valid(c) && Normalize(s) == Name(m)
    ensures SetCurrentState(c, Some(s)).result == Legal(Parse(c.currentState).value, m)
    ensures SetCurrentState(c, Some(s)).result ==> SetCurrentState(c, Some(s)).controller.currentState == Name(m)
  {
    RequestIgnoresCaseAndPadding(s, m);
  }

  /** The successors the table lists for the current state are exactly the
      modes whose names the controller accepts from it. */
  lemma TargetsAreAcceptedNames(c: Controller, m: Mode)
    requires Valid(c)
    ensures m in Targets(Parse(c.currentState).value) <==> SetCurrentState(c, Some(Name(m))).result
  {
    NormalizeName(m);
    TargetsAccepted(c, Name(m), m);
  }

  /** `TargetsAreAcceptedNames` for any spelling of the mode's name. */
  lemma TargetsAccepted(c: Controller, s: string, m: Mode)
    requires Valid(c) && Normalize(s) == Name(m)
    ensures m in Targets(Parse(c.currentState).value) <==> SetCurrentState(c, Some(s)).result
  {
    NamedRequest(c, s, m);
  }
}
