# SmartOffice office controller, modelled in Dafny

This project models the state controller of the SmartOffice system. The
controller is `OfficeController`. It holds three things: an office
identity label, a current state, and a record of the state held before the
last emergency. Exactly five states are recognised: `"open"`, `"closed"`,
`"out of hours"`, `"fire alarm"` and `"fire drill"`. The names contain
spaces, not underscores.

A request to change state goes through four steps:

1. Null and blank input is refused.
2. The input is trimmed and lower-cased.
3. The result must be one of the five names.
4. A switch on the name checks the current state against the states the
   target may be entered from.

On acceptance the target becomes current. Entering `"fire alarm"` or
`"fire drill"` also records the state that was left. A refused request
changes nothing.

The model has two layers:

- `OfficeController` mirrors the class as written. Its fields are strings,
  and the requested name is dispatched by a `match` on string literals with
  the same per-case source lists as the C# class. The C# class's
  `default:` branch is proved unreachable (an `assert false` in `Switch`).
- `Machine` is a reference machine over the enumeration `Modes.Mode`. It
  normalises and parses the request once, then consults the legality table
  in `Transitions`.

`OfficeController.SetCurrentStateRefinesStep` proves that the two layers
give the same answer and the same resulting state on every input.
`OfficeController.RunPreservesValid` proves by induction that every
reachable controller keeps a lower-case identity and valid state names.

The files are:

- `wrappers.dfy`: `Option`, used for the C# null references.
- `text.dfy`: the whitespace test, `Trim` and `ToLower`, with their
  characterising lemmas.
- `modes.dfy`: the five modes, their names, parsing and normalisation.
- `transitions.dfy`: the legality table.
- `machine.dfy`: the reference machine.
- `office_controller.dfy`: the class as written, its invariant and the
  refinement.
- `controller_properties.dfy`: properties the unit tests exercise, stated
  for every controller and input.

Points where the code behaves in ways its comments or a reader might not
expect, which the model reproduces:

- `"closed"` to `"fire drill"` is refused. The source list of the
  `"fire drill"` case at `SmartOffice/OfficeController.cs:94` leaves out
  `"closed"`, and the test case at
  `SmartOfficeTests/OfficeControllerTests.cs:111` expects the refusal.
- The comment at `SmartOffice/OfficeController.cs:13` calls
  `previousState` the last normal state, but the field can hold an
  emergency state. The `"fire alarm"` and `"fire drill"` cases (lines 85
  and 94) accept their own state as a source, and lines 87 and 96 then
  copy the current state, that same emergency state, into
  `previousState`. `ControllerProperties.PreviousStateCanBeEmergency`
  exhibits this. Nothing outside the unreachable `default:` branch reads
  the field, so no visible behaviour depends on it.
- The controller neither holds nor calls any device or service: its
  whole state is the three fields, and its only constructor takes the
  identity label and always starts in `"out of hours"`.
- On acceptance the code stores the canonical lower-case name, not the
  caller's spelling (lines 63, 71, 79, 88, 97).

## Model

| member | source | states |
|---|---|---|
| OfficeController.Construct | SmartOffice/OfficeController.cs:16-20 | construction stores the lower-cased identity, starts in "out of hours" with no recorded previous state, and yields a valid controller |
| OfficeController.InitializeState | SmartOffice/OfficeController.cs:25-28 | the state becomes "out of hours"; identity and history are untouched |
| OfficeController.SetOfficeID | SmartOffice/OfficeController.cs:33-36 | the stored identity is the lower-cased input and has no capitals; an already lower-case identity is stored unchanged; both state fields are untouched |
| OfficeController.SetOfficeIDIdempotent | SmartOfficeTests/OfficeControllerTests.cs:43-56 | reading the identity back gives the lower-cased input; setting the stored identity again changes nothing; validity is kept |
| OfficeController.GetCurrentState | SmartOffice/OfficeController.cs:128-131 | returns the stored state; on a valid controller that is one of the five names and equals its own lower-case form, so the lower-casing at line 47 is the identity |
| OfficeController.SetCurrentState | SmartOffice/OfficeController.cs:39-117 | null and blank input are refused; refusal changes nothing; on acceptance the new state is the normalised input and a valid name; history is written exactly on entry into an emergency state; on a valid controller, acceptance happens exactly when the normalised input names a mode the table allows from the current one |
| OfficeController.Switch | SmartOffice/OfficeController.cs:58-114 | the per-case string comparisons accept exactly the pairs of the legality table; the accepted result sets the target and records the old state for the two emergency targets; the default branch cannot be reached |
| OfficeController.RunPreservesValid | SmartOffice/OfficeController.cs:39-117 | every sequence of requests keeps the controller valid and its identity fixed |
| OfficeController.ReachableIsValid | SmartOffice/OfficeController.cs:47-55 | after construction and any requests the state is one of the five names, equal to its lower-case form, and the identity is the lower-cased constructor argument |
| OfficeController.ConstructRefinesStart | SmartOffice/OfficeController.cs:16-28 | the constructed controller stands for the reference machine's start state |
| OfficeController.SetCurrentStateRefinesStep | SmartOffice/OfficeController.cs:58-116 | the string-level switch and the table-driven reference step give the same answer and the same resulting office on every input |
| OfficeController.SelfTransition | SmartOfficeTests/OfficeControllerTests.cs:129-141 | requesting the current state in any spelling is accepted and keeps the state; only the history changes, and only for an emergency state |
| OfficeController.TargetsAreAcceptedNames | SmartOffice/OfficeController.cs:58-100 | on a valid controller, a mode is among the table's successors of the current state exactly when the controller accepts a request naming it, so the row-wise reading of the table agrees with the string comparisons of the switch |
| OfficeController.TargetsAccepted | SmartOffice/OfficeController.cs:41-100 | the same agreement for any capitalisation and padding of the mode's name |
| OfficeController.NamedRequest | SmartOffice/OfficeController.cs:58-100 | a request naming a mode in any spelling is answered by the table, and on acceptance makes that mode current |
| Modes.Parse | SmartOffice/OfficeController.cs:50-55 | lookup succeeds exactly for the five valid names, and the mode found has that name |
| Modes.NameRoundTrip | SmartOffice/OfficeController.cs:50 | every mode's name parses back to it, is a valid name, has no capitals and no padding |
| Modes.NameInjective | SmartOffice/OfficeController.cs:50 | different modes have different names |
| Modes.Normalize | SmartOffice/OfficeController.cs:46 | the normal form has no capitals and no padding, and is empty exactly for blank input |
| Modes.NormalizeIdempotent | SmartOffice/OfficeController.cs:46 | normalising a normal form changes nothing |
| Modes.NormalizeIgnoresCase | SmartOffice/OfficeController.cs:46 | lower-casing the input first does not change its normal form |
| Modes.Request | SmartOffice/OfficeController.cs:41-55 | a request names a mode exactly when the input is non-null and its normal form is a valid name, and then that mode's name is the normal form |
| Modes.BlankGuardOnlyStopsNull | SmartOffice/OfficeController.cs:41-44 | for non-null input the blank check changes no answer, because blank input normalises to the empty string, which is no valid name |
| Modes.RequestIgnoresCaseAndPadding | SmartOfficeTests/OfficeControllerTests.cs:76-86 | any input whose normal form is a mode's name requests that mode |
| Transitions.TargetsTable | SmartOffice/OfficeController.cs:58-100 | the successor set of each of the five modes, spelled out |
| Transitions.SelfLoopLegal | SmartOffice/OfficeController.cs:58-100 | every mode may be re-entered from itself |
| Transitions.NamedIllegalPairs | SmartOfficeTests/OfficeControllerTests.cs:104-111 | closed to open, fire drill to closed, fire alarm to fire drill, closed to fire drill and fire drill to fire alarm are not in the table |
| Transitions.EmergencyEntry | SmartOffice/OfficeController.cs:84-100 | an emergency mode is entered only from a normal mode or from itself |
| Machine.Step | SmartOffice/OfficeController.cs:58-116 | reference step: refusal changes nothing, the identity never changes, and every accepted change is a legal pair |
| Machine.StepAcceptsExactlyLegal | SmartOffice/OfficeController.cs:58-116 | the reference step accepts exactly a legal request for a known mode, and then that mode is current |
| Machine.StepHistory | SmartOffice/OfficeController.cs:84-100 | the history changes only on an accepted entry into an emergency mode, and then holds the mode left |
| Machine.StepSelfLoop | SmartOfficeTests/OfficeControllerTests.cs:129-141 | requesting the current mode in any spelling is accepted and keeps it |
| Text.Trim | SmartOffice/OfficeController.cs:46 | the result is a slice of the input with only white space cut from both ends, starts and ends with a character that is not white space, and is empty exactly for blank input |
| Text.TrimPadded | SmartOffice/OfficeController.cs:46 | white space around a non-empty trimmed string is exactly what trimming removes |
| Text.ToLower | SmartOffice/OfficeController.cs:35 | same length, each character lowered, no capitals left |
| Text.ToLowerFixesExactlyLower | SmartOffice/OfficeController.cs:35 | lower-casing leaves a string unchanged exactly when it has no capitals, and is idempotent |
| Text.TrimToLower | SmartOffice/OfficeController.cs:46 | trimming and lower-casing commute |
| ControllerProperties.ReplyDependsOnNormalForm | SmartOffice/OfficeController.cs:46-55 | two inputs with the same normal form get the same reply |
| ControllerProperties.RequestCaseInsensitive | SmartOfficeTests/OfficeControllerTests.cs:82-83 | capitalisation of a request does not change the reply |
| ControllerProperties.RequestPaddingIgnored | SmartOfficeTests/OfficeControllerTests.cs:81 | white space around a request does not change the reply |
| ControllerProperties.FreshAcceptsEveryMode | SmartOfficeTests/OfficeControllerTests.cs:76-83 | a fresh controller accepts any spelling of any of the five names and enters that mode |
| ControllerProperties.IllegalRequestRefused | SmartOfficeTests/OfficeControllerTests.cs:104-111 | a request the table forbids from the current state is refused and leaves the controller unchanged |
| ControllerProperties.AlarmSelfLoopRecordsAlarm | SmartOffice/OfficeController.cs:84-90 | requesting the fire alarm while in it records "fire alarm" as the state left |
| ControllerProperties.PreviousStateCanBeEmergency | SmartOffice/OfficeController.cs:84-90 | entering the fire alarm twice and then opening leaves "fire alarm" in the history |

## Left out

- Culture-sensitive lower-casing: `Text.ToLower` maps `A`-`Z` to `a`-`z`
  and leaves every other character alone. This assumes a culture whose
  lower-casing maps `A`-`Z` that way, such as the invariant culture or
  en-US. The .NET `ToLower` also maps non-ASCII capitals according to the
  current culture, and this model does not. Under a Turkish or Azerbaijani
  culture, `ToLower` maps `I` to dotless `ı` (U+0131). There,
  `"FIRE ALARM"` becomes `"fıre alarm"` at line 46, and the lookup at lines
  52-55 refuses it. So under those cultures the C# class refuses
  upper-case requests that contain `I`, which the model accepts.
- Whitespace uses the exact set of characters .NET treats as white space,
  compared by code point. Dafny characters are Unicode scalar values, while
  .NET strings are UTF-16 code units. Every white-space character lies in
  the Basic Multilingual Plane, so trimming is unaffected.
- `SetOfficeID(null)` throws a null-reference exception in the C# class.
  The model's identity parameter is a string and cannot be null, so that
  exception is not modelled.
- `GetOfficeID` returns the stored field and has no contract of its own.
  What it returns is stated by `Construct`, `SetOfficeID` and
  `SetOfficeIDIdempotent`.
- The `default:` branch of the switch is not modelled, because it is
  unreachable. `Switch` requires that the name passed the membership test,
  as it always has, and proves the branch dead.
- Fields before the constructor body runs: C# strings start out null. The
  model uses the empty string for them, and nothing reads them before they
  are assigned.
- The class is mutable. The model uses immutable values: each operation
  returns the new controller, and `SetCurrentState` returns it together
  with the boolean answer.
- The device interfaces (`IDoorManager`, `ILightManager`,
  `IFireAlarmManager`, `IWebService`, `IEmailService`) only declare
  signatures. The controller neither holds nor calls them.
