/**
 The legality table of mode changes: for every target mode, the modes it
 may be entered from.
 */
module Transitions {
  import opened Modes

  /** The modes from which `target` may be entered. */
  function Sources(target: Mode): set<Mode> {
    match target
    case Open => {OutOfHours, Open, FireAlarm, FireDrill}
    case OutOfHours => {Open, Closed, FireAlarm, OutOfHours}
    case Closed => {Closed, OutOfHours, FireAlarm}
    case FireAlarm => {Open, Closed, OutOfHours, FireAlarm}
    case FireDrill => {Open, FireDrill, OutOfHours}
  }

  /** A change from `from` to `to` is allowed by the table. */
  predicate Legal(from: Mode, to: Mode) {
    from in Sources(to)
  }

  /** The modes that may follow `from`: the table read row-wise. A helper
      for `TargetsTable` and the controller's `TargetsAreAcceptedNames`. */
  function Targets(from: Mode): (ts: set<Mode>)
    ensures forall to :: to in ts <==> Legal(from, to)
  {
    set to | to in {Open, Closed, OutOfHours, FireAlarm, FireDrill} && Legal(from, to)
  }

  /** Staying in the current mode is always allowed. */
  lemma SelfLoopLegal(m: Mode)
    ensures Legal(m, m)
  {
  }

  /** Successors of each mode, as the table implies them. */
  lemma TargetsTable()
    ensures Targets(Open) == {Open, OutOfHours, FireAlarm, FireDrill}
    ensures Targets(Closed) == {Closed, OutOfHours, FireAlarm}
    ensures Targets(OutOfHours) == {Open, Closed, OutOfHours, FireAlarm, FireDrill}
    ensures Targets(FireAlarm) == {Open, Closed, OutOfHours, FireAlarm}
    ensures Targets(FireDrill) == {Open, FireDrill}
  {
  }

  /** The pairs the table rejects that callers are most likely to try. */
  lemma NamedIllegalPairs()
    ensures !Legal(Closed, Open)
    ensures !Legal(FireDrill, Closed)
    ensures !Legal(FireAlarm, FireDrill)
    ensures !Legal(Closed, FireDrill)
    ensures !Legal(FireDrill, FireAlarm)
  {
  }

  /** An emergency mode is entered either from a normal mode or from itself:
      the two emergency modes never follow each other. */
  lemma EmergencyEntry(from: Mode, to: Mode)
    requires IsEmergency(to) && Legal(from, to)
    ensures !IsEmergency(from) || from == to
  {
  }
}
