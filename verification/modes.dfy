/**
 The five operating modes of an office, their canonical names, and the
 normalisation a requested mode name goes through before it is looked up.
 */
module Modes {
  import opened Wrappers
  import opened Text

  datatype Mode = Open | Closed | OutOfHours | FireAlarm | FireDrill

  /** The two modes entered in an emergency; the other three are normal. */
  predicate IsEmergency(m: Mode) {
    m == FireAlarm || m == FireDrill
  }

  /** The canonical name of each mode: lower case, words separated by a space. */
  function Name(m: Mode): string {
    match m
    case Open => "open"
    case Closed => "closed"
    case OutOfHours => "out of hours"
    case FireAlarm => "fire alarm"
    case FireDrill => "fire drill"
  }

  /** The table of valid state names the controller checks a request against. */
  const ValidStates: seq<string> := ["open", "closed", "out of hours", "fire alarm", "fire drill"]

  /** Exact lookup of a name among the valid states. */
  function Parse(s: string): (r: Option<Mode>)
    ensures r.Some? <==> s in ValidStates
    ensures r.Some? ==> Name(r.value) == s
  {
    if s == "open" then Some(Open)
    else if s == "closed" then Some(Closed)
    else if s == "out of hours" then Some(OutOfHours)
    else if s == "fire alarm" then Some(FireAlarm)
    else if s == "fire drill" then Some(FireDrill)
    else None
  }

  /** Every mode's name is valid, parses back to that mode, and is already in
      normal form: lower case and not padded. */
  lemma NameRoundTrip(m: Mode)
    ensures Parse(Name(m)) == Some(m)
    ensures Name(m) in ValidStates
    ensures IsLower(Name(m)) && IsTrimmed(Name(m))
  {
  }

  /** Two modes with the same name are the same mode. */
  lemma NameInjective(m: Mode, n: Mode)
    requires Name(m) == Name(n)
    ensures m == n
  {
    NameRoundTrip(m);
    NameRoundTrip(n);
  }

  /** The normal form of a requested mode name: trimmed, then lower-cased. */
  function Normalize(s: string): (r: string)
    ensures IsLower(r) && IsTrimmed(r)
    ensures r == [] <==> IsBlank(s)
  {
    var t := Trim(s);
    ToLowerKeepsWhiteSpace(t);
    ToLower(t)
  }

  /** Normalising twice is normalising once. */
  lemma NormalizeIdempotent(s: string)
    ensures Normalize(Normalize(s)) == Normalize(s)
  {
    var n := Normalize(s);
    TrimTrimmed(n);
    ToLowerFixesExactlyLower(n);
  }

  /** A requested mode: null or blank input names no mode; otherwise the
      normal form of the input must be one of the valid state names. */
  function Request(input: Option<string>): (r: Option<Mode>)
    ensures r.Some? <==> input.Some? && Normalize(input.value) in ValidStates
    ensures r.Some? ==> Name(r.value) == Normalize(input.value)
  {
    if input.None? || IsBlank(input.value) then
      assert input.Some? ==> Normalize(input.value) == [];
      assert [] !in ValidStates by { EmptyIsNoName(); }
      None
    else Parse(Normalize(input.value))
  }

  /** No valid state name is empty. */
  lemma EmptyIsNoName()
    ensures [] !in ValidStates
  {
    forall k | 0 <= k < |ValidStates| ensures |ValidStates[k]| > 0 { }
  }

  /** The blank-input guard only protects against null: a blank string
      normalises to the empty string, which the lookup rejects anyway. */
  lemma BlankGuardOnlyStopsNull(s: string)
    ensures Request(Some(s)) == Parse(Normalize(s))
  {
  }

  /** Any padding and any capitalisation of a mode's name requests that mode. */
  lemma RequestIgnoresCaseAndPadding(s: string, m: Mode)
    requires Normalize(s) == Name(m)
    ensures Request(Some(s)) == Some(m)
  {
    NameRoundTrip(m);
  }

  /** A mode's name is its own normal form. */
  lemma NormalizeName(m: Mode)
    ensures Normalize(Name(m)) == Name(m)
  {
    NameRoundTrip(m);
    NormalFormFixed(Name(m));
  }

  /** A trimmed string without capitals is its own normal form: such a
      request reaches the lookup exactly as spelled. */
  lemma NormalFormFixed(s: string)
    requires IsTrimmed(s) && IsLower(s)
    ensures Normalize(s) == s
  {
    TrimTrimmed(s);
    ToLowerFixesExactlyLower(s);
  }

  /** A string already trimmed, or white space around one, normalises to
      the lower-case form of the trimmed part. */
  lemma NormalizePadded(p: string, s: string, q: string)
    requires IsBlank(p) && IsBlank(q) && s != [] && IsTrimmed(s)
    ensures Normalize(p + s + q) == ToLower(s)
    ensures Normalize(s) == ToLower(s)
  {
    TrimPadded(p, s, q);
    TrimTrimmed(s);
  }

  /** Lower-casing a request before normalising it makes no difference. */
  lemma NormalizeIgnoresCase(s: string)
    ensures Normalize(ToLower(s)) == Normalize(s)
  {
    TrimToLower(s);
    ToLowerFixesExactlyLower(Trim(s));
  }
}
