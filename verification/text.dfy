/**
 The string primitives the controller relies on: the whitespace test behind
 `string.IsNullOrWhiteSpace` and `Trim`, trimming itself, and lower-casing.
 Lower-casing is restricted to the ASCII letters; whitespace is the full set
 of code points the .NET runtime classifies as white space.
 */
module Text {

  /** The characters `char.IsWhiteSpace` accepts: the Unicode separators
      (categories Zs, Zl, Zp) together with the controls U+0009 to U+000D
      and U+0085. */
  predicate IsWhiteSpace(ch: char) {
    var n := ch as int;
    || n == 0x20
    || (0x09 <= n <= 0x0D)
    || n == 0x85
    || n == 0xA0
    || n == 0x1680
    || (0x2000 <= n <= 0x200A)
    || n == 0x2028
    || n == 0x2029
    || n == 0x202F
    || n == 0x205F
    || n == 0x3000
  }

  /** Empty or made only of white space: what `IsNullOrWhiteSpace` reports
      for a non-null string. */
  predicate IsBlank(s: string) {
    forall i | 0 <= i < |s| :: IsWhiteSpace(s[i])
  }

  /** Neither begins nor ends with white space. */
  predicate IsTrimmed(s: string) {
    s == [] || (!IsWhiteSpace(s[0]) && !IsWhiteSpace(s[|s| - 1]))
  }

  /** Drops the leading white space: the result is the suffix of `s` that
      starts at its first non-white character. */
  function TrimStart(s: string): (r: string)
    ensures |r| <= |s| && r == s[|s| - |r|..]
    ensures IsBlank(s[..|s| - |r|])
    ensures r == [] || !IsWhiteSpace(r[0])
  {
    if s == [] || !IsWhiteSpace(s[0]) then s
    else
      var r := TrimStart(s[1..]);
      assert s[..|s| - |r|] == [s[0]] + s[1..][..|s| - 1 - |r|];
      r
  }

  /** Drops the trailing white space: the result is the prefix of `s` that
      ends at its last non-white character. */
  function TrimEnd(s: string): (r: string)
    ensures |r| <= |s| && r == s[..|r|]
    ensures IsBlank(s[|r|..])
    ensures r == [] || !IsWhiteSpace(r[|r| - 1])
  {
    if s == [] || !IsWhiteSpace(s[|s| - 1]) then s
    else
      var r := TrimEnd(s[..|s| - 1]);
      assert s[|r|..] == s[..|s| - 1][|r|..] + [s[|s| - 1]];
      r
  }

  /** `r` is what remains of `s` after cutting the blank prefix `s[..i]`
      and the blank suffix that follows `r`. */
  predicate IsCoreOf(r: string, s: string, i: int) {
    && 0 <= i <= |s| - |r|
    && r == s[i..i + |r|]
    && IsBlank(s[..i])
    && IsBlank(s[i + |r|..])
  }

  /** `String.Trim()`: the slice of `s` left once white space is removed
      from both ends. It is empty exactly when `s` is blank. */
  function Trim(s: string): (r: string)
    ensures IsTrimmed(r)
    ensures r == [] <==> IsBlank(s)
    ensures exists i :: IsCoreOf(r, s, i)
  {
    var t := TrimStart(s);
    var r := TrimEnd(t);
    TrimCore(s, t, r);
    r
  }

  /** The facts `Trim` promises, from those `TrimStart` and `TrimEnd`
      promise of their results `t` and `r`. */
  lemma TrimCore(s: string, t: string, r: string)
    requires |t| <= |s| && t == s[|s| - |t|..] && IsBlank(s[..|s| - |t|])
    requires t == [] || !IsWhiteSpace(t[0])
    requires |r| <= |t| && r == t[..|r|] && IsBlank(t[|r|..])
    requires r == [] || !IsWhiteSpace(r[|r| - 1])
    ensures IsTrimmed(r)
    ensures r == [] <==> IsBlank(s)
    ensures IsCoreOf(r, s, |s| - |t|)
  {
    var i := |s| - |t|;
    SliceOfSlice(s, i, t, r);
    if r == [] {
      BlankJoin(s, i);
    }
  }

  /** Cutting `i` characters from the front and then keeping `|r|` of the
      rest is one slice of the original. */
  lemma SliceOfSlice(s: string, i: int, t: string, r: string)
    requires 0 <= i <= |s| && t == s[i..] && |r| <= |t| && r == t[..|r|]
    ensures r == s[i..i + |r|]
    ensures s[i + |r|..] == t[|r|..]
  {
  }

  /** A string whose prefix up to `i` and whose rest are both blank is blank. */
  lemma BlankJoin(s: string, i: int)
    requires 0 <= i <= |s| && IsBlank(s[..i]) && IsBlank(s[i..])
    ensures IsBlank(s)
  {
    forall k | 0 <= k < |s| ensures IsWhiteSpace(s[k]) {
      if k < i { assert s[k] == s[..i][k]; }
      else { assert s[k] == s[i..][k - i]; }
    }
  }

  /** The ASCII part of `char.ToLower`: capitals map to small letters,
      every other character is kept. */
  function LowerChar(ch: char): char {
    if 'A' <= ch <= 'Z' then (ch as int - 'A' as int + 'a' as int) as char else ch
  }

  /** Contains no capital letter. */
  predicate IsLower(s: string) {
    forall i | 0 <= i < |s| :: !('A' <= s[i] <= 'Z')
  }

  /** `string.ToLower()`, character by character. */
  function ToLower(s: string): (r: string)
    ensures |r| == |s|
    ensures forall i | 0 <= i < |s| :: r[i] == LowerChar(s[i])
    ensures IsLower(r)
  {
    if s == [] then [] else [LowerChar(s[0])] + ToLower(s[1..])
  }

  /** Lower-casing leaves a string alone exactly when it has no capitals,
      so a second lower-casing is a no-op. */
  lemma ToLowerFixesExactlyLower(s: string)
    ensures ToLower(s) == s <==> IsLower(s)
    ensures ToLower(ToLower(s)) == ToLower(s)
  {
    if IsLower(s) {
      assert forall i | 0 <= i < |s| :: ToLower(s)[i] == s[i];
    }
    var l := ToLower(s);
    assert forall i | 0 <= i < |l| :: ToLower(l)[i] == l[i];
  }

  /** Lower-casing neither creates nor removes white space, so it keeps a
      trimmed string trimmed and a blank one blank. */
  lemma ToLowerKeepsWhiteSpace(s: string)
    ensures IsTrimmed(s) ==> IsTrimmed(ToLower(s))
    ensures IsBlank(s) <==> IsBlank(ToLower(s))
  {
    var l := ToLower(s);
    assert forall i | 0 <= i < |s| :: IsWhiteSpace(l[i]) <==> IsWhiteSpace(s[i]);
  }

  /** Trimming what is already trimmed changes nothing. */
  lemma TrimTrimmed(s: string)
    requires IsTrimmed(s)
    ensures Trim(s) == s
  {
  }

  /** Leading white space in front of a string that starts with a character
      that is not white space is exactly what `TrimStart` removes. */
  lemma {:induction false} TrimStartPadded(p: string, s: string)
    requires IsBlank(p) && s != [] && !IsWhiteSpace(s[0])
    ensures TrimStart(p + s) == s
    decreases |p|
  {
    if p != [] {
      assert (p + s)[0] == p[0];
      assert IsWhiteSpace(p[0]);
      assert (p + s)[1..] == p[1..] + s;
      var rest := p[1..];
      assert IsBlank(rest) by {
        forall i | 0 <= i < |rest| ensures IsWhiteSpace(rest[i]) {
          assert rest[i] == p[i + 1];
        }
      }
      TrimStartPadded(p[1..], s);
      assert TrimStart(p + s) == TrimStart((p + s)[1..]);
    } else {
      assert p + s == s;
    }
  }

  /** Trailing white space after a string that ends with a character
      that is not white space is exactly what `TrimEnd` removes. */
  lemma {:induction false} TrimEndPadded(s: string, q: string)
    requires IsBlank(q) && s != [] && !IsWhiteSpace(s[|s| - 1])
    ensures TrimEnd(s + q) == s
    decreases |q|
  {
    if q != [] {
      assert (s + q)[|s + q| - 1] == q[|q| - 1];
      assert IsWhiteSpace(q[|q| - 1]);
      assert (s + q)[..|s + q| - 1] == s + q[..|q| - 1];
      var front := q[..|q| - 1];
      assert IsBlank(front) by {
        forall i | 0 <= i < |front| ensures IsWhiteSpace(front[i]) {
          assert front[i] == q[i];
        }
      }
      TrimEndPadded(s, q[..|q| - 1]);
      assert TrimEnd(s + q) == TrimEnd((s + q)[..|s + q| - 1]);
    } else {
      assert s + q == s;
    }
  }

  /** `Trim` recovers a non-empty trimmed string from any white-space
      padding around it: together with `IsCoreOf` this pins `Trim` down. */
  lemma TrimPadded(p: string, s: string, q: string)
    requires IsBlank(p) && IsBlank(q) && s != [] && IsTrimmed(s)
    ensures Trim(p + s + q) == s
  {
    assert p + s + q == p + (s + q);
    TrimStartPadded(p, s + q);
    TrimEndPadded(s, q);
  }

  /** Lower-casing works piece by piece. */
  lemma ToLowerConcat(a: string, b: string)
    ensures ToLower(a + b) == ToLower(a) + ToLower(b)
  {
    var l := ToLower(a + b);
    assert forall i | 0 <= i < |a + b| :: l[i] == (ToLower(a) + ToLower(b))[i];
  }

  /** Trimming and lower-casing commute: lower-casing moves no white space. */
  lemma TrimToLower(s: string)
    ensures Trim(ToLower(s)) == ToLower(Trim(s))
  {
    var r := Trim(s);
    var i :| IsCoreOf(r, s, i);
    if r == [] {
      ToLowerKeepsWhiteSpace(s);
    } else {
      SplitAround(s, i, r);
      TrimLowerPadded(s[..i], r, s[i + |r|..]);
    }
  }

  /** Lower-casing a padded trimmed string and then trimming it gives the
      lower-cased core. */
  lemma TrimLowerPadded(p: string, r: string, q: string)
    requires IsBlank(p) && IsBlank(q) && r != [] && IsTrimmed(r)
    ensures Trim(ToLower(p + r + q)) == ToLower(r)
  {
    ToLowerConcat(p + r, q);
    ToLowerConcat(p, r);
    ToLowerKeepsWhiteSpace(p);
    ToLowerKeepsWhiteSpace(r);
    ToLowerKeepsWhiteSpace(q);
    TrimPadded(ToLower(p), ToLower(r), ToLower(q));
  }

  /** A string is its prefix, a slice starting where the prefix ends, and
      the rest. */
  lemma SplitAround(s: string, i: int, r: string)
    requires 0 <= i <= |s| - |r| && r == s[i..i + |r|]
    ensures s == s[..i] + r + s[i + |r|..]
  {
  }
}
