/**
 * The string operations of JavaScript that the application relies on:
 * `String.prototype.trim`, ASCII lower-casing, `String(n)` for a
 * non-negative integer, `padStart`, `split(sep)[0]`, `replace(/c/g, d)` and
 * `Array.prototype.join`.
 */
module Text {
  import opened Wrappers

  /** The characters `trim` removes: WhiteSpace and LineTerminator of ECMAScript. */
  predicate IsWhitespace(c: char) {
    c == '\t' || c == '\n' || c == '\U{B}' || c == '\U{C}' || c == '\r' || c == ' '
    || c == '\U{A0}' || c == '\U{1680}' || ('\U{2000}' <= c <= '\U{200A}')
    || c == '\U{2028}' || c == '\U{2029}' || c == '\U{202F}' || c == '\U{205F}'
    || c == '\U{3000}' || c == '\U{FEFF}'
  }

  /** Drops leading whitespace. */
  function TrimStart(s: string): string {
    if |s| > 0 && IsWhitespace(s[0]) then TrimStart(s[1..]) else s
  }

  /** Drops trailing whitespace. */
  function TrimEnd(s: string): string {
    if |s| > 0 && IsWhitespace(s[|s| - 1]) then TrimEnd(s[..|s| - 1]) else s
  }

  /** `TrimStart` cuts a prefix made only of whitespace and stops at the first other character. */
  lemma {:induction false} TrimStartCuts(s: string)
    ensures var r := TrimStart(s);
            && |r| <= |s| && r == s[|s| - |r|..]
            && (forall k :: 0 <= k < |s| - |r| ==> IsWhitespace(s[k]))
            && (r != [] ==> !IsWhitespace(r[0]))
  {
    if |s| > 0 && IsWhitespace(s[0]) {
      TrimStartCuts(s[1..]);
      var r := TrimStart(s);
      forall k | 0 <= k < |s| - |r| ensures IsWhitespace(s[k]) {
        if k > 0 {
          assert s[k] == s[1..][k - 1];
        }
      }
    }
  }

  /** `TrimEnd` cuts a suffix made only of whitespace and stops at the last other character. */
  lemma {:induction false} TrimEndCuts(s: string)
    ensures var r := TrimEnd(s);
            && |r| <= |s| && r == s[..|r|]
            && (forall k :: |r| <= k < |s| ==> IsWhitespace(s[k]))
            && (r != [] ==> !IsWhitespace(r[|r| - 1]))
  {
    if |s| > 0 && IsWhitespace(s[|s| - 1]) {
      var init := s[..|s| - 1];
      TrimEndCuts(init);
      var r := TrimEnd(s);
      assert r == init[..|r|];
      forall k | |r| <= k < |s| ensures IsWhitespace(s[k]) {
        if k < |s| - 1 {
          assert s[k] == init[k];
        }
      }
    }
  }

  /** `s.trim()`. */
  function Trim(s: string): string {
    TrimEnd(TrimStart(s))
  }

  /** A string that is empty after `trim`, hence falsy in `if (!s.trim())`. */
  predicate IsBlank(s: string) {
    Trim(s) == ""
  }

  /** `trim` keeps a contiguous middle part of `s` and cuts only whitespace around it. */
  lemma TrimIsInfix(s: string) returns (i: nat)
    ensures i + |Trim(s)| <= |s| && Trim(s) == s[i..i + |Trim(s)|]
    ensures forall k :: 0 <= k < i ==> IsWhitespace(s[k])
    ensures forall k :: i + |Trim(s)| <= k < |s| ==> IsWhitespace(s[k])
  {
    var a := TrimStart(s);
    TrimStartCuts(s);
    TrimEndCuts(a);
    i := |s| - |a|;
    var r := TrimEnd(a);
    assert r == a[..|r|];
    assert a == s[i..];
    forall k | i + |r| <= k < |s| ensures IsWhitespace(s[k]) {
      assert s[k] == a[k - i];
    }
  }

  /** Neither the first nor the last character is whitespace. */
  predicate IsTrimmed(s: string) {
    s != [] ==> !IsWhitespace(s[0]) && !IsWhitespace(s[|s| - 1])
  }

  /** The result of `trim` neither starts nor ends with whitespace. */
  lemma TrimmedEnds(s: string)
    ensures IsTrimmed(Trim(s))
  {
    var a := TrimStart(s);
    TrimStartCuts(s);
    TrimEndCuts(a);
    var r := TrimEnd(a);
    if r != [] {
      assert a[0] == r[0];
    }
  }

  /** `trim` leaves a string that neither starts nor ends with whitespace as it is. */
  lemma TrimOfTrimmed(s: string)
    requires IsTrimmed(s)
    ensures Trim(s) == s
  {
    if s != [] {
      assert TrimStart(s) == s;
      assert TrimEnd(s) == s;
    }
  }

  /** Trimming twice is trimming once. */
  lemma TrimIdempotent(s: string)
    ensures Trim(Trim(s)) == Trim(s)
  {
    TrimmedEnds(s);
    TrimOfTrimmed(Trim(s));
  }

  /** A string is blank exactly when every character of it is whitespace. */
  lemma BlankIffAllWhitespace(s: string)
    ensures IsBlank(s) <==> forall k :: 0 <= k < |s| ==> IsWhitespace(s[k])
  {
    var i := TrimIsInfix(s);
    if forall k :: 0 <= k < |s| ==> IsWhitespace(s[k]) {
      TrimmedEnds(s);
    }
  }

  /** ASCII lower-casing, the part of `toLowerCase` the model covers. */
  function ToLower(s: string): string {
    if s == [] then []
    else [if 'A' <= s[0] <= 'Z' then s[0] - 'A' + 'a' else s[0]] + ToLower(s[1..])
  }

  /** Lower-casing maps upper-case letters to lower case and keeps every other character. */
  lemma {:induction false} ToLowerChars(s: string)
    ensures |ToLower(s)| == |s|
    ensures forall k :: 0 <= k < |s| ==> ToLower(s)[k] == if 'A' <= s[k] <= 'Z' then s[k] - 'A' + 'a' else s[k]
  {
    if s != [] {
      ToLowerChars(s[1..]);
    }
  }

  predicate IsDigit(c: char) {
    '0' <= c <= '9'
  }

  predicate AllDigits(s: string) {
    forall k :: 0 <= k < |s| ==> IsDigit(s[k])
  }

  function DigitChar(d: nat): (c: char)
    requires d < 10
    ensures IsDigit(c) && c as int - '0' as int == d
  {
    ['0', '1', '2', '3', '4', '5', '6', '7', '8', '9'][d]
  }

  /** `String(n)` for a non-negative integer. */
  function Decimal(n: nat): string {
    if n < 10 then [DigitChar(n)] else Decimal(n / 10) + [DigitChar(n % 10)]
  }

  /** `String(n)` is a non-empty string of digits without a leading zero. */
  lemma {:induction false} DecimalDigits(n: nat)
    ensures 1 <= |Decimal(n)| && AllDigits(Decimal(n))
    ensures |Decimal(n)| > 1 ==> Decimal(n)[0] != '0'
  {
    if n >= 10 {
      DecimalDigits(n / 10);
    }
  }

  /** The number a string of decimal digits denotes (leading zeros allowed). */
  function DigitsValue(s: string): int
    requires AllDigits(s)
  {
    if s == [] then 0
    else DigitsValue(s[..|s| - 1]) * 10 + (s[|s| - 1] as int - '0' as int)
  }

  /** Reading back the digits of `String(n)` gives `n`. */
  lemma {:induction false} DecimalRoundTrip(n: nat)
    ensures AllDigits(Decimal(n)) && DigitsValue(Decimal(n)) == n
  {
    DecimalDigits(n);
    if n >= 10 {
      var s := Decimal(n);
      assert s[..|s| - 1] == Decimal(n / 10);
      DecimalRoundTrip(n / 10);
    }
  }

  /** `c.repeat(k)`. */
  function Repeat(c: char, k: nat): string {
    if k == 0 then [] else [c] + Repeat(c, k - 1)
  }

  lemma {:induction false} RepeatChars(c: char, k: nat)
    ensures |Repeat(c, k)| == k && forall i :: 0 <= i < k ==> Repeat(c, k)[i] == c
  {
    if k > 0 {
      RepeatChars(c, k - 1);
    }
  }

  /** Leading zeros do not change the value of a digit string. */
  lemma {:induction false} LeadingZeros(k: nat, s: string)
    requires AllDigits(s)
    ensures AllDigits(Repeat('0', k) + s)
    ensures DigitsValue(Repeat('0', k) + s) == DigitsValue(s)
  {
    var z := Repeat('0', k);
    RepeatChars('0', k);
    assert AllDigits(z + s);
    if s == [] {
      ZerosValue(k);
      assert z + s == z;
    } else {
      var init := s[..|s| - 1];
      LeadingZeros(k, init);
      assert (z + s)[..|z + s| - 1] == z + init;
    }
  }

  lemma {:induction false} ZerosValue(k: nat)
    ensures AllDigits(Repeat('0', k)) && DigitsValue(Repeat('0', k)) == 0
  {
    RepeatChars('0', k);
    if k > 0 {
      var z := Repeat('0', k);
      RepeatChars('0', k - 1);
      assert z[..|z| - 1] == Repeat('0', k - 1);
      ZerosValue(k - 1);
    }
  }

  /** `s.padStart(width, c)` with a one-character pad string. */
  function PadStart(s: string, width: nat, c: char): string {
    if |s| >= width then s else Repeat(c, width - |s|) + s
  }

  /** Padding reaches the width, keeps `s` at the end and fills the front with `c`. */
  lemma PadStartShape(s: string, width: nat, c: char)
    ensures var r := PadStart(s, width, c);
      && |r| == (if |s| >= width then |s| else width)
      && r[|r| - |s|..] == s
      && forall i :: 0 <= i < |r| - |s| ==> r[i] == c
  {
    if |s| < width {
      RepeatChars(c, width - |s|);
    }
  }

  /** Zero-padding a decimal keeps its value. */
  lemma PaddedDecimalValue(n: nat, width: nat)
    ensures AllDigits(PadStart(Decimal(n), width, '0'))
    ensures DigitsValue(PadStart(Decimal(n), width, '0')) == n
  {
    var d := Decimal(n);
    DecimalRoundTrip(n);
    if |d| < width {
      LeadingZeros(width - |d|, d);
    }
  }

  /** The part of `s` before the first `sep`, i.e. `s.split(sep)[0]`. */
  function Before(s: string, sep: char): string {
    if s == [] || s[0] == sep then [] else [s[0]] + Before(s[1..], sep)
  }

  /** `Before` is the longest prefix without `sep`: it stops at `sep` or at the end. */
  lemma {:induction false} BeforeShape(s: string, sep: char)
    ensures var r := Before(s, sep);
      && |r| <= |s| && r == s[..|r|] && sep !in r
      && (|r| < |s| ==> s[|r|] == sep)
  {
    if s != [] && s[0] != sep {
      BeforeShape(s[1..], sep);
    }
  }

  /** `s.replace(/from/g, to)` for a single character `from`. */
  function ReplaceAll(s: string, from: char, to: char): string {
    if s == [] then [] else [if s[0] == from then to else s[0]] + ReplaceAll(s[1..], from, to)
  }

  /** Replacing rewrites exactly the occurrences of `from`, in place. */
  lemma {:induction false} ReplaceAllChars(s: string, from: char, to: char)
    ensures |ReplaceAll(s, from, to)| == |s|
    ensures forall k :: 0 <= k < |s| ==> ReplaceAll(s, from, to)[k] == if s[k] == from then to else s[k]
  {
    if s != [] {
      ReplaceAllChars(s[1..], from, to);
    }
  }

  /** `parts.join(sep)`. */
  function Join(parts: seq<string>, sep: string): string {
    if parts == [] then ""
    else if |parts| == 1 then parts[0]
    else parts[0] + sep + Join(parts[1..], sep)
  }

  // ----- body fields of the JSON routes -----

  /** A string field that is truthy: present, not null and not the empty string. */
  predicate Filled(s: Option<string>) {
    s.Some? && s.value != ""
  }

  /**
   * `if (f !== undefined && String(f).trim()) x = String(f).trim()`: a sent
   * value replaces `current` by its trimmed form unless it is blank. A null
   * field reads as the string "null".
   */
  function TrimmedOr(current: string, f: Field<string>): (r: string)
    ensures f.Absent? ==> r == current
    ensures f.Null? ==> r == "null"
    ensures f.Given? && IsBlank(f.value) ==> r == current
    ensures f.Given? && !IsBlank(f.value) ==> r == Trim(f.value) && r != ""
    ensures current != "" ==> r != ""
  {
    match f
    case Absent => current
    case Null => "null"
    case Given(s) => if IsBlank(s) then current else Trim(s)
  }

  /** `v != null ? String(v).trim() || null : null`. */
  function TrimmedOrNull(v: Option<string>): (r: Option<string>)
    ensures v.None? ==> r.None?
    ensures v.Some? && IsBlank(v.value) ==> r.None?
    ensures v.Some? && !IsBlank(v.value) ==> r == Some(Trim(v.value))
    ensures r.Some? ==> r.value != "" && IsTrimmed(r.value)
  {
    match v
    case None => None
    case Some(s) =>
      if IsBlank(s) then None
      else
        TrimmedEnds(s);
        Some(Trim(s))
  }

  /** `if (f !== undefined) x = f ? String(f) : null`: an empty or null field clears the value. */
  function TruthyOrNull(f: Field<string>, current: Option<string>): (r: Option<string>)
    ensures f.Absent? ==> r == current
    ensures f.Null? || f == Given("") ==> r.None?
    ensures f.Given? && f.value != "" ==> r == Some(f.value)
  {
    match f
    case Absent => current
    case Null => None
    case Given(s) => if s == "" then None else Some(s)
  }
}
