/**
 * The multi-select dropdown: a checkbox toggles one option value in or out
 * of the selected list, and the button shows a count or the placeholder.
 */
module MultiSelect {
  import opened Text

  /** `value.filter((v) => v !== x)`. */
  function Without(s: seq<string>, x: string): seq<string> {
    if s == [] then [] else (if s[0] == x then [] else [s[0]]) + Without(s[1..], x)
  }

  /** The new list handed to `onChange` when the checkbox of `option` changes. */
  function Toggle(value: seq<string>, option: string): seq<string> {
    if option in value then Without(value, option) else value + [option]
  }

  /** `r` can be read off `s` left to right, skipping some elements of `s`. */
  predicate IsSubsequence(r: seq<string>, s: seq<string>) {
    if r == [] then true
    else if s == [] then false
    else if r[0] == s[0] then IsSubsequence(r[1..], s[1..])
    else IsSubsequence(r, s[1..])
  }

  /** The button text: "N selected" for a non-empty selection, otherwise the placeholder. */
  function DisplayText(value: seq<string>, placeholder: string): string {
    if |value| > 0 then Decimal(|value|) + " selected" else placeholder
  }

  /** Filtering drops every occurrence of `x` and nothing else, so the list shrinks by their number. */
  lemma {:induction false} WithoutCounts(s: seq<string>, x: string)
    ensures multiset(Without(s, x))[x] == 0
    ensures forall y :: y != x ==> multiset(Without(s, x))[y] == multiset(s)[y]
    ensures |Without(s, x)| + multiset(s)[x] == |s|
  {
    if s != [] {
      WithoutCounts(s[1..], x);
      assert s == [s[0]] + s[1..];
      var head := if s[0] == x then [] else [s[0]];
      assert Without(s, x) == head + Without(s[1..], x);
      assert multiset(Without(s, x)) == multiset(head) + multiset(Without(s[1..], x));
      assert multiset(s) == multiset([s[0]]) + multiset(s[1..]);
    }
  }

  /** Filtering keeps the order of the values it keeps. */
  lemma {:induction false} WithoutIsSubsequence(s: seq<string>, x: string)
    ensures IsSubsequence(Without(s, x), s)
  {
    if s != [] {
      WithoutIsSubsequence(s[1..], x);
      if s[0] != x {
        assert Without(s, x)[1..] == Without(s[1..], x);
      } else {
        assert Without(s, x) == Without(s[1..], x);
        SubsequenceOfTail(Without(s[1..], x), s);
      }
    }
  }

  /** Skipping the head of `s` keeps a subsequence of the tail a subsequence of `s`. */
  lemma {:induction false} SubsequenceOfTail(r: seq<string>, s: seq<string>)
    requires s != [] && IsSubsequence(r, s[1..])
    ensures IsSubsequence(r, s)
    decreases |s|, |r|
  {
    if r != [] && r[0] == s[0] {
      SubsequenceDropHead(r, s[1..]);
    }
  }

  /** Dropping the first element of a non-empty subsequence keeps it a subsequence. */
  lemma {:induction false} SubsequenceDropHead(r: seq<string>, s: seq<string>)
    requires r != [] && IsSubsequence(r, s)
    ensures IsSubsequence(r[1..], s)
    decreases |s|, |r|
  {
    if s != [] && r[1..] != [] {
      if r[0] != s[0] {
        SubsequenceDropHead(r, s[1..]);
      }
      SubsequenceOfTail(r[1..], s);
    }
  }

  /** Filtering out a value that does not occur changes nothing. */
  lemma {:induction false} WithoutAbsent(s: seq<string>, x: string)
    requires x !in s
    ensures Without(s, x) == s
  {
    if s != [] {
      WithoutAbsent(s[1..], x);
      assert s == [s[0]] + s[1..];
    }
  }

  /** Filtering distributes over concatenation. */
  lemma {:induction false} WithoutAppend(a: seq<string>, b: seq<string>, x: string)
    ensures Without(a + b, x) == Without(a, x) + Without(b, x)
  {
    if a != [] {
      assert (a + b)[1..] == a[1..] + b;
      WithoutAppend(a[1..], b, x);
    } else {
      assert a + b == b;
    }
  }

  /**
   * After a toggle the option is selected exactly when it was not before,
   * and every other value is selected exactly when it was before.
   */
  lemma ToggleMembership(value: seq<string>, option: string)
    ensures option in Toggle(value, option) <==> option !in value
    ensures forall y :: y != option ==> (y in Toggle(value, option) <==> y in value)
  {
    WithoutCounts(value, option);
    forall y | y != option ensures y in Toggle(value, option) <==> y in value {
      if option in value {
        assert y in Without(value, option) <==> multiset(Without(value, option))[y] > 0;
      }
    }
  }

  /** Selecting a new option appends it after the existing selection, which keeps its order. */
  lemma ToggleAppends(value: seq<string>, option: string)
    requires option !in value
    ensures var r := Toggle(value, option);
      |r| == |value| + 1 && r[..|value|] == value && r[|value|] == option
  {
  }

  /**
   * Deselecting removes every occurrence of the option, keeps every other
   * value with its multiplicity, and keeps their order.
   */
  lemma ToggleRemoves(value: seq<string>, option: string)
    requires option in value
    ensures var r := Toggle(value, option);
      && option !in r
      && (forall y :: y != option ==> multiset(r)[y] == multiset(value)[y])
      && IsSubsequence(r, value)
      && |r| < |value|
  {
    WithoutCounts(value, option);
    WithoutIsSubsequence(value, option);
  }

  /** Checking an unselected option and unchecking it again restores the selection. */
  lemma ToggleTwiceRestores(value: seq<string>, option: string)
    requires option !in value
    ensures Toggle(Toggle(value, option), option) == value
  {
    assert option in value + [option];
    WithoutAppend(value, [option], option);
    WithoutAbsent(value, option);
    assert Without([option], option) == [];
  }

  /**
   * An empty selection shows the placeholder; otherwise the text is a
   * decimal count followed by " selected", and the count reads back as the
   * number of selected values.
   */
  lemma DisplayTextCount(value: seq<string>, placeholder: string)
    ensures |value| == 0 ==> DisplayText(value, placeholder) == placeholder
    ensures |value| > 0 ==>
      var t := DisplayText(value, placeholder);
      && |t| > 9 && t[|t| - 9..] == " selected"
      && AllDigits(t[..|t| - 9]) && DigitsValue(t[..|t| - 9]) == |value|
  {
    if |value| > 0 {
      var d := Decimal(|value|);
      var t := d + " selected";
      DecimalDigits(|value|);
      DecimalRoundTrip(|value|);
      assert t[..|t| - 9] == d;
    }
  }
}
