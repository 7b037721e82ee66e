/**
 * The string operations the backend (C#) and the client (TypeScript) rely on:
 * whitespace tests, trimming, case mapping, the two SKU separators, substring
 * search, joining and decimal formatting of integers.
 *
 * Case mapping is a stand-in for the culture-sensitive `ToUpper` / `toUpperCase`:
 * it maps the ASCII letters and leaves every other character alone, one character
 * for one character.
 */
module Text {

  import opened Wrappers

  /** Whose definition of "whitespace" applies: .NET's `char.IsWhiteSpace` or JavaScript's `\s`. */
  datatype Runtime = DotNet | JavaScript

  /** The Unicode category Zs (space separators). */
  predicate IsSpaceSeparator(c: char) {
    c == ' ' || c == '\U{00A0}' || c == '\U{1680}' || ('\U{2000}' <= c <= '\U{200A}')
    || c == '\U{202F}' || c == '\U{205F}' || c == '\U{3000}'
  }

  /**
   * `char.IsWhiteSpace` for .NET; the `\s` class (and `String.prototype.trim`) for
   * JavaScript. Both take the space separators, the line and paragraph separators and
   * the controls U+0009..U+000D; .NET adds U+0085, JavaScript adds U+FEFF.
   */
  predicate IsWhiteSpace(rt: Runtime, c: char) {
    IsSpaceSeparator(c) || c == '\U{2028}' || c == '\U{2029}' || ('\t' <= c <= '\r')
    || (rt == DotNet && c == '\U{0085}')
    || (rt == JavaScript && c == '\U{FEFF}')
  }

  /** Every character is whitespace (the empty string included). */
  predicate IsBlank(rt: Runtime, s: string) {
    forall i :: 0 <= i < |s| ==> IsWhiteSpace(rt, s[i])
  }

  /** No character is whitespace. */
  predicate HasNoWhiteSpace(rt: Runtime, s: string) {
    forall i :: 0 <= i < |s| ==> !IsWhiteSpace(rt, s[i])
  }

  /** `string.IsNullOrWhiteSpace` of .NET. */
  predicate IsNullOrWhiteSpace(s: Option<string>) {
    s.None? || IsBlank(DotNet, s.value)
  }

  /** The number of leading whitespace characters. */
  function LeadingWhiteSpace(rt: Runtime, s: string): (n: nat)
    ensures n <= |s| && IsBlank(rt, s[..n]) && (n == |s| || !IsWhiteSpace(rt, s[n]))
  {
    if s == [] || !IsWhiteSpace(rt, s[0]) then 0
    else
      var n := LeadingWhiteSpace(rt, s[1..]);
      assert forall k :: 1 <= k < n + 1 ==> s[k] == s[1..][..n][k - 1];
      1 + n
  }

  /** The number of trailing whitespace characters. */
  function TrailingWhiteSpace(rt: Runtime, s: string): (n: nat)
    ensures n <= |s| && IsBlank(rt, s[|s| - n..]) && (n == |s| || !IsWhiteSpace(rt, s[|s| - n - 1]))
  {
    if s == [] || !IsWhiteSpace(rt, s[|s| - 1]) then 0
    else
      var p := s[..|s| - 1];
      var n := TrailingWhiteSpace(rt, p);
      assert forall k :: |s| - n - 1 <= k < |s| - 1 ==> s[k] == p[|p| - n..][k - (|s| - n - 1)];
      1 + n
  }

  /** Drops the leading whitespace. */
  function TrimStart(rt: Runtime, s: string): (r: string)
    ensures |r| <= |s| && r == s[|s| - |r|..]
    ensures IsBlank(rt, s[..|s| - |r|])
    ensures r == [] || !IsWhiteSpace(rt, r[0])
  {
    s[LeadingWhiteSpace(rt, s)..]
  }

  /** Drops the trailing whitespace. */
  function TrimEnd(rt: Runtime, s: string): (r: string)
    ensures |r| <= |s| && r == s[..|r|]
    ensures IsBlank(rt, s[|r|..])
    ensures r == [] || !IsWhiteSpace(rt, r[|r| - 1])
  {
    s[..|s| - TrailingWhiteSpace(rt, s)]
  }

  /** `string.Trim()` of .NET, `String.prototype.trim()` of JavaScript. */
  function Trim(rt: Runtime, s: string): string {
    TrimEnd(rt, TrimStart(rt, s))
  }

  /** The upper-case form of one character. */
  function UpperChar(c: char): char {
    if 'a' <= c <= 'z' then (c as int - 32) as char else c
  }

  /** The lower-case form of one character. */
  function LowerChar(c: char): char {
    if 'A' <= c <= 'Z' then (c as int + 32) as char else c
  }

  /** `ToUpper()` / `toUpperCase()`. */
  function Upper(s: string): string {
    seq(|s|, i requires 0 <= i < |s| => UpperChar(s[i]))
  }

  /** `ToLower()` / `toLowerCase()`. */
  function Lower(s: string): string {
    seq(|s|, i requires 0 <= i < |s| => LowerChar(s[i]))
  }

  /** `s.Replace(" ", "-")` of .NET: every single space becomes one hyphen. */
  function ReplaceSpaces(s: string): string {
    seq(|s|, i requires 0 <= i < |s| => if s[i] == ' ' then '-' else s[i])
  }

  /** `s.replace(/\s+/g, '-')` of JavaScript: every maximal run of whitespace becomes one hyphen. */
  function CollapseWhiteSpace(s: string): string
    decreases |s|
  {
    if s == [] then []
    else if IsWhiteSpace(JavaScript, s[0]) then "-" + CollapseWhiteSpace(TrimStart(JavaScript, s[1..]))
    else [s[0]] + CollapseWhiteSpace(s[1..])
  }

  /** `s.StartsWith(p)` / `s.startsWith(p)`. */
  predicate StartsWith(s: string, p: string) {
    |p| <= |s| && s[..|p|] == p
  }

  /** `s.Contains(t)` / `s.includes(t)`, scanning from the left. */
  predicate Contains(s: string, t: string)
    decreases |s|
  {
    StartsWith(s, t) || (s != [] && Contains(s[1..], t))
  }

  /** `string.Join(sep, parts)` / `parts.join(sep)`. */
  function Join(sep: string, parts: seq<string>): string
    decreases |parts|
  {
    if parts == [] then ""
    else if |parts| == 1 then parts[0]
    else parts[0] + sep + Join(sep, parts[1..])
  }

  /** The decimal digit for 0..9. */
  function Digit(d: nat): char
    requires d < 10
  {
    ('0' as int + d) as char
  }

  /** The decimal form of a non-negative integer, as `${n}` and `ToString()` print it. */
  function NatToString(n: nat): string
    decreases n
  {
    if n < 10 then [Digit(n)] else NatToString(n / 10) + [Digit(n % 10)]
  }

  /** The decimal form of any integer, with a leading '-' when negative. */
  function IntToString(i: int): string {
    if i < 0 then "-" + NatToString(-i) else NatToString(i)
  }

  // ---------------------------------------------------------------------------
  // Properties
  // ---------------------------------------------------------------------------

  /** Trimming leaves no whitespace at either end. */
  lemma TrimEnds(rt: Runtime, s: string)
    ensures var r := Trim(rt, s);
      r == [] || (!IsWhiteSpace(rt, r[0]) && !IsWhiteSpace(rt, r[|r| - 1]))
  {
    var a := TrimStart(rt, s);
    var r := TrimEnd(rt, a);
    if r != [] {
      assert r[0] == a[0];
    }
  }

  /** Trimming removes only whitespace: the result is a slice of the input with blank text on either side. */
  lemma TrimRemovesOnlyWhiteSpace(rt: Runtime, s: string)
    ensures exists i, j :: 0 <= i <= j <= |s| && Trim(rt, s) == s[i..j] && IsBlank(rt, s[..i]) && IsBlank(rt, s[j..])
  {
    var a := TrimStart(rt, s);
    var r := TrimEnd(rt, a);
    var i := |s| - |a|;
    var j := i + |r|;
    assert r == s[i..j] by {
      assert a == s[i..] && r == a[..|r|];
      assert s[i..][..|r|] == s[i..j];
    }
    assert IsBlank(rt, s[j..]) by {
      assert s[j..] == a[|r|..];
    }
    assert Trim(rt, s) == s[i..j] && IsBlank(rt, s[..i]);
  }

  /** A trimmed string that is not empty is not blank. */
  lemma TrimmedNonEmptyIsNotBlank(rt: Runtime, s: string)
    requires Trim(rt, s) != []
    ensures !IsBlank(rt, Trim(rt, s))
  {
    TrimEnds(rt, s);
  }

  /** Trimming a string without whitespace changes nothing. */
  lemma TrimNoWhiteSpace(rt: Runtime, s: string)
    requires HasNoWhiteSpace(rt, s)
    ensures Trim(rt, s) == s
  {
  }

  /** Upper-casing keeps the length and is idempotent. */
  lemma UpperIdempotent(s: string)
    ensures |Upper(s)| == |s|
    ensures Upper(Upper(s)) == Upper(s)
  {
  }

  /** Upper-casing maps whitespace to whitespace and non-whitespace to non-whitespace. */
  lemma UpperKeepsWhiteSpace(rt: Runtime, s: string)
    ensures forall i :: 0 <= i < |s| ==> (IsWhiteSpace(rt, Upper(s)[i]) <==> IsWhiteSpace(rt, s[i]))
    ensures HasNoWhiteSpace(rt, s) <==> HasNoWhiteSpace(rt, Upper(s))
    ensures IsBlank(rt, s) <==> IsBlank(rt, Upper(s))
  {
  }

  /** Neither separator changes a string without whitespace. */
  lemma SeparatorsOnPlainText(s: string)
    requires HasNoWhiteSpace(JavaScript, s)
    ensures ReplaceSpaces(s) == s
    ensures CollapseWhiteSpace(s) == s
  {
    if s != [] {
      SeparatorsOnPlainText(s[1..]);
      assert s == [s[0]] + s[1..];
    }
  }

  /** After `Replace(" ", "-")` no space is left, and the length is kept. */
  lemma ReplaceSpacesRemovesSpaces(s: string)
    ensures |ReplaceSpaces(s)| == |s|
    ensures forall i :: 0 <= i < |s| ==> ReplaceSpaces(s)[i] != ' '
  {
  }

  /** Concatenation keeps a string free of whitespace. */
  lemma NoWhiteSpaceConcat(rt: Runtime, a: string, b: string)
    requires HasNoWhiteSpace(rt, a) && HasNoWhiteSpace(rt, b)
    ensures HasNoWhiteSpace(rt, a + b)
  {
    forall i | 0 <= i < |a + b| ensures !IsWhiteSpace(rt, (a + b)[i]) {
      if i >= |a| {
        assert (a + b)[i] == b[i - |a|];
      }
    }
  }

  /** After `replace(/\s+/g, '-')` no whitespace is left. */
  lemma {:induction false} CollapseRemovesWhiteSpace(s: string)
    ensures HasNoWhiteSpace(JavaScript, CollapseWhiteSpace(s))
    decreases |s|
  {
    if s == [] {
    } else if IsWhiteSpace(JavaScript, s[0]) {
      var rest := TrimStart(JavaScript, s[1..]);
      assert CollapseWhiteSpace(s) == "-" + CollapseWhiteSpace(rest);
      CollapseRemovesWhiteSpace(rest);
      assert !IsWhiteSpace(JavaScript, '-');
      NoWhiteSpaceConcat(JavaScript, "-", CollapseWhiteSpace(rest));
    } else {
      assert CollapseWhiteSpace(s) == [s[0]] + CollapseWhiteSpace(s[1..]);
      CollapseRemovesWhiteSpace(s[1..]);
      NoWhiteSpaceConcat(JavaScript, [s[0]], CollapseWhiteSpace(s[1..]));
    }
  }

  /** `t` occurs in `s` starting at index `i`. */
  predicate OccursAt(s: string, t: string, i: int) {
    0 <= i && i + |t| <= |s| && s[i..i + |t|] == t
  }

  /** `Contains` is the usual substring relation. */
  lemma {:induction false} ContainsIff(s: string, t: string)
    ensures Contains(s, t) <==> exists i :: OccursAt(s, t, i)
    decreases |s|
  {
    if StartsWith(s, t) {
      assert OccursAt(s, t, 0);
    } else if s == [] {
    } else {
      ContainsIff(s[1..], t);
      if exists i :: OccursAt(s, t, i) {
        var i :| OccursAt(s, t, i);
        assert i != 0;
        assert s[1..][i - 1..i - 1 + |t|] == s[i..i + |t|];
        assert OccursAt(s[1..], t, i - 1);
      }
      if Contains(s[1..], t) {
        var i :| OccursAt(s[1..], t, i);
        assert s[1..][i..i + |t|] == s[i + 1..i + 1 + |t|];
        assert OccursAt(s, t, i + 1);
      }
    }
  }

  /** The separator-joined form of two present parts. */
  lemma JoinTwo(sep: string, a: string, b: string)
    ensures Join(sep, [a, b]) == a + sep + b
  {
    assert [a, b][1..] == [b];
  }

  /** The separator-joined form of three present parts. */
  lemma JoinThree(sep: string, a: string, b: string, c: string)
    ensures Join(sep, [a, b, c]) == a + sep + b + sep + c
  {
    assert [a, b, c][1..] == [b, c];
    assert [b, c][1..] == [c];
    calc {
      Join(sep, [a, b, c]);
      a + sep + Join(sep, [b, c]);
      a + sep + (b + sep + c);
      { assert a + sep + (b + sep + c) == a + sep + b + sep + c; }
      a + sep + b + sep + c;
    }
  }

  /** Decimal forms are made of digits only, so they never hold '-'. */
  lemma {:induction false} NatToStringDigits(n: nat)
    ensures |NatToString(n)| >= 1
    ensures forall i :: 0 <= i < |NatToString(n)| ==> '0' <= NatToString(n)[i] <= '9'
    decreases n
  {
    if n >= 10 {
      NatToStringDigits(n / 10);
    }
  }

  /** Different numbers have different decimal forms. */
  lemma {:induction false} NatToStringInjective(m: nat, n: nat)
    requires NatToString(m) == NatToString(n)
    ensures m == n
    decreases m
  {
    var s := NatToString(m);
    NatToStringDigits(m / 10);
    NatToStringDigits(n / 10);
    assert (m < 10) == (|s| == 1) == (n < 10);
    if m >= 10 {
      assert NatToString(m / 10) == s[..|s| - 1] == NatToString(n / 10);
      NatToStringInjective(m / 10, n / 10);
      assert Digit(m % 10) == Digit(n % 10);
    }
  }

  /** Different integers have different decimal forms. */
  lemma IntToStringInjective(i: int, j: int)
    requires IntToString(i) == IntToString(j)
    ensures i == j
  {
    SignMarksNegative(i);
    SignMarksNegative(j);
    if i < 0 {
      assert NatToString(-i) == IntToString(i)[1..] == NatToString(-j);
      NatToStringInjective(-i, -j);
    } else {
      NatToStringInjective(i, j);
    }
  }

  /** The text of an integer starts with "-" exactly when it is negative. */
  lemma SignMarksNegative(i: int)
    ensures |IntToString(i)| >= 1
    ensures (IntToString(i)[0] == '-') == (i < 0)
  {
    if i < 0 {
      NatToStringDigits(-i);
      assert IntToString(i) == "-" + NatToString(-i);
    } else {
      NatToStringDigits(i);
      assert IntToString(i) == NatToString(i);
      assert '0' <= NatToString(i)[0] <= '9';
    }
  }

}
