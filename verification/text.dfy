/**
  String helpers with the semantics of the JavaScript built-ins the application
  relies on: `String.prototype.trim`, `Array.prototype.join` and the decimal
  rendering of integers in template literals.
*/
module Text {

  /** The characters `trim` removes: ECMAScript WhiteSpace and LineTerminator. */
  predicate IsSpace(c: char) {
    || c == '\t' || c == '\n' || c == '\U{000B}' || c == '\U{000C}' || c == '\r'
    || c == ' ' || c == '\U{00A0}' || c == '\U{1680}'
    || ('\U{2000}' <= c <= '\U{200A}')
    || c == '\U{2028}' || c == '\U{2029}' || c == '\U{202F}' || c == '\U{205F}'
    || c == '\U{3000}' || c == '\U{FEFF}'
  }

  /** Every character is whitespace (so `s.trim()` is the falsy empty string). */
  predicate IsBlank(s: string) {
    forall i :: 0 <= i < |s| ==> IsSpace(s[i])
  }

  /** Neither end of `s` is whitespace: what `trim` leaves behind. */
  predicate IsTrimmed(s: string) {
    s == [] || (!IsSpace(s[0]) && !IsSpace(s[|s| - 1]))
  }

  /** The first position at or after `i` that is not whitespace (or `|s|`). */
  function SkipSpaces(s: string, i: nat): (k: nat)
    requires i <= |s|
    ensures i <= k <= |s|
    ensures forall j :: i <= j < k ==> IsSpace(s[j])
    ensures k == |s| || !IsSpace(s[k])
    decreases |s| - i
  {
    if i < |s| && IsSpace(s[i]) then SkipSpaces(s, i + 1) else i
  }

  /** Going back from `j` but not below `lo`, the end of the text before trailing whitespace. */
  function SkipSpacesBack(s: string, lo: nat, j: nat): (e: nat)
    requires lo <= j <= |s|
    ensures lo <= e <= j
    ensures forall x :: e <= x < j ==> IsSpace(s[x])
    ensures e == lo || !IsSpace(s[e - 1])
    decreases j
  {
    if j > lo && IsSpace(s[j - 1]) then SkipSpacesBack(s, lo, j - 1) else j
  }

  /** Where the kept part of `s.trim()` starts. */
  function TrimStart(s: string): (k: nat)
    ensures k <= |s|
  {
    SkipSpaces(s, 0)
  }

  /** Where the kept part of `s.trim()` ends. */
  function TrimEnd(s: string): (e: nat)
    ensures TrimStart(s) <= e <= |s|
  {
    SkipSpacesBack(s, TrimStart(s), |s|)
  }

  /**
    `s.trim()`: nothing at either end of the result is whitespace, and the
    result is empty exactly when `s` is all whitespace. `TrimIsInfix` and
    `TrimStripsExactlySurroundingSpace` say which characters it keeps.
  */
  function Trim(s: string): (r: string)
    ensures IsTrimmed(r)
    ensures r == [] <==> IsBlank(s)
  {
    var k, e := TrimStart(s), TrimEnd(s);
    assert IsTrimmed(s[k..e]) by {
      if k < e {
        assert s[k..e][0] == s[k] && s[k..e][e - k - 1] == s[e - 1];
      }
    }
    assert e == k ==> k == |s|;
    s[k..e]
  }

  /**
    `Trim` keeps a contiguous part of `s`: everything before it and
    everything after it is whitespace.
  */
  lemma TrimIsInfix(s: string)
    ensures var k := TrimStart(s); var r := Trim(s);
      && k + |r| <= |s|
      && s[k..k + |r|] == r
      && (forall i :: 0 <= i < k ==> IsSpace(s[i]))
      && (forall i :: k + |r| <= i < |s| ==> IsSpace(s[i]))
  {
  }

  lemma BlankAppend(a: string, b: string)
    requires IsBlank(a) && IsBlank(b)
    ensures IsBlank(a + b)
  {
    forall i | 0 <= i < |a + b| ensures IsSpace((a + b)[i]) {
      if i < |a| { assert (a + b)[i] == a[i]; } else { assert (a + b)[i] == b[i - |a|]; }
    }
  }

  /** The skip stops at the first non-space: any such `k` is where it stops. */
  lemma {:induction false} SkipSpacesStopsAt(s: string, i: nat, k: nat)
    requires i <= k <= |s|
    requires forall j :: i <= j < k ==> IsSpace(s[j])
    requires k == |s| || !IsSpace(s[k])
    ensures SkipSpaces(s, i) == k
    decreases k - i
  {
    if i < k {
      SkipSpacesStopsAt(s, i + 1, k);
    }
  }

  /** The backward skip stops at the last non-space: any such `e` is where it stops. */
  lemma {:induction false} SkipSpacesBackStopsAt(s: string, lo: nat, j: nat, e: nat)
    requires lo <= e <= j <= |s|
    requires forall x :: e <= x < j ==> IsSpace(s[x])
    requires e == lo || !IsSpace(s[e - 1])
    ensures SkipSpacesBack(s, lo, j) == e
    decreases j - e
  {
    if e < j {
      SkipSpacesBackStopsAt(s, lo, j - 1, e);
    }
  }

  /**
    Trim removes exactly the surrounding whitespace: whenever `s` is a trimmed
    core wrapped in whitespace on both sides, `Trim(s)` is that core.
  */
  lemma TrimStripsExactlySurroundingSpace(a: string, m: string, b: string)
    requires IsBlank(a) && IsBlank(b) && IsTrimmed(m)
    ensures Trim(a + m + b) == m
  {
    var s := a + m + b;
    if m == [] {
      assert s == a + b;
      BlankAppend(a, b);
    } else {
      assert forall j :: 0 <= j < |a| ==> s[j] == a[j];
      assert s[|a|] == m[0];
      SkipSpacesStopsAt(s, 0, |a|);
      assert forall x :: |a| + |m| <= x < |s| ==> s[x] == b[x - |a| - |m|];
      assert s[|a| + |m| - 1] == m[|m| - 1];
      SkipSpacesBackStopsAt(s, |a|, |s|, |a| + |m|);
      assert s[|a|..|a| + |m|] == m;
    }
  }

  /** Trimming twice is trimming once. */
  lemma TrimIdempotent(s: string)
    ensures Trim(Trim(s)) == Trim(s)
  {
    var m := Trim(s);
    assert [] + m + [] == m;
    TrimStripsExactlySurroundingSpace([], m, []);
  }

  /** Whitespace appended to a string disappears under trim. */
  lemma TrimIgnoresTrailingSpace(x: string, w: string)
    requires IsBlank(w)
    ensures Trim(x + w) == Trim(x)
  {
    var m := Trim(x);
    var k := TrimStart(x);
    TrimIsInfix(x);
    var a, b := x[..k], x[k + |m|..];
    assert x == a + m + b;
    assert IsBlank(a) && IsBlank(b + w) by {
      assert IsBlank(b);
      BlankAppend(b, w);
    }
    assert x + w == a + m + (b + w);
    TrimStripsExactlySurroundingSpace(a, m, b + w);
  }

  /** `parts.join(sep)`: the empty array joins to "", one part to itself. */
  function Join(parts: seq<string>, sep: string): string
  {
    if |parts| == 0 then ""
    else if |parts| == 1 then parts[0]
    else parts[0] + sep + Join(parts[1..], sep)
  }

  /** Sum of the lengths of the parts. */
  function TotalLength(parts: seq<string>): nat
  {
    if |parts| == 0 then 0 else |parts[0]| + TotalLength(parts[1..])
  }

  /** Joining two non-empty lists puts exactly one separator between them. */
  lemma {:induction false} JoinConcat(a: seq<string>, b: seq<string>, sep: string)
    requires |a| > 0 && |b| > 0
    ensures Join(a + b, sep) == Join(a, sep) + sep + Join(b, sep)
    decreases |a|
  {
    if |a| == 1 {
      assert (a + b)[1..] == b;
    } else {
      assert (a + b)[1..] == a[1..] + b;
      JoinConcat(a[1..], b, sep);
    }
  }

  /** A join of n parts is the parts plus exactly n - 1 separators. */
  lemma {:induction false} JoinLength(parts: seq<string>, sep: string)
    requires |parts| > 0
    ensures |Join(parts, sep)| == TotalLength(parts) + (|parts| - 1) * |sep|
    decreases |parts|
  {
    if |parts| > 1 {
      JoinLength(parts[1..], sep);
    }
  }

  /** The ASCII decimal digits. */
  predicate IsDigit(c: char) {
    '0' <= c <= '9'
  }

  function DigitChar(d: nat): (c: char)
    requires d < 10
    ensures IsDigit(c)
  {
    "0123456789"[d]
  }

  function DigitValue(c: char): nat
    requires IsDigit(c)
  {
    (c as int - '0' as int) as nat
  }

  /** The decimal rendering of a natural number, without leading zeros. */
  function NatToString(n: nat): (s: string)
    ensures |s| > 0
    ensures forall i :: 0 <= i < |s| ==> IsDigit(s[i])
    ensures s[0] == '0' ==> s == "0"
  {
    if n < 10 then [DigitChar(n)]
    else NatToString(n / 10) + [DigitChar(n % 10)]
  }

  /** Reads a run of decimal digits back as a number. */
  function DigitsValue(s: string): nat
    requires forall i :: 0 <= i < |s| ==> IsDigit(s[i])
  {
    if |s| == 0 then 0
    else DigitsValue(s[..|s| - 1]) * 10 + DigitValue(s[|s| - 1])
  }

  /** The decimal rendering loses nothing: reading it back gives the number. */
  lemma {:induction false} NatToStringRoundTrip(n: nat)
    ensures DigitsValue(NatToString(n)) == n
  {
    if n >= 10 {
      var s := NatToString(n);
      assert s[..|s| - 1] == NatToString(n / 10);
      NatToStringRoundTrip(n / 10);
    }
  }

  /** A non-empty run of decimal digits without a leading zero. */
  predicate IsDecimal(d: string) {
    && |d| > 0
    && (forall k :: 0 <= k < |d| ==> IsDigit(d[k]))
    && (d[0] == '0' ==> d == "0")
  }

  /** Text in the form JavaScript prints an integer in: an optional '-' and then a decimal. */
  predicate IsIntText(s: string) {
    |s| > 0 && (if s[0] == '-' then IsDecimal(s[1..]) else IsDecimal(s))
  }

  /** Reads integer text back, sign included. */
  function IntValue(s: string): int
    requires IsIntText(s)
  {
    if s[0] == '-' then -(DigitsValue(s[1..]) as int) else DigitsValue(s)
  }

  /** The decimal rendering of an integer, with a leading '-' when negative. */
  function IntToString(i: int): (s: string)
    ensures IsIntText(s)
    ensures i < 0 <==> s[0] == '-'
  {
    if i < 0 then "-" + NatToString(-i) else NatToString(i)
  }

  /** A '-' in front of a decimal reads back as its negation. */
  lemma NegatedDecimal(d: string)
    requires IsDecimal(d)
    ensures IsIntText("-" + d) && IntValue("-" + d) == -(DigitsValue(d) as int)
  {
    var s := "-" + d;
    assert s[0] == '-' && s[1..] == d;
  }

  /** The integer rendering loses nothing: reading it back, sign included, gives the number. */
  lemma IntToStringRoundTrip(i: int)
    ensures IntValue(IntToString(i)) == i
  {
    var s := IntToString(i);
    if i < 0 {
      var n: nat := -i;
      var d := NatToString(n);
      assert s == "-" + d;
      NegatedDecimal(d);
      NatToStringRoundTrip(n);
      assert IntValue(s) == -(DigitsValue(d) as int) == -(n as int);
    } else {
      var d := NatToString(i);
      assert s == d && IsDigit(d[0]);
      NatToStringRoundTrip(i);
      assert IntValue(s) == DigitsValue(d);
    }
  }

}
