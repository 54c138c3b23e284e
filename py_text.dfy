/**
 * Python string and number conversions used by the client's interface code: prefix tests,
 * `str.replace` with an empty replacement, `str.split` on one character, `float` on decimal
 * text and `int` on a float (truncation toward zero).
 */
module PyText {
  import opened Common

  /** `s.startswith(p)`. */
  predicate StartsWith(s: string, p: string) {
    |p| <= |s| && s[..|p|] == p
  }

  /** `s.endswith(p)`. */
  predicate EndsWith(s: string, p: string) {
    |p| <= |s| && s[|s| - |p|..] == p
  }

  /** `p` occurs in `s` starting at some position. */
  predicate Occurs(s: string, p: string) {
    exists i :: 0 <= i <= |s| && StartsWith(s[i..], p)
  }

  /**
   * `s.replace(p, "")`: every occurrence of `p` found scanning left to right, without overlaps,
   * is deleted.
   */
  function ReplaceAll(s: string, p: string): (r: string)
    requires |p| > 0
    ensures |r| <= |s|
    decreases |s|
  {
    if |s| == 0 then ""
    else if StartsWith(s, p) then ReplaceAll(s[|p|..], p)
    else [s[0]] + ReplaceAll(s[1..], p)
  }

  /** Deleting a pattern that does not occur changes nothing. */
  lemma {:induction false} ReplaceAbsent(s: string, p: string)
    requires |p| > 0 && !Occurs(s, p)
    ensures ReplaceAll(s, p) == s
    decreases |s|
  {
    if |s| > 0 {
      assert s[0..] == s;
      assert !StartsWith(s, p);
      forall i | 0 <= i <= |s[1..]| ensures !StartsWith(s[1..][i..], p) {
        assert s[1..][i..] == s[i + 1..];
      }
      ReplaceAbsent(s[1..], p);
    }
  }

  /** A leading occurrence is deleted and the scan goes on after it. */
  lemma ReplaceLeading(p: string, s: string)
    requires |p| > 0
    ensures ReplaceAll(p + s, p) == ReplaceAll(s, p)
  {
    assert (p + s)[..|p|] == p;
    assert (p + s)[|p|..] == s;
  }

  /** A string none of whose characters starts the pattern holds no occurrence of it. */
  lemma AbsentByFirstChar(s: string, p: string)
    requires |p| > 0 && forall i :: 0 <= i < |s| ==> s[i] != p[0]
    ensures !Occurs(s, p)
  {
    forall i | 0 <= i <= |s| ensures !StartsWith(s[i..], p) {
      if i < |s| { assert s[i..][0] == s[i]; }
    }
  }

  /** `s.split(c)`: the pieces between the separators, always at least one. */
  function Split(s: string, c: char): (r: seq<string>)
    ensures |r| >= 1
    ensures forall i :: 0 <= i < |r| ==> c !in r[i]
    decreases |s|
  {
    if |s| == 0 then [""]
    else
      var rest := Split(s[1..], c);
      if s[0] == c then [""] + rest
      else [[s[0]] + rest[0]] + rest[1..]
  }

  /** A string without the separator is one piece. */
  lemma {:induction false} SplitWhole(s: string, c: char)
    requires c !in s
    ensures Split(s, c) == [s]
    decreases |s|
  {
    if |s| > 0 {
      assert s == [s[0]] + s[1..];
      SplitWhole(s[1..], c);
    }
  }

  /** The text before the first separator is the first piece; the rest is split on its own. */
  lemma {:induction false} SplitFirst(a: string, c: char, b: string)
    requires c !in a
    ensures Split(a + [c] + b, c) == [a] + Split(b, c)
    decreases |a|
  {
    if |a| == 0 {
      assert a + [c] + b == [c] + b;
      assert ([c] + b)[1..] == b;
    } else {
      var s := a + [c] + b;
      assert s[0] == a[0];
      assert s[1..] == a[1..] + [c] + b;
      SplitFirst(a[1..], c, b);
      assert [a[0]] + a[1..] == a;
    }
  }

  /** The index of the first `c` in `s`, or `|s|` when there is none. */
  function Find(s: string, c: char): (k: nat)
    ensures k <= |s|
    ensures k < |s| ==> s[k] == c
    ensures forall i :: 0 <= i < k ==> s[i] != c
  {
    if |s| == 0 then 0 else if s[0] == c then 0 else 1 + Find(s[1..], c)
  }

  /** Every character is a decimal digit. */
  predicate AllDigits(s: string) {
    forall i :: 0 <= i < |s| ==> IsDigit(s[i])
  }

  /** `10` to the power `n`. */
  function Pow10(n: nat): (p: nat)
    ensures p >= 1
  {
    if n == 0 then 1 else 10 * Pow10(n - 1)
  }

  /**
   * The unsigned part of a float literal: digits, optionally a point and more digits, with at
   * least one digit in all.
   */
  function DecimalBody(b: string): (r: Option<real>)
    ensures r.Some? ==> r.value >= 0.0
  {
    var k := Find(b, '.');
    var whole, frac := b[..k], if k < |b| then b[k + 1..] else "";
    if AllDigits(whole) && AllDigits(frac) && |whole| + |frac| >= 1 then
      Some(DecimalValue(whole) as real + DecimalValue(frac) as real / Pow10(|frac|) as real)
    else None
  }

  /**
   * Python's `float(s)` on decimal text: surrounding whitespace is ignored, one sign may lead,
   * and the rest is a decimal point number; anything else raises ValueError (`None`).
   */
  function ParseDecimal(s: string): (r: Option<real>)
    ensures Strip(s) == "" ==> r.None?
    ensures r.Some? ==> |Strip(s)| > 0 && (Strip(s)[0] == '-' ==> r.value <= 0.0) && (Strip(s)[0] != '-' ==> r.value >= 0.0)
  {
    var t := Strip(s);
    if |t| > 0 && (t[0] == '-' || t[0] == '+') then
      match DecimalBody(t[1..])
      case Some(x) => Some(if t[0] == '-' then -x else x)
      case None => None
    else DecimalBody(t)
  }

  /** `float(str(n)) == n` for an integer `n`. */
  lemma ParseDecimalOfInt(n: int)
    ensures ParseDecimal(IntToDecimal(n)) == Some(n as real)
  {
    var s := IntToDecimal(n);
    var d := NatToDecimal(if n < 0 then -n else n);
    DecimalHasNoSpace(n);
    assert Strip(s) == s;
    assert forall i :: 0 <= i < |d| ==> d[i] != '.';
    assert d[..|d|] == d;
    if n < 0 {
      assert s[1..] == d;
    } else {
      assert s == d && s[0] != '-' && s[0] != '+';
    }
  }

  /**
   * Python's `int(x)` on a float: the integer part, truncated toward zero (Dafny's `Floor`
   * rounds toward minus infinity, so negative values are handled apart).
   */
  function Trunc(x: real): (n: int)
    ensures x >= 0.0 ==> 0.0 <= n as real <= x < n as real + 1.0
    ensures x < 0.0 ==> n as real - 1.0 < x <= n as real <= 0.0
  {
    if x >= 0.0 then x.Floor else -((-x).Floor)
  }

  /** A string whose first and last characters are not whitespace is its own strip. */
  lemma StripKeeps(s: string)
    requires |s| > 0 && !IsSpace(s[0]) && !IsSpace(s[|s| - 1])
    ensures Strip(s) == s
  {
    assert SpaceBefore(s) == 0;
    assert s[0..] == s;
    assert SpaceAfter(s) == |s|;
    assert s[..|s|] == s;
  }

  /** Folding case changes nothing in a string with no upper-case letter. */
  lemma LowerKeeps(s: string)
    requires forall i :: 0 <= i < |s| ==> !('A' <= s[i] <= 'Z')
    ensures Lower(s) == s
  {
  }
}
