/** Small shared vocabulary: optional values and a few text helpers used by several modules. */
module Common {

  /** An optional value; `None` stands for Python's `None` and JavaScript's `null`/`undefined`. */
  datatype Option<T> = None | Some(value: T)

  /** A value or the error an operation raises instead of returning. */
  datatype Result<T, E> = Ok(value: T) | Err(error: E)

  /** ASCII digits `0`-`9`. */
  predicate IsDigit(c: char) { '0' <= c <= '9' }

  /** The value of a digit character. */
  function DigitValue(c: char): (d: nat)
    requires IsDigit(c)
    ensures d < 10
  { (c as int) - ('0' as int) }

  /** The value of a non-empty string of decimal digits, most significant digit first. */
  function DecimalValue(s: seq<char>): nat
    requires forall i :: 0 <= i < |s| ==> IsDigit(s[i])
  {
    if |s| == 0 then 0 else 10 * DecimalValue(s[..|s| - 1]) + DigitValue(s[|s| - 1])
  }

  /** The character of a digit value. */
  function DigitChar(d: nat): (c: char)
    requires d < 10
    ensures IsDigit(c) && DigitValue(c) == d
  { (('0' as int) + d) as char }

  /** The decimal spelling of a natural number, as Python's `str` and JavaScript's `String` give it. */
  function NatToDecimal(n: nat): (s: seq<char>)
    ensures |s| >= 1
    ensures forall i :: 0 <= i < |s| ==> IsDigit(s[i])
    ensures DecimalValue(s) == n
    ensures |s| > 1 ==> s[0] != '0'
  {
    if n < 10 then [DigitChar(n)]
    else
      var prefix := NatToDecimal(n / 10);
      var s := prefix + [DigitChar(n % 10)];
      assert s[..|s| - 1] == prefix;
      s
  }

  /** The decimal spelling of an integer, with a leading `-` when it is negative. */
  function IntToDecimal(n: int): (s: seq<char>)
    ensures |s| >= 1
    ensures n < 0 <==> s[0] == '-'
  {
    if n < 0 then "-" + NatToDecimal(-n) else NatToDecimal(n)
  }

  /** ASCII upper-case letters fold to lower case; every other character is kept. */
  function LowerChar(c: char): (r: char)
    ensures 'A' <= c <= 'Z' ==> 'a' <= r <= 'z'
    ensures !('A' <= c <= 'Z') ==> r == c
  {
    if 'A' <= c <= 'Z' then ((c as int) - ('A' as int) + ('a' as int)) as char else c
  }

  /** The string with its ASCII letters folded to lower case, standing for Python's `str.lower()`. */
  function Lower(s: seq<char>): (r: seq<char>)
    ensures |r| == |s|
    ensures forall i :: 0 <= i < |s| ==> r[i] == LowerChar(s[i])
  {
    if |s| == 0 then [] else Lower(s[..|s| - 1]) + [LowerChar(s[|s| - 1])]
  }

  /** The characters below 128 that Python's `str.strip()` treats as whitespace. */
  predicate IsSpace(c: char) {
    c == ' ' || '\t' <= c <= '\r' || '\U{001C}' <= c <= '\U{001F}'
  }

  /** The index of the first character that is not whitespace, or the length. */
  function SpaceBefore(s: seq<char>): (a: nat)
    ensures a <= |s|
    ensures forall i :: 0 <= i < a ==> IsSpace(s[i])
    ensures a < |s| ==> !IsSpace(s[a])
  {
    if |s| == 0 || !IsSpace(s[0]) then 0 else 1 + SpaceBefore(s[1..])
  }

  /** The length of the string without its trailing whitespace. */
  function SpaceAfter(s: seq<char>): (b: nat)
    ensures b <= |s|
    ensures forall i :: b <= i < |s| ==> IsSpace(s[i])
    ensures b > 0 ==> !IsSpace(s[b - 1])
  {
    if |s| == 0 || !IsSpace(s[|s| - 1]) then |s| else SpaceAfter(s[..|s| - 1])
  }

  /** Python's `str.strip()`: the string without leading and trailing whitespace. */
  function Strip(s: seq<char>): (r: seq<char>)
    ensures |r| <= |s|
    ensures |r| > 0 ==> !IsSpace(r[0]) && !IsSpace(r[|r| - 1])
    ensures (forall i :: 0 <= i < |s| ==> !IsSpace(s[i])) ==> r == s
  {
    var a := SpaceBefore(s);
    var t := s[a..];
    var b := SpaceAfter(t);
    t[..b]
  }

  /**
   * The digits of an integer literal as Python's `int` reads it in base 10: digits, with single
   * underscores allowed between two digits.
   */
  predicate IsDigitGroup(s: seq<char>) {
    |s| > 0 && IsDigit(s[0]) && IsDigit(s[|s| - 1]) &&
    forall i :: 0 <= i < |s| ==> IsDigit(s[i]) || (s[i] == '_' && i + 1 < |s| && IsDigit(s[i + 1]))
  }

  /** The string with its underscores removed. */
  function NoUnderscores(s: seq<char>): (r: seq<char>)
    ensures |r| <= |s|
    ensures forall i :: 0 <= i < |s| ==> s[i] != '_' ==> s[i] in r
    ensures forall i :: 0 <= i < |r| ==> r[i] != '_' && r[i] in s
  {
    if |s| == 0 then [] else if s[0] == '_' then NoUnderscores(s[1..]) else [s[0]] + NoUnderscores(s[1..])
  }

  /** A digit group without its underscores is digits only. */
  lemma {:induction false} DigitsOnly(s: seq<char>)
    requires forall i :: 0 <= i < |s| ==> IsDigit(s[i]) || s[i] == '_'
    ensures forall i :: 0 <= i < |NoUnderscores(s)| ==> IsDigit(NoUnderscores(s)[i])
  {
    if |s| > 0 {
      DigitsOnly(s[1..]);
    }
  }

  /** A string of digits has no underscore to remove. */
  lemma {:induction false} NoUnderscoresInDigits(s: seq<char>)
    requires forall i :: 0 <= i < |s| ==> IsDigit(s[i])
    ensures NoUnderscores(s) == s
  {
    if |s| > 0 {
      NoUnderscoresInDigits(s[1..]);
    }
  }

  /** The value of a digit group. */
  function GroupValue(s: seq<char>): nat
    requires IsDigitGroup(s)
  {
    forall i | 0 <= i < |s| ensures IsDigit(s[i]) || s[i] == '_' {
      assert IsDigit(s[i]) || (s[i] == '_' && i + 1 < |s| && IsDigit(s[i + 1]));
    }
    DigitsOnly(s);
    DecimalValue(NoUnderscores(s))
  }

  /**
   * Python's `int(s)` on a string, in base 10: surrounding whitespace is ignored, one `+` or `-`
   * may lead, and the rest must be a digit group; anything else raises ValueError (`None`).
   */
  function ParseInt(s: seq<char>): (r: Option<int>)
    ensures r.Some? ==> |Strip(s)| > 0
  {
    var t := Strip(s);
    if |t| > 0 && (t[0] == '-' || t[0] == '+') then
      if IsDigitGroup(t[1..]) then
        var v: int := GroupValue(t[1..]);
        Some(if t[0] == '-' then -v else v)
      else None
    else if IsDigitGroup(t) then Some(GroupValue(t)) else None
  }

  /** A string of digits is a digit group, whose value is its decimal value. */
  lemma DigitsGroup(d: seq<char>)
    requires |d| > 0 && forall i :: 0 <= i < |d| ==> IsDigit(d[i])
    ensures IsDigitGroup(d) && GroupValue(d) == DecimalValue(d)
  {
    NoUnderscoresInDigits(d);
  }

  /** The decimal spelling of an integer holds no whitespace. */
  lemma DecimalHasNoSpace(n: int)
    ensures forall i :: 0 <= i < |IntToDecimal(n)| ==> !IsSpace(IntToDecimal(n)[i])
  {
    var s := IntToDecimal(n);
    var d := NatToDecimal(if n < 0 then -n else n);
    forall i | 0 <= i < |s| ensures !IsSpace(s[i]) {
      if n < 0 && i > 0 { assert s[i] == d[i - 1]; }
    }
  }

  /** The decimal spelling of an integer is made of digits and a leading minus sign. */
  lemma DecimalChars(n: int)
    ensures forall i :: 0 <= i < |IntToDecimal(n)| ==>
      IsDigit(IntToDecimal(n)[i]) || IntToDecimal(n)[i] == '-'
  {
    var s := IntToDecimal(n);
    var d := NatToDecimal(if n < 0 then -n else n);
    forall i | 0 <= i < |s| ensures IsDigit(s[i]) || s[i] == '-' {
      if n < 0 && i > 0 { assert s[i] == d[i - 1]; }
    }
  }

  /**
   * The shape of a decimal spelling that the text parsers rely on: nothing to strip, no comma, a
   * digit or minus sign first and a digit last.
   */
  lemma DecimalShape(n: int)
    ensures var d := IntToDecimal(n);
      Strip(d) == d && ',' !in d && (IsDigit(d[0]) || d[0] == '-') && IsDigit(d[|d| - 1])
  {
    var d := IntToDecimal(n);
    DecimalChars(n);
    DecimalHasNoSpace(n);
    assert Strip(d) == d;
    assert ',' !in d by {
      forall i | 0 <= i < |d| ensures d[i] != ',' { }
    }
    assert IsDigit(d[|d| - 1]) by {
      var m := NatToDecimal(if n < 0 then -n else n);
      assert d[|d| - 1] == m[|m| - 1];
    }
  }

  /** `int(str(n)) == n`: the decimal spelling of an integer parses back to it. */
  lemma ParseIntRoundTrip(n: int)
    ensures ParseInt(IntToDecimal(n)) == Some(n)
  {
    var s := IntToDecimal(n);
    var d := NatToDecimal(if n < 0 then -n else n);
    DigitsGroup(d);
    DecimalHasNoSpace(n);
    assert Strip(s) == s;
    if n < 0 {
      assert s[1..] == d;
    } else {
      assert s == d && s[0] != '-' && s[0] != '+';
    }
  }

  /** Multiplying both sides of `a <= b` by a non-negative factor keeps the order. */
  lemma MulMonotone(a: int, b: int, c: int)
    requires a <= b && c >= 0
    ensures a * c <= b * c
  {
    assert b * c - a * c == (b - a) * c;
  }

  /** Floor division by a positive size gives `t` for every coordinate of the `t`-th span of that size. */
  lemma DivInSpan(size: int, t: int, v: int)
    requires size > 0
    requires t * size <= v < t * size + size
    ensures v / size == t
  {
    var q, r := v / size, v % size;
    assert v == q * size + r && 0 <= r < size;
    if q < t { MulMonotone(q, t - 1, size); }
    if q > t { MulMonotone(t + 1, q, size); }
  }

  /** Floor division of a negative number by a positive one is negative. */
  lemma DivNegative(a: int, b: int)
    requires a < 0 && b > 0
    ensures a / b < 0
  {
  }
}
