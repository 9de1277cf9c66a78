/**
 * Strings as sequences of characters: ASCII case mapping, decimal numerals,
 * Python's `int()` and `str.split`, character replacement and substring tests.
 */
module Text {
  import opened Wrappers
  import Seqs

  // ---------------------------------------------------------------------------
  // Case mapping (ASCII only, the subset of toLowerCase / str.lower modelled)

  function LowerChar(c: char): char
  {
    if 'A' <= c <= 'Z' then (c as int + 32) as char else c
  }

  /**
   * Lower-casing: no upper-case letter is left, every other character is
   * kept, and each upper-case letter becomes the same letter in lower case.
   */
  function Lower(s: string): (r: string)
    ensures |r| == |s|
    ensures forall i :: 0 <= i < |r| ==> !('A' <= r[i] <= 'Z')
    ensures forall i :: 0 <= i < |s| && !('A' <= s[i] <= 'Z') ==> r[i] == s[i]
    ensures forall i :: 0 <= i < |s| && 'A' <= s[i] <= 'Z' ==> 'a' <= r[i] <= 'z' && r[i] as int - 'a' as int == s[i] as int - 'A' as int
  {
    seq(|s|, i requires 0 <= i < |s| => LowerChar(s[i]))
  }

  /** Lower-casing twice is lower-casing once, so a lower-cased name is its own canonical form. */
  lemma LowerIdempotent(s: string)
    ensures Lower(Lower(s)) == Lower(s)
  {
    assert forall i :: 0 <= i < |s| ==> Lower(Lower(s))[i] == Lower(s)[i];
  }

  lemma LowerConcat(a: string, b: string)
    ensures Lower(a + b) == Lower(a) + Lower(b)
  {
    assert forall i :: 0 <= i < |a + b| ==> Lower(a + b)[i] == (Lower(a) + Lower(b))[i];
  }

  // ---------------------------------------------------------------------------
  // Decimal numerals

  predicate IsDigit(c: char)
  {
    '0' <= c <= '9'
  }

  predicate AllDigits(s: string)
  {
    forall i :: 0 <= i < |s| ==> IsDigit(s[i])
  }

  function DigitChar(d: nat): (c: char)
    requires d < 10
    ensures IsDigit(c)
  {
    ('0' as int + d) as char
  }

  /** The value of a string of decimal digits, most significant digit first. */
  function DigitsValue(s: string): nat
    requires AllDigits(s)
    decreases |s|
  {
    if s == [] then 0
    else 10 * DigitsValue(s[..|s| - 1]) + (s[|s| - 1] as int - '0' as int)
  }

  /** The canonical decimal numeral of `n`: non-empty, digits only, no leading zero, and denoting `n`. */
  function NatToString(n: nat): (r: string)
    ensures r != [] && AllDigits(r)
    ensures DigitsValue(r) == n
    ensures r[0] == '0' ==> r == "0"
    decreases n
  {
    if n < 10 then [DigitChar(n)]
    else
      var high := NatToString(n / 10);
      var r := high + [DigitChar(n % 10)];
      assert r[..|r| - 1] == high;
      r
  }

  /** `str(n)` in Python and `String(n)` in JavaScript for an integer `n`. */
  function IntToString(n: int): string
  {
    if n < 0 then "-" + NatToString(-n) else NatToString(n)
  }

  /** JavaScript `Number(s)` on a non-empty numeral, ignoring the loss of precision beyond 2^53. */
  function NumeralValue(s: string): nat
    requires AllDigits(s)
  {
    DigitsValue(s)
  }

  // ---------------------------------------------------------------------------
  // Python int() on a string that may carry surrounding white space and a sign

  /** The ASCII characters Python treats as white space when parsing an integer. */
  predicate IsPySpace(c: char)
  {
    var n := c as int;
    n == 32 || 9 <= n <= 13 || 28 <= n <= 31
  }

  function TrimLeft(s: string): (r: string)
    ensures r == [] || !IsPySpace(r[0])
    ensures |r| <= |s| && r == s[|s| - |r|..]
    decreases |s|
  {
    if s != [] && IsPySpace(s[0]) then TrimLeft(s[1..]) else s
  }

  function TrimRight(s: string): (r: string)
    ensures r == [] || !IsPySpace(r[|r| - 1])
    ensures |r| <= |s| && r == s[..|r|]
    decreases |s|
  {
    if s != [] && IsPySpace(s[|s| - 1]) then TrimRight(s[..|s| - 1]) else s
  }

  function Strip(s: string): string
  {
    TrimRight(TrimLeft(s))
  }

  /** Digits with single underscores between them, as Python's integer syntax allows. */
  predicate IsDigitGroup(b: string)
  {
    && |b| > 0
    && IsDigit(b[0])
    && IsDigit(b[|b| - 1])
    && (forall i :: 0 <= i < |b| ==> IsDigit(b[i]) || b[i] == '_')
    && (forall i :: 0 <= i < |b| - 1 ==> !(b[i] == '_' && b[i + 1] == '_'))
  }

  function DigitsOnly(b: string): (r: string)
    ensures AllDigits(r)
  {
    var r := Seqs.Filter(IsDigit, b);
    assert forall i :: 0 <= i < |r| ==> r[i] in r;
    r
  }

  /** Python's `int(s)` in base 10, with `None` for the inputs on which it raises ValueError. */
  function ParseInt(s: string): Option<int>
  {
    ParseStripped(Strip(s))
  }

  /** `int` on text with the white space already stripped: an optional sign, then a digit group. */
  function ParseStripped(t: string): Option<int>
  {
    if t == [] then None
    else if t[0] == '-' then
      match DigitGroupValue(t[1..])
      case None => None
      case Some(v) => Some(-(v as int))
    else if t[0] == '+' then
      match DigitGroupValue(t[1..])
      case None => None
      case Some(v) => Some(v as int)
    else
      match DigitGroupValue(t)
      case None => None
      case Some(v) => Some(v as int)
  }

  /** The value of an unsigned digit group, ignoring its underscores. */
  function DigitGroupValue(b: string): Option<nat>
  {
    if IsDigitGroup(b) then Some(DigitsValue(DigitsOnly(b))) else None
  }

  lemma StripNoSpace(s: string)
    requires s != [] && !IsPySpace(s[0]) && !IsPySpace(s[|s| - 1])
    ensures Strip(s) == s
  {
  }

  lemma DigitsOnlyOfDigits(s: string)
    requires AllDigits(s)
    ensures DigitsOnly(s) == s
  {
    assert forall x :: x in s ==> IsDigit(x);
    Seqs.FilterAll(IsDigit, s);
  }

  /** A plain numeral is a digit group of its own value. */
  lemma NumeralGroupValue(digits: string)
    requires digits != [] && AllDigits(digits)
    ensures DigitGroupValue(digits) == Some(DigitsValue(digits))
  {
    assert IsDigitGroup(digits);
    DigitsOnlyOfDigits(digits);
  }

  /** Python's `int(str(n)) == n`: reading back a printed integer gives the integer. */
  lemma {:induction false} ParseIntRoundTrip(n: int)
    ensures ParseInt(IntToString(n)) == Some(n)
  {
    if n < 0 {
      NegativeNumeral(n);
      ParseNegative(IntToString(n));
    } else {
      ParseUnsigned(NatToString(n));
    }
  }

  /** A plain numeral reads back as its value. */
  lemma ParseUnsigned(digits: string)
    requires digits != [] && AllDigits(digits)
    ensures ParseInt(digits) == Some(DigitsValue(digits) as int)
  {
    assert IsDigit(digits[0]) && IsDigit(digits[|digits| - 1]);
    StripNoSpace(digits);
    assert digits[0] != '-' && digits[0] != '+';
    NumeralGroupValue(digits);
  }

  /** The numeral of a negative number is a minus sign before the numeral of its magnitude. */
  lemma NegativeNumeral(n: int)
    requires n < 0
    ensures var s := IntToString(n);
            |s| >= 2 && s[0] == '-' && s[1..] == NatToString(-n) && AllDigits(s[1..]) && DigitsValue(s[1..]) == -n
  {
    var s := IntToString(n);
    assert s[1..] == NatToString(-n);
  }

  /** A minus sign before a numeral reads back as the numeral's value negated. */
  lemma ParseNegative(s: string)
    requires |s| >= 2 && s[0] == '-' && AllDigits(s[1..])
    ensures ParseInt(s) == Some(-(DigitsValue(s[1..]) as int))
  {
    assert IsDigit(s[1..][|s| - 2]) && s[|s| - 1] == s[1..][|s| - 2];
    StripNoSpace(s);
    NumeralGroupValue(s[1..]);
  }

  // ---------------------------------------------------------------------------
  // Python str.split with an explicit separator, and its inverse

  function IndexOfChar(s: string, c: char): (i: nat)
    ensures i <= |s|
    ensures i < |s| ==> s[i] == c
    ensures forall j :: 0 <= j < i ==> s[j] != c
    decreases |s|
  {
    if s == [] then 0
    else if s[0] == c then 0
    else 1 + IndexOfChar(s[1..], c)
  }

  /** Joins non-empty `fields` with the separator `c` between neighbours. */
  function JoinWith(fields: seq<string>, c: char): string
    requires |fields| >= 1
    decreases |fields|
  {
    if |fields| == 1 then fields[0] else fields[0] + [c] + JoinWith(fields[1..], c)
  }

  /**
   * `s.split(c)` in Python: at least one field, no field holds the separator,
   * and joining the fields back with the separator gives `s`.
   */
  function SplitOn(s: string, c: char): (r: seq<string>)
    ensures |r| >= 1
    ensures forall f :: f in r ==> c !in f
    ensures JoinWith(r, c) == s
    decreases |s|
  {
    var i := IndexOfChar(s, c);
    if i == |s| then
      assert forall j :: 0 <= j < |s| ==> s[j] != c;
      [s]
    else
      var head, rest := s[..i], SplitOn(s[i + 1..], c);
      assert s == head + [c] + s[i + 1..];
      assert forall j :: 0 <= j < |head| ==> head[j] != c;
      [head] + rest
  }

  /** Splitting a join of separator-free fields gives the fields back. */
  lemma {:induction false} SplitJoin(fields: seq<string>, c: char)
    requires |fields| >= 1
    requires forall f :: f in fields ==> c !in f
    ensures SplitOn(JoinWith(fields, c), c) == fields
    decreases |fields|
  {
    var s := JoinWith(fields, c);
    var f0 := fields[0];
    assert c !in f0 by { assert f0 in fields; }
    if |fields| == 1 {
      forall j | 0 <= j < |s| ensures s[j] != c {
        assert s[j] in f0;
      }
    } else {
      var tail := JoinWith(fields[1..], c);
      assert s == f0 + [c] + tail;
      forall j | 0 <= j < |f0| ensures s[j] != c {
        assert s[j] == f0[j] && f0[j] in f0;
      }
      assert s[|f0|] == c;
      assert IndexOfChar(s, c) == |f0|;
      assert s[..|f0|] == f0;
      assert s[|f0| + 1..] == tail;
      assert forall f :: f in fields[1..] ==> f in fields;
      SplitJoin(fields[1..], c);
    }
  }

  // ---------------------------------------------------------------------------
  // Replacement and substring tests

  /** Every occurrence of `a` replaced by `b` (JavaScript `s.replace(/a/g, b)`). */
  function ReplaceChar(s: string, a: char, b: char): (r: string)
    ensures |r| == |s|
    ensures forall i :: 0 <= i < |s| ==> r[i] == s[i] || (s[i] == a && r[i] == b)
    ensures a != b ==> a !in r
  {
    seq(|s|, i requires 0 <= i < |s| => if s[i] == a then b else s[i])
  }

  /** Replacing `a` by `b` is undone by replacing `b` by `a` when `s` held no `b` to begin with. */
  lemma ReplaceCharInverse(s: string, a: char, b: char)
    requires b !in s
    ensures ReplaceChar(ReplaceChar(s, a, b), b, a) == s
  {
    var once := ReplaceChar(s, a, b);
    forall i | 0 <= i < |s| ensures ReplaceChar(once, b, a)[i] == s[i] {
      assert s[i] != b by { assert s[i] in s; }
    }
  }

  predicate StartsWith(s: string, prefix: string)
  {
    |prefix| <= |s| && s[..|prefix|] == prefix
  }

  predicate EndsWith(s: string, suffix: string)
  {
    |suffix| <= |s| && s[|s| - |suffix|..] == suffix
  }

  /** Python's `sub in s` on strings. */
  predicate Contains(s: string, sub: string)
    decreases |s|
  {
    StartsWith(s, sub) || (s != [] && Contains(s[1..], sub))
  }
}
