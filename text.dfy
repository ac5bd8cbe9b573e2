/** The string conversions the browser code relies on: `String(n)` and
    `Number(s)` for decimal integers, `padStart(2, '0')`, `split`, the
    truncating remainder `%` of JavaScript, and the order `<` on strings.
    A Dafny `char` is a Unicode scalar value, where JavaScript strings are
    UTF-16 code units; the two agree on text inside the Basic Multilingual
    Plane, which covers the ASCII dates and numbers read here. */
module Text {
  import opened Options

  predicate IsDigit(c: char) {
    '0' <= c <= '9'
  }

  predicate AllDigits(s: string) {
    forall i :: 0 <= i < |s| ==> IsDigit(s[i])
  }

  function DigitChar(d: nat): (c: char)
    requires d < 10
    ensures IsDigit(c) && (c as int) - ('0' as int) == d
  {
    (('0' as int) + d) as char
  }

  function DigitValue(c: char): (d: nat)
    requires IsDigit(c)
    ensures d < 10 && DigitChar(d) == c
  {
    (c as int) - ('0' as int)
  }

  /** `String(n)` for a non-negative integer: its decimal digits, no leading zero. */
  function NatString(n: nat): (s: string)
    ensures |s| >= 1 && AllDigits(s)
    ensures |s| == 1 || s[0] != '0'
    ensures n < 10 <==> |s| == 1
    decreases n
  {
    if n < 10 then [DigitChar(n)] else NatString(n / 10) + [DigitChar(n % 10)]
  }

  /** `String(i)` for any integer: a minus sign before the digits of a negative value. */
  function IntString(i: int): (s: string)
    ensures |s| >= 1
    ensures i >= 0 ==> s == NatString(i)
    ensures i < 0 ==> s[0] == '-' && s[1..] == NatString(-i)
  {
    if i < 0 then "-" + NatString(-i) else NatString(i)
  }

  /** `Number(s)` for a string of decimal digits (the empty string reads as 0). */
  function DigitsValue(s: string): nat
    requires AllDigits(s)
  {
    if |s| == 0 then 0 else 10 * DigitsValue(s[..|s| - 1]) + DigitValue(s[|s| - 1])
  }

  /** Reading back the digits of `String(n)` gives `n`. */
  lemma {:induction false} NatStringValue(n: nat)
    ensures DigitsValue(NatString(n)) == n
    decreases n
  {
    if n >= 10 {
      var s := NatString(n);
      assert s[..|s| - 1] == NatString(n / 10);
      NatStringValue(n / 10);
    }
  }

  /** Distinct numbers have distinct decimal strings. */
  lemma NatStringInjective(a: nat, b: nat)
    requires NatString(a) == NatString(b)
    ensures a == b
  {
    NatStringValue(a);
    NatStringValue(b);
  }

  /** `n.toString().padStart(2, '0')`: a single digit gets a leading zero,
      longer strings are left alone. */
  function Pad2(n: nat): (s: string)
    ensures AllDigits(s) && |s| >= 2
    ensures n < 100 ==> |s| == 2
    ensures DigitsValue(s) == n
  {
    NatStringValue(n);
    if n < 10 then
      var s := ['0'] + NatString(n);
      assert s[..|s| - 1] == ['0'];
      s
    else NatString(n)
  }

  /** Appending a digit multiplies the value by ten and adds the digit. */
  lemma DigitsValueSnoc(s: string, c: char)
    requires AllDigits(s) && IsDigit(c)
    ensures AllDigits(s + [c]) && DigitsValue(s + [c]) == 10 * DigitsValue(s) + DigitValue(c)
  {
    assert (s + [c])[..|s|] == s;
  }

  /** Zero-padding to four digits, as the year of an ISO date string. */
  function Pad4(n: nat): (s: string)
    requires n < 10000
    ensures AllDigits(s) && |s| == 4
    ensures DigitsValue(s) == n
  {
    var q1, q2, q3 := n / 10, n / 100, n / 1000;
    var s1 := [DigitChar(q3)];
    assert s1 == [] + s1;
    DigitsValueSnoc([], DigitChar(q3));
    var s2 := s1 + [DigitChar(q2 % 10)];
    DigitsValueSnoc(s1, DigitChar(q2 % 10));
    assert q2 == 10 * q3 + q2 % 10;
    var s3 := s2 + [DigitChar(q1 % 10)];
    DigitsValueSnoc(s2, DigitChar(q1 % 10));
    assert q1 == 10 * q2 + q1 % 10;
    DigitsValueSnoc(s3, DigitChar(n % 10));
    s3 + [DigitChar(n % 10)]
  }

  /** The number of leading decimal digits of `s`. */
  function DigitSpan(s: string): (k: nat)
    ensures k <= |s| && AllDigits(s[..k])
    ensures k < |s| ==> !IsDigit(s[k])
  {
    if |s| == 0 || !IsDigit(s[0]) then 0
    else
      var k := 1 + DigitSpan(s[1..]);
      assert s[..k] == [s[0]] + s[1..][..k - 1];
      k
  }

  lemma {:induction false} DigitSpanOfConcat(a: string, rest: string)
    requires AllDigits(a)
    requires rest == [] || !IsDigit(rest[0])
    ensures DigitSpan(a + rest) == |a|
  {
    if |a| > 0 {
      assert (a + rest)[1..] == a[1..] + rest;
      DigitSpanOfConcat(a[1..], rest);
    }
  }

  /** Reads the leading run of digits of `s` as a number; `None` when `s` does
      not start with a digit. */
  function ReadNat(s: string): (r: Option<(nat, string)>)
    ensures r.Some? ==> |r.value.1| < |s|
  {
    var k := DigitSpan(s);
    if k == 0 then None else Some((DigitsValue(s[..k]), s[k..]))
  }

  /** Reading a digit string followed by a non-digit gives back its value and the rest. */
  lemma ReadNatOfConcat(a: string, rest: string)
    requires |a| >= 1 && AllDigits(a)
    requires rest == [] || !IsDigit(rest[0])
    ensures ReadNat(a + rest) == Some((DigitsValue(a), rest))
  {
    DigitSpanOfConcat(a, rest);
    assert (a + rest)[..|a|] == a;
    assert (a + rest)[|a|..] == rest;
  }

  lemma ReadNatOfNatString(n: nat, rest: string)
    requires rest == [] || !IsDigit(rest[0])
    ensures ReadNat(NatString(n) + rest) == Some((n, rest))
  {
    ReadNatOfConcat(NatString(n), rest);
    NatStringValue(n);
  }

  /** Reads an optional minus sign and digits, the inverse of `IntString`. */
  function ReadInt(s: string): (r: Option<(int, string)>)
  {
    if |s| > 0 && s[0] == '-' then
      var r := ReadNat(s[1..]);
      if r.Some? && r.value.0 > 0 then Some((-(r.value.0 as int), r.value.1)) else None
    else
      var r := ReadNat(s);
      if r.Some? then Some((r.value.0 as int, r.value.1)) else None
  }

  lemma ReadIntOfIntString(i: int, rest: string)
    requires rest == [] || !IsDigit(rest[0])
    ensures ReadInt(IntString(i) + rest) == Some((i, rest))
  {
    if i < 0 {
      ReadIntOfNegative(i, rest);
    } else {
      ReadIntOfNonNegative(i, rest);
    }
  }

  lemma ReadIntOfNegative(i: int, rest: string)
    requires i < 0 && (rest == [] || !IsDigit(rest[0]))
    ensures ReadInt(IntString(i) + rest) == Some((i, rest))
  {
    var n := NatString(-i);
    assert IntString(i) == ['-'] + n;
    ConcatAssoc(['-'], n, rest);
    ReadNatOfNatString(-i, rest);
    ReadIntOfMinus(n + rest, -i, rest);
  }

  lemma ConcatAssoc(a: string, b: string, c: string)
    ensures (a + b) + c == a + (b + c)
  {
  }

  lemma DropFirst(c: char, s: string)
    ensures ([c] + s)[1..] == s
  {
  }

  lemma ReadIntOfMinus(t: string, n: nat, rest: string)
    requires n > 0 && ReadNat(t) == Some((n, rest))
    ensures ReadInt(['-'] + t) == Some((-(n as int), rest))
  {
    assert (['-'] + t)[1..] == t;
  }

  lemma ReadIntOfNonNegative(i: int, rest: string)
    requires i >= 0 && (rest == [] || !IsDigit(rest[0]))
    ensures ReadInt(IntString(i) + rest) == Some((i, rest))
  {
    var s := IntString(i) + rest;
    assert s == NatString(i) + rest;
    assert IsDigit(s[0]);
    ReadNatOfNatString(i, rest);
  }

  /** `s.split(sep)`: the pieces between separators, always at least one. */
  function Split(s: string, sep: char): (r: seq<string>)
    ensures |r| >= 1
    ensures forall k :: 0 <= k < |r| ==> sep !in r[k]
  {
    if |s| == 0 then [""]
    else
      var rest := Split(s[1..], sep);
      if s[0] == sep then [""] + rest else [[s[0]] + rest[0]] + rest[1..]
  }

  lemma {:induction false} SplitWithoutSeparator(a: string, sep: char)
    requires sep !in a
    ensures Split(a, sep) == [a]
  {
    if |a| > 0 {
      SplitWithoutSeparator(a[1..], sep);
      assert [a[0]] + a[1..] == a;
    }
  }

  /** A piece free of the separator, then the separator, splits off as the first field. */
  lemma {:induction false} SplitAtSeparator(a: string, sep: char, b: string)
    requires sep !in a
    ensures Split(a + [sep] + b, sep) == [a] + Split(b, sep)
  {
    if |a| > 0 {
      assert (a + [sep] + b)[1..] == a[1..] + [sep] + b;
      SplitAtSeparator(a[1..], sep, b);
      assert [a[0]] + a[1..] == a;
    } else {
      assert (a + [sep] + b)[1..] == b;
    }
  }

  /** The `%` of JavaScript for a positive divisor: the remainder takes the sign
      of the dividend (Dafny's `%` never returns a negative value). */
  function JsRem(a: int, b: int): (r: int)
    requires b > 0
    ensures -b < r < b
    ensures a >= 0 ==> r == a % b
    ensures a < 0 ==> r == -((-a) % b)
  {
    if a >= 0 then a % b else -((-a) % b)
  }

  /** `a < b` on strings: character by character, a proper prefix comes first. */
  predicate LexLess(a: string, b: string)
    decreases |a|
  {
    if |a| == 0 then |b| > 0
    else if |b| == 0 then false
    else if a[0] != b[0] then a[0] < b[0]
    else LexLess(a[1..], b[1..])
  }

  /** Comparing two concatenations whose first parts have equal length decides
      on the first parts unless they are equal. */
  lemma {:induction false} LexLessOfConcat(a: string, b: string, c: string, d: string)
    requires |a| == |c|
    ensures LexLess(a + b, c + d) == if a == c then LexLess(b, d) else LexLess(a, c)
    decreases |a|
  {
    if |a| > 0 {
      assert (a + b)[1..] == a[1..] + b;
      assert (c + d)[1..] == c[1..] + d;
      if a[0] == c[0] {
        LexLessOfConcat(a[1..], b, c[1..], d);
        if a[1..] == c[1..] {
          assert a == [a[0]] + a[1..] && c == [c[0]] + c[1..];
        }
      }
    } else {
      assert a + b == b && c + d == d;
    }
  }

  /** For digit strings of one length, the string order is the numeric order,
      and equal values mean equal strings. */
  lemma {:induction false} DigitsOrder(s: string, t: string)
    requires AllDigits(s) && AllDigits(t) && |s| == |t|
    ensures LexLess(s, t) <==> DigitsValue(s) < DigitsValue(t)
    ensures s == t <==> DigitsValue(s) == DigitsValue(t)
    decreases |s|
  {
    if |s| > 0 {
      var s', t' := s[..|s| - 1], t[..|t| - 1];
      var c, d := s[|s| - 1], t[|t| - 1];
      assert s == s' + [c] && t == t' + [d];
      DigitsOrder(s', t');
      LexLessOfConcat(s', [c], t', [d]);
      assert LexLess([c], [d]) <==> c < d by {
        assert [c][1..] == [] && [d][1..] == [];
      }
      assert c < d <==> DigitValue(c) < DigitValue(d);
    } else {
      assert s == [] && t == [];
    }
  }

  /** `!value` for an optional string value: absent (undefined) or empty. */
  predicate Falsy(v: Option<string>) {
    v.None? || v.value == ""
  }

  /** `s.endsWith(suffix)`. */
  predicate EndsWith(s: string, suffix: string) {
    |suffix| <= |s| && s[|s| - |suffix|..] == suffix
  }
}
