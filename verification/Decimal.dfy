/**
 * Decimal text for integers, as JavaScript's `Number.prototype.toString` produces
 * it for integral numbers, the zero-padding rule `n < 10 ? "0" + n : n.toString()`
 * used by both formatters, and the parsers and splitter that invert them.
 */
module Decimal {
  import opened Wrappers

  predicate IsDigit(c: char) {
    '0' <= c <= '9'
  }

  predicate AllDigits(s: string) {
    forall i :: 0 <= i < |s| ==> IsDigit(s[i])
  }

  function DigitChar(d: nat): (c: char)
    requires d < 10
    ensures IsDigit(c) && DigitValue(c) == d
  {
    (d + '0' as int) as char
  }

  function DigitValue(c: char): (d: nat)
    requires IsDigit(c)
    ensures d < 10
  {
    c as int - '0' as int
  }

  /** The decimal text of `n`: digits only, no leading zero, one digit exactly when n < 10. */
  function NatToString(n: nat): (s: string)
    ensures |s| >= 1 && AllDigits(s)
    ensures |s| == 1 <==> n < 10
    ensures s[0] == '0' ==> n == 0
    decreases n
  {
    if n < 10 then [DigitChar(n)] else NatToString(n / 10) + [DigitChar(n % 10)]
  }

  /** The decimal text of an integer; negative numbers get a leading '-'. */
  function IntToString(i: int): (s: string)
    ensures |s| >= 1
    ensures (s[0] == '-') <==> i < 0
    ensures AllDigits(if i < 0 then s[1..] else s)
    ensures var digits := if i < 0 then s[1..] else s;
      digits != [] && (digits[0] == '0' ==> i == 0)
  {
    if i < 0 then "-" + NatToString(-i) else NatToString(i)
  }

  /** `n < 10 ? "0" + n : n.toString()`: at least two digits, exactly two when n < 100. */
  function ZeroPad(n: nat): (s: string)
    ensures AllDigits(s) && |s| >= 2
    ensures |s| == 2 <==> n < 100
    ensures s[0] == '0' <==> n < 10
  {
    if n < 10 then "0" + NatToString(n) else NatToString(n)
  }

  /** The value of a string of decimal digits, read most significant digit first. */
  function DigitsValue(s: string): nat
    requires AllDigits(s)
    decreases |s|
  {
    if s == [] then 0 else DigitsValue(s[..|s| - 1]) * 10 + DigitValue(s[|s| - 1])
  }

  /** Reads a non-empty string of digits (leading zeros allowed) as a natural number. */
  function ParseNat(s: string): (r: Option<nat>)
    ensures r.Some? <==> s != [] && AllDigits(s)
  {
    if s != [] && AllDigits(s) then Some(DigitsValue(s)) else None
  }

  /** Reads an optional '-' followed by digits as an integer. */
  function ParseInt(s: string): Option<int> {
    if s != [] && s[0] == '-' then
      match ParseNat(s[1..])
      case Some(n) => Some(0 - n)
      case None => None
    else
      match ParseNat(s)
      case Some(n) => Some(n)
      case None => None
  }

  lemma {:induction false} DigitsValueAppend(s: string, c: char)
    requires AllDigits(s) && IsDigit(c)
    ensures AllDigits(s + [c]) && DigitsValue(s + [c]) == DigitsValue(s) * 10 + DigitValue(c)
  {
    assert (s + [c])[..|s|] == s;
  }

  /** Reading back the decimal text of `n` gives `n`. */
  lemma {:induction false} NatToStringRoundTrip(n: nat)
    ensures ParseNat(NatToString(n)) == Some(n)
    decreases n
  {
    if n < 10 {
      assert DigitsValue([DigitChar(n)]) == DigitsValue([]) * 10 + DigitValue(DigitChar(n));
    } else {
      NatToStringRoundTrip(n / 10);
      DigitsValueAppend(NatToString(n / 10), DigitChar(n % 10));
    }
  }

  /** A leading zero does not change the value of a digit string. */
  lemma {:induction false} LeadingZero(s: string)
    requires AllDigits(s)
    ensures AllDigits("0" + s) && DigitsValue("0" + s) == DigitsValue(s)
    decreases |s|
  {
    if s == [] {
      assert "0" + s == ['0'];
      assert DigitsValue(['0']) == DigitsValue([]) * 10 + DigitValue('0');
    } else {
      var init := s[..|s| - 1];
      LeadingZero(init);
      assert "0" + s == ("0" + init) + [s[|s| - 1]];
      DigitsValueAppend("0" + init, s[|s| - 1]);
      assert s == init + [s[|s| - 1]];
      DigitsValueAppend(init, s[|s| - 1]);
    }
  }

  /** Reading back a zero-padded field gives the padded number. */
  lemma ZeroPadRoundTrip(n: nat)
    ensures ParseNat(ZeroPad(n)) == Some(n)
  {
    NatToStringRoundTrip(n);
    if n < 10 {
      LeadingZero(NatToString(n));
    }
  }

  /** Reading back the decimal text of an integer gives the integer. */
  lemma IntToStringRoundTrip(i: int)
    ensures ParseInt(IntToString(i)) == Some(i)
  {
    if i < 0 {
      NatToStringRoundTrip(-i);
      assert IntToString(i)[1..] == NatToString(-i);
    } else {
      NatToStringRoundTrip(i);
    }
  }

  /** The position of the first `c` in `s`, or |s| when there is none. */
  function IndexOf(s: string, c: char): (k: nat)
    ensures k <= |s|
    ensures k < |s| ==> s[k] == c
    ensures c !in s[..k]
    decreases |s|
  {
    if s == [] then 0
    else if s[0] == c then 0
    else
      var k := 1 + IndexOf(s[1..], c);
      assert s[..k] == [s[0]] + s[1..][..k - 1];
      k
  }

  /** `s.split(c)`: the maximal pieces of `s` between occurrences of `c`. */
  function Split(s: string, c: char): (parts: seq<string>)
    ensures |parts| >= 1
    ensures forall i :: 0 <= i < |parts| ==> c !in parts[i]
    decreases |s|
  {
    var k := IndexOf(s, c);
    if k == |s| then
      assert s[..k] == s;
      [s]
    else
      [s[..k]] + Split(s[k + 1..], c)
  }

  /** Splitting at a first separator peels off the piece before it. */
  lemma SplitCons(a: string, c: char, b: string)
    requires c !in a
    ensures Split(a + [c] + b, c) == [a] + Split(b, c)
  {
    var s := a + [c] + b;
    assert s[|a|] == c && s[..|a|] == a;
    assert IndexOf(s, c) == |a|;
    assert s[|a| + 1..] == b;
  }

  /** A string without the separator splits into itself alone. */
  lemma SplitNone(a: string, c: char)
    requires c !in a
    ensures Split(a, c) == [a]
  {
    assert a[..|a|] == a;
  }

  lemma DigitsHaveNo(s: string, c: char)
    requires AllDigits(s) && !IsDigit(c)
    ensures c !in s
  {
  }
}
