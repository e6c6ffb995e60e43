/** The two pieces of JavaScript string behaviour the dispatcher relies on:
    `value || fallback` on an optional string field, and `String(n)` (and the
    equivalent template-literal interpolation) on an integer. */
module JsText {
  import opened Wrappers

  /** `v || fallback`: a missing field and the empty string are both falsy. */
  function OrElse(v: Option<string>, fallback: string): (r: string)
    ensures v.Some? && v.value != "" ==> r == v.value
    ensures v.None? || v.value == "" ==> r == fallback
    // the result is one of the two inputs, and a non-empty fallback makes it non-empty
    ensures r == fallback || v == Some(r)
    ensures fallback != "" ==> r != ""
  {
    if v.Some? && v.value != "" then v.value else fallback
  }

  /** With an empty fallback, `v || ""` is simply the value when one is present,
      an empty one included, and "" when none is: a reader of the payload
      sees the stored text exactly whenever there is one. */
  lemma OrEmptyIsValueOrEmpty(v: Option<string>)
    ensures OrElse(v, "") == v.GetOr("")
  {
  }

  predicate IsDigit(c: char) {
    '0' <= c <= '9'
  }

  predicate AllDigits(s: string) {
    forall i :: 0 <= i < |s| ==> IsDigit(s[i])
  }

  function DigitChar(d: nat): (c: char)
    requires d < 10
    ensures IsDigit(c)
  {
    ('0' as int + d) as char
  }

  function DigitValue(c: char): (d: nat)
    requires IsDigit(c)
    ensures d < 10
  {
    c as int - '0' as int
  }

  /** Decimal digits of `n`, most significant first. */
  function NatToString(n: nat): (s: string)
    ensures |s| >= 1 && AllDigits(s)
    ensures s[0] == '0' ==> n == 0 && |s| == 1
    decreases n
  {
    if n < 10 then [DigitChar(n)] else NatToString(n / 10) + [DigitChar(n % 10)]
  }

  /** `String(n)` for an integer: a minus sign before the digits of `-n` when negative. */
  function IntToString(n: int): (s: string)
    ensures |s| >= 1
    ensures s[0] == '-' <==> n < 0
    ensures Canonical(s)
  {
    if n < 0 then "-" + NatToString(-n) else NatToString(n)
  }

  /** The shape `String(n)` gives an integer: an optional minus sign, then
      digits with no leading zero, except for "0" itself. */
  predicate Canonical(s: string) {
    && |s| >= 1
    && (s[0] == '-' ==> |s| >= 2 && s[1] != '0')
    && (s[0] == '0' ==> |s| == 1)
  }

  /** The value of a string of decimal digits (reads the last digit last). */
  function ParseNat(s: string): nat
    requires AllDigits(s)
    decreases |s|
  {
    if s == [] then 0 else ParseNat(s[..|s| - 1]) * 10 + DigitValue(s[|s| - 1])
  }

  /** The integer a decimal string denotes, if it denotes one. */
  function ParseInt(s: string): Option<int> {
    if |s| >= 2 && s[0] == '-' && AllDigits(s[1..]) then Some(0 - ParseNat(s[1..]) as int)
    else if |s| >= 1 && AllDigits(s) then Some(ParseNat(s))
    else None
  }

  lemma {:induction false} NatToStringRoundTrip(n: nat)
    ensures ParseNat(NatToString(n)) == n
    decreases n
  {
    if n >= 10 {
      var front := NatToString(n / 10);
      var s := front + [DigitChar(n % 10)];
      assert s[..|s| - 1] == front;
      NatToStringRoundTrip(n / 10);
    }
  }

  /** `String(n)` can always be read back as `n`. */
  lemma IntToStringRoundTrip(n: int)
    ensures ParseInt(IntToString(n)) == Some(n)
  {
    var s := IntToString(n);
    if n < 0 {
      assert s[1..] == NatToString(-n);
      NatToStringRoundTrip(-n);
    } else {
      NatToStringRoundTrip(n);
    }
  }

  /** Different integers print differently. */
  lemma IntToStringInjective(m: int, n: int)
    ensures IntToString(m) == IntToString(n) ==> m == n
  {
    IntToStringRoundTrip(m);
    IntToStringRoundTrip(n);
  }

  lemma {:induction false} LeadingDigitPositive(s: string)
    requires |s| >= 1 && AllDigits(s) && s[0] != '0'
    ensures ParseNat(s) >= 1
    decreases |s|
  {
    if |s| >= 2 {
      LeadingDigitPositive(s[..|s| - 1]);
    }
  }

  /** A digit string without a leading zero is the rendering of its own value. */
  lemma {:induction false} DigitsAreNatToString(s: string)
    requires |s| >= 1 && AllDigits(s) && (s[0] == '0' ==> |s| == 1)
    ensures NatToString(ParseNat(s)) == s
    decreases |s|
  {
    var n := ParseNat(s);
    if |s| == 1 {
      assert ParseNat(s[..0]) == 0 by { assert s[..0] == []; }
      assert n == DigitValue(s[0]);
      assert NatToString(n) == [DigitChar(n)];
    } else {
      var front := s[..|s| - 1];
      LeadingDigitPositive(front);
      DigitsAreNatToString(front);
      assert n / 10 == ParseNat(front) && n % 10 == DigitValue(s[|s| - 1]);
      assert s == front + [s[|s| - 1]];
    }
  }

  /** `String(n)` is the only canonical string that reads back as `n`: a
      rendering with a leading zero, a "-0" or a "+" is not one of its outputs. */
  lemma CanonicalIsIntToString(s: string, n: int)
    requires Canonical(s) && ParseInt(s) == Some(n)
    ensures s == IntToString(n)
  {
    if s[0] == '-' {
      var digits := s[1..];
      LeadingDigitPositive(digits);
      DigitsAreNatToString(digits);
      assert s == "-" + digits;
    } else {
      DigitsAreNatToString(s);
    }
  }
}
