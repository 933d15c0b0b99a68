/** Decimal integers: `Number.prototype.toString` on integers, and the integer subset of `Number(string)`. */
module Numbers {
  import opened Errors

  /** `Number.MAX_SAFE_INTEGER`; `Number.MIN_SAFE_INTEGER` is its negation. */
  const MaxSafeInteger: int := 9007199254740991

  predicate IsDigit(c: char) { '0' <= c <= '9' }

  predicate AllDigits(s: string) { forall i :: 0 <= i < |s| ==> IsDigit(s[i]) }

  function DigitChar(d: nat): (c: char)
    requires d < 10
    ensures IsDigit(c) && (c as int) - ('0' as int) == d
  {
    (('0' as int) + d) as char
  }

  /** The decimal digits of `n`, most significant first, without leading zeros. */
  function NatToString(n: nat): (s: string)
    ensures |s| > 0 && AllDigits(s)
    decreases n
  {
    if n < 10 then [DigitChar(n)] else NatToString(n / 10) + [DigitChar(n % 10)]
  }

  /** `i.toString()` for an integer `i`. */
  function IntToString(i: int): (s: string)
    ensures |s| > 0
    ensures forall k :: 0 <= k < |s| ==> IsDigit(s[k]) || (k == 0 && s[k] == '-')
  {
    if i < 0 then "-" + NatToString(-i) else NatToString(i)
  }

  /** The value of a string of decimal digits. */
  function DigitsValue(s: string): nat
    requires AllDigits(s)
  {
    if s == [] then 0 else DigitsValue(s[..|s| - 1]) * 10 + ((s[|s| - 1] as int) - ('0' as int))
  }

  /** An optional sign followed by at least one decimal digit. */
  predicate SignedDigits(s: string) {
    (|s| > 0 && AllDigits(s)) || (|s| > 1 && (s[0] == '-' || s[0] == '+') && AllDigits(s[1..]))
  }

  /** The decimal text `i.toString()` writes: no '+', no leading zero, no "-0". */
  predicate CanonicalDigits(d: string) {
    |d| > 0 && AllDigits(d) && (d[0] == '0' ==> |d| == 1)
  }

  predicate CanonicalInteger(s: string) {
    CanonicalDigits(s) || (|s| > 1 && s[0] == '-' && CanonicalDigits(s[1..]) && s[1..] != "0")
  }

  /** Reads a signed decimal literal: defined exactly on those texts, negative only after a '-', and
      its magnitude is the value of the digits after the sign. */
  function ParseInteger(s: string): (r: Option<int>)
    ensures r.Some? ==> |s| > 0
    ensures r.Some? <==> SignedDigits(s)
    ensures r.Some? && s[0] == '-' ==> r.value + DigitsValue(s[1..]) == 0
    ensures r.Some? && s[0] == '+' ==> r.value == DigitsValue(s[1..])
    ensures r.Some? && IsDigit(s[0]) ==> r.value == DigitsValue(s)
  {
    if |s| > 0 && (s[0] == '-' || s[0] == '+') then
      var digits := s[1..];
      if |digits| > 0 && AllDigits(digits) then
        var magnitude: int := DigitsValue(digits);
        Some(if s[0] == '-' then -magnitude else magnitude)
      else None
    else if |s| > 0 && AllDigits(s) then Some(DigitsValue(s))
    else None
  }

  /** `Number(s)` restricted to integers: the empty string is 0, a signed decimal literal its value,
      and anything else is NaN (None). */
  function NumberOf(s: string): (r: Option<int>)
    ensures s == "" ==> r == Some(0)
    ensures s != "" ==> r == ParseInteger(s)
    ensures r.Some? <==> s == "" || SignedDigits(s)
    ensures r.Some? && s != "" ==> (r.value < 0 ==> s[0] == '-') && (s[0] == '-' ==> r.value <= 0)
  {
    if s == "" then Some(0) else ParseInteger(s)
  }

  lemma {:induction false} DigitsValueOfNatToString(n: nat)
    ensures DigitsValue(NatToString(n)) == n
    decreases n
  {
    if n >= 10 {
      var s := NatToString(n / 10) + [DigitChar(n % 10)];
      assert s[..|s| - 1] == NatToString(n / 10);
      DigitsValueOfNatToString(n / 10);
    }
  }

  /** The serialisation of an integer parses back to the same integer. */
  lemma NumberOfIntToString(i: int)
    ensures NumberOf(IntToString(i)) == Some(i)
  {
    if i < 0 {
      var s := IntToString(i);
      assert s[1..] == NatToString(-i);
      DigitsValueOfNatToString(-i);
    } else {
      DigitsValueOfNatToString(i);
    }
  }

  /** Digits without a leading zero have a positive value, unless they are "0". */
  lemma {:induction false} DigitsValuePositive(d: string)
    requires CanonicalDigits(d) && d != "0"
    ensures DigitsValue(d) > 0
    decreases |d|
  {
    if |d| > 1 {
      var init := d[..|d| - 1];
      assert init[0] == d[0] && init != "0";
      DigitsValuePositive(init);
    }
  }

  /** Canonical digits are the decimal text of their own value. */
  lemma {:induction false} NatToStringOfDigits(d: string)
    requires CanonicalDigits(d)
    ensures NatToString(DigitsValue(d)) == d
    decreases |d|
  {
    var n := DigitsValue(d);
    var last := (d[|d| - 1] as int) - ('0' as int);
    if |d| == 1 {
      assert d[..0] == [];
      assert n == last && DigitChar(n) == d[0];
    } else {
      var init := d[..|d| - 1];
      assert init[0] == d[0] && init != "0";
      DigitsValuePositive(init);
      NatToStringOfDigits(init);
      assert n == DigitsValue(init) * 10 + last && 0 <= last < 10;
      assert n / 10 == DigitsValue(init) && n % 10 == last;
      assert DigitChar(last) == d[|d| - 1];
      assert init + [d[|d| - 1]] == d;
    }
  }

  /** The other direction of NumberOfIntToString: a text written as `toString` writes integers reads
      as the integer whose text it is. */
  lemma IntToStringOfNumber(s: string)
    requires CanonicalInteger(s)
    ensures NumberOf(s).Some? && IntToString(NumberOf(s).value) == s
  {
    if CanonicalDigits(s) {
      NatToStringOfDigits(s);
    } else {
      var d := s[1..];
      DigitsValuePositive(d);
      NatToStringOfDigits(d);
      assert "-" + d == s;
    }
  }
}
