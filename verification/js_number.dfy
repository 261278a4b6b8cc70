/** JavaScript numbers as the extractor produces them: `parseInt(s, 10)`
    for the review count and `parseFloat` of the cleaned price text. A
    number is either `NaN` or a finite value; values are exact reals, so
    the rounding to double precision is not represented. */
module JsNumber {
  import opened JsString

  datatype Number = NaN | Finite(value: real)

  /** JavaScript `a < b`: every comparison with `NaN` is false. */
  predicate Less(a: Number, b: Number)
    ensures a.NaN? || b.NaN? ==> !Less(a, b)
    ensures a.Finite? && b.Finite? ==> (Less(a, b) <==> a.value < b.value)
  {
    a.Finite? && b.Finite? && a.value < b.value
  }

  /** JavaScript `a > b`, likewise false whenever `NaN` is involved. */
  predicate Greater(a: Number, b: Number)
    ensures a.NaN? || b.NaN? ==> !Greater(a, b)
    ensures a.Finite? && b.Finite? ==> (Greater(a, b) <==> a.value > b.value)
  {
    Less(b, a)
  }

  predicate IsDigit(c: char) {
    '0' <= c <= '9'
  }

  predicate AllDigits(s: string) {
    forall i :: 0 <= i < |s| ==> IsDigit(s[i])
  }

  function DigitValue(c: char): (d: nat)
    requires IsDigit(c)
    ensures d < 10
  {
    (c as int) - ('0' as int)
  }

  function Pow10(n: nat): (p: nat)
    ensures p >= 1
  {
    if n == 0 then 1 else 10 * Pow10(n - 1)
  }

  /** The decimal value of a string of digits, most significant first. */
  function DigitsValue(d: string): (n: nat)
    requires AllDigits(d)
    ensures n < Pow10(|d|)
  {
    if |d| == 0 then 0 else DigitsValue(d[..|d| - 1]) * 10 + DigitValue(d[|d| - 1])
  }

  /** Digit strings stay digit strings when joined. */
  lemma AllDigitsAppend(d: string, e: string)
    requires AllDigits(d) && AllDigits(e)
    ensures AllDigits(d + e)
  {
    forall i | 0 <= i < |d + e|
      ensures IsDigit((d + e)[i])
    {
      if i >= |d| {
        assert (d + e)[i] == e[i - |d|];
      }
    }
  }

  lemma ShiftStep(a: int, p: int, f: int, c: int)
    ensures (a * p + f) * 10 + c == a * (p * 10) + (f * 10 + c)
  {
  }

  /** Writing digits `e` after digits `d` shifts `d` up by `|e|` places. */
  lemma {:induction false} DigitsValueAppend(d: string, e: string)
    requires AllDigits(d) && AllDigits(e)
    ensures AllDigits(d + e)
    ensures DigitsValue(d + e) == DigitsValue(d) * Pow10(|e|) + DigitsValue(e)
  {
    AllDigitsAppend(d, e);
    if |e| > 0 {
      var f := e[..|e| - 1];
      var c := DigitValue(e[|e| - 1]);
      assert (d + e)[..|d + e| - 1] == d + f;
      assert (d + e)[|d + e| - 1] == e[|e| - 1];
      DigitsValueAppend(d, f);
      assert DigitsValue(d + e) == DigitsValue(d + f) * 10 + c;
      ShiftStep(DigitsValue(d), Pow10(|f|), DigitsValue(f), c);
    } else {
      assert d + e == d;
    }
  }

  /** Length of the run of digits at the start of `s`. */
  function DigitRun(s: string): (k: nat)
    ensures k <= |s|
    ensures AllDigits(s[..k])
    ensures k < |s| ==> !IsDigit(s[k])
  {
    if |s| > 0 && IsDigit(s[0]) then
      var k := 1 + DigitRun(s[1..]);
      assert s[..k] == [s[0]] + s[1..][..k - 1];
      k
    else 0
  }

  /** The run of digits is everything up to the first non-digit. */
  lemma {:induction false} DigitRunOfDigits(d: string, rest: string)
    requires AllDigits(d)
    requires |rest| > 0 ==> !IsDigit(rest[0])
    ensures DigitRun(d + rest) == |d|
  {
    if |d| > 0 {
      assert (d + rest)[1..] == d[1..] + rest;
      DigitRunOfDigits(d[1..], rest);
    } else {
      assert d + rest == rest;
    }
  }

  /** `parseInt(s, 10)`: leading white space is skipped, then an optional
      `+` or `-`, then the longest run of decimal digits is read; with no
      digit there the result is `NaN`. Whatever follows the digits is
      ignored. */
  function ParseInt(s: string): (r: Number)
    ensures r.Finite? ==> r.value == r.value.Floor as real
    ensures var t := TrimStart(s);
            var u := if |t| > 0 && (t[0] == '-' || t[0] == '+') then t[1..] else t;
            r.NaN? <==> (|u| == 0 || !IsDigit(u[0]))
  {
    var t := TrimStart(s);
    var negative := |t| > 0 && t[0] == '-';
    var u := if |t| > 0 && (t[0] == '-' || t[0] == '+') then t[1..] else t;
    var k := DigitRun(u);
    if k == 0 then NaN
    else
      var n: int := DigitsValue(u[..k]);
      Finite((if negative then -n else n) as real)
  }

  /** A string that starts with digits, followed by nothing or by a
      non-digit, reads as the value of those digits. */
  lemma ParseIntLeadingDigits(d: string, rest: string)
    requires |d| > 0 && AllDigits(d)
    requires |rest| > 0 ==> !IsDigit(rest[0])
    ensures ParseInt(d + rest) == Finite(DigitsValue(d) as real)
  {
    var s := d + rest;
    assert !IsWhiteSpace(s[0]);
    assert TrimStart(s) == s;
    DigitRunOfDigits(d, rest);
    assert s[..|d|] == d;
  }

  predicate IsPriceChar(c: char) {
    IsDigit(c) || c == '.'
  }

  predicate AllPriceChars(s: string) {
    forall i :: 0 <= i < |s| ==> IsPriceChar(s[i])
  }

  /** `parseFloat` on a string of digits and dots, which is all the
      cleaned price text can hold: the longest prefix of the shape
      `digits [ . digits ]` with at least one digit is read; anything after
      it (a second dot, say) is ignored; with no digit the result is `NaN`.
      No sign, exponent or `Infinity` can occur in such a string. */
  function ParseDecimal(s: string): (r: Number)
    requires AllPriceChars(s)
    ensures r.Finite? ==> r.value >= 0.0
    ensures r.NaN? <==> |s| == 0 || (!IsDigit(s[0]) && (|s| < 2 || !IsDigit(s[1])))
  {
    var k := DigitRun(s);
    var whole := DigitsValue(s[..k]);
    if k < |s| then
      assert s[k] == '.';
      var rest := s[k + 1..];
      var m := DigitRun(rest);
      if k == 0 && m == 0 then NaN
      else Finite(whole as real + (DigitsValue(rest[..m]) as real) / (Pow10(m) as real))
    else if k == 0 then NaN
    else Finite(whole as real)
  }

  /** A string of digits alone reads as its decimal value. */
  lemma ParseDecimalDigits(d: string)
    requires |d| > 0 && AllDigits(d)
    ensures ParseDecimal(d) == Finite(DigitsValue(d) as real)
  {
    DigitRunOfDigits(d, "");
    assert d + "" == d;
    assert d[..|d|] == d;
  }
}
