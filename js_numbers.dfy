/** `parseFloat` as the site's code uses it, over the real numbers.

    `parseFloat(s)` skips leading whitespace and reads the longest prefix that
    is a decimal literal: an optional sign, digits with an optional fraction
    (at least one digit in all), and an optional exponent. Anything after
    that prefix is ignored; without such a prefix the result is NaN, which
    is `None` here. */
module JsNumbers {
  import opened Options
  import opened JsStrings

  /** The exact value of `mantissa * 10^exponent`, one power of ten at a
      time. */
  function Scale(mantissa: nat, exponent: int): (r: real)
    ensures r >= 0.0
    decreases if exponent >= 0 then exponent else -exponent
  {
    if exponent == 0 then mantissa as real
    else if exponent > 0 then 10.0 * Scale(mantissa, exponent - 1)
    else Scale(mantissa, exponent + 1) / 10.0
  }

  /** The exponent part of a decimal literal at `i` (`e` or `E`, an optional
      sign, at least one digit): its value and where it ends. Without a
      well-formed exponent part the value is 0 and nothing is consumed. */
  function ExponentPart(t: string, i: nat): (r: (int, nat))
    requires i <= |t|
    ensures i <= r.1 <= |t|
    ensures r.1 == i ==> r.0 == 0
    ensures i == |t| || (t[i] != 'e' && t[i] != 'E') ==> r == (0, i)
  {
    if i < |t| && (t[i] == 'e' || t[i] == 'E') then
      var signed := i + 1 < |t| && (t[i + 1] == '+' || t[i + 1] == '-');
      var negative := signed && t[i + 1] == '-';
      var j := if signed then i + 2 else i + 1;
      var k := DigitRunEnd(t, j);
      if k == j then (0, i)
      else
        var magnitude: int := DecimalValue(t[j..k]);
        (if negative then -magnitude else magnitude, k)
    else
      (0, i)
  }

  /** `parseFloat(s)`; `None` is NaN. */
  function ParseFloat(s: string): (r: Option<real>)
    ensures r.Some? ==> exists k :: 0 <= k < |s| && IsDigit(s[k])
  {
    var t := TrimStart(s);
    var negative := |t| > 0 && t[0] == '-';
    var i := if |t| > 0 && (t[0] == '+' || t[0] == '-') then 1 else 0;
    var j := DigitRunEnd(t, i);
    var fracStart := if j < |t| && t[j] == '.' then j + 1 else j;
    var k := DigitRunEnd(t, fracStart);
    if j == i && k == fracStart then
      None
    else
      var (exponent, _) := ExponentPart(t, k);
      var digits := t[i..j] + t[fracStart..k];
      var magnitude := Scale(DecimalValue(digits), exponent - (k - fracStart));
      assert j > i ==> IsDigit(t[i..j][0]) && s[|s| - |t| + i] == t[i];
      assert j == i ==> IsDigit(t[fracStart..k][0]) && s[|s| - |t| + fracStart] == t[fracStart];
      Some(if negative then -magnitude else magnitude)
  }

  /** `parseFloat` reads a plain decimal numeral as the number it denotes. */
  lemma ParseFloatDecimal(n: nat)
    ensures ParseFloat(DecimalString(n)) == Some(n as real)
  {
    var ds := DecimalString(n);
    assert !IsWhitespace(ds[0]);
    WhitespaceRunEndAt(ds, 0, 0);
    assert TrimStart(ds) == ds;
    assert ds[0..|ds|] == ds;
    DigitRunEndAt(ds, 0, |ds|);
    assert ds[0] != '+' && ds[0] != '-';
    assert DigitRunEnd(ds, |ds|) == |ds|;
    assert ExponentPart(ds, |ds|) == (0, |ds|);
    assert ds[0..|ds|] + ds[|ds|..|ds|] == ds;
    assert Scale(n, 0) == n as real;
  }

  /** A string of whitespace only (the empty string included) is NaN. */
  lemma ParseFloatBlank(s: string)
    requires AllWhitespace(s)
    ensures ParseFloat(s) == None
  {
    WhitespaceRunEndAt(s, 0, |s|);
  }
}
