/**
 * Decimal numerals: rendering a probability held in millionths the way
 * Python's `f"{p:.6f}"` does, reading it back, and the simple token grammar
 * used to stand for Python's `int()` and `float()` on one whitespace-free token.
 */
module Numerals {
  import opened Wrappers

  predicate IsDigit(c: char)
  {
    '0' <= c <= '9'
  }

  function DigitValue(c: char): (d: nat)
    requires IsDigit(c)
    ensures d < 10
  {
    (c as int) - ('0' as int)
  }

  function DigitChar(d: nat): (c: char)
    requires d < 10
    ensures IsDigit(c) && DigitValue(c) == d
  {
    (('0' as int) + d) as char
  }

  predicate AllDigits(s: string)
  {
    forall i :: 0 <= i < |s| ==> IsDigit(s[i])
  }

  /** The number a string of decimal digits denotes (most significant first). */
  function Value(ds: string): nat
    requires AllDigits(ds)
  {
    if ds == [] then 0 else Value(ds[..|ds| - 1]) * 10 + DigitValue(ds[|ds| - 1])
  }

  function Pow10(n: nat): (p: nat)
    ensures p >= 1
  {
    if n == 0 then 1 else 10 * Pow10(n - 1)
  }

  /** Shortest decimal numeral of `n`, as `str(n)` writes it. */
  function ToDigits(n: nat): (s: string)
    ensures s != [] && AllDigits(s)
    ensures s[0] == '0' <==> n == 0
  {
    if n < 10 then [DigitChar(n)] else ToDigits(n / 10) + [DigitChar(n % 10)]
  }

  lemma {:induction false} ToDigitsValue(n: nat)
    ensures Value(ToDigits(n)) == n
  {
    if n >= 10 {
      var s := ToDigits(n);
      assert s[..|s| - 1] == ToDigits(n / 10);
      ToDigitsValue(n / 10);
    }
  }

  /** The last `width` digits of `n`, zero-padded on the left. */
  function PadDigits(n: nat, width: nat): (s: string)
    ensures |s| == width && AllDigits(s)
  {
    if width == 0 then [] else PadDigits(n / 10, width - 1) + [DigitChar(n % 10)]
  }

  lemma {:induction false} PadDigitsValue(n: nat, width: nat)
    requires n < Pow10(width)
    ensures Value(PadDigits(n, width)) == n
  {
    if width > 0 {
      var s := PadDigits(n, width);
      assert s[..|s| - 1] == PadDigits(n / 10, width - 1);
      PadDigitsValue(n / 10, width - 1);
    }
  }

  /** Number of leading digits of `s`. */
  function LeadingDigits(s: string): (n: nat)
    ensures n <= |s| && AllDigits(s[..n])
    ensures n == |s| || !IsDigit(s[n])
  {
    if s == [] || !IsDigit(s[0]) then 0
    else
      var n := 1 + LeadingDigits(s[1..]);
      assert s[..n] == [s[0]] + s[1..][..n - 1];
      n
  }

  lemma {:induction false} LeadingDigitsOfNumeral(ds: string, rest: string)
    requires AllDigits(ds)
    requires rest == [] || !IsDigit(rest[0])
    ensures LeadingDigits(ds + rest) == |ds|
  {
    if ds != [] {
      assert (ds + rest)[1..] == ds[1..] + rest;
      LeadingDigitsOfNumeral(ds[1..], rest);
    } else {
      assert ds + rest == rest;
    }
  }

  /** One million: probabilities are held as whole millionths. */
  const Scale: nat := 1000000

  lemma ScaleIsPow10()
    ensures Pow10(6) == Scale
  {
    assert Pow10(1) == 10;
    assert Pow10(2) == 100;
    assert Pow10(3) == 1000;
    assert Pow10(4) == 10000;
    assert Pow10(5) == 100000;
  }

  /** `f"{p:.6f}"` for `p == m / 10^6`: integer part, a point, six fractional digits. */
  function FormatFixed6(m: nat): string
  {
    ToDigits(m / Scale) + "." + PadDigits(m % Scale, 6)
  }

  /** Reads a numeral `digits '.' six-digits` off the front of `s`, returning millionths and the rest. */
  function ParseFixed6(s: string): (r: Option<(nat, string)>)
    ensures r.Some? ==> |r.value.1| < |s|
  {
    var n := LeadingDigits(s);
    if n == 0 || |s| < n + 7 || s[n] != '.' || !AllDigits(s[n + 1..n + 7]) then None
    else Some((Value(s[..n]) * Scale + Value(s[n + 1..n + 7]), s[n + 7..]))
  }

  /** Reading back a rendered millionth gives the same number and leaves the rest untouched. */
  lemma {:induction false} Fixed6RoundTrip(m: nat, rest: string)
    ensures ParseFixed6(FormatFixed6(m) + rest) == Some((m, rest))
  {
    ScaleIsPow10();
    var ip := ToDigits(m / Scale);
    var fp := PadDigits(m % Scale, 6);
    var s := FormatFixed6(m) + rest;
    ToDigitsValue(m / Scale);
    PadDigitsValue(m % Scale, 6);
    assert s == ip + ("." + fp + rest);
    LeadingDigitsOfNumeral(ip, "." + fp + rest);
    var n := |ip|;
    assert s[..n] == ip;
    assert s[n] == '.';
    assert s[n + 1..n + 7] == fp;
    assert s[n + 7..] == rest;
  }

  /** Python's `int(tok)` restricted to an optional sign followed by decimal digits. */
  function ParseInt(tok: string): (r: Option<int>)
  {
    var negative := |tok| > 0 && tok[0] == '-';
    var body := if |tok| > 0 && (tok[0] == '-' || tok[0] == '+') then tok[1..] else tok;
    if body == [] || !AllDigits(body) then None
    else
      var magnitude: int := Value(body);
      Some(if negative then -magnitude else magnitude)
  }

  /** `int` reads back a printed natural number, and its negation behind a minus sign. */
  lemma ParseIntReadsNumeral(n: nat)
    ensures ParseInt(ToDigits(n)) == Some(n)
    ensures ParseInt("-" + ToDigits(n)) == Some(-(n as int))
  {
    var ds := ToDigits(n);
    ToDigitsValue(n);
    assert IsDigit(ds[0]);
    assert ("-" + ds)[1..] == ds;
  }

  /**
   * Python's `float(tok)` restricted to an optional sign, digits, and an
   * optional point with more digits; at least one digit overall.
   */
  function ParseFloat(tok: string): (r: Option<real>)
  {
    var negative := |tok| > 0 && tok[0] == '-';
    var body := if |tok| > 0 && (tok[0] == '-' || tok[0] == '+') then tok[1..] else tok;
    var n := LeadingDigits(body);
    var intPart := Value(body[..n]) as real;
    if n == |body| then
      if n == 0 then None
      else Some(if negative then -intPart else intPart)
    else if body[n] != '.' || !AllDigits(body[n + 1..]) || (n == 0 && n + 1 == |body|) then None
    else
      var frac := body[n + 1..];
      var magnitude := intPart + (Value(frac) as real) / (Pow10(|frac|) as real);
      Some(if negative then -magnitude else magnitude)
  }

  /** A probability printed with six fractional digits is read back by `float` as exactly m / 10^6. */
  lemma {:induction false} ParseFloatReadsFixed6(m: nat)
    ensures ParseFloat(FormatFixed6(m)) == Some((m as real) / (Scale as real))
  {
    ScaleIsPow10();
    var ip := ToDigits(m / Scale);
    var fp := PadDigits(m % Scale, 6);
    var s := FormatFixed6(m);
    ToDigitsValue(m / Scale);
    PadDigitsValue(m % Scale, 6);
    assert s == ip + ("." + fp);
    LeadingDigitsOfNumeral(ip, "." + fp);
    var n := |ip|;
    assert s[0] != '-' && s[0] != '+' by { assert s[0] == ip[0]; }
    assert s[..n] == ip;
    assert s[n + 1..] == fp;
    var q := (m / Scale) as real;
    var r := (m % Scale) as real;
    assert m as real == q * (Scale as real) + r;
    assert q + r / (Scale as real) == (m as real) / (Scale as real);
  }
}
