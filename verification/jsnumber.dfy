/**
 * JavaScript numbers, as far as this system uses them: `Number(string)` on
 * decimal text and `String(number)`. A finite number is held exactly as a
 * decimal `mantissa / 10^exp`; binary floating-point rounding is not modelled.
 */
module JsNumber {
  import opened Text
  import opened Wrappers

  /** The finite number `mantissa / 10^exp`. */
  datatype Dec = Dec(mantissa: int, exp: nat)

  function Value(d: Dec): real {
    d.mantissa as real / Pow10(d.exp) as real
  }

  /** One representative per value: no removable trailing zero. */
  predicate Canonical(d: Dec) {
    d.exp == 0 || d.mantissa % 10 != 0
  }

  function Normalize(d: Dec): (r: Dec)
    ensures Canonical(r)
    ensures Value(r) == Value(d)
    ensures Canonical(d) ==> r == d
    decreases d.exp
  {
    if d.exp > 0 && d.mantissa % 10 == 0 then
      var k := d.mantissa / 10;
      var p := Pow10(d.exp - 1);
      assert d.mantissa == 10 * k;
      assert Value(d) == (10 * k) as real / (10 * p) as real;
      assert Value(Dec(k, d.exp - 1)) == Value(d);
      Normalize(Dec(k, d.exp - 1))
    else
      d
  }

  function Negate(d: Dec): (r: Dec)
    ensures Value(r) == -Value(d)
    ensures Canonical(r) <==> Canonical(d)
  {
    Dec(-d.mantissa, d.exp)
  }

  const Zero := Dec(0, 0)

  /** A JavaScript number value. */
  datatype JsNum = Finite(d: Dec) | NaN | PosInf | NegInf

  function Abs(m: int): nat { if m < 0 then -m else m }

  /**
   * `String(x)` for a finite `x` written without exponent (JavaScript switches
   * to exponent notation below 10^-6 and from 10^21 on).
   */
  function DecText(d: Dec): (r: string)
    ensures |r| > 0
  {
    var c := Normalize(d);
    (if c.mantissa < 0 then "-" else "") + UnsignedText(Abs(c.mantissa), c.exp)
  }

  /** The digits of `a / 10^e`: integer part, then `.` and exactly `e` fraction digits when `e > 0`. */
  function UnsignedText(a: nat, e: nat): (r: string)
    ensures |r| > 0 && IsDigit(r[0]) && IsDigit(r[|r| - 1])
  {
    if e == 0 then NatText(a)
    else
      var (q, r) := DivMod(a, Pow10(e));
      NatTextLength(r, e);
      var lo := PadZeros(NatText(r), e);
      assert AllDigits(lo) by {
        if |NatText(r)| < e {
          assert lo == Zeros(e - |NatText(r)|) + NatText(r);
        }
      }
      NatText(q) + "." + lo
  }

  /** Quotient and remainder of a natural division. */
  function DivMod(a: nat, p: nat): (qr: (nat, nat))
    requires p > 0
    ensures qr.0 * p + qr.1 == a && qr.1 < p
  {
    (a / p, a % p)
  }

  /** `String(n)` */
  function NumText(n: JsNum): string {
    match n
    case Finite(d) => DecText(d)
    case NaN => "NaN"
    case PosInf => "Infinity"
    case NegInf => "-Infinity"
  }

  function TrimStart(s: string): (r: string)
    ensures |r| <= |s|
  {
    if s != [] && IsJsSpace(s[0]) then TrimStart(s[1..]) else s
  }

  function TrimEnd(s: string): (r: string)
    ensures |r| <= |s|
  {
    if s != [] && IsJsSpace(s[|s| - 1]) then TrimEnd(s[..|s| - 1]) else s
  }

  /** `s.trim()` */
  function Trim(s: string): string {
    TrimEnd(TrimStart(s))
  }

  /** An unsigned decimal literal `digits`, `digits.digits`, `digits.` or `.digits`. */
  function ParseUnsigned(t: string): (r: Option<Dec>)
    ensures r.Some? ==> Canonical(r.value) && r.value.mantissa >= 0
  {
    var k := IndexOf(t, '.');
    var a := t[..k];
    var b := if k < |t| then t[k + 1..] else "";
    if AllDigits(a) && AllDigits(b) && (|a| > 0 || |b| > 0) then
      DigitsValueAppend(a, b);
      var n := Normalize(Dec(DigitsValue(a + b), |b|));
      assert n.mantissa >= 0 by { NormalizeKeepsSign(Dec(DigitsValue(a + b), |b|)); }
      Some(n)
    else
      None
  }

  lemma {:induction false} NormalizeKeepsSign(d: Dec)
    requires d.mantissa >= 0
    ensures Normalize(d).mantissa >= 0
    decreases d.exp
  {
    if d.exp > 0 && d.mantissa % 10 == 0 {
      NormalizeKeepsSign(Dec(d.mantissa / 10, d.exp - 1));
    }
  }

  /**
   * `Number(s)` for the decimal forms this system meets: surrounding white
   * space is ignored, the empty string is 0, an optional sign, `Infinity`, or
   * an unsigned decimal literal; every other string is NaN.
   */
  function ParseNumber(s: string): JsNum {
    var t := Trim(s);
    if t == "" then Finite(Zero)
    else
      var neg := t[0] == '-';
      var body := if t[0] == '-' || t[0] == '+' then t[1..] else t;
      if body == "Infinity" then (if neg then NegInf else PosInf)
      else
        match ParseUnsigned(body)
        case Some(d) => Finite(if neg then Negate(d) else d)
        case None => NaN
  }

  lemma TrimUnchanged(s: string)
    requires s != [] && !IsJsSpace(s[0]) && !IsJsSpace(s[|s| - 1])
    ensures Trim(s) == s
  {
  }

  lemma DotAfterDigits(x: string, y: string)
    requires AllDigits(x)
    ensures IndexOf(x + "." + y, '.') == |x|
    ensures IndexOf(x, '.') == |x|
  {
    var s := x + "." + y;
    assert s[|x|] == '.';
    assert forall i :: 0 <= i < |x| ==> s[i] == x[i];
  }

  lemma ParseUnsignedDigits(a: string)
    requires |a| > 0 && AllDigits(a)
    ensures ParseUnsigned(a) == Some(Normalize(Dec(DigitsValue(a), 0)))
  {
    DotAfterDigits(a, "");
    assert a[..|a|] == a;
    assert a + "" == a;
  }

  lemma ParseUnsignedFraction(a: string, b: string)
    requires AllDigits(a) && AllDigits(b) && |b| > 0
    ensures ParseUnsigned(a + "." + b) == Some(Normalize(Dec(DigitsValue(a + b), |b|)))
  {
    var t := a + "." + b;
    DotAfterDigits(a, b);
    assert t[..|a|] == a;
    assert t[|a| + 1..] == b;
  }

  lemma {:induction false} ParseUnsignedText(a: nat, e: nat)
    requires Canonical(Dec(a, e))
    ensures ParseUnsigned(UnsignedText(a, e)) == Some(Dec(a, e))
  {
    if e == 0 {
      ParseUnsignedDigits(NatText(a));
      NatTextRoundTrip(a);
    } else {
      var (q, r) := DivMod(a, Pow10(e));
      NatTextLength(r, e);
      var hi := NatText(q);
      var lo := PadZeros(NatText(r), e);
      assert UnsignedText(a, e) == hi + "." + lo;
      assert AllDigits(lo) && DigitsValue(lo) == r by {
        NatTextRoundTrip(r);
        if |NatText(r)| < e {
          DigitsValueAppend(Zeros(e - |NatText(r)|), NatText(r));
          DigitsValueZeros(e - |NatText(r)|);
        }
      }
      ParseUnsignedFraction(hi, lo);
      DigitsValueAppend(hi, lo);
      NatTextRoundTrip(q);
      assert DigitsValue(hi + lo) == a;
    }
  }

  lemma ParseNumberSigned(sign: string, body: string, d: Dec)
    requires sign == "" || sign == "-"
    requires |body| > 0 && IsDigit(body[0]) && IsDigit(body[|body| - 1])
    requires ParseUnsigned(body) == Some(d)
    ensures ParseNumber(sign + body) == Finite(if sign == "-" then Negate(d) else d)
  {
    var t := sign + body;
    assert t[|t| - 1] == body[|body| - 1];
    TrimUnchanged(t);
    assert body != "Infinity" by { assert !IsDigit('I'); }
    if sign == "-" {
      assert t[1..] == body;
    } else {
      assert t == body;
    }
  }

  /** Reading back the text of a number gives the number: `Number(String(x)) === x`. */
  lemma ParseDecText(d: Dec)
    ensures ParseNumber(DecText(d)) == Finite(Normalize(d))
  {
    var c := Normalize(d);
    var a := Abs(c.mantissa);
    var sign := if c.mantissa < 0 then "-" else "";
    assert DecText(d) == sign + UnsignedText(a, c.exp);
    CanonicalAbs(c);
    ParseUnsignedText(a, c.exp);
    ParseNumberSigned(sign, UnsignedText(a, c.exp), Dec(a, c.exp));
  }

  /** Dropping the sign keeps a decimal canonical, and the sign restores it. */
  lemma CanonicalAbs(c: Dec)
    requires Canonical(c)
    ensures Canonical(Dec(Abs(c.mantissa), c.exp))
    ensures c.mantissa < 0 ==> Negate(Dec(Abs(c.mantissa), c.exp)) == c
    ensures c.mantissa >= 0 ==> Dec(Abs(c.mantissa), c.exp) == c
  {
    if c.mantissa < 0 && c.exp != 0 {
      var q, r := c.mantissa / 10, c.mantissa % 10;
      assert -c.mantissa == (-q - 1) * 10 + (10 - r);
    }
  }
}
