/**
 * Best-effort numeric and text coercion of cell values. Three variants exist
 * in the system: `toNumber` of the import scripts (the seed generator and the
 * JSON converter share the same definition), `parseNumeric` of the dataset
 * card grid, and `toNumber`/`toText` of the product reader.
 */
module Coercion {
  import opened Wrappers
  import opened Text
  import opened JsNumber
  import opened Cells

  predicate IsNumericChar(c: char) { IsDigit(c) || c == '.' || c == '-' }

  /**
   * `s.replace(/,/g, '').replace(/[^0-9.-]/g, '')`: only digits, `.` and `-`
   * survive (the comma pass is subsumed by the second).
   */
  function KeepNumeric(s: string): (r: string)
    ensures |r| <= |s|
    ensures forall i :: 0 <= i < |r| ==> IsNumericChar(r[i])
    ensures (forall i :: 0 <= i < |s| ==> IsNumericChar(s[i])) ==> r == s
  {
    if s == [] then ""
    else if IsNumericChar(s[0]) then [s[0]] + KeepNumeric(s[1..])
    else KeepNumeric(s[1..])
  }

  /** `Number.isFinite(x) ? x : null` */
  function FiniteOrNull(n: JsNum): (r: Option<Dec>)
    ensures r.Some? <==> n.Finite?
    ensures r.Some? ==> r.value == n.d
  {
    if n.Finite? then Some(n.d) else None
  }

  /**
   * `toNumber` of the import scripts: the missing markers (`''`, `-`, `null`,
   * `undefined`) give null, a number itself when finite, and any other value
   * its stripped text's `Number`, so a text or a boolean with no digit,
   * `.` or `-` in it reads as 0.
   */
  function ToNumber(c: Cell): (r: Option<Dec>)
    ensures c == Str("") || c == Str("-") || IsNullish(c) ==> r.None?
    ensures c.Num? ==> (r.Some? <==> c.n.Finite?) && (r.Some? ==> r.value == c.n.d)
    ensures c.Str? && c.s != "" && c.s != "-" && KeepNumeric(c.s) == "" ==> r == Some(Zero)
    ensures c.Bool? ==> r == Some(Zero)
  {
    if c == Str("") || c == Str("-") || IsNullish(c) then None
    else if c.Num? then FiniteOrNull(c.n)
    else
      assert c.Bool? ==> KeepNumeric(CellText(c)) == "" by {
        assert KeepNumeric("e") == "" && KeepNumeric("ue") == "" && KeepNumeric("rue") == "";
        assert KeepNumeric("se") == "" && KeepNumeric("lse") == "" && KeepNumeric("alse") == "";
      }
      FiniteOrNull(ParseNumber(KeepNumeric(CellText(c))))
  }

  /**
   * `parseNumeric` of the dataset card grid: it has no early `'-'` test, yet
   * agrees with the scripts' `toNumber` on every value, because `Number('-')`
   * is NaN.
   */
  function ParseNumeric(c: Cell): (r: Option<Dec>)
    ensures r == ToNumber(c)
  {
    if IsNullish(c) || c == Str("") then None
    else if c.Num? then FiniteOrNull(c.n)
    else
      assert c == Str("-") ==> ParseNumber(KeepNumeric(CellText(c))) == NaN by {
        if c == Str("-") {
          assert KeepNumeric("-") == "-";
          ParseNumberDash();
        }
      }
      FiniteOrNull(ParseNumber(KeepNumeric(CellText(c))))
  }

  /**
   * `toNumber` of the product reader: no character stripping at all. It
   * agrees with the scripts' `toNumber` on missing markers, numbers and text
   * made only of digits, `.` and `-`; a boolean, which the scripts read as 0,
   * is null here.
   */
  function ReaderToNumber(c: Cell): (r: Option<Dec>)
    ensures IsNullish(c) || c == Str("") || c == Str("-") ==> r.None?
    ensures c.Num? ==> r == ToNumber(c)
    ensures c.Str? && (forall i :: 0 <= i < |c.s| ==> IsNumericChar(c.s[i])) ==> r == ToNumber(c)
    ensures c.Bool? ==> r.None?
  {
    if IsNullish(c) || c == Str("") then None
    else if c.Num? then FiniteOrNull(c.n)
    else
      assert c == Str("-") ==> ParseNumber(CellText(c)) == NaN by {
        if c == Str("-") { ParseNumberDash(); }
      }
      assert c.Bool? ==> ParseNumber(CellText(c)) == NaN by {
        if c.Bool? { BoolTextIsNaN(c.b); }
      }
      FiniteOrNull(ParseNumber(CellText(c)))
  }

  /** `Number('true')` and `Number('false')` are NaN. */
  lemma BoolTextIsNaN(b: bool)
    ensures ParseNumber(if b then "true" else "false") == NaN
  {
    var t := if b then "true" else "false";
    assert Trim(t) == t by {
      assert TrimStart(t) == t;
      assert TrimEnd(t) == t;
    }
    assert '.' !in t;
    assert t[..|t|] == t;
    assert !AllDigits(t) by { assert !IsDigit(t[0]); }
    assert ParseUnsigned(t) == None;
  }

  /**
   * `toText`: `null`/`undefined` become `''`, everything else its string
   * form, which is empty only for the empty string itself.
   */
  function ToText(c: Cell): (r: string)
    ensures IsNullish(c) ==> r == ""
    ensures !IsNullish(c) ==> r == CellText(c)
    ensures r == "" <==> IsNullish(c) || c == Str("")
  {
    if IsNullish(c) then "" else CellText(c)
  }

  /** Only the digits, `.` and `-` of a text matter, as long as one of them is present. */
  lemma ToNumberNormalises(s: string)
    requires s != "" && s != "-" && KeepNumeric(s) != ""
    ensures ToNumber(Str(s)) == ToNumber(Str(KeepNumeric(s)))
  {
    var k := KeepNumeric(s);
    StrCoercions(s);
    if k == "-" {
      ParseNumberDash();
    } else {
      StrCoercions(k);
    }
  }

  /** What the three coercions do with a text that is neither empty nor `-`. */
  lemma StrCoercions(s: string)
    requires s != "" && s != "-"
    ensures ToNumber(Str(s)) == FiniteOrNull(ParseNumber(KeepNumeric(s)))
    ensures ParseNumeric(Str(s)) == FiniteOrNull(ParseNumber(KeepNumeric(s)))
    ensures ReaderToNumber(Str(s)) == FiniteOrNull(ParseNumber(s))
  {
    assert !IsNullish(Str(s)) && CellText(Str(s)) == s;
  }

  lemma ParseNumberDash()
    ensures ParseNumber("-") == NaN
  {
    assert TrimStart("-") == "-";
    assert TrimEnd("-") == "-";
    assert ParseUnsigned("") == None;
  }

  /** Only digits, `.` and `-` make up number text, so the text of a number reads back to it. */
  lemma DecTextNumeric(d: Dec)
    ensures forall i :: 0 <= i < |DecText(d)| ==> IsNumericChar(DecText(d)[i])
  {
    var c := Normalize(d);
    var a := Abs(c.mantissa);
    var u := UnsignedText(a, c.exp);
    assert forall i :: 0 <= i < |u| ==> IsNumericChar(u[i]) by {
      if c.exp > 0 {
        var (q, r) := DivMod(a, Pow10(c.exp));
        NatTextLength(r, c.exp);
        var lo := PadZeros(NatText(r), c.exp);
        assert AllDigits(lo) by {
          if |NatText(r)| < c.exp {
            assert lo == Zeros(c.exp - |NatText(r)|) + NatText(r);
          }
        }
        assert u == NatText(q) + "." + lo;
      }
    }
  }

  /** Every coercion reads the text of a finite number back as that number. */
  lemma CoercionsReadNumberText(d: Dec)
    ensures ToNumber(Str(DecText(d))) == Some(Normalize(d))
    ensures ParseNumeric(Str(DecText(d))) == Some(Normalize(d))
    ensures ReaderToNumber(Str(DecText(d))) == Some(Normalize(d))
  {
    var t := DecText(d);
    DecTextNumeric(d);
    assert KeepNumeric(t) == t;
    ParseDecText(d);
    ParseNumberDash();
    StrCoercions(t);
  }

  lemma KeepNumericRupiah()
    ensures KeepNumeric("Rp 50.000") == "50.000"
  {
    assert KeepNumeric("50.000") == "50.000";
    assert KeepNumeric(" 50.000") == "50.000";
    assert KeepNumeric("p 50.000") == "50.000";
  }

  lemma DigitsFiftyThousand()
    ensures DigitsValue("50000") == 50000
  {
    assert "50000"[..4] == "5000";
    assert "5000"[..3] == "500";
    assert "500"[..2] == "50";
    assert "50"[..1] == "5";
  }

  lemma ParseFiftyPointZero()
    ensures ParseNumber("50.000") == Finite(Dec(50, 0))
  {
    DigitsFiftyThousand();
    assert "50" + "000" == "50000";
    assert "50" + "." + "000" == "50.000";
    ParseUnsignedFraction("50", "000");
    NormalizeFifty();
    ParseNumberSigned("", "50.000", Dec(50, 0));
    assert "" + "50.000" == "50.000";
  }

  lemma NormalizeFifty()
    ensures Normalize(Dec(50000, 3)) == Dec(50, 0)
  {
    assert Normalize(Dec(50, 0)) == Dec(50, 0);
    assert Normalize(Dec(500, 1)) == Dec(50, 0);
    assert Normalize(Dec(5000, 2)) == Dec(50, 0);
  }

  /** `"Rp 50.000"` keeps its `.` and reads as 50, not 50000. */
  lemma ToNumberRupiah()
    ensures ToNumber(Str("Rp 50.000")) == Some(Dec(50, 0))
  {
    KeepNumericRupiah();
    ParseFiftyPointZero();
  }

  /** A text with no digit at all normalises to `""`, and `Number('')` is 0, so it reads as 0. */
  lemma ToNumberOfWordIsZero()
    ensures ToNumber(Str("TBA")) == Some(Zero)
  {
    assert KeepNumeric("TBA") == "" by {
      assert KeepNumeric("A") == "" && KeepNumeric("BA") == "";
    }
    assert "TBA" != "" && "TBA" != "-";
  }

  /** The product reader does not strip separators: `"1,234"` is not a number there. */
  lemma ReaderToNumberKeepsCommas()
    ensures ReaderToNumber(Str("1,234")) == None
  {
    CommaTextIsNaN();
  }

  /** `Number('1,234')` is NaN. */
  lemma CommaTextIsNaN()
    ensures ParseNumber("1,234") == NaN
  {
    var t := "1,234";
    assert Trim(t) == t by {
      assert TrimStart(t) == t;
      assert TrimEnd(t) == t;
    }
    assert ParseUnsigned(t) == None by {
      assert '.' !in t;
      assert t[..5] == t;
      assert !AllDigits(t) by { assert !IsDigit(t[1]); }
    }
  }
}
