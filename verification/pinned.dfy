/** Values the model gives on concrete inputs, each stated as a lemma: they
    illustrate how number text reads, not behaviour observed elsewhere. */
module Pinned {
  import opened Wrappers
  import opened Text
  import opened Numbers
  import opened Values
  import opened Scalars

  lemma {:induction false} Digits120050()
    ensures DigitsValue("120050") == 120050
  {
    assert "120050"[..5] == "12005";
    assert "12005"[..4] == "1200";
    assert "1200"[..3] == "120";
    assert "120"[..2] == "12";
    assert "12"[..1] == "1";
    assert "1"[..0] == "";
  }

  lemma {:induction false} Digits5000()
    ensures DigitsValue("5000") == 5000
  {
    assert "5000"[..3] == "500";
    assert "500"[..2] == "50";
    assert "50"[..1] == "5";
    assert "5"[..0] == "";
  }

  /** `Number("1200.50")` is 1200.5: the trailing fractional zero is lost. */
  lemma {:induction false} LexTrailingZero()
    ensures LexNumber("1200.50") == Some(Decimal(12005, 1))
  {
    MantissaTrailingZero();
    LexPlain("1200.50", Decimal(12005, 1));
  }

  lemma {:induction false} MantissaTrailingZero()
    ensures LexMantissa("1200.50") == Some(Decimal(12005, 1))
  {
    Digits120050();
    LexPointDigits("1200", "50");
    assert "1200" + "." + "50" == "1200.50";
    assert "1200" + "50" == "120050";
    assert Normalize(120050, 2) == (12005, 1);
  }

  /** `Number("50.00")` is the integer 50. */
  lemma {:induction false} LexZeroFraction()
    ensures LexNumber("50.00") == Some(Decimal(50, 0))
  {
    MantissaZeroFraction();
    LexPlain("50.00", Decimal(50, 0));
  }

  lemma {:induction false} MantissaZeroFraction()
    ensures LexMantissa("50.00") == Some(Decimal(50, 0))
  {
    Digits5000();
    LexPointDigits("50", "00");
    assert "50" + "." + "00" == "50.00";
    assert "50" + "00" == "5000";
    assert Normalize(5000, 2) == (50, 0);
  }

  /** A cell with a trailing fractional zero loses it: `1200.50` is 1200.5. */
  lemma {:induction false} ParseValueTrailingZero()
    ensures ParseValue("1200.50") == Num(Decimal(12005, 1))
  {
    LexTrailingZero();
    ParseValueLiteral("1200.50", Decimal(12005, 1));
  }

  /** `50.00` is the integer 50. */
  lemma {:induction false} ParseValueZeroFraction()
    ensures ParseValue("50.00") == Num(Decimal(50, 0))
  {
    LexZeroFraction();
    ParseValueLiteral("50.00", Decimal(50, 0));
  }

  /** An exponent scales the mantissa: `Number("1e3")` is 1000. */
  lemma {:induction false} LexExponentForm()
    ensures LexNumber("1e3") == Some(Decimal(1000, 0))
  {
    assert ExponentIndex("1e3") == 1 by {
      assert "1e3"[1..] == "e3";
    }
    assert "1e3"[..1] == "1" && "1e3"[2..] == "3";
    assert "1"[..0] == "" && "3"[..0] == "";
    LexIntegerDigits("1");
    assert LexExponent("3") == Some(3);
  }

  /** A negative exponent widens the scale: `Number("2.5e-3")` is 0.0025. */
  lemma {:induction false} LexNegativeExponent()
    ensures LexNumber("2.5e-3") == Some(Decimal(25, 4))
  {
    var t := "2.5e-3";
    NegativeExponentIndex();
    assert t[..3] == "2.5" && t[4..] == "-3";
    MantissaTwoFive();
    ExponentMinusThree();
    ExponentParts(t, 3, Decimal(25, 1), -3);
    assert Normalize(25, 4) == (25, 4);
  }

  lemma {:induction false} NegativeExponentIndex()
    ensures ExponentIndex("2.5e-3") == 3
  {
    assert "2.5e-3"[1..] == ".5e-3";
    assert ".5e-3"[1..] == "5e-3";
    assert "5e-3"[1..] == "e-3";
  }

  lemma {:induction false} MantissaTwoFive()
    ensures LexMantissa("2.5") == Some(Decimal(25, 1))
  {
    LexPointDigits("2", "5");
    assert "2" + "." + "5" == "2.5";
    assert "2" + "5" == "25";
    Digits25();
    NormalizeNormalized(25, 1);
  }

  lemma {:induction false} Digits25()
    ensures DigitsValue("25") == 25
  {
    assert "25"[..1] == "2";
    assert "2"[..0] == "";
  }

  lemma {:induction false} ExponentMinusThree()
    ensures LexExponent("-3") == Some(-3)
  {
    assert "-3"[1..] == "3" && "3"[..0] == "";
  }

  /** A literal led by a non-zero digit, with an exponent marker at `k` reads as its
      mantissa scaled by its exponent. */
  lemma {:induction false} ExponentParts(t: string, k: nat, d: Decimal, e: int)
    requires k < |t| && ExponentIndex(t) == k && IsDigit(t[0]) && t[0] != '0'
    requires LexMantissa(t[..k]) == Some(d) && LexExponent(t[k + 1..]) == Some(e)
    ensures LexNumber(t) == Some(Scale(d, e))
  {
  }

  /** A `0x` prefix reads hexadecimal digits in either case:
      `Number("0x1F")` is 31. */
  lemma {:induction false} LexHex()
    ensures LexNumber("0x1F") == Some(Decimal(31, 0))
  {
    assert "0x1F"[2..] == "1F";
    assert "1F"[..1] == "1" && "1"[..0] == "";
    assert RadixValue("1F", 16) == 31;
  }

  /** A sign before a radix prefix is not a number: `Number("-0x1F")` is
      `NaN`. */
  lemma {:induction false} SignedHexNaN()
    ensures LexNumber("-0x1F") == None
  {
    assert "-0x1F"[1..] == "0x1F";
    assert ExponentIndex("0x1F") == 4 by {
      assert "0x1F"[1..] == "x1F" && "x1F"[1..] == "1F" && "1F"[1..] == "F" && "F"[1..] == "";
    }
    assert IndexOf("0x1F", '.') == 4 by {
      assert '.' !in "0x1F";
      IndexOfAbsent("0x1F", '.');
    }
    assert "0x1F"[..4] == "0x1F";
    assert !IsDigit("0x1F"[1]);
  }

  /** A cell in exponent form is a number: `1e3` reads as 1000. */
  lemma {:induction false} ParseValueExponent()
    ensures ParseValue("1e3") == Num(Decimal(1000, 0))
  {
    LexExponentForm();
    ParseValueLiteral("1e3", Decimal(1000, 0));
  }

  /** A hexadecimal cell is a number: `0x1F` reads as 31. */
  lemma {:induction false} ParseValueHex()
    ensures ParseValue("0x1F") == Num(Decimal(31, 0))
  {
    LexHex();
    ParseValueLiteral("0x1F", Decimal(31, 0));
  }
}
