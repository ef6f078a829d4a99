/** Worked examples of the currency coercion of the normaliser: a dollar
    amount with a thousands separator, a negative amount, and a total with
    no digits. */
module CurrencyExamples {
  import opened Wrappers
  import opened Text
  import opened Json
  import opened NumParse

  lemma DigitsValueOf123456()
    ensures DigitsValue("123456") == 123456
  {
    DigitsValueSnoc("", '1');
    assert "" + ['1'] == "1";
    DigitsValueSnoc("1", '2');
    assert "1" + ['2'] == "12";
    DigitsValueSnoc("12", '3');
    assert "12" + ['3'] == "123";
    DigitsValueSnoc("123", '4');
    assert "123" + ['4'] == "1234";
    DigitsValueSnoc("1234", '5');
    assert "1234" + ['5'] == "12345";
    DigitsValueSnoc("12345", '6');
    assert "12345" + ['6'] == "123456";
  }

  lemma DigitsValueOf4500()
    ensures DigitsValue("4500") == 4500
  {
    DigitsValueSnoc("", '4');
    assert "" + ['4'] == "4";
    DigitsValueSnoc("4", '5');
    assert "4" + ['5'] == "45";
    DigitsValueSnoc("45", '0');
    assert "45" + ['0'] == "450";
    DigitsValueSnoc("450", '0');
    assert "450" + ['0'] == "4500";
  }

  lemma DecimalPartsExample()
    ensures DecimalParts("1234.56") == Some(("123456", 2, 0))
  {
    DecimalPartsOfPoint("1234.56", "1234", "56");
    assert "1234" + "56" == "123456";
  }

  lemma DecimalPartsNegativeExample()
    ensures DecimalParts("45.00") == Some(("4500", 2, 0))
  {
    DecimalPartsOfPoint("45.00", "45", "00");
    assert "45" + "00" == "4500";
  }

  lemma ParseFloatDecimalExample()
    ensures ParseFloat("1234.56") == Finite(1234.56)
  {
    DecimalPartsExample();
    DigitsValueOf123456();
    ParseFloatOfCents("1234.56", "123456", 123456);
  }

  lemma ParseFloatNegativeExample()
    ensures ParseFloat("-45.00") == Finite(-45.0)
  {
    DecimalPartsNegativeExample();
    DigitsValueOf4500();
    ParseFloatOfNegatedCents("-45.00", "45.00", "4500", 4500);
  }

  /** `"$1,234.56"` coerces to 1234.56. */
  lemma CurrencyExample()
    ensures ParseCurrency("$1,234.56") == Finite(1234.56)
  {
    StripExample();
    ParseFloatDecimalExample();
  }

  /** The strip drops the currency sign and the thousands separator. */
  lemma StripExample()
    ensures KeepNumeric("$1,234.56") == "1234.56"
  {
    StripLeadingDigit();
    KeepNumericDropped("$1,234.56", '$', "1,234.56", "1234.56");
  }

  lemma StripLeadingDigit()
    ensures KeepNumeric("1,234.56") == "1234.56"
  {
    StripSeparator();
    KeepNumericKept("1,234.56", '1', ",234.56", "234.56", "1234.56");
  }

  lemma StripSeparator()
    ensures KeepNumeric(",234.56") == "234.56"
  {
    KeepNumericOfNumeric("234.56");
    KeepNumericDropped(",234.56", ',', "234.56", "234.56");
  }

  /** One step of the strip on a dropped first character. */
  lemma KeepNumericDropped(x: string, c: char, s: string, y: string)
    requires x == [c] + s && !IsNumericChar(c) && KeepNumeric(s) == y
    ensures KeepNumeric(x) == y
  {
    KeepNumericDropFirst(c, s);
  }

  /** One step of the strip on a kept first character. */
  lemma KeepNumericKept(x: string, c: char, s: string, y: string, z: string)
    requires x == [c] + s && IsNumericChar(c) && KeepNumeric(s) == y && z == [c] + y
    ensures KeepNumeric(x) == z
  {
    KeepNumericKeepFirst(c, s);
  }

  /** `"-45.00"` coerces to -45. */
  lemma NegativeCurrencyExample()
    ensures ParseCurrency("-45.00") == Finite(-45.0)
  {
    KeepNumericOfNumeric("-45.00");
    ParseFloatNegativeExample();
  }

  /** The total `"unknown"` coerces to NaN, not to zero. */
  lemma UnparseableCurrencyIsNaN()
    ensures ParseCurrency("unknown") == NaN
  {
    KeepNumericOfNone("unknown");
    assert ParseFloat("") == NaN by { ParseFloatIsNaN(""); }
  }
}
