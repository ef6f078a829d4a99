/** JavaScript's `parseFloat` over exact decimals, the character filter
    `/[^0-9.-]+/g` the normaliser applies before parsing currency text, and
    the `parseFloat(String(v)) || 0` coercion of the flat-row repair. */
module NumParse {
  import opened Wrappers
  import opened Text
  import opened Json

  /** Drops leading white space, as `parseFloat` does. */
  function SkipSpace(s: string): (t: string)
    ensures |t| <= |s|
    decreases |s|
  {
    if |s| > 0 && IsJsSpace(s[0]) then SkipSpace(s[1..]) else s
  }

  /** What is skipped is white space, and what is left is the rest of the
      text, starting with something else. */
  lemma {:induction false} SkipSpaceSpec(s: string)
    ensures var t := SkipSpace(s);
            && t == s[|s| - |t|..]
            && (|t| > 0 ==> !IsJsSpace(t[0]))
            && AllSpace(s[..|s| - |t|])
    decreases |s|
  {
    if |s| > 0 && IsJsSpace(s[0]) {
      SkipSpaceSpec(s[1..]);
      var t := SkipSpace(s);
      assert s[1..][..|s| - 1 - |t|] == s[1..|s| - |t|];
    }
  }

  /** The number of decimal digits at the start of `s`. */
  function DigitRun(s: string): (n: nat)
    ensures n <= |s|
    decreases |s|
  {
    if |s| > 0 && IsDigit(s[0]) then 1 + DigitRun(s[1..]) else 0
  }

  /** The run is all digits and stops at the first character that is not. */
  lemma {:induction false} DigitRunSpec(s: string)
    ensures AllDigits(s[..DigitRun(s)])
    ensures DigitRun(s) < |s| ==> !IsDigit(s[DigitRun(s)])
    decreases |s|
  {
    if |s| > 0 && IsDigit(s[0]) {
      DigitRunSpec(s[1..]);
      assert s[..DigitRun(s)] == [s[0]] + s[1..][..DigitRun(s[1..])];
    }
  }

  /** A digit run ends at the first non-digit. */
  lemma {:induction false} DigitRunIs(s: string, n: nat)
    requires n < |s| && AllDigits(s[..n]) && !IsDigit(s[n])
    ensures DigitRun(s) == n
    decreases n
  {
    if n > 0 {
      assert s[1..][..n - 1] == s[1..n];
      assert IsDigit(s[..n][0]);
      DigitRunIs(s[1..], n - 1);
    }
  }

  function Pow10(k: nat): (p: real)
    ensures p >= 1.0
  {
    if k == 0 then 1.0 else 10.0 * Pow10(k - 1)
  }

  function Scale(m: real, e: int): real {
    if e >= 0 then m * Pow10(e) else m / Pow10(-e)
  }

  /** The value of an ExponentPart (`e` or `E`, an optional sign, at least
      one digit) at the start of `w`; 0 when `w` does not start with one, in
      which case the number simply ends before the `e`. */
  function ExponentOf(w: string): int {
    if |w| > 0 && (w[0] == 'e' || w[0] == 'E') then
      var signed := |w| > 1 && (w[1] == '+' || w[1] == '-');
      var rest := if signed then w[2..] else w[1..];
      var d := DigitRun(rest);
      DigitRunSpec(rest);
      if d == 0 then 0
      else if signed && w[1] == '-' then 0 - DigitsValue(rest[..d])
      else DigitsValue(rest[..d])
    else 0
  }

  /** The longest prefix of `u` that is an unsigned decimal literal (`12`,
      `12.`, `12.5`, `.5`, each with an optional exponent), as its digits
      without the point, the number of fraction digits and the exponent; or
      `None` when no digit comes before or right after the optional point. */
  function DecimalParts(u: string): (o: Option<(string, nat, int)>)
    ensures o.Some? ==> |o.value.0| > 0 && AllDigits(o.value.0)
  {
    var i := DigitRun(u);
    DigitRunSpec(u);
    if i < |u| && u[i] == '.' then
      var f := DigitRun(u[i + 1..]);
      DigitRunSpec(u[i + 1..]);
      assert u[i + 1..][..f] == u[i + 1..i + 1 + f];
      DotParts(u, i, f)
    else if i == 0 then None
    else Some((u[..i], 0, ExponentOf(u[i..])))
  }

  /** The parts of a literal whose point follows `i` digits and precedes
      `f` fraction digits; `None` when there are no digits at all. */
  function DotParts(u: string, i: nat, f: nat): Option<(string, nat, int)>
    requires i + 1 + f <= |u|
  {
    if i == 0 && f == 0 then None
    else Some((u[..i] + u[i + 1..i + 1 + f], f, ExponentOf(u[i + 1 + f..])))
  }

  /** The value of that literal. */
  function UnsignedDecimal(u: string): Option<real> {
    match DecimalParts(u)
    case None => None
    case Some((digits, f, e)) => Some(Scale(DigitsValue(digits) as real / Pow10(f), e))
  }

  /** After white space and an optional sign, the text still starts a
      number: `Infinity`, a digit, or a point followed by a digit. */
  predicate StartsNumber(u: string) {
    StartsWith(u, "Infinity")
    || (|u| > 0 && IsDigit(u[0]))
    || (|u| > 1 && u[0] == '.' && IsDigit(u[1]))
  }

  /** The text after leading white space and one optional sign. */
  function Unsigned(s: string): string {
    var t := SkipSpace(s);
    if |t| > 0 && (t[0] == '+' || t[0] == '-') then t[1..] else t
  }

  /** Whether the text after leading white space starts with a minus sign. */
  predicate Negative(s: string) {
    var t := SkipSpace(s);
    |t| > 0 && t[0] == '-'
  }

  /** `parseFloat(s)`: the longest numeric prefix after leading white space;
      NaN exactly when there is none. */
  function ParseFloat(s: string): (r: Num)
  {
    var u := Unsigned(s);
    if StartsWith(u, "Infinity") then Infinite(Negative(s))
    else match UnsignedDecimal(u)
      case None => NaN
      case Some(v) => Finite(if Negative(s) then -v else v)
  }

  /** A literal is found exactly when a digit comes first, or a point and
      then a digit. */
  lemma UnsignedDecimalFound(u: string)
    ensures UnsignedDecimal(u).Some? <==>
              (|u| > 0 && IsDigit(u[0])) || (|u| > 1 && u[0] == '.' && IsDigit(u[1]))
  {
    var i := DigitRun(u);
    if i == 0 && i < |u| && u[i] == '.' {
      assert |u| > 1 ==> u[i + 1..][0] == u[1];
    }
  }

  /** `parseFloat` gives NaN exactly when no number starts after the white
      space and the sign. */
  lemma ParseFloatIsNaN(s: string)
    ensures ParseFloat(s).NaN? <==> !StartsNumber(Unsigned(s))
  {
    UnsignedDecimalFound(Unsigned(s));
  }

  predicate IsNumericChar(c: char) { IsDigit(c) || c == '.' || c == '-' }

  /** `s.replace(/[^0-9.-]+/g, "")`: every character other than a digit,
      `.` or `-` is deleted. */
  function KeepNumeric(s: string): (r: string)
    ensures |r| <= |s|
    decreases |s|
  {
    if |s| == 0 then ""
    else if IsNumericChar(s[0]) then [s[0]] + KeepNumeric(s[1..])
    else KeepNumeric(s[1..])
  }

  /** Only digits, points and minus signs survive. */
  lemma {:induction false} KeepNumericOnlyNumeric(s: string)
    ensures forall i :: 0 <= i < |KeepNumeric(s)| ==> IsNumericChar(KeepNumeric(s)[i])
    decreases |s|
  {
    if |s| > 0 {
      KeepNumericOnlyNumeric(s[1..]);
    }
  }

  /** Text made only of digits, points and minus signs is left as it is. */
  lemma {:induction false} KeepNumericOfNumeric(s: string)
    requires forall i :: 0 <= i < |s| ==> IsNumericChar(s[i])
    ensures KeepNumeric(s) == s
    decreases |s|
  {
    if |s| > 0 {
      KeepNumericOfNumeric(s[1..]);
    }
  }

  /** Text with no digit, point or minus sign is stripped to nothing. */
  lemma {:induction false} KeepNumericOfNone(s: string)
    requires forall i :: 0 <= i < |s| ==> !IsNumericChar(s[i])
    ensures KeepNumeric(s) == ""
    decreases |s|
  {
    if |s| > 0 {
      KeepNumericOfNone(s[1..]);
    }
  }

  /** The filter works character by character, so it distributes over
      concatenation; with the contract above this pins it down. */
  lemma {:induction false} KeepNumericAppend(a: string, b: string)
    ensures KeepNumeric(a + b) == KeepNumeric(a) + KeepNumeric(b)
    decreases |a|
  {
    if |a| > 0 {
      assert (a + b)[0] == a[0];
      assert (a + b)[1..] == a[1..] + b;
      KeepNumericAppend(a[1..], b);
    } else {
      assert a + b == b;
    }
  }

  /** The coercion applied to text-valued totals and line-item amounts. */
  function ParseCurrency(s: string): Num {
    ParseFloat(KeepNumeric(s))
  }

  /** With no digit in the text, the strip leaves only points and minus
      signs. */
  lemma {:induction false} KeepNumericNoDigit(s: string)
    requires forall i :: 0 <= i < |s| ==> !IsDigit(s[i])
    ensures forall i :: 0 <= i < |KeepNumeric(s)| ==> KeepNumeric(s)[i] == '.' || KeepNumeric(s)[i] == '-'
    decreases |s|
  {
    if |s| > 0 {
      assert forall i :: 0 <= i < |s[1..]| ==> s[1..][i] == s[i + 1];
      KeepNumericNoDigit(s[1..]);
    }
  }

  /** A total with no digit at all coerces to NaN, never to 0: whatever
      points and minus signs the strip keeps cannot start a number. */
  lemma NoDigitCurrencyIsNaN(s: string)
    requires forall i :: 0 <= i < |s| ==> !IsDigit(s[i])
    ensures ParseCurrency(s) == NaN
  {
    var t := KeepNumeric(s);
    KeepNumericNoDigit(s);
    if |t| > 0 {
      assert !IsJsSpace(t[0]);
      assert SkipSpace(t) == t;
    } else {
      assert SkipSpace(t) == t;
    }
    var u := Unsigned(t);
    assert forall i :: 0 <= i < |u| ==> u[i] == '.' || u[i] == '-';
    assert |u| > 0 ==> u[0] != 'I';
    ParseFloatIsNaN(t);
  }

  /** `parseFloat(String(v))`. A number's printed form reads back as the
      same number. An array prints as its elements joined by commas (null
      printing as nothing), and since a comma can never continue a number
      only the first element decides; see ParseFloatIgnoresComma. */
  function ParseFloatOfString(v: Json): Num {
    match v
    case Null => NaN
    case Bool(_) => NaN
    case Number(n) => n
    case Str(s) => ParseFloat(s)
    case Obj(_) => NaN
    case Arr(xs) => if |xs| == 0 || xs[0] == Null then NaN else ParseFloatOfString(xs[0])
  }

  /** `parseFloat(String(v)) || 0`: NaN and zero become zero. */
  function LooseNumber(v: Json): (r: Num)
    ensures !r.NaN?
    ensures NumTruthy(ParseFloatOfString(v)) ==> r == ParseFloatOfString(v)
    ensures !NumTruthy(ParseFloatOfString(v)) ==> r == Finite(0.0)
  {
    var p := ParseFloatOfString(v);
    if NumTruthy(p) then p else Finite(0.0)
  }

  // ---- parseFloat reads exactly the digits of a printed natural number ----

  lemma {:induction false} DigitRunAll(s: string)
    requires AllDigits(s)
    ensures DigitRun(s) == |s|
    decreases |s|
  {
    if |s| > 0 { DigitRunAll(s[1..]); }
  }

  lemma DecimalPartsOfDigits(s: string)
    requires |s| > 0 && AllDigits(s)
    ensures DecimalParts(s) == Some((s, 0, 0))
  {
    DigitRunAll(s);
    assert s[..|s|] == s;
    assert ExponentOf(s[|s|..]) == 0;
  }

  lemma ScaleOne(x: real)
    ensures Scale(x / Pow10(0), 0) == x
  {
  }

  lemma UnsignedDecimalOfDigits(s: string)
    requires |s| > 0 && AllDigits(s)
    ensures UnsignedDecimal(s) == Some(DigitsValue(s) as real)
  {
    DecimalPartsOfDigits(s);
    ScaleOne(DigitsValue(s) as real);
  }

  lemma NotInfinityOfDigits(s: string)
    requires |s| > 0 && IsDigit(s[0])
    ensures !StartsWith(s, "Infinity")
  {
    assert |s| < 8 || s[..8][0] == s[0];
  }

  lemma ParseFloatOfNat(n: nat)
    ensures ParseFloat(NatToString(n)) == Finite(n as real)
  {
    var s := NatToString(n);
    assert SkipSpace(s) == s;
    assert Unsigned(s) == s;
    NotInfinityOfDigits(s);
    UnsignedDecimalOfDigits(s);
    DigitsValueOfNatToString(n);
  }

  lemma ParseFloatOfNegatedNat(n: nat)
    ensures ParseFloat("-" + NatToString(n)) == Finite(-(n as real))
  {
    var s := NatToString(n);
    var t := "-" + s;
    assert SkipSpace(t) == t;
    assert Unsigned(t) == s;
    NotInfinityOfDigits(s);
    UnsignedDecimalOfDigits(s);
    DigitsValueOfNatToString(n);
  }

  // ---- a comma ends a number ----

  lemma {:induction false} SkipSpaceAppend(s: string, w: string)
    requires |w| > 0 && !IsJsSpace(w[0])
    ensures SkipSpace(s + w) == SkipSpace(s) + w
    decreases |s|
  {
    if |s| > 0 {
      assert (s + w)[1..] == s[1..] + w;
      if IsJsSpace(s[0]) { SkipSpaceAppend(s[1..], w); }
    }
  }

  lemma {:induction false} DigitRunAppend(s: string, w: string)
    requires |w| > 0 && !IsDigit(w[0])
    ensures DigitRun(s + w) == DigitRun(s)
    decreases |s|
  {
    if |s| > 0 {
      assert (s + w)[1..] == s[1..] + w;
      DigitRunAppend(s[1..], w);
    }
  }

  lemma ExponentOfComma(x: string, w: string)
    requires |w| > 0 && w[0] == ','
    ensures ExponentOf(x + w) == ExponentOf(x)
  {
    var y := x + w;
    if |x| > 0 && (x[0] == 'e' || x[0] == 'E') {
      assert y[0] == x[0];
      var signed := |x| > 1 && (x[1] == '+' || x[1] == '-');
      assert signed == (|y| > 1 && (y[1] == '+' || y[1] == '-'));
      var rest := if signed then x[2..] else x[1..];
      var rest' := if signed then y[2..] else y[1..];
      assert rest' == rest + w;
      DigitRunAppend(rest, w);
      var d := DigitRun(rest);
      assert rest'[..d] == rest[..d];
    } else if |x| == 0 {
      assert y == w;
    } else {
      assert y[0] == x[0];
    }
  }

  /** Past the decimal point, the comma leaves the fraction digits and the
      exponent as they were. */
  lemma FractionComma(u: string, w: string, i: nat)
    requires |w| > 0 && w[0] == ',' && i < |u|
    ensures var f := DigitRun(u[i + 1..]);
            var y := u + w;
            && DigitRun(y[i + 1..]) == f
            && i + 1 + f <= |u|
            && y[i + 1..i + 1 + f] == u[i + 1..i + 1 + f]
            && ExponentOf(y[i + 1 + f..]) == ExponentOf(u[i + 1 + f..])
  {
    var y := u + w;
    assert y[i + 1..] == u[i + 1..] + w;
    DigitRunAppend(u[i + 1..], w);
    var f := DigitRun(u[i + 1..]);
    assert y[i + 1 + f..] == u[i + 1 + f..] + w;
    ExponentOfComma(u[i + 1 + f..], w);
  }

  lemma DecimalPartsComma(u: string, w: string)
    requires |w| > 0 && w[0] == ','
    ensures DecimalParts(u + w) == DecimalParts(u)
  {
    DigitRunAppend(u, w);
    var i := DigitRun(u);
    if i < |u| && u[i] == '.' {
      DecimalPartsCommaDot(u, w, i);
    } else {
      DecimalPartsCommaPlain(u, w, i);
    }
  }

  lemma DecimalPartsCommaDot(u: string, w: string, i: nat)
    requires |w| > 0 && w[0] == ','
    requires i == DigitRun(u) == DigitRun(u + w) && i < |u| && u[i] == '.'
    ensures DecimalParts(u + w) == DecimalParts(u)
  {
    var y := u + w;
    assert y[..i] == u[..i];
    assert y[i] == '.';
    FractionComma(u, w, i);
    DecimalPartsSameDot(u, y, i, DigitRun(u[i + 1..]));
  }

  /** Two texts that agree on the integer digits, the point, the fraction
      digits and the exponent have the same parts. */
  lemma DecimalPartsSameDot(u: string, y: string, i: nat, f: nat)
    requires i == DigitRun(u) == DigitRun(y) && i < |u| && i < |y| && u[i] == '.' && y[i] == '.'
    requires f == DigitRun(u[i + 1..]) == DigitRun(y[i + 1..])
    requires i + 1 + f <= |u| && i + 1 + f <= |y|
    requires y[..i] == u[..i] && y[i + 1..i + 1 + f] == u[i + 1..i + 1 + f]
    requires ExponentOf(y[i + 1 + f..]) == ExponentOf(u[i + 1 + f..])
    ensures DecimalParts(y) == DecimalParts(u)
  {
    DecimalPartsDot(u, i, f);
    DecimalPartsDot(y, i, f);
    DotPartsAgree(u, y, i, f);
  }

  /** With a point after the integer digits, the parts are those of DotParts. */
  lemma DecimalPartsDot(u: string, i: nat, f: nat)
    requires DigitRun(u) == i && i < |u| && u[i] == '.' && f == DigitRun(u[i + 1..])
    ensures i + 1 + f <= |u|
    ensures DecimalParts(u) == DotParts(u, i, f)
  {
    assert u[i + 1..][..f] == u[i + 1..i + 1 + f];
  }

  lemma DotPartsAgree(u: string, y: string, i: nat, f: nat)
    requires i + 1 + f <= |u| && i + 1 + f <= |y|
    requires y[..i] == u[..i] && y[i + 1..i + 1 + f] == u[i + 1..i + 1 + f]
    requires ExponentOf(y[i + 1 + f..]) == ExponentOf(u[i + 1 + f..])
    ensures DotParts(y, i, f) == DotParts(u, i, f)
  {
  }

  lemma DecimalPartsCommaPlain(u: string, w: string, i: nat)
    requires |w| > 0 && w[0] == ','
    requires i == DigitRun(u) == DigitRun(u + w) && !(i < |u| && u[i] == '.')
    ensures DecimalParts(u + w) == DecimalParts(u)
  {
    var y := u + w;
    assert y[..i] == u[..i];
    assert !(i < |y| && y[i] == '.');
    assert y[i..] == u[i..] + w;
    ExponentOfComma(u[i..], w);
  }

  lemma UnsignedDecimalComma(u: string, w: string)
    requires |w| > 0 && w[0] == ','
    ensures UnsignedDecimal(u + w) == UnsignedDecimal(u)
  {
    DecimalPartsComma(u, w);
  }

  lemma StartsWithInfinityComma(u: string, w: string)
    requires |w| > 0 && w[0] == ','
    ensures StartsWith(u + w, "Infinity") == StartsWith(u, "Infinity")
  {
    var y := u + w;
    if |u| < 8 {
      assert y[|u|] == ',';
      assert |y| < 8 || y[..8][|u|] == ',';
    } else {
      assert y[..8] == u[..8];
    }
  }

  lemma UnsignedComma(s: string, w: string)
    requires |w| > 0 && w[0] == ','
    ensures Unsigned(s + w) == Unsigned(s) + w
    ensures Negative(s + w) == Negative(s)
  {
    SkipSpaceAppend(s, w);
    var ts := SkipSpace(s);
    var ty := ts + w;
    assert |ts| > 0 ==> ty[0] == ts[0];
    assert |ts| == 0 ==> ty[0] == ',';
    assert |ts| > 0 ==> ty[1..] == ts[1..] + w;
  }

  /** A comma can never continue a number: `parseFloat` of a text followed
      by a comma and anything reads the same number as the text alone. This
      is why only an array's first element matters to `parseFloat(String(a))`. */
  lemma ParseFloatIgnoresComma(s: string, t: string)
    ensures ParseFloat(s + "," + t) == ParseFloat(s)
  {
    var w := "," + t;
    assert s + "," + t == s + w;
    UnsignedComma(s, w);
    StartsWithInfinityComma(Unsigned(s), w);
    UnsignedDecimalComma(Unsigned(s), w);
  }

  // ---- decimal literals with a point ----

  /** Digits, a point and digits: the literal is all of it, with no exponent. */
  lemma DecimalPartsOfPoint(u: string, a: string, b: string)
    requires |a| > 0 && AllDigits(a) && AllDigits(b) && u == a + "." + b
    ensures AllDigits(a + b)
    ensures DecimalParts(u) == Some((a + b, |b|, 0))
  {
    assert u == a + ("." + b);
    DigitRunAppend(a, "." + b);
    DigitRunAll(a);
    var i := |a|;
    assert u[i] == '.';
    assert u[i + 1..] == b;
    DigitRunAll(b);
    assert u[..i] == a && u[i + 1..i + 1 + |b|] == b;
    assert ExponentOf(u[i + 1 + |b|..]) == 0;
    DecimalPartsOfPointParts(u, a, b);
  }

  lemma DecimalPartsOfPointParts(u: string, a: string, b: string)
    requires |a| > 0 && |u| == |a| + 1 + |b|
    requires DigitRun(u) == |a| && u[|a|] == '.' && DigitRun(u[|a| + 1..]) == |b|
    requires u[..|a|] == a && u[|a| + 1..|a| + 1 + |b|] == b && ExponentOf(u[|u|..]) == 0
    ensures DecimalParts(u) == Some((a + b, |b|, 0))
  {
    DecimalPartsDot(u, |a|, |b|);
  }

  /** A literal with two fraction digits and no exponent is worth its
      digits in hundredths. */
  lemma UnsignedDecimalOfHundredths(u: string, d: string)
    requires DecimalParts(u) == Some((d, 2, 0))
    ensures AllDigits(d)
    ensures UnsignedDecimal(u) == Some(DigitsValue(d) as real / 100.0)
  {
    Pow10Two();
    var x := DigitsValue(d) as real / Pow10(2);
    assert Pow10(0) == 1.0;
    assert Scale(x, 0) == x;
    assert UnsignedDecimal(u) == Some(Scale(x, 0));
  }

  /** Such an amount parses as that many hundredths. */
  lemma ParseFloatOfCents(u: string, d: string, n: nat)
    requires |u| > 0 && IsDigit(u[0]) && DecimalParts(u) == Some((d, 2, 0))
    requires AllDigits(d) && DigitsValue(d) == n
    ensures ParseFloat(u) == Finite(n as real / 100.0)
  {
    UnsignedDecimalOfHundredths(u, d);
    ParseFloatOfDecimal(u);
  }

  /** After a minus sign, it parses as minus that many hundredths. */
  lemma ParseFloatOfNegatedCents(t: string, u: string, d: string, n: nat)
    requires t == "-" + u
    requires |u| > 0 && IsDigit(u[0]) && DecimalParts(u) == Some((d, 2, 0))
    requires AllDigits(d) && DigitsValue(d) == n
    ensures ParseFloat(t) == Finite(-(n as real / 100.0))
  {
    UnsignedDecimalOfHundredths(u, d);
    ParseFloatOfNegatedDecimal(u);
  }

  /** Text that starts with a digit parses as its unsigned literal. */
  lemma ParseFloatOfDecimal(u: string)
    requires |u| > 0 && IsDigit(u[0]) && UnsignedDecimal(u).Some?
    ensures ParseFloat(u) == Finite(UnsignedDecimal(u).value)
  {
    NotInfinityOfDigits(u);
    assert SkipSpace(u) == u;
  }

  /** The same text after a minus sign parses as the negated literal. */
  lemma ParseFloatOfNegatedDecimal(u: string)
    requires |u| > 0 && IsDigit(u[0]) && UnsignedDecimal(u).Some?
    ensures ParseFloat("-" + u) == Finite(-UnsignedDecimal(u).value)
  {
    NotInfinityOfDigits(u);
    var t := "-" + u;
    assert SkipSpace(t) == t;
    assert t[1..] == u;
  }

  lemma DigitsValueSnoc(s: string, c: char)
    requires AllDigits(s) && IsDigit(c)
    ensures AllDigits(s + [c])
    ensures DigitsValue(s + [c]) == 10 * DigitsValue(s) + DigitValue(c)
  {
    assert (s + [c])[..|s|] == s;
  }

  lemma Pow10Two()
    ensures Pow10(2) == 100.0
  {
    assert Pow10(1) == 10.0;
  }

  lemma KeepNumericKeepFirst(c: char, s: string)
    requires IsNumericChar(c)
    ensures KeepNumeric([c] + s) == [c] + KeepNumeric(s)
  {
    assert ([c] + s)[1..] == s;
  }

  lemma KeepNumericDropFirst(c: char, s: string)
    requires !IsNumericChar(c)
    ensures KeepNumeric([c] + s) == KeepNumeric(s)
  {
    assert ([c] + s)[1..] == s;
  }
}
