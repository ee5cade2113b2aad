/** What the rounding and the text of a decimal are, said without computing them:
    the nearest number of at most 28 digits, and its one canonical numeral. */
module DecimalText {
  import opened Options
  import opened Decimals

  // ----- rounding -----

  /** q is c / unit, rounded to the nearest whole number, and to the even one of two. */
  predicate Nearest(q: nat, c: nat, unit: nat) {
    && -(unit as int) <= 2 * (q * unit - c) <= unit
    && (2 * (q * unit - c) == unit || 2 * (q * unit - c) == -(unit as int) ==> q % 2 == 0)
  }

  lemma HalfEvenNearest(c: nat, unit: nat)
    requires unit >= 1
    ensures Nearest(HalfEven(c, unit), c, unit)
  {
    var q, r := c / unit, c % unit;
    assert c == q * unit + r;
    assert (q + 1) * unit == q * unit + unit;
  }

  /** Only one whole number is that near. */
  lemma NearestOnce(p: nat, q: nat, c: nat, unit: nat)
    requires unit >= 1 && Nearest(p, c, unit) && Nearest(q, c, unit)
    ensures p == q
  {
    if p < q {
      NearestOrdered(p, q, c, unit);
    } else if q < p {
      NearestOrdered(q, p, c, unit);
    }
  }

  lemma NearestOrdered(p: nat, q: nat, c: nat, unit: nat)
    requires unit >= 1 && p < q && Nearest(p, c, unit)
    ensures !Nearest(q, c, unit)
  {
    Steps(p, q, unit);
  }

  lemma Steps(p: nat, q: nat, unit: nat)
    requires p < q
    ensures q * unit >= p * unit + unit
    ensures q >= p + 2 ==> q * unit >= p * unit + 2 * unit
  {
    var k := q - p;
    assert q * unit == p * unit + k * unit;
    assert k >= 2 ==> k * unit >= 2 * unit;
  }

  /** `Decimal.normalize` under the default context: up to 28 digits are kept as they
      are; of a longer coefficient 28 digits are left, rounded to the nearest and to
      even in the middle. */
  lemma RoundedIff(d: Decimal, r: Decimal)
    requires |Digits(d.coefficient)| > 28
    ensures r == Round(d) <==>
            var drop := |Digits(d.coefficient)| - 28;
            r.negative == d.negative && r.exponent == d.exponent + drop
            && Nearest(r.coefficient, d.coefficient, Pow10(drop))
  {
    var drop := |Digits(d.coefficient)| - 28;
    assert Excess(d, PRECISION) == drop;
    HalfEvenNearest(d.coefficient, Pow10(drop));
    if Nearest(r.coefficient, d.coefficient, Pow10(drop)) {
      NearestOnce(r.coefficient, HalfEven(d.coefficient, Pow10(drop)), d.coefficient, Pow10(drop));
    }
  }

  lemma ShortIsKept(d: Decimal)
    requires |Digits(d.coefficient)| <= 28
    ensures Round(d) == d
  {
    assert Excess(d, PRECISION) == 0;
    UnitIsOne(d);
  }

  lemma UnitIsOne(d: Decimal)
    requires Excess(d, PRECISION) == 0
    ensures Round(d) == d
  {
    assert Pow10(0) == 1;
  }

  // ----- numerals -----

  /** s is a numeral with these parts: no needless leading zero, no point without a
      fraction, no trailing zero after it, and no minus zero. */
  predicate IsNumeral(s: string, negative: bool, whole: string, fraction: string) {
    && s == WithSign(negative, Pointed(whole, fraction))
    && whole != "" && AllDigits(whole) && AllDigits(fraction)
    && (|whole| > 1 ==> whole[0] != '0')
    && (fraction != "" ==> fraction[|fraction| - 1] != '0')
    && (negative ==> whole != "0" || fraction != "")
  }

  function Pointed(whole: string, fraction: string): string {
    if |fraction| == 0 then whole else whole + ['.'] + fraction
  }

  function WithSign(negative: bool, s: string): string {
    if negative then ['-'] + s else s
  }

  ghost predicate CanonicalNumeral(s: string) {
    exists negative, whole, fraction :: IsNumeral(s, negative, whole, fraction)
  }

  lemma NumeralReads(s: string, negative: bool, whole: string, fraction: string)
    requires IsNumeral(s, negative, whole, fraction)
    ensures Read(s) == Some(Decimal(negative, ReadDigits(whole + fraction), -|fraction|))
  {
    ReadParts(negative, whole, fraction);
    assert s == Sign(negative) + Body(whole, fraction);
  }

  // ----- the text is a numeral -----

  lemma {:induction false} NoLeadingZero(n: nat)
    ensures |Digits(n)| > 1 ==> Digits(n)[0] != '0'
    ensures n > 0 ==> Digits(n)[0] != '0'
  {
    if n >= 10 {
      NoLeadingZero(n / 10);
    }
  }

  lemma LastDigit(n: nat)
    requires n % 10 != 0
    ensures Digits(n)[|Digits(n)| - 1] != '0'
  {
  }

  lemma FixedIsNumeral(c: nat, e: int, negative: bool)
    requires if c == 0 then e == 0 && !negative else c % 10 != 0
    ensures CanonicalNumeral(Sign(negative) + Fixed(c, e))
  {
    if e >= 0 {
      WholeNumeral(c, e, negative);
    } else if |Digits(c)| > -e {
      PointNumeral(c, e, negative);
    } else {
      SmallNumeral(c, e, negative);
    }
  }

  lemma WholeNumeral(c: nat, e: nat, negative: bool)
    requires c == 0 ==> e == 0 && !negative
    ensures CanonicalNumeral(Sign(negative) + (Digits(c) + Zeros(e)))
  {
    var whole := Digits(c) + Zeros(e);
    NoLeadingZero(c);
    assert whole[0] == Digits(c)[0];
    assert IsNumeral(Sign(negative) + whole, negative, whole, "");
  }

  lemma PointNumeral(c: nat, e: int, negative: bool)
    requires e < 0 < |Digits(c)| + e && c % 10 != 0
    ensures CanonicalNumeral(Sign(negative) + Fixed(c, e))
  {
    var ds := Digits(c);
    var whole, fraction := ds[..|ds| + e], ds[|ds| + e..];
    NoLeadingZero(c);
    LastDigit(c);
    assert whole[0] == ds[0] && fraction[|fraction| - 1] == ds[|ds| - 1];
    PartsNumeral(negative, whole, fraction);
  }

  lemma SmallNumeral(c: nat, e: int, negative: bool)
    requires e < 0 && |Digits(c)| + e <= 0 && c % 10 != 0
    ensures CanonicalNumeral(Sign(negative) + Fixed(c, e))
  {
    var fraction := Zeros(-e - |Digits(c)|) + Digits(c);
    LastDigit(c);
    assert fraction[|fraction| - 1] == Digits(c)[|Digits(c)| - 1];
    PartsNumeral(negative, "0", fraction);
  }

  lemma PartsNumeral(negative: bool, whole: string, fraction: string)
    requires whole != "" && AllDigits(whole) && AllDigits(fraction) && (|whole| > 1 ==> whole[0] != '0')
    requires fraction != "" && fraction[|fraction| - 1] != '0'
    ensures CanonicalNumeral(Sign(negative) + Body(whole, fraction))
  {
    assert Body(whole, fraction) == Pointed(whole, fraction);
    assert IsNumeral(Sign(negative) + Body(whole, fraction), negative, whole, fraction);
  }

  lemma TextIsNumeral(d: Decimal)
    ensures CanonicalNumeral(Text(d))
  {
    var n := Normalize(d);
    if n.coefficient == 0 {
      ZeroText(n.negative);
      WholeNumeral(0, 0, false);
    } else {
      FixedIsNumeral(n.coefficient, n.exponent, n.negative);
      NotMinusZero(n);
    }
  }

  lemma ZeroText(negative: bool)
    ensures Sign(negative) + Fixed(0, 0) == if negative then "-0" else "0"
    ensures Sign(false) + (Digits(0) + Zeros(0)) == "0"
  {
    assert Digits(0) == "0";
  }

  lemma NotMinusZero(n: Decimal)
    requires n.coefficient > 0
    ensures Sign(n.negative) + Fixed(n.coefficient, n.exponent) != "-0"
  {
    var s := Sign(n.negative) + Fixed(n.coefficient, n.exponent);
    if s == "-0" {
      FixedReads(n.negative, n.coefficient, n.exponent);
      ReadZero(true, "0");
      assert Sign(true) + "0" == "-0";
      ZeroIffZero(Decimal(true, 0, 0), n);
    }
  }

  // ----- a number has one numeral -----

  lemma {:induction false} DigitsOfRead(s: string)
    requires s != "" && AllDigits(s) && (|s| > 1 ==> s[0] != '0')
    ensures Digits(ReadDigits(s)) == s
  {
    var init, last := s[..|s| - 1], s[|s| - 1];
    if init == "" {
      assert s == [last];
    } else {
      DigitsOfRead(init);
      PositiveRead(init);
      assert s == init + [last];
    }
  }

  lemma {:induction false} PositiveRead(s: string)
    requires s != "" && AllDigits(s) && s[0] != '0'
    ensures ReadDigits(s) > 0
  {
    if |s| > 1 {
      PositiveRead(s[..|s| - 1]);
    }
  }

  /** Digit strings of one length are told apart by their value. */
  lemma {:induction false} SameLengthSame(s: string, t: string)
    requires AllDigits(s) && AllDigits(t) && |s| == |t| && ReadDigits(s) == ReadDigits(t)
    ensures s == t
  {
    if s != "" {
      SameLengthSame(s[..|s| - 1], t[..|t| - 1]);
      assert s == s[..|s| - 1] + [s[|s| - 1]] && t == t[..|t| - 1] + [t[|t| - 1]];
    }
  }

  lemma ReadLast(s: string, c: char)
    requires AllDigits(s) && IsDigit(c)
    ensures ReadDigits(s + [c]) == 10 * ReadDigits(s) + (c as int - '0' as int)
  {
    assert (s + [c])[..|s|] == s;
  }

  lemma {:induction false} ReadSplit(s: string, t: string)
    requires AllDigits(s) && AllDigits(t)
    ensures ReadDigits(s + t) == ReadDigits(s) * Pow10(|t|) + ReadDigits(t)
    ensures ReadDigits(t) < Pow10(|t|)
  {
    if t == "" {
      assert s + t == s;
    } else {
      var init, last := t[..|t| - 1], t[|t| - 1];
      assert t == init + [last] && s + t == (s + init) + [last];
      ReadSplit(s, init);
      ReadLast(init, last);
      ReadLast(s + init, last);
      MulTen(ReadDigits(s), Pow10(|init|));
    }
  }

  lemma SplitOnce(a: nat, b: nat, x: nat, y: nat, p: nat)
    requires x < p && y < p && a * p + x == b * p + y
    ensures a == b && x == y
  {
    if a < b {
      Steps(a, b, p);
    } else if b < a {
      Steps(b, a, p);
    }
  }

  lemma FinerDiffers(a: Decimal, b: Decimal)
    requires b.coefficient % 10 != 0 && SameNumber(a, b)
    ensures b.exponent >= a.exponent
  {
    if b.exponent < a.exponent {
      NormalFormScale(b, a);
    }
  }

  /** Numerals of one number have fractions of one length. */
  lemma SameFractionLength(a: Decimal, b: Decimal, v: string, f: string, w: string, g: string)
    requires AllDigits(v) && AllDigits(f) && (f != "" ==> f[|f| - 1] != '0')
    requires AllDigits(w) && AllDigits(g) && (g != "" ==> g[|g| - 1] != '0')
    requires a.coefficient == ReadDigits(v + f) && a.exponent == -|f|
    requires b.coefficient == ReadDigits(w + g) && b.exponent == -|g|
    requires SameNumber(a, b)
    ensures |f| == |g|
  {
    if g != "" {
      LastOfBoth(w, g);
      FinerDiffers(a, b);
    }
    if f != "" {
      LastOfBoth(v, f);
      FinerDiffers(b, a);
    }
  }

  lemma LastOfBoth(w: string, g: string)
    requires AllDigits(w) && AllDigits(g) && g != "" && g[|g| - 1] != '0'
    ensures ReadDigits(w + g) % 10 != 0
  {
    var s := w + g;
    assert s[|s| - 1] == g[|g| - 1];
    LastRead(s);
  }

  lemma LastRead(s: string)
    requires s != "" && AllDigits(s) && s[|s| - 1] != '0'
    ensures ReadDigits(s) % 10 != 0
  {
  }

  lemma SameParts(v: string, f: string, w: string, g: string)
    requires AllDigits(v) && AllDigits(f) && AllDigits(w) && AllDigits(g) && v != "" && w != ""
    requires (|v| > 1 ==> v[0] != '0') && (|w| > 1 ==> w[0] != '0')
    requires |f| == |g| && ReadDigits(v + f) == ReadDigits(w + g)
    ensures v == w && f == g
  {
    ReadSplit(v, f);
    ReadSplit(w, g);
    SplitOnce(ReadDigits(v), ReadDigits(w), ReadDigits(f), ReadDigits(g), Pow10(|f|));
    SameLengthSame(f, g);
    DigitsOfRead(v);
    DigitsOfRead(w);
  }

  lemma NumeralUnique(s: string, m: bool, v: string, f: string, t: string, n: bool, w: string, g: string)
    requires IsNumeral(s, m, v, f) && IsNumeral(t, n, w, g)
    requires SameNumber(Decimal(m, ReadDigits(v + f), -|f|), Decimal(n, ReadDigits(w + g), -|g|))
    ensures s == t
  {
    PartsUnique(Decimal(m, ReadDigits(v + f), -|f|), Decimal(n, ReadDigits(w + g), -|g|), v, f, w, g);
    if ReadDigits(v + f) == 0 {
      ZeroNumeral(v, f);
    }
  }

  lemma PartsUnique(a: Decimal, b: Decimal, v: string, f: string, w: string, g: string)
    requires AllDigits(v) && AllDigits(f) && v != "" && (|v| > 1 ==> v[0] != '0')
    requires AllDigits(w) && AllDigits(g) && w != "" && (|w| > 1 ==> w[0] != '0')
    requires (f != "" ==> f[|f| - 1] != '0') && (g != "" ==> g[|g| - 1] != '0')
    requires a.coefficient == ReadDigits(v + f) && a.exponent == -|f|
    requires b.coefficient == ReadDigits(w + g) && b.exponent == -|g|
    requires SameNumber(a, b)
    ensures v == w && f == g && (a.coefficient == 0 || a.negative == b.negative)
  {
    SameFractionLength(a, b, v, f, w, g);
    SameScale(a.negative, a.coefficient, b.negative, b.coefficient, -|f|);
    SameParts(v, f, w, g);
  }

  lemma SameScale(m: bool, a: nat, n: bool, b: nat, e: int)
    requires SameNumber(Decimal(m, a, e), Decimal(n, b, e))
    ensures a == b && (a == 0 || m == n)
  {
    assert Pow10(0) == 1;
  }

  lemma ZeroNumeral(v: string, f: string)
    requires AllDigits(v) && AllDigits(f) && v != "" && (|v| > 1 ==> v[0] != '0')
    requires (f != "" ==> f[|f| - 1] != '0') && ReadDigits(v + f) == 0
    ensures v == "0" && f == ""
  {
    if f != "" {
      LastOfBoth(v, f);
    } else {
      assert v + f == v;
      DigitsOfRead(v);
      assert Digits(0) == "0";
    }
  }

  /** The text of a decimal is the one canonical numeral of the number it rounds to. */
  lemma TextIff(d: Decimal, s: string)
    ensures s == Text(d) <==>
            CanonicalNumeral(s) && Read(s).Some? && SameNumber(Read(s).value, Round(d))
  {
    TextIsNumeral(d);
    TextReadsBack(d);
    if CanonicalNumeral(s) && Read(s).Some? && SameNumber(Read(s).value, Round(d)) {
      var m, v, f :| IsNumeral(s, m, v, f);
      var n, w, g :| IsNumeral(Text(d), n, w, g);
      NumeralReads(s, m, v, f);
      NumeralReads(Text(d), n, w, g);
      SameNumberTrans(Read(s).value, Round(d), Read(Text(d)).value);
      NumeralUnique(s, m, v, f, Text(d), n, w, g);
    }
  }
}
