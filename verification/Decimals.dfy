/** Python's finite Decimal values and the canonical text that strategy identity
    prints them with: `normalize` under the default 28-digit context, then the
    fixed-point format. */
module Decimals {
  import opened Options

  /** The number (-1)^negative * coefficient * 10^exponent. */
  datatype Decimal = Decimal(negative: bool, coefficient: nat, exponent: int)

  const PRECISION: nat := 28

  function Pow10(n: nat): (p: nat)
    ensures p >= 1
  {
    if n == 0 then 1 else 10 * Pow10(n - 1)
  }

  function DigitChar(n: nat): char
    requires n < 10
  {
    ('0' as int + n) as char
  }

  predicate IsDigit(c: char) {
    '0' <= c <= '9'
  }

  predicate AllDigits(s: string) {
    forall i | 0 <= i < |s| :: IsDigit(s[i])
  }

  /** The shortest decimal numeral of n. */
  function Digits(n: nat): (s: string)
    ensures |s| > 0 && AllDigits(s)
  {
    if n < 10 then [DigitChar(n)] else Digits(n / 10) + [DigitChar(n % 10)]
  }

  function Zeros(n: nat): (s: string)
    ensures |s| == n && AllDigits(s)
  {
    if n == 0 then "" else Zeros(n - 1) + "0"
  }

  /** Horner reading of a digit string. */
  function ReadDigits(s: string): nat
    requires AllDigits(s)
  {
    if s == "" then 0 else 10 * ReadDigits(s[..|s| - 1]) + (s[|s| - 1] as int - '0' as int)
  }

  // ----- the context rounding and the canonical form -----

  /** How many digits a context of precision p drops. */
  function Excess(d: Decimal, p: nat): nat {
    if |Digits(d.coefficient)| <= p then 0 else |Digits(d.coefficient)| - p
  }

  /** c / unit, rounded half-even. */
  function HalfEven(c: nat, unit: nat): (q: nat)
    requires unit >= 1
    ensures c / unit <= q <= c / unit + 1 && (c % unit == 0 ==> q == c / unit)
  {
    var q, r := c / unit, c % unit;
    if 2 * r > unit || (2 * r == unit && q % 2 == 1) then q + 1 else q
  }

  function RoundTo(d: Decimal, p: nat): Decimal {
    Decimal(d.negative, HalfEven(d.coefficient, Pow10(Excess(d, p))), d.exponent + Excess(d, p))
  }

  predicate ExactTo(d: Decimal, p: nat) {
    d.coefficient % Pow10(Excess(d, p)) == 0
  }

  /** Round-half-even to the default context. */
  function Round(d: Decimal): Decimal {
    RoundTo(d, PRECISION)
  }

  /** Rounding loses nothing: there are no excess digits, or they are all zeros. */
  predicate Exact(d: Decimal) {
    ExactTo(d, PRECISION)
  }

  function Strip(d: Decimal): (s: Decimal)
    requires d.coefficient > 0
    ensures s.coefficient % 10 != 0 && s.negative == d.negative
    decreases d.coefficient
  {
    if d.coefficient % 10 != 0 then d
    else Strip(Decimal(d.negative, d.coefficient / 10, d.exponent + 1))
  }

  function Normalize(d: Decimal): Decimal {
    var r := Round(d);
    if r.coefficient == 0 then Decimal(r.negative, 0, 0) else Strip(r)
  }

  /** Whole and fractional digits, with a point only before a fraction. */
  function Body(whole: string, fraction: string): string {
    if fraction == "" then whole else whole + "." + fraction
  }

  function Sign(negative: bool): string {
    if negative then "-" else ""
  }

  /** The fixed-point format of an unsigned number. */
  function Fixed(coefficient: nat, exponent: int): string {
    var ds := Digits(coefficient);
    if exponent >= 0 then ds + Zeros(exponent)
    else if |ds| > -exponent then Body(ds[..|ds| + exponent], ds[|ds| + exponent..])
    else Body("0", Zeros(-exponent - |ds|) + ds)
  }

  function Text(d: Decimal): string {
    var n := Normalize(d);
    var text := Sign(n.negative) + Fixed(n.coefficient, n.exponent);
    if text == "-0" then "0" else text
  }

  // ----- numeric value, independent of spelling -----

  function Signed(d: Decimal): int {
    if d.negative then -(d.coefficient as int) else d.coefficient
  }

  /** d counted in units of 10^m. */
  function Units(d: Decimal, m: int): int
    requires m <= d.exponent
  {
    Signed(d) * Pow10(d.exponent - m)
  }

  function Min(a: int, b: int): int {
    if a <= b then a else b
  }

  /** a and b denote the same number, whatever their spelling. */
  predicate SameNumber(a: Decimal, b: Decimal) {
    var m := Min(a.exponent, b.exponent);
    Units(a, m) == Units(b, m)
  }

  /** Reading a fixed-point numeral back, as the Decimal constructor does. */
  function Read(s: string): Option<Decimal> {
    if s != "" && s[0] == '-' then ReadUnsigned(s[1..], true) else ReadUnsigned(s, false)
  }

  function ReadUnsigned(s: string, negative: bool): Option<Decimal> {
    var k := FindDot(s);
    var whole, fraction := s[..k], if k == |s| then "" else s[k + 1..];
    if whole == "" || !AllDigits(whole) || !AllDigits(fraction) then None
    else Some(Decimal(negative, ReadDigits(whole + fraction), -|fraction|))
  }

  function FindDot(s: string): (k: nat)
    ensures k <= |s| && '.' !in s[..k] && (k < |s| ==> s[k] == '.')
  {
    if s == "" || s[0] == '.' then 0
    else
      var k := 1 + FindDot(s[1..]);
      assert s[..k] == [s[0]] + s[1..][..k - 1];
      k
  }

  // ----- arithmetic of powers and numerals -----

  lemma {:induction false} Pow10Add(a: nat, b: nat)
    ensures Pow10(a + b) == Pow10(a) * Pow10(b)
  {
    if a > 0 {
      Pow10Add(a - 1, b);
      assert Pow10(a + b) == 10 * Pow10(a - 1 + b);
    }
  }

  lemma {:induction false} ReadDigitsOfDigits(n: nat)
    ensures ReadDigits(Digits(n)) == n
  {
    if n >= 10 {
      ReadDigitsOfDigits(n / 10);
      assert Digits(n)[..|Digits(n)| - 1] == Digits(n / 10);
    } else {
      assert Digits(n)[..0] == "";
    }
  }

  lemma {:induction false} ReadTrailingZeros(s: string, n: nat)
    requires AllDigits(s)
    ensures ReadDigits(s + Zeros(n)) == ReadDigits(s) * Pow10(n)
  {
    var t := s + Zeros(n);
    if n == 0 {
      assert t == s;
    } else {
      ReadTrailingZeros(s, n - 1);
      assert t[..|t| - 1] == s + Zeros(n - 1) && t[|t| - 1] == '0';
      MulTen(ReadDigits(s), Pow10(n - 1));
    }
  }

  lemma MulTen(a: int, b: int)
    ensures a * (10 * b) == 10 * (a * b)
  {
  }

  lemma {:induction false} ReadLeadingZeros(n: nat, s: string)
    requires AllDigits(s)
    ensures ReadDigits(Zeros(n) + s) == ReadDigits(s)
  {
    if s == "" {
      assert Zeros(n) + s == Zeros(n);
      if n > 0 {
        ReadLeadingZeros(n - 1, "");
        assert Zeros(n - 1) + "" == Zeros(n - 1);
        assert Zeros(n)[..n - 1] == Zeros(n - 1);
      }
    } else {
      ReadLeadingZeros(n, s[..|s| - 1]);
      assert (Zeros(n) + s)[..n + |s| - 1] == Zeros(n) + s[..|s| - 1];
    }
  }

  // ----- SameNumber is an equivalence that Units decides at any scale -----

  lemma SameNumberAt(a: Decimal, b: Decimal, m: int)
    requires m <= a.exponent && m <= b.exponent
    ensures SameNumber(a, b) <==> Units(a, m) == Units(b, m)
  {
    var top := Min(a.exponent, b.exponent);
    Pow10Add(a.exponent - top, top - m);
    Pow10Add(b.exponent - top, top - m);
    ScaleUnits(a, top, m);
    ScaleUnits(b, top, m);
    var p := Pow10(top - m);
    assert Units(a, m) == Units(a, top) * p && Units(b, m) == Units(b, top) * p;
    CancelFactor(Units(a, top), Units(b, top), p);
  }

  lemma CancelFactor(x: int, y: int, p: int)
    requires p >= 1
    ensures x * p == y * p <==> x == y
  {
  }

  lemma ScaleUnits(d: Decimal, top: int, m: int)
    requires m <= top <= d.exponent
    ensures Units(d, m) == Units(d, top) * Pow10(top - m)
  {
    Pow10Add(d.exponent - top, top - m);
    MulAssoc(Signed(d), Pow10(d.exponent - top), Pow10(top - m));
    assert d.exponent - m == (d.exponent - top) + (top - m);
  }

  lemma MulAssoc(a: int, b: int, c: int)
    ensures a * (b * c) == (a * b) * c
  {
  }

  /** SameNumber is transitive (it is plainly reflexive and symmetric). */
  lemma SameNumberTrans(a: Decimal, b: Decimal, c: Decimal)
    requires SameNumber(a, b) && SameNumber(b, c)
    ensures SameNumber(a, c)
  {
    var m := Min(a.exponent, Min(b.exponent, c.exponent));
    SameNumberAt(a, b, m);
    SameNumberAt(b, c, m);
    SameNumberAt(a, c, m);
  }

  lemma {:induction false} StripSameNumber(d: Decimal)
    requires d.coefficient > 0
    ensures SameNumber(d, Strip(d))
    decreases d.coefficient
  {
    if d.coefficient % 10 == 0 {
      var next := Decimal(d.negative, d.coefficient / 10, d.exponent + 1);
      assert Pow10(1) == 10 * Pow10(0);
      assert SameNumber(d, next);
      StripSameNumber(next);
      SameNumberTrans(d, next, Strip(d));
    }
  }

  lemma NormalizeSameNumber(d: Decimal)
    ensures SameNumber(Normalize(d), Round(d))
  {
    if Round(d).coefficient > 0 {
      StripSameNumber(Round(d));
    }
  }

  /** A number has one normal form, apart from the sign of zero. */
  lemma NormalFormUnique(a: Decimal, b: Decimal)
    requires a.coefficient % 10 != 0 && b.coefficient % 10 != 0
    requires SameNumber(a, b)
    ensures a == b
  {
    if a.exponent < b.exponent {
      NormalFormScale(a, b);
    } else if b.exponent < a.exponent {
      NormalFormScale(b, a);
    }
  }

  lemma NormalFormScale(a: Decimal, b: Decimal)
    requires a.coefficient % 10 != 0 && a.exponent < b.exponent
    ensures !SameNumber(a, b)
  {
    var p := Pow10(b.exponent - a.exponent - 1);
    assert Pow10(b.exponent - a.exponent) == 10 * p && Pow10(0) == 1;
    assert Units(b, a.exponent) == 10 * (Signed(b) * p) by {
      assert Signed(b) * (10 * p) == 10 * (Signed(b) * p);
    }
    assert Units(a, a.exponent) == Signed(a);
  }

  // ----- the canonical text -----

  /** The numeral s, given a sign, reads as the number (-1)^negative * c * 10^e. */
  ghost predicate ReadsAs(s: string, negative: bool, c: nat, e: int) {
    && s != "" && IsDigit(s[0])
    && var back := Read(Sign(negative) + s);
    && back.Some?
    && SameNumber(back.value, Decimal(negative, c, e))
  }

  lemma FixedReads(negative: bool, c: nat, e: int)
    ensures ReadsAs(Fixed(c, e), negative, c, e)
  {
    if e >= 0 {
      IntegerReads(negative, c, e);
    } else if |Digits(c)| > -e {
      PointReads(negative, c, e);
    } else {
      SmallReads(negative, c, e);
    }
  }

  lemma PointReads(negative: bool, c: nat, e: int)
    requires e < 0 < |Digits(c)| + e
    ensures ReadsAs(Fixed(c, e), negative, c, e)
  {
    var ds := Digits(c);
    var k := |ds| + e;
    assert ds[..k] + ds[k..] == ds;
    ReadDigitsOfDigits(c);
    ReadParts(negative, ds[..k], ds[k..]);
  }

  lemma SmallReads(negative: bool, c: nat, e: int)
    requires e < 0 && |Digits(c)| + e <= 0
    ensures ReadsAs(Fixed(c, e), negative, c, e)
  {
    var tail := Zeros(-e - |Digits(c)|) + Digits(c);
    SmallDigits(-e - |Digits(c)|, c);
    ReadParts(negative, "0", tail);
  }

  lemma IntegerReads(negative: bool, c: nat, e: nat)
    ensures ReadsAs(Digits(c) + Zeros(e), negative, c, e)
  {
    var s := Digits(c) + Zeros(e);
    ReadDigitsOfDigits(c);
    ReadTrailingZeros(Digits(c), e);
    assert s + "" == s;
    ReadParts(negative, s, "");
    IntegerSame(negative, c, e);
  }

  lemma IntegerSame(negative: bool, c: nat, e: nat)
    ensures SameNumber(Decimal(negative, c * Pow10(e), 0), Decimal(negative, c, e))
  {
    assert Pow10(0) == 1;
    NegateProduct(c, Pow10(e));
  }

  lemma SmallDigits(zeros: nat, coefficient: nat)
    ensures ReadDigits("0" + (Zeros(zeros) + Digits(coefficient))) == coefficient
  {
    var tail := Zeros(zeros) + Digits(coefficient);
    ReadDigitsOfDigits(coefficient);
    ReadLeadingZeros(zeros, Digits(coefficient));
    assert Zeros(1) == Zeros(0) + "0" == "0";
    ReadLeadingZeros(1, tail);
  }

  /** Reading a numeral from its whole and fractional digits. */
  lemma ReadParts(negative: bool, whole: string, fraction: string)
    requires whole != "" && AllDigits(whole) && AllDigits(fraction)
    ensures Read(Sign(negative) + Body(whole, fraction))
         == Some(Decimal(negative, ReadDigits(whole + fraction), -|fraction|))
  {
    var body := Body(whole, fraction);
    UnsignedParts(negative, whole, fraction);
    assert IsDigit(whole[0]) && body[0] == whole[0];
    assert ("-" + body)[1..] == body;
    assert "" + body == body;
  }

  lemma UnsignedParts(negative: bool, whole: string, fraction: string)
    requires whole != "" && AllDigits(whole) && AllDigits(fraction)
    ensures ReadUnsigned(Body(whole, fraction), negative)
         == Some(Decimal(negative, ReadDigits(whole + fraction), -|fraction|))
  {
    var body := Body(whole, fraction);
    NoDotInDigits(whole);
    assert body[..|whole|] == whole;
    FindDotIs(body, |whole|);
    if fraction != "" {
      assert body[|whole| + 1..] == fraction;
    }
  }

  lemma NoDotInDigits(s: string)
    requires AllDigits(s)
    ensures '.' !in s
  {
  }

  lemma {:induction false} FindDotIs(s: string, k: nat)
    requires k <= |s| && '.' !in s[..k] && (k < |s| ==> s[k] == '.')
    ensures FindDot(s) == k
  {
    if k > 0 {
      assert s[0] in s[..k];
      assert s[1..][..k - 1] == s[..k][1..];
      FindDotIs(s[1..], k - 1);
    }
  }

  /** Reading the canonical text back gives the rounded number. */
  lemma TextReadsBack(d: Decimal)
    ensures Read(Text(d)).Some? && SameNumber(Read(Text(d)).value, Round(d))
  {
    var n := Normalize(d);
    NormalizeSameNumber(d);
    FixedReads(n.negative, n.coefficient, n.exponent);
    var raw := Sign(n.negative) + Fixed(n.coefficient, n.exponent);
    SameNumberTrans(Read(raw).value, n, Round(d));
    if raw == "-0" {
      ReadMinusZero();
      SameNumberTrans(Read("0").value, Read(raw).value, Round(d));
    }
  }

  lemma ReadMinusZero()
    ensures Read("0").Some? && Read("-0").Some?
    ensures SameNumber(Read("0").value, Read("-0").value)
  {
    ReadZero(false, "0");
    ReadZero(true, "0");
    assert Sign(false) + "0" == "0" && Sign(true) + "0" == "-0";
  }

  lemma ReadZero(negative: bool, zero: string)
    requires |zero| == 1 && zero[0] == '0'
    ensures Read(Sign(negative) + zero) == Some(Decimal(negative, 0, 0))
  {
    ReadParts(negative, zero, "");
    assert zero + "" == zero;
    assert zero[..0] == "";
  }

  /** The text is canonical: it identifies exactly the numbers that round alike. */
  lemma TextCanonical(a: Decimal, b: Decimal)
    ensures Text(a) == Text(b) <==> SameNumber(Round(a), Round(b))
  {
    if Text(a) == Text(b) {
      TextReadsBack(a);
      TextReadsBack(b);
      SameNumberTrans(Round(a), Read(Text(a)).value, Round(b));
    }
    if SameNumber(Round(a), Round(b)) {
      NormalizeSameNumber(a);
      NormalizeSameNumber(b);
      SameNumberTrans(Normalize(a), Round(a), Round(b));
      SameNumberTrans(Normalize(a), Round(b), Normalize(b));
      ZeroIffZero(Round(a), Round(b));
      if Round(a).coefficient == 0 {
        assert Fixed(0, 0) == "0" + Zeros(0) == "0";
      } else {
        NormalFormUnique(Normalize(a), Normalize(b));
      }
    }
  }

  lemma ZeroIffZero(a: Decimal, b: Decimal)
    requires SameNumber(a, b)
    ensures a.coefficient == 0 <==> b.coefficient == 0
  {
    var m := Min(a.exponent, b.exponent);
    NonzeroUnits(a, m);
    NonzeroUnits(b, m);
  }

  lemma NonzeroUnits(d: Decimal, m: int)
    requires m <= d.exponent
    ensures Units(d, m) == 0 <==> d.coefficient == 0
  {
  }

  /** Rounding keeps the number exactly when it drops only zeros. */
  lemma RoundExactIff(d: Decimal)
    ensures SameNumber(Round(d), d) <==> Exact(d)
  {
    RoundToExactIff(d, PRECISION);
  }

  lemma RoundToExactIff(d: Decimal, p: nat)
    ensures SameNumber(RoundTo(d, p), d) <==> ExactTo(d, p)
  {
    var unit, r := Pow10(Excess(d, p)), RoundTo(d, p);
    HalfEvenExact(d.coefficient, unit);
    NegateProduct(r.coefficient, unit);
    assert Units(d, d.exponent) == Signed(d) * Pow10(0) == Signed(d);
    assert Units(r, d.exponent) == Signed(r) * unit;
  }

  lemma NegateProduct(a: int, b: int)
    ensures (-a) * b == -(a * b)
  {
  }

  lemma HalfEvenExact(c: nat, unit: nat)
    requires unit >= 1
    ensures HalfEven(c, unit) * unit == c <==> c % unit == 0
  {
    var q := c / unit;
    assert c == q * unit + c % unit;
    assert (q + 1) * unit == q * unit + unit;
  }

  lemma {:induction false} DigitsLength(n: nat, k: nat)
    requires k >= 1
    ensures |Digits(n)| <= k <==> n < Pow10(k)
  {
    if n >= 10 && k >= 2 {
      DigitsLength(n / 10, k - 1);
    } else {
      assert Pow10(k) == 10 * Pow10(k - 1);
      assert Pow10(1) == 10 * Pow10(0);
    }
  }

  /** A rounded number is representable, so rounding again changes nothing. */
  lemma RoundIdempotent(d: Decimal)
    ensures Exact(Round(d)) && SameNumber(Round(Round(d)), Round(d))
  {
    RoundedIsExact(d, PRECISION);
    RoundExactIff(Round(d));
  }

  lemma RoundedIsExact(d: Decimal, p: nat)
    requires p >= 1
    ensures ExactTo(RoundTo(d, p), p)
  {
    RoundedBound(d, p);
    var r := RoundTo(d, p);
    if r.coefficient < Pow10(p) {
      SmallIsExact(r, p);
    } else {
      PowerIsExact(r, p);
    }
  }

  lemma SmallIsExact(d: Decimal, p: nat)
    requires p >= 1 && d.coefficient < Pow10(p)
    ensures ExactTo(d, p)
  {
    DigitsLength(d.coefficient, p);
    assert Pow10(Excess(d, p)) == 1;
  }

  lemma PowerIsExact(d: Decimal, p: nat)
    requires p >= 1 && d.coefficient == Pow10(p)
    ensures ExactTo(d, p)
  {
    DigitsLength(d.coefficient, p);
    DigitsLength(d.coefficient, p + 1);
    assert Pow10(1) == 10 * Pow10(0) == 10;
    assert Excess(d, p) == 1;
    assert d.coefficient == 10 * Pow10(p - 1);
  }

  lemma RoundedBound(d: Decimal, p: nat)
    requires p >= 1
    ensures RoundTo(d, p).coefficient <= Pow10(p)
  {
    var drop := Excess(d, p);
    DigitsLength(d.coefficient, drop + p);
    Pow10Add(drop, p);
    QuotientBound(d.coefficient, Pow10(drop), Pow10(p));
  }

  lemma QuotientBound(c: nat, unit: nat, bound: nat)
    requires unit >= 1 && c < unit * bound
    ensures c / unit < bound
  {
    var q := c / unit;
    assert c == q * unit + c % unit;
    MulMonotone(bound, q, unit);
  }

  lemma MulMonotone(a: int, b: int, p: nat)
    ensures a <= b ==> a * p <= b * p
  {
  }

  /** Within the precision, equal text means equal number and conversely. */
  lemma TextCanonicalExact(a: Decimal, b: Decimal)
    requires Exact(a) && Exact(b)
    ensures Text(a) == Text(b) <==> SameNumber(a, b)
  {
    TextCanonical(a, b);
    RoundExactIff(a);
    RoundExactIff(b);
    if SameNumber(Round(a), Round(b)) {
      SameNumberTrans(a, Round(a), Round(b));
      SameNumberTrans(a, Round(b), b);
    }
    if SameNumber(a, b) {
      SameNumberTrans(Round(a), a, b);
      SameNumberTrans(Round(a), b, Round(b));
    }
  }

  /** Past the precision the text no longer tells numbers apart: any inexact
      number shares its text with a different number. */
  lemma InexactTextCollides(d: Decimal)
    requires !Exact(d)
    ensures Text(d) == Text(Round(d)) && !SameNumber(d, Round(d))
  {
    RoundExactIff(d);
    RoundIdempotent(d);
    TextCanonical(d, Round(d));
  }

  /** The first such number: 10^28 + 1 needs 29 digits, and shares its text with 10^28. */
  lemma TwentyNineDigits(next: Decimal, power: Decimal)
    requires next == Decimal(false, Pow10(PRECISION) + 1, 0) && power == Decimal(false, Pow10(PRECISION), 0)
    ensures !Exact(next) && Text(next) == Text(power) && !SameNumber(next, power)
  {
    OneTooMany(next, power, PRECISION, Pow10(PRECISION - 1));
    SameRoundText(next, power);
  }

  lemma SameRoundText(a: Decimal, b: Decimal)
    requires Round(a) == Round(b)
    ensures Text(a) == Text(b)
  {
  }

  lemma OneTooMany(next: Decimal, power: Decimal, p: nat, unit: nat)
    requires p >= 1 && unit == Pow10(p - 1)
    requires next == Decimal(false, Pow10(p) + 1, 0) && power == Decimal(false, Pow10(p), 0)
    ensures !ExactTo(next, p) && RoundTo(next, p) == RoundTo(power, p) && !SameNumber(next, power)
  {
    TenTimes(p);
    RoundsToTenth(next, p, unit);
    RoundsToTenth(power, p, unit);
    DifferAtZero(next, power);
  }

  lemma TenTimes(p: nat)
    requires p >= 1
    ensures Pow10(p) == 10 * Pow10(p - 1)
  {
  }

  lemma DifferAtZero(a: Decimal, b: Decimal)
    requires a.exponent == 0 && b.exponent == 0 && !a.negative && !b.negative && a.coefficient != b.coefficient
    ensures !SameNumber(a, b)
  {
    assert Pow10(0) == 1;
    assert Units(a, 0) == a.coefficient && Units(b, 0) == b.coefficient;
  }

  lemma RoundsToTenth(d: Decimal, p: nat, unit: nat)
    requires p >= 1 && Pow10(p) == 10 * unit && 10 * unit <= d.coefficient <= 10 * unit + 1
    ensures RoundTo(d, p) == Decimal(d.negative, unit, d.exponent + 1)
    ensures ExactTo(d, p) <==> d.coefficient == 10 * unit
  {
    OneDigitTooMany(d, p);
    TenAndOne(unit);
    ByTen(d, p);
  }

  lemma ByTen(d: Decimal, p: nat)
    requires Excess(d, p) == 1 && Pow10(Excess(d, p)) == 10
    ensures RoundTo(d, p) == Decimal(d.negative, HalfEven(d.coefficient, 10), d.exponent + 1)
    ensures ExactTo(d, p) <==> d.coefficient % 10 == 0
  {
  }

  lemma OneDigitTooMany(d: Decimal, p: nat)
    requires p >= 1 && Pow10(p) <= d.coefficient <= Pow10(p) + 1
    ensures Excess(d, p) == 1 && Pow10(Excess(d, p)) == 10
  {
    assert Pow10(p + 1) == 10 * Pow10(p);
    DigitsLength(d.coefficient, p);
    DigitsLength(d.coefficient, p + 1);
    assert Pow10(1) == 10 * Pow10(0) == 10;
  }

  lemma TenAndOne(unit: nat)
    ensures (10 * unit + 1) / 10 == unit && (10 * unit + 1) % 10 == 1
    ensures HalfEven(10 * unit + 1, 10) == HalfEven(10 * unit, 10) == unit
  {
  }

  /** A canonical text starts with a digit or a sign. */
  lemma TextStart(d: Decimal)
    ensures Text(d) != "" && (IsDigit(Text(d)[0]) || Text(d)[0] == '-')
  {
    var n := Normalize(d);
    FixedReads(false, n.coefficient, n.exponent);
  }

  lemma OneText()
    ensures Text(Decimal(false, 1, 0)) == "1"
  {
    var one := Decimal(false, 1, 0);
    assert Digits(1) == [DigitChar(1)] == "1";
    assert Excess(one, PRECISION) == 0;
    OneRounds(one);
    assert Fixed(1, 0) == "1" + Zeros(0) == "1";
    assert Normalize(one) == one;
  }

  lemma OneRounds(one: Decimal)
    requires Excess(one, PRECISION) == 0
    ensures Round(one) == one
  {
    assert Pow10(0) == 1;
  }
}
