/** When the weights of a simple strategy pass for 1, as a statement about their sum. */
module WeightSums {
  import opened Options
  import opened Decimals
  import opened DecimalText
  import opened SimpleStrategy

  function Abs(x: int): nat {
    if x < 0 then -x else x
  }

  /** |d| is at most 10^-8, counted in units of 10^m. */
  predicate WithinAt(d: Decimal, m: int)
    requires m <= d.exponent && m <= -8
  {
    Abs(Units(d, m)) <= Pow10(-8 - m)
  }

  predicate Within(d: Decimal) {
    WithinAt(d, Min(d.exponent, -8))
  }

  lemma AbsProduct(x: int, p: nat)
    ensures Abs(x * p) == Abs(x) * p
  {
  }

  lemma CompareScaled(a: nat, b: nat, p: nat)
    requires p >= 1
    ensures a * p <= b * p <==> a <= b
  {
  }

  /** The scale does not matter. */
  lemma WithinAnyScale(d: Decimal, m: int)
    requires m <= d.exponent && m <= -8
    ensures WithinAt(d, m) <==> Within(d)
  {
    var top := Min(d.exponent, -8);
    ScaleUnits(d, top, m);
    AbsProduct(Units(d, top), Pow10(top - m));
    Pow10Add(-8 - top, top - m);
    CompareScaled(Abs(Units(d, top)), Pow10(-8 - top), Pow10(top - m));
  }

  lemma {:induction false} Pow10Monotone(a: nat, b: nat)
    requires a <= b
    ensures Pow10(a) <= Pow10(b)
    ensures a < b ==> Pow10(a) < Pow10(b)
  {
    if a < b {
      Pow10Monotone(a, b - 1);
    }
  }

  /** A number of at least 10^j units of 10^e is not that small, if j + e >= -7. */
  lemma LargeIsNotWithin(d: Decimal, j: nat)
    requires d.coefficient >= Pow10(j) && j + d.exponent >= -7
    ensures !Within(d)
  {
    var m := Min(d.exponent, -8);
    var p := Pow10(d.exponent - m);
    assert Abs(Signed(d)) == d.coefficient;
    AbsProduct(Signed(d), p);
    MulMonotone(Pow10(j), d.coefficient, p);
    Pow10Add(j, d.exponent - m);
    Pow10Monotone(-8 - m, j + (d.exponent - m));
  }

  /** Rounding leaves at least 28 digits of a number that has more. */
  lemma RoundedIsLarge(x: Decimal, drop: nat)
    requires drop >= 1 && |Digits(x.coefficient)| == drop + 28
    ensures x.coefficient >= Pow10(drop + 27)
    ensures Round(x).exponent == x.exponent + drop && Round(x).coefficient >= Pow10(27)
  {
    DigitsLength(x.coefficient, drop + 27);
    RoundedIff(x, Round(x));
    Pow10Add(drop, 27);
    RoundedQuotient(x, drop);
  }

  lemma RoundedQuotient(x: Decimal, drop: nat)
    requires drop >= 1 && |Digits(x.coefficient)| == drop + 28 && x.coefficient >= Pow10(drop) * Pow10(27)
    ensures Round(x).coefficient >= Pow10(27)
  {
    assert Excess(x, PRECISION) == drop;
    AtLeast(x.coefficient, Pow10(drop), Pow10(27));
  }

  lemma AtLeast(c: nat, unit: nat, q: nat)
    requires unit >= 1 && c >= unit * q
    ensures c / unit >= q
  {
    Below(c, unit, c / unit + 1);
    assert (c / unit) * unit + c % unit == c;
    MulMonotone(c / unit + 1, q, unit);
  }

  lemma Below(c: nat, unit: nat, k: nat)
    requires unit >= 1 && k == c / unit + 1
    ensures c < k * unit
  {
    assert c == (c / unit) * unit + c % unit;
  }

  /** Rounding does not carry a number across 10^-8, when it is not tiny. */
  lemma RoundKeepsWithin(x: Decimal)
    requires |Digits(x.coefficient)| > 28 ==> x.exponent + |Digits(x.coefficient)| >= -6
    ensures Within(Round(x)) <==> Within(x)
  {
    if |Digits(x.coefficient)| <= 28 {
      ShortIsKept(x);
    } else {
      var drop := |Digits(x.coefficient)| - 28;
      RoundedIsLarge(x, drop);
      LargeIsNotWithin(x, drop + 27);
      LargeIsNotWithin(Round(x), 27);
    }
  }

  /** The least number of 29 digits. */
  const LIMIT: nat := 10_000_000_000_000_000_000_000_000_000

  lemma LimitIs()
    ensures Pow10(28) == LIMIT
  {
    Pow10Add(14, 14);
    assert Pow10(14) == 100_000_000_000_000;
  }

  lemma LimitBelow(k: nat)
    requires k >= 28
    ensures LIMIT <= Pow10(k)
  {
    LimitIs();
    Pow10Monotone(28, k);
  }

  /** total - 1, exactly. */
  function LessOne(total: Decimal): Decimal {
    var m := Min(total.exponent, 0);
    var units := Units(total, m) - Pow10(-m);
    Decimal(units < 0, Abs(units), m)
  }

  lemma AddIsLessOne(total: Decimal)
    ensures Add(total, Decimal(true, 1, 0)) == Round(LessOne(total))
  {
    var m := Min(total.exponent, 0);
    assert Units(Decimal(true, 1, 0), m) == (-1) * Pow10(-m) == -(Pow10(-m) as int);
  }

  lemma Far(c: int, n: nat, most: nat)
    requires n >= 1 && -(most as int) <= c <= most <= Pow10(n - 1)
    ensures Abs(c - Pow10(n)) >= Pow10(n - 1)
  {
    assert Pow10(n) == 10 * Pow10(n - 1);
  }

  lemma LessOneIsNotTiny(total: Decimal)
    requires total.coefficient <= LIMIT && |Digits(LessOne(total).coefficient)| > 28
    ensures LessOne(total).exponent + |Digits(LessOne(total).coefficient)| >= -6
  {
    if total.exponent <= -36 {
      TinyIsFar(total);
      ManyDigits(LessOne(total).coefficient, -total.exponent);
    }
  }

  lemma TinyIsFar(total: Decimal)
    requires total.coefficient <= LIMIT && total.exponent <= -36
    ensures LessOne(total).coefficient >= Pow10(-total.exponent - 1)
  {
    LimitBelow(-total.exponent - 1);
    TinyTotalIsFar(total, total.exponent, LIMIT);
  }

  lemma ManyDigits(n: nat, k: nat)
    requires k >= 2 && n >= Pow10(k - 1)
    ensures |Digits(n)| >= k
  {
    DigitsLength(n, k - 1);
  }

  lemma TinyTotalIsFar(total: Decimal, m: int, most: nat)
    requires m == total.exponent < 0 && total.coefficient <= most <= Pow10(-m - 1)
    ensures LessOne(total).coefficient >= Pow10(-m - 1)
  {
    OwnUnits(total);
    Far(Signed(total), -m, most);
  }

  lemma OwnUnits(d: Decimal)
    ensures Units(d, d.exponent) == Signed(d)
  {
    assert Pow10(0) == 1;
  }

  /** A total of at most 28 digits passes for 1 if and only if it differs from 1 by at
      most 10^-8: the rounding of the difference never decides. */
  lemma NearOneIff(total: Decimal, e: int)
    requires total.coefficient <= LIMIT && e <= total.exponent && e <= -8
    ensures NearOne(total) <==> Abs(Units(total, e) - Pow10(-e)) <= Pow10(-8 - e)
  {
    var x := LessOne(total);
    AddIsLessOne(total);
    if |Digits(x.coefficient)| > 28 {
      LessOneIsNotTiny(total);
    }
    RoundKeepsWithin(x);
    NearIsWithin(Round(x));
    WithinAnyScale(x, e);
    LessOneUnits(total, e);
  }

  lemma NearIsWithin(difference: Decimal)
    ensures Within(difference) <==>
            var m := Min(difference.exponent, -8);
            -(Pow10(-8 - m) as int) <= Units(difference, m) <= Pow10(-8 - m)
  {
  }

  lemma LessOneUnits(total: Decimal, e: int)
    requires e <= total.exponent && e <= 0
    ensures Units(LessOne(total), e) == Units(total, e) - Pow10(-e)
  {
    var m := Min(total.exponent, 0);
    var x := LessOne(total);
    var p := Pow10(m - e);
    assert Signed(x) == Units(total, m) - Pow10(-m);
    ScaleUnits(total, m, e);
    Pow10Add(-m, m - e);
    Distribute(Units(total, m), Pow10(-m), p);
  }

  lemma Distribute(a: int, b: int, p: int)
    ensures (a - b) * p == a * p - b * p
  {
  }

  // ----- the sum of the weights -----

  /** The sum of the weights, in units of 10^e. */
  function Sum(assets: seq<Asset>, e: int): int
    requires forall i | 0 <= i < |assets| :: e <= assets[i].weight.exponent
  {
    if assets == [] then 0
    else Sum(assets[..|assets| - 1], e) + Units(assets[|assets| - 1].weight, e)
  }

  /** Weights are positive, no finer than 10^e, and their sum needs no more than 28 digits. */
  ghost predicate Summable(assets: seq<Asset>, e: int) {
    && (forall i | 0 <= i < |assets| :: !assets[i].weight.negative && e <= assets[i].weight.exponent)
    && Sum(assets, e) < LIMIT
  }

  /** Then d is the number u * 10^e, and needs no rounding. */
  predicate Counts(d: Decimal, e: int, u: nat) {
    !d.negative && e <= d.exponent && Units(d, e) == u && d.coefficient <= u
  }

  lemma UnitsBound(d: Decimal, e: int)
    requires e <= d.exponent && !d.negative
    ensures d.coefficient <= Units(d, e)
  {
    MulMonotone(1, Pow10(d.exponent - e), d.coefficient);
    Commute(d.coefficient, Pow10(d.exponent - e));
  }

  lemma Commute(a: int, b: int)
    ensures a * b == b * a
  {
  }

  lemma AddCounts(a: Decimal, b: Decimal, e: int, u: nat)
    requires Counts(a, e, u) && !b.negative && e <= b.exponent && u + Units(b, e) < LIMIT
    ensures Counts(Add(a, b), e, u + Units(b, e))
  {
    var m := Min(a.exponent, b.exponent);
    ExactSum(a, b, m, e);
    AddIsExact(a, b, m, Decimal(false, Units(a, m) + Units(b, m), m), e);
  }

  lemma AddIsExact(a: Decimal, b: Decimal, m: int, exact: Decimal, e: int)
    requires m == Min(a.exponent, b.exponent) && e <= m && !exact.negative
    requires !a.negative && !b.negative && exact == Decimal(false, Units(a, m) + Units(b, m), m)
    requires Units(exact, e) < LIMIT
    ensures Add(a, b) == exact && exact.coefficient <= Units(exact, e)
  {
    UnitsBound(exact, e);
    SmallIsKept(exact);
  }

  lemma SmallIsKept(d: Decimal)
    requires d.coefficient < LIMIT
    ensures Round(d) == d
  {
    LimitIs();
    DigitsLength(d.coefficient, 28);
    ShortIsKept(d);
  }

  lemma ExactSum(a: Decimal, b: Decimal, m: int, e: int)
    requires !a.negative && !b.negative && e <= m <= a.exponent && m <= b.exponent
    ensures Units(Decimal(false, Units(a, m) + Units(b, m), m), e) == Units(a, e) + Units(b, e)
  {
    ScaleUnits(a, m, e);
    ScaleUnits(b, m, e);
    Distribute(Units(a, m) + Units(b, m), Units(b, m), Pow10(m - e));
  }

  lemma {:induction false} SumGrows(assets: seq<Asset>, e: int)
    requires forall i | 0 <= i < |assets| :: !assets[i].weight.negative && e <= assets[i].weight.exponent
    ensures Sum(assets, e) >= 0
    ensures assets != [] ==> Sum(assets[..|assets| - 1], e) <= Sum(assets, e)
  {
    if assets != [] {
      SumGrows(assets[..|assets| - 1], e);
      UnitsBound(assets[|assets| - 1].weight, e);
    }
  }

  /** The running total of the code is then the exact sum. */
  lemma {:induction false} TotalIsSum(assets: seq<Asset>, e: int)
    requires Summable(assets, e) && e <= 0
    ensures Sum(assets, e) >= 0 && Counts(Total(assets), e, Sum(assets, e))
  {
    SumGrows(assets, e);
    if assets == [] {
      NothingCounts(e);
    } else {
      var init, last := assets[..|assets| - 1], assets[|assets| - 1].weight;
      TotalIsSum(init, e);
      AddCounts(Total(init), last, e, Sum(init, e));
    }
  }

  lemma NothingCounts(e: int)
    requires e <= 0
    ensures Counts(Decimal(false, 0, 0), e, 0)
  {
    assert Units(Decimal(false, 0, 0), e) == 0 * Pow10(-e);
  }

  predicate DistinctSymbols(assets: seq<Asset>) {
    forall i, j | 0 <= i < j < |assets| :: assets[i].symbol != assets[j].symbol
  }

  /** The weights differ from 1 in sum by at most 10^-8. */
  ghost predicate SumNearOne(assets: seq<Asset>, e: int)
    requires e <= -8 && forall i | 0 <= i < |assets| :: e <= assets[i].weight.exponent
  {
    Abs(Sum(assets, e) - Pow10(-e)) <= Pow10(-8 - e)
  }

  lemma SymbolsDistinctIff(assets: seq<Asset>)
    ensures |Symbols(assets)| == |assets| <==> DistinctSymbols(assets)
  {
    SymbolCount(assets);
    forall i, j | 0 <= i < j < |assets|
      ensures SymbolOf(assets[i]) == SymbolOf(assets[j]) <==> assets[i].symbol == assets[j].symbol
    {
    }
  }

  lemma SumPasses(assets: seq<Asset>, e: int)
    requires Summable(assets, e) && e <= -8
    ensures NearOne(Total(assets)) <==> SumNearOne(assets, e)
  {
    TotalIsSum(assets, e);
    CountsNearOne(Total(assets), e, Sum(assets, e));
  }

  lemma CountsNearOne(total: Decimal, e: int, u: nat)
    requires Counts(total, e, u) && u < LIMIT && e <= -8
    ensures NearOne(total) <==> Abs(u - Pow10(-e)) <= Pow10(-8 - e)
  {
    NearOneIff(total, e);
  }

  lemma Verdict(spec: SimpleSpec, distinct: bool, near: bool)
    requires distinct == (|Symbols(spec.assets)| == |spec.assets|) && near == NearOne(Total(spec.assets))
    ensures Validate(spec) == Some(DuplicateSymbols) <==> !distinct
    ensures Validate(spec) == Some(WeightsDoNotSumToOne) <==> distinct && !near
    ensures Validate(spec) == Some(ContributionNeedsMonthly) <==>
            distinct && near && spec.recurringAmount.Some? && spec.rebalance == Once
    ensures Validate(spec) == None <==>
            distinct && near && (spec.recurringAmount.Some? ==> spec.rebalance == Monthly)
  {
  }

  /** A spec is accepted if and only if no symbol is listed twice, the weights differ
      from 1 in sum by at most 10^-8, and contributions come with monthly rebalancing.
      Of several complaints a rejected spec gets the first, in that order. */
  lemma AcceptedIff(spec: SimpleSpec, e: int)
    requires Summable(spec.assets, e) && e <= -8
    ensures Validate(spec) == None <==>
            && DistinctSymbols(spec.assets) && SumNearOne(spec.assets, e)
            && (spec.recurringAmount.Some? ==> spec.rebalance == Monthly)
    ensures Validate(spec) == Some(DuplicateSymbols) <==> !DistinctSymbols(spec.assets)
    ensures Validate(spec) == Some(WeightsDoNotSumToOne) <==>
            DistinctSymbols(spec.assets) && !SumNearOne(spec.assets, e)
  {
    SymbolsDistinctIff(spec.assets);
    SumPasses(spec.assets, e);
    Verdict(spec, DistinctSymbols(spec.assets), SumNearOne(spec.assets, e));
  }
}
