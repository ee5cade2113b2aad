/** The flows that the metrics build from a run, the net present value of dated
    flows, and what a rate of zero net present value says of the run. */
module CashFlows {
  import opened Options
  import opened MoneyWeightedReturn

  /** pow(x, days) is x to the power of days/365. */
  type Power = (real, nat) -> real

  function Exp(g: real, n: nat): real {
    if n == 0 then 1.0 else g * Exp(g, n - 1)
  }

  /** The laws of powers used here: every growth x over a year is a positive growth
      per day, compounded. */
  ghost predicate PowerLaws(pow: Power, year: nat) {
    && year > 0
    && forall x: real | x > 0.0 :: Compounds(pow, x, year)
  }

  ghost predicate Compounds(pow: Power, x: real, year: nat) {
    pow(x, 1) > 0.0 && pow(x, year) == x && forall d: nat :: pow(x, d) == Exp(pow(x, 1), d)
  }

  // ----- net present value -----

  function Origin(flows: seq<CashFlow>): (day: int)
    requires flows != []
    ensures forall i | 0 <= i < |flows| :: day <= flows[i].day
    ensures exists i | 0 <= i < |flows| :: day == flows[i].day
  {
    if |flows| == 1 then flows[0].day
    else
      var rest := Origin(flows[1..]);
      if flows[0].day < rest then flows[0].day else rest
  }

  ghost predicate From(flows: seq<CashFlow>, origin: int) {
    forall i | 0 <= i < |flows| :: origin <= flows[i].day
  }

  function Discounted(flows: seq<CashFlow>, pow: Power, year: nat, growth: real, origin: int): real
    requires PowerLaws(pow, year) && growth > 0.0 && From(flows, origin)
  {
    if flows == [] then 0.0
    else Present(flows[0], pow, year, growth, origin) + Discounted(flows[1..], pow, year, growth, origin)
  }

  function Present(flow: CashFlow, pow: Power, year: nat, growth: real, origin: int): real
    requires PowerLaws(pow, year) && growth > 0.0 && origin <= flow.day
  {
    PowerPositive(pow, year, growth, flow.day - origin);
    flow.amount / pow(growth, flow.day - origin)
  }

  datatype Npv = NoFlows | Infinite | Finite(value: real)

  /** `xnpv`. */
  function Xnpv(rate: real, flows: seq<CashFlow>, pow: Power, year: nat): Npv
    requires PowerLaws(pow, year)
  {
    if flows == [] then NoFlows
    else if rate <= -1.0 then Infinite
    else Finite(Discounted(flows, pow, year, 1.0 + rate, Origin(flows)))
  }

  lemma {:induction false} ExpPositive(g: real, n: nat)
    requires g > 0.0
    ensures Exp(g, n) > 0.0
  {
    if n > 0 {
      ExpPositive(g, n - 1);
    }
  }

  lemma PowerPositive(pow: Power, year: nat, x: real, d: nat)
    requires PowerLaws(pow, year) && x > 0.0
    ensures pow(x, d) > 0.0
  {
    assert Compounds(pow, x, year);
    ExpPositive(pow(x, 1), d);
  }

  lemma {:induction false} ExpGrows(g: real, h: real, n: nat)
    requires 0.0 < g < h
    ensures 0.0 < Exp(g, n) <= Exp(h, n) && (n > 0 ==> Exp(g, n) < Exp(h, n))
  {
    if n > 0 {
      ExpGrows(g, h, n - 1);
      ProductGrows(g, h, Exp(g, n - 1), Exp(h, n - 1));
    }
  }

  lemma ProductGrows(g: real, h: real, a: real, b: real)
    requires 0.0 < g < h && 0.0 < a <= b
    ensures 0.0 < g * a < h * b
  {
    assert g * a > 0.0;
    assert h * a - g * a == (h - g) * a > 0.0;
    assert h * b - h * a == h * (b - a) >= 0.0;
  }

  lemma {:induction false} ExpOne(n: nat)
    ensures Exp(1.0, n) == 1.0
  {
    if n > 0 {
      ExpOne(n - 1);
    }
  }

  lemma {:induction false} ExpAdd(g: real, m: nat, n: nat)
    ensures Exp(g, m + n) == Exp(g, m) * Exp(g, n)
  {
    if m > 0 {
      ExpAdd(g, m - 1, n);
      assert g * (Exp(g, m - 1) * Exp(g, n)) == (g * Exp(g, m - 1)) * Exp(g, n);
    }
  }

  /** A greater growth over the year is a greater growth per day. */
  lemma DailyGrows(pow: Power, year: nat, x: real, y: real)
    requires PowerLaws(pow, year) && 0.0 < x < y
    ensures pow(x, 1) < pow(y, 1)
  {
    assert Compounds(pow, x, year) && Compounds(pow, y, year);
    var g, h := pow(x, 1), pow(y, 1);
    if h < g {
      ExpGrows(h, g, year);
    }
  }

  lemma DailyOfOne(pow: Power, year: nat)
    requires PowerLaws(pow, year)
    ensures pow(1.0, 1) == 1.0
  {
    assert Compounds(pow, 1.0, year);
    var g := pow(1.0, 1);
    ExpOne(year);
    if g < 1.0 {
      ExpGrows(g, 1.0, year);
    } else if g > 1.0 {
      ExpGrows(1.0, g, year);
    }
  }

  // ----- the flows of a run -----

  function Negated(contributions: seq<CashFlow>): (r: seq<CashFlow>)
    ensures |r| == |contributions|
    ensures forall i | 0 <= i < |r| :: r[i] == CashFlow(contributions[i].day, -contributions[i].amount)
  {
    seq(|contributions|,
        i requires 0 <= i < |contributions| => CashFlow(contributions[i].day, -contributions[i].amount))
  }

  /** Capital and contributions, as positive amounts paid in. */
  function PaidIn(start: int, capital: real, recurring: seq<CashFlow>): seq<CashFlow> {
    [CashFlow(start, capital)] + recurring
  }

  function RunFlows(start: int, end: int, capital: real, recurring: seq<CashFlow>, final: real): seq<CashFlow> {
    Negated(PaidIn(start, capital, recurring)) + [CashFlow(end, final)]
  }

  /** The `irr_flows` of the metrics. */
  method BuildFlows(start: int, end: int, capital: real, recurring: seq<CashFlow>, final: real)
    returns (flows: seq<CashFlow>)
    ensures flows == RunFlows(start, end, capital, recurring, final)
  {
    flows := [CashFlow(start, -capital)];
    for i := 0 to |recurring|
      invariant flows == [CashFlow(start, -capital)] + Negated(recurring[..i])
    {
      flows := flows + [CashFlow(recurring[i].day, -recurring[i].amount)];
    }
    assert recurring[..|recurring|] == recurring;
    flows := flows + [CashFlow(end, final)];
  }

  function Total(paid: seq<CashFlow>): real {
    if paid == [] then 0.0 else paid[0].amount + Total(paid[1..])
  }

  function Profit(paid: seq<CashFlow>, final: real): real {
    final - Total(paid)
  }

  /** What the amounts paid in have grown to on the day `end`. */
  function Owed(paid: seq<CashFlow>, g: real, end: int): real
    requires Until(paid, end)
  {
    if paid == [] then 0.0 else Grown(paid[0], g, end) + Owed(paid[1..], g, end)
  }

  function Grown(flow: CashFlow, g: real, end: int): real
    requires flow.day <= end
  {
    flow.amount * Exp(g, end - flow.day)
  }

  ghost predicate Until(paid: seq<CashFlow>, end: int) {
    forall i | 0 <= i < |paid| :: paid[i].day <= end
  }

  ghost predicate NonNegative(paid: seq<CashFlow>) {
    forall i | 0 <= i < |paid| :: paid[i].amount >= 0.0
  }

  /** Some money is paid in before the last day. */
  predicate Spread(paid: seq<CashFlow>, end: int) {
    paid != [] && (IsEarly(paid[0], end) || Spread(paid[1..], end))
  }

  predicate IsEarly(flow: CashFlow, end: int) {
    flow.amount > 0.0 && flow.day < end
  }

  lemma {:induction false} OwedGrows(paid: seq<CashFlow>, g: real, h: real, end: int)
    requires Until(paid, end) && NonNegative(paid) && 0.0 < g < h
    ensures Owed(paid, g, end) <= Owed(paid, h, end)
    ensures Spread(paid, end) ==> Owed(paid, g, end) < Owed(paid, h, end)
  {
    if paid != [] {
      OwedGrows(paid[1..], g, h, end);
      TermGrows(paid[0], g, h, end);
    }
  }

  lemma TermGrows(flow: CashFlow, g: real, h: real, end: int)
    requires flow.amount >= 0.0 && flow.day <= end && 0.0 < g < h
    ensures Grown(flow, g, end) <= Grown(flow, h, end)
    ensures IsEarly(flow, end) ==> Grown(flow, g, end) < Grown(flow, h, end)
  {
    ExpGrows(g, h, end - flow.day);
    Scale(flow.amount, Exp(g, end - flow.day), Exp(h, end - flow.day));
  }

  lemma Scale(k: real, a: real, b: real)
    requires k >= 0.0 && a <= b
    ensures k * a <= k * b
    ensures k > 0.0 && a < b ==> k * a < k * b
  {
    assert k * (b - a) >= 0.0;
    if k > 0.0 && a < b {
      assert k * (b - a) > 0.0;
    }
  }

  /** With nothing paid in earlier, growth makes no difference. */
  lemma {:induction false} OwedConstant(paid: seq<CashFlow>, g: real, end: int)
    requires Until(paid, end) && NonNegative(paid) && !Spread(paid, end)
    ensures Owed(paid, g, end) == Total(paid)
  {
    if paid != [] {
      LateTerm(paid[0], g, end);
      OwedConstant(paid[1..], g, end);
    }
  }

  lemma LateTerm(flow: CashFlow, g: real, end: int)
    requires flow.amount >= 0.0 && flow.day <= end && !IsEarly(flow, end)
    ensures Grown(flow, g, end) == flow.amount
  {
    if flow.day == end {
      assert Exp(g, 0) == 1.0;
    }
  }

  lemma {:induction false} OwedAtOne(paid: seq<CashFlow>, end: int)
    requires Until(paid, end)
    ensures Owed(paid, 1.0, end) == Total(paid)
  {
    if paid != [] {
      ExpOne(end - paid[0].day);
      OwedAtOne(paid[1..], end);
    }
  }

  // ----- present value and future value -----

  lemma DiscountTerm(pow: Power, year: nat, growth: real, flow: CashFlow, origin: int, end: int)
    requires PowerLaws(pow, year) && growth > 0.0 && origin <= flow.day <= end
    ensures Present(flow, pow, year, growth, origin) * Exp(pow(growth, 1), end - origin)
        == Grown(flow, pow(growth, 1), end)
  {
    PowerPositive(pow, year, growth, flow.day - origin);
    assert Compounds(pow, growth, year);
    var g := pow(growth, 1);
    ExpAdd(g, flow.day - origin, end - flow.day);
    Cancel(flow.amount, Exp(g, flow.day - origin), Exp(g, end - flow.day));
  }

  lemma Cancel(amount: real, p: real, q: real)
    requires p > 0.0
    ensures amount / p * (p * q) == amount * q
  {
    assert amount / p * p == amount;
    assert amount / p * (p * q) == (amount / p * p) * q;
  }

  lemma {:induction false} DiscountedAppend(a: seq<CashFlow>, last: CashFlow, pow: Power, year: nat, growth: real,
                                            origin: int)
    requires PowerLaws(pow, year) && growth > 0.0 && From(a + [last], origin)
    ensures From(a, origin) && last.day >= origin
    ensures Discounted(a + [last], pow, year, growth, origin)
         == Discounted(a, pow, year, growth, origin) + Present(last, pow, year, growth, origin)
  {
    assert (a + [last])[|a|] == last;
    assert From(a, origin) by {
      assert forall i | 0 <= i < |a| :: (a + [last])[i] == a[i];
    }
    if a == [] {
      assert a + [last] == [last];
    } else {
      assert (a + [last])[1..] == a[1..] + [last];
      DiscountedAppend(a[1..], last, pow, year, growth, origin);
    }
  }

  lemma {:induction false} PaidGrown(paid: seq<CashFlow>, pow: Power, year: nat, growth: real, origin: int, end: int)
    requires PowerLaws(pow, year) && growth > 0.0 && From(Negated(paid), origin) && Until(paid, end) && origin <= end
    ensures Discounted(Negated(paid), pow, year, growth, origin) * Exp(pow(growth, 1), end - origin)
         == -Owed(paid, pow(growth, 1), end)
  {
    if paid != [] {
      var flows := Negated(paid);
      assert flows[1..] == Negated(paid[1..]);
      PaidGrown(paid[1..], pow, year, growth, origin, end);
      FirstGrown(paid[0], flows[0], pow, year, growth, origin, end);
      Distribute(Present(flows[0], pow, year, growth, origin), Discounted(flows[1..], pow, year, growth, origin),
                 Exp(pow(growth, 1), end - origin));
    }
  }

  lemma FirstGrown(paid: CashFlow, flow: CashFlow, pow: Power, year: nat, growth: real, origin: int, end: int)
    requires PowerLaws(pow, year) && growth > 0.0 && origin <= flow.day <= end
    requires flow == CashFlow(paid.day, -paid.amount)
    ensures Present(flow, pow, year, growth, origin) * Exp(pow(growth, 1), end - origin)
         == -Grown(paid, pow(growth, 1), end)
  {
    DiscountTerm(pow, year, growth, flow, origin, end);
    GrownNegated(paid, pow(growth, 1), end);
  }

  /** The present value, grown to the last day, is the final value less what the
      amounts paid in would have grown to. */
  lemma FutureValue(paid: seq<CashFlow>, end: int, final: real, pow: Power, year: nat, growth: real, origin: int)
    requires PowerLaws(pow, year) && growth > 0.0 && Until(paid, end)
    requires From(Negated(paid) + [CashFlow(end, final)], origin)
    ensures origin <= end
    ensures Discounted(Negated(paid) + [CashFlow(end, final)], pow, year, growth, origin) * Exp(pow(growth, 1),
                                                                                                end - origin)
         == final - Owed(paid, pow(growth, 1), end)
  {
    var last := CashFlow(end, final);
    DiscountedAppend(Negated(paid), last, pow, year, growth, origin);
    PaidGrown(paid, pow, year, growth, origin, end);
    DiscountTerm(pow, year, growth, last, origin, end);
    Distribute(Discounted(Negated(paid), pow, year, growth, origin), Present(last, pow, year, growth, origin),
               Exp(pow(growth, 1), end - origin));
    assert Exp(pow(growth, 1), 0) == 1.0;
  }

  lemma GrownNegated(flow: CashFlow, g: real, end: int)
    requires flow.day <= end
    ensures Grown(CashFlow(flow.day, -flow.amount), g, end) == -Grown(flow, g, end)
  {
  }

  lemma Distribute(a: real, b: real, e: real)
    ensures (a + b) * e == a * e + b * e
  {
  }

  // ----- rates of zero net present value -----

  /** The runs the metrics see: positive capital, contributions that are not
      withdrawals, and nothing paid in after the final value is taken. */
  ghost predicate IsRun(start: int, end: int, capital: real, recurring: seq<CashFlow>) {
    capital > 0.0 && NonNegative(recurring) && Until(recurring, end) && start <= end
  }

  ghost predicate ZeroRate(rate: real, flows: seq<CashFlow>, pow: Power, year: nat)
    requires PowerLaws(pow, year)
  {
    rate > -1.0 && Xnpv(rate, flows, pow, year) == Finite(0.0)
  }

  function DailyGrowth(pow: Power, rate: real): real {
    pow(1.0 + rate, 1)
  }

  /** The sign of the net present value is the sign of the surplus: the final
      value less what the amounts paid in would have grown to. */
  lemma NpvSign(start: int, end: int, capital: real, recurring: seq<CashFlow>, final: real, pow: Power, year: nat,
                rate: real)
    requires PowerLaws(pow, year) && IsRun(start, end, capital, recurring) && rate > -1.0
    ensures
      var npv := Xnpv(rate, RunFlows(start, end, capital, recurring, final), pow, year);
      var surplus := final - Owed(PaidIn(start, capital, recurring), DailyGrowth(pow, rate), end);
      npv.Finite? && (npv.value > 0.0 <==> surplus > 0.0) && (npv.value < 0.0 <==> surplus < 0.0)
  {
    var paid := PaidIn(start, capital, recurring);
    var flows := RunFlows(start, end, capital, recurring, final);
    FutureValue(paid, end, final, pow, year, 1.0 + rate, Origin(flows));
    var g := DailyGrowth(pow, rate);
    assert Compounds(pow, 1.0 + rate, year);
    ExpPositive(g, end - Origin(flows));
    SignOfProduct(Discounted(flows, pow, year, 1.0 + rate, Origin(flows)), Exp(g, end - Origin(flows)));
  }

  lemma SignOfProduct(v: real, e: real)
    requires e > 0.0
    ensures (v * e > 0.0 <==> v > 0.0) && (v * e < 0.0 <==> v < 0.0)
  {
    if v > 0.0 {
      assert v * e > 0.0;
    } else if v < 0.0 {
      assert -v * e > 0.0;
    }
  }

  /** At rate 0 the net present value is the investment profit. */
  lemma NpvAtZero(flows: seq<CashFlow>, pow: Power, year: nat)
    requires PowerLaws(pow, year) && flows != []
    ensures Xnpv(0.0, flows, pow, year) == Finite(Total(flows))
  {
    DiscountedAtOne(flows, pow, year, Origin(flows));
  }

  lemma {:induction false} DiscountedAtOne(flows: seq<CashFlow>, pow: Power, year: nat, origin: int)
    requires PowerLaws(pow, year) && From(flows, origin)
    ensures Discounted(flows, pow, year, 1.0, origin) == Total(flows)
  {
    if flows != [] {
      DailyOfOne(pow, year);
      assert Compounds(pow, 1.0, year);
      ExpOne(flows[0].day - origin);
      DiscountedAtOne(flows[1..], pow, year, origin);
    }
  }

  lemma {:induction false} TotalOfRun(paid: seq<CashFlow>, end: int, final: real)
    ensures Total(Negated(paid) + [CashFlow(end, final)]) == Profit(paid, final)
  {
    var flows := Negated(paid) + [CashFlow(end, final)];
    if paid != [] {
      assert flows[1..] == Negated(paid[1..]) + [CashFlow(end, final)];
      assert flows[0].amount == -paid[0].amount;
      TotalOfRun(paid[1..], end, final);
    }
  }

  /** A greater rate makes what was paid in grow to more. */
  lemma OwedByRate(start: int, end: int, capital: real, recurring: seq<CashFlow>, pow: Power, year: nat, r: real,
                   s: real)
    requires PowerLaws(pow, year) && IsRun(start, end, capital, recurring) && -1.0 < r < s
    ensures
      var paid := PaidIn(start, capital, recurring);
      Spread(paid, end) ==> Owed(paid, DailyGrowth(pow, r), end) < Owed(paid, DailyGrowth(pow, s), end)
  {
    DailyGrows(pow, year, 1.0 + r, 1.0 + s);
    assert Compounds(pow, 1.0 + r, year);
    OwedGrows(PaidIn(start, capital, recurring), DailyGrowth(pow, r), DailyGrowth(pow, s), end);
  }

  /** Around a zero rate the net present value falls through zero. */
  lemma NpvCrosses(start: int, end: int, capital: real, recurring: seq<CashFlow>, final: real, pow: Power, year: nat,
                   root: real, rate: real)
    requires PowerLaws(pow, year) && IsRun(start, end, capital, recurring)
        && Spread(PaidIn(start, capital, recurring), end)
    requires ZeroRate(root, RunFlows(start, end, capital, recurring, final), pow, year) && rate > -1.0
    ensures
      var npv := Xnpv(rate, RunFlows(start, end, capital, recurring, final), pow, year);
      npv.Finite? && (npv.value > 0.0 <==> rate < root) && (npv.value < 0.0 <==> rate > root)
  {
    NpvSign(start, end, capital, recurring, final, pow, year, root);
    NpvSign(start, end, capital, recurring, final, pow, year, rate);
    if rate < root {
      OwedByRate(start, end, capital, recurring, pow, year, rate, root);
    } else if rate > root {
      OwedByRate(start, end, capital, recurring, pow, year, root, rate);
    }
  }

  /** There is at most one zero rate, unless nothing was paid in before the last
      day and the profit is zero: then every rate is one. */
  lemma ZeroRateUniqueIff(start: int, end: int, capital: real, recurring: seq<CashFlow>, final: real, pow: Power,
                          year: nat)
    requires PowerLaws(pow, year) && IsRun(start, end, capital, recurring)
    ensures
      var flows := RunFlows(start, end, capital, recurring, final);
      var paid := PaidIn(start, capital, recurring);
      Spread(paid, end) || Profit(paid, final) != 0.0 <==>
      forall r, s | ZeroRate(r, flows, pow, year) && ZeroRate(s, flows, pow, year) :: r == s
  {
    var flows := RunFlows(start, end, capital, recurring, final);
    var paid := PaidIn(start, capital, recurring);
    if Spread(paid, end) {
      forall r, s | ZeroRate(r, flows, pow, year) && ZeroRate(s, flows, pow, year) ensures r == s {
        NpvCrosses(start, end, capital, recurring, final, pow, year, r, s);
      }
    } else {
      forall r: real | r > -1.0 ensures ZeroRate(r, flows, pow, year) <==> Profit(paid, final) == 0.0 {
        NpvSign(start, end, capital, recurring, final, pow, year, r);
        OwedConstant(paid, DailyGrowth(pow, r), end);
      }
      assert ZeroRate(0.0, flows, pow, year) <==> Profit(paid, final) == 0.0;
      assert ZeroRate(1.0, flows, pow, year) <==> Profit(paid, final) == 0.0;
    }
  }

  /** A zero rate is positive exactly when the run made a profit. */
  lemma ZeroRateSign(start: int, end: int, capital: real, recurring: seq<CashFlow>, final: real, pow: Power,
                     year: nat, root: real)
    requires PowerLaws(pow, year) && IsRun(start, end, capital, recurring)
        && Spread(PaidIn(start, capital, recurring), end)
    requires ZeroRate(root, RunFlows(start, end, capital, recurring, final), pow, year)
    ensures root > 0.0 <==> Profit(PaidIn(start, capital, recurring), final) > 0.0
    ensures root < 0.0 <==> Profit(PaidIn(start, capital, recurring), final) < 0.0
  {
    var flows := RunFlows(start, end, capital, recurring, final);
    NpvCrosses(start, end, capital, recurring, final, pow, year, root, 0.0);
    NpvAtZero(flows, pow, year);
    TotalOfRun(PaidIn(start, capital, recurring), end, final);
  }

  // ----- what the search finds -----

  /** npv is the net present value of the flows, at every rate above -1. */
  ghost predicate IsNpv(npv: real -> real, flows: seq<CashFlow>, pow: Power, year: nat)
    requires PowerLaws(pow, year)
  {
    forall rate: real | rate > -1.0 :: Xnpv(rate, flows, pow, year) == Finite(npv(rate))
  }

  ghost predicate CrossesAt(npv: real -> real, root: real) {
    forall rate: real | rate > -1.0 :: (npv(rate) > 0.0 <==> rate < root) && (npv(rate) < 0.0 <==> rate > root)
  }

  predicate IsClose(npv: real -> real, rate: real, root: real, n: nat) {
    || -0.00000001 < npv(rate) < 0.00000001
    || (IsTight(2.0 * (rate - root), n) && IsTight(2.0 * (root - rate), n))
  }

  /** An answer of the search is a rate of nearly zero net present value, or is
      within half the width of the last bracket of the zero rate, on either side. */
  lemma AnswerIsClose(npv: real -> real, root: real, rate: real, n: nat)
    requires CrossesAt(npv, root) && Answers(npv, rate, n)
    ensures IsClose(npv, rate, root, n)
  {
    if npv(rate) <= -0.00000001 || npv(rate) >= 0.00000001 {
      var a: real, b: real :| Brackets(npv, a, b) && IsMiddle(rate, a, b) && IsTight(b - a, n);
      BracketHoldsRoot(npv, root, a, b);
      MiddleIsClose(a, b, root, rate);
      Tighter(2.0 * (rate - root), b - a, n);
      Tighter(2.0 * (root - rate), b - a, n);
    }
  }

  lemma MiddleIsClose(a: real, b: real, root: real, middle: real)
    requires a < root < b && IsMiddle(middle, a, b)
    ensures 2.0 * (middle - root) <= b - a && 2.0 * (root - middle) <= b - a
  {
  }

  lemma Tighter(narrow: real, wide: real, n: nat)
    requires narrow <= wide && IsTight(wide, n)
    ensures IsTight(narrow, n)
  {
    Scale(Pow2(n), narrow, wide);
  }

  lemma BracketHoldsRoot(npv: real -> real, root: real, a: real, b: real)
    requires CrossesAt(npv, root) && Brackets(npv, a, b)
    ensures a < root < b
  {
  }

  /** The search gives up exactly when the zero rate lies outside its range. */
  lemma NoBracketIff(npv: real -> real, root: real)
    requires CrossesAt(npv, root) && root > -1.0
    ensures NoBracket(npv) <==> root < -0.999999 || root > 524288.0
  {
    LastUpperEnd();
    forall k: nat | k < 20
      ensures npv(-0.999999) * npv(Pow2(k)) > 0.0 <==> root < -0.999999 || root > Pow2(k)
    {
      ProductSign(npv(-0.999999), npv(Pow2(k)));
    }
    forall k: nat | k < 20 ensures Pow2(k) <= Pow2(19) {
      Pow2Grows(k, 19);
    }
  }

  /** The money-weighted return of a run that has a zero rate: the search answers
      exactly when that rate is in range, and then answers it closely. */
  method RunReturn(start: int, end: int, capital: real, recurring: seq<CashFlow>, final: real,
                   pow: Power, npv: real -> real, ghost root: real)
    returns (rate: Option<real>)
    requires PowerLaws(pow, 365) && IsRun(start, end, capital, recurring)
        && Spread(PaidIn(start, capital, recurring), end)
    requires IsNpv(npv, RunFlows(start, end, capital, recurring, final), pow, 365) && final > 0.0
    requires ZeroRate(root, RunFlows(start, end, capital, recurring, final), pow, 365)
    ensures rate.None? <==> root < -0.999999 || root > 524288.0
    ensures rate.Some? ==> IsClose(npv, rate.value, root, 200)
  {
    var flows := BuildFlows(start, end, capital, recurring, final);
    ghost var year := 365;
    RunCrosses(start, end, capital, recurring, final, pow, year, npv, root);
    NoBracketIff(npv, root);
    rate := Xirr(flows, npv);
    if rate.Some? {
      AnswerIsClose(npv, root, rate.value, 200);
    }
  }

  lemma RunCrosses(start: int, end: int, capital: real, recurring: seq<CashFlow>, final: real, pow: Power, year: nat,
                   npv: real -> real, root: real)
    requires PowerLaws(pow, year) && IsRun(start, end, capital, recurring)
        && Spread(PaidIn(start, capital, recurring), end)
    requires IsNpv(npv, RunFlows(start, end, capital, recurring, final), pow, year) && final > 0.0
    requires ZeroRate(root, RunFlows(start, end, capital, recurring, final), pow, year)
    ensures CrossesAt(npv, root) && BothSigns(RunFlows(start, end, capital, recurring, final))
  {
    var flows := RunFlows(start, end, capital, recurring, final);
    assert flows[0].amount == -capital && flows[|flows| - 1].amount == final;
    forall rate: real | rate > -1.0 ensures (npv(rate) > 0.0 <==> rate < root) && (npv(rate) < 0.0 <==> rate > root) {
      NpvCrosses(start, end, capital, recurring, final, pow, year, root, rate);
      assert Xnpv(rate, flows, pow, year) == Finite(npv(rate));
    }
  }
}
