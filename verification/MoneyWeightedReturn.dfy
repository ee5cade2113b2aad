/** The money-weighted return: bracketing and bisecting the net present value of
    dated cash flows, over exact reals. */
module MoneyWeightedReturn {
  import opened Options

  datatype CashFlow = CashFlow(day: int, amount: real)

  const LOW: real := -0.999999
  const TOLERANCE: real := 0.00000001
  const DOUBLINGS: nat := 20
  const HALVINGS: nat := 200

  function Pow2(n: nat): (p: real)
    ensures p >= 1.0
  {
    if n == 0 then 1.0 else 2.0 * Pow2(n - 1)
  }

  predicate Opposite(x: real, y: real) {
    (x < 0.0 && y > 0.0) || (x > 0.0 && y < 0.0)
  }

  predicate BothSigns(flows: seq<CashFlow>) {
    && (exists i | 0 <= i < |flows| :: flows[i].amount < 0.0)
    && (exists i | 0 <= i < |flows| :: flows[i].amount > 0.0)
  }

  /** No doubling of the upper end, from 1 to 2^19, meets a sign change or a zero. */
  ghost predicate NoBracket(npv: real -> real) {
    forall k: nat | k < 20 :: npv(-0.999999) * npv(Pow2(k)) > 0.0
  }

  /** Python's `abs`. */
  function Magnitude(x: real): real {
    if x < 0.0 then -x else x
  }

  /** r is the middle of an interval, at most (2^19 + 1)/2^n wide, across which
      the net present value changes sign. */
  ghost predicate InTightBracket(npv: real -> real, r: real, n: nat) {
    exists a: real, b: real :: Brackets(npv, a, b) && IsMiddle(r, a, b) && IsTight(b - a, n)
  }

  predicate IsMiddle(r: real, a: real, b: real) {
    r == (a + b) / 2.0
  }

  predicate IsTight(width: real, n: nat) {
    width * Pow2(n) <= 524289.0
  }

  ghost predicate Brackets(npv: real -> real, a: real, b: real) {
    -0.999999 <= a < b <= 524288.0 && Opposite(npv(a), npv(b))
  }

  ghost predicate Answers(npv: real -> real, r: real, n: nat) {
    && -0.999999 <= r <= 524288.0
    && (-0.00000001 < npv(r) < 0.00000001 || InTightBracket(npv, r, n))
  }

  lemma ProductSign(x: real, y: real)
    ensures x * y < 0.0 <==> Opposite(x, y)
    ensures x * y == 0.0 <==> x == 0.0 || y == 0.0
  {
    if (x > 0.0 && y > 0.0) || (x < 0.0 && y < 0.0) {
      assert x * y > 0.0;
    } else if x > 0.0 && y < 0.0 {
      assert x * -y > 0.0;
    } else if x < 0.0 && y > 0.0 {
      assert -x * y > 0.0;
    }
  }

  lemma {:induction false} Pow2Grows(m: nat, n: nat)
    requires m <= n
    ensures Pow2(m) <= Pow2(n)
  {
    if m < n {
      Pow2Grows(m, n - 1);
    }
  }

  /** The greatest upper end that the search tries is 2^19. */
  lemma LastUpperEnd()
    ensures Pow2(19) == 524288.0
  {
    assert Pow2(4) == 16.0;
    assert Pow2(9) == 32.0 * Pow2(4);
    assert Pow2(14) == 32.0 * Pow2(9);
    assert Pow2(19) == 32.0 * Pow2(14);
  }

  /** `xirr`. */
  method Xirr(flows: seq<CashFlow>, npv: real -> real) returns (rate: Option<real>)
    ensures rate.None? <==>
            || (forall i | 0 <= i < |flows| :: flows[i].amount >= 0.0)
            || (forall i | 0 <= i < |flows| :: flows[i].amount <= 0.0)
            || NoBracket(npv)
    ensures rate.Some? ==> Answers(npv, rate.value, 200)
  {
    if !BothSigns(flows) {
      return None;
    }
    var low, high := LOW, 1.0;
    var fLow, fHigh := npv(low), npv(high);
    var found := false;
    for k := 0 to DOUBLINGS
      invariant !found && high == Pow2(k) && fHigh == npv(high) && low == LOW && fLow == npv(low)
      invariant SameSigns(npv, k)
    {
      Expand(npv, k);
      if fLow == 0.0 {
        return Some(low);
      }
      if fHigh == 0.0 {
        return Some(high);
      }
      if fLow * fHigh < 0.0 {
        found := true;
        break;
      }
      high := high * 2.0;
      fHigh := npv(high);
    }
    if !found {
      return None;
    }
    var middle := Bisect(npv, low, high, HALVINGS);
    rate := Some(middle);
  }

  /** No upper end before the kth meets a sign change or a zero. */
  ghost predicate SameSigns(npv: real -> real, k: nat) {
    forall j: nat | j < k :: npv(LOW) * npv(Pow2(j)) > 0.0
  }

  /** The cases of one step of the first loop. */
  lemma Expand(npv: real -> real, k: nat)
    requires k < DOUBLINGS && SameSigns(npv, k)
    ensures npv(LOW) == 0.0 ==> !NoBracket(npv) && forall n :: Answers(npv, LOW, n)
    ensures npv(Pow2(k)) == 0.0 ==> !NoBracket(npv) && forall n :: Answers(npv, Pow2(k), n)
    ensures npv(LOW) * npv(Pow2(k)) < 0.0 ==> !NoBracket(npv) && Brackets(npv, LOW, Pow2(k))
    ensures npv(LOW) * npv(Pow2(k)) > 0.0 ==> SameSigns(npv, k + 1)
    ensures npv(LOW) * npv(Pow2(k)) == 0.0 ==> npv(LOW) == 0.0 || npv(Pow2(k)) == 0.0
  {
    Pow2Grows(k, 19);
    LastUpperEnd();
    ProductSign(npv(LOW), npv(Pow2(k)));
  }

  /** The second loop of `xirr`. */
  method Bisect(npv: real -> real, from: real, to: real, halvings: nat) returns (middle: real)
    requires Brackets(npv, from, to) && from == LOW
    ensures Answers(npv, middle, halvings)
  {
    var low, high := from, to;
    var fLow, fHigh := npv(low), npv(high);
    for i := 0 to halvings
      invariant Brackets(npv, low, high) && fLow == npv(low) && fHigh == npv(high)
      invariant Halved(high - low, i, to - from)
    {
      var mid := (low + high) / 2.0;
      var fMid := npv(mid);
      if Magnitude(fMid) < TOLERANCE {
        return mid;
      }
      Narrow(npv, low, high);
      HalfWidth(high - low, i, to - from);
      if fLow * fMid <= 0.0 {
        high, fHigh := mid, fMid;
      } else {
        low, fLow := mid, fMid;
      }
    }
    middle := (low + high) / 2.0;
    assert IsMiddle(middle, low, high) && IsTight(high - low, halvings);
    assert InTightBracket(npv, middle, halvings);
  }

  ghost predicate Halved(width: real, i: nat, whole: real) {
    width * Pow2(i) == whole
  }

  /** Where the value at the middle is not zero, one half of the interval has the
      sign change; the test of the loop says which. */
  lemma Narrow(npv: real -> real, low: real, high: real)
    requires Brackets(npv, low, high) && npv((low + high) / 2.0) != 0.0
    ensures
      var mid := (low + high) / 2.0;
      if npv(low) * npv(mid) <= 0.0 then Brackets(npv, low, mid) else Brackets(npv, mid, high)
  {
    ProductSign(npv(low), npv((low + high) / 2.0));
  }

  lemma HalfWidth(width: real, i: nat, whole: real)
    requires Halved(width, i, whole)
    ensures Halved(width / 2.0, i + 1, whole)
  {
    assert width / 2.0 * (2.0 * Pow2(i)) == width * Pow2(i);
  }
}
