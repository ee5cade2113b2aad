/** The maximum drawdown of a price series, over exact reals. */
module Drawdown {
  import opened Options

  /** `dropna`. */
  function Present(prices: seq<Option<real>>): seq<real> {
    if prices == [] then []
    else if prices[0].None? then Present(prices[1..])
    else [prices[0].value] + Present(prices[1..])
  }

  /** `dropna` acts on each price by itself: it keeps the present ones, in order. */
  lemma {:induction false} PresentParts(a: seq<Option<real>>, b: seq<Option<real>>)
    ensures Present(a + b) == Present(a) + Present(b)
    ensures Present([]) == [] && Present([None]) == [] && forall x: real :: Present([Some(x)]) == [x]
  {
    forall x: real ensures Present([Some(x)]) == [x] {
      assert [Some(x)][1..] == [];
    }
    var missing: seq<Option<real>> := [None];
    assert missing[1..] == [];
    if a == [] {
      assert a + b == b;
    } else {
      assert (a + b)[1..] == a[1..] + b;
      PresentParts(a[1..], b);
    }
  }

  ghost predicate Positive(s: seq<real>) {
    forall i | 0 <= i < |s| :: s[i] > 0.0
  }

  function Greater(x: real, y: real): real {
    if x >= y then x else y
  }

  /** `cummax`: the greatest price so far, for every day. */
  function RunningMax(s: seq<real>): (r: seq<real>)
    ensures |r| == |s|
  {
    if |s| <= 1 then s
    else
      var before := RunningMax(s[..|s| - 1]);
      before + [Greater(before[|before| - 1], s[|s| - 1])]
  }

  function Less(x: real, high: real): real
    requires high > 0.0
  {
    x / high - 1.0
  }

  function Minimum(s: seq<real>): (m: real)
    requires s != []
    ensures m in s && forall i | 0 <= i < |s| :: m <= s[i]
  {
    if |s| == 1 then s[0]
    else
      var rest := Minimum(s[1..]);
      if s[0] < rest then s[0] else rest
  }

  /** `series / running_max - 1.0`. */
  function Drawdowns(s: seq<real>): (r: seq<real>)
    requires Positive(s)
    ensures |r| == |s|
  {
    MaxSoFar(s);
    var high := RunningMax(s);
    seq(|s|, j requires 0 <= j < |s| => Less(s[j], high[j]))
  }

  /** `max_drawdown`; None is its NaN for a series without prices. */
  function MaxDrawdown(prices: seq<Option<real>>): Option<real>
    requires Positive(Present(prices))
  {
    var s := Present(prices);
    if s == [] then None else Some(Minimum(Drawdowns(s)))
  }

  // ----- the running maximum -----

  /** high is the greatest of the first j + 1 prices. */
  ghost predicate IsMaxUpTo(s: seq<real>, j: nat, high: real)
    requires j < |s|
  {
    (exists i :: 0 <= i <= j && s[i] == high) && forall i | 0 <= i <= j :: s[i] <= high
  }

  lemma {:induction false} MaxSoFar(s: seq<real>)
    requires Positive(s)
    ensures forall j | 0 <= j < |s| :: IsMaxUpTo(s, j, RunningMax(s)[j]) && RunningMax(s)[j] > 0.0
  {
    forall j | 0 <= j < |s| ensures IsMaxUpTo(s, j, RunningMax(s)[j]) && RunningMax(s)[j] > 0.0 {
      MaxAt(s, j);
    }
  }

  lemma {:induction false} MaxAt(s: seq<real>, j: nat)
    requires j < |s|
    ensures IsMaxUpTo(s, j, RunningMax(s)[j])
    decreases |s|
  {
    if |s| == 1 {
      assert s[0] == RunningMax(s)[0];
    } else if j < |s| - 1 {
      MaxAt(s[..|s| - 1], j);
      MaxKept(s, j, RunningMax(s)[j]);
    } else {
      MaxAt(s[..|s| - 1], j - 1);
      LastMax(s, RunningMax(s[..|s| - 1])[j - 1]);
    }
  }

  lemma MaxKept(s: seq<real>, j: nat, high: real)
    requires j < |s| - 1 && IsMaxUpTo(s[..|s| - 1], j, high)
    ensures IsMaxUpTo(s, j, high)
  {
    var init := s[..|s| - 1];
    var i :| 0 <= i <= j && init[i] == high;
    assert s[i] == high;
    assert forall k | 0 <= k <= j :: s[k] == init[k];
  }

  lemma LastMax(s: seq<real>, high: real)
    requires |s| > 1 && IsMaxUpTo(s[..|s| - 1], |s| - 2, high)
    ensures IsMaxUpTo(s, |s| - 1, Greater(high, s[|s| - 1]))
  {
    var init := s[..|s| - 1];
    var i :| 0 <= i <= |s| - 2 && init[i] == high;
    assert s[i] == high;
    forall k | 0 <= k <= |s| - 1 ensures s[k] <= Greater(high, s[|s| - 1]) {
      if k < |s| - 1 {
        assert s[k] == init[k];
      }
    }
  }

  // ----- what the drawdown is -----

  /** The loss, or gain, from buying on day i and selling on day j. */
  function Change(s: seq<real>, i: nat, j: nat): real
    requires i < |s| && j < |s| && s[i] > 0.0
  {
    s[j] / s[i] - 1.0
  }

  lemma LessIsChange(s: seq<real>, i: nat, j: nat)
    requires i < |s| && j < |s| && s[i] > 0.0
    ensures Less(s[j], s[i]) == Change(s, i, j)
  {
  }

  lemma LessOrder(x: real, low: real, high: real)
    requires x > 0.0 && 0.0 < low <= high
    ensures Less(x, high) <= Less(x, low)
  {
    var a, b := x / high, x / low;
    assert a * high == x && b * low == x;
    assert a > 0.0;
    if b < a {
      assert b * low < a * low <= a * high;
    }
  }

  lemma LessSign(x: real, high: real)
    requires x > 0.0 && high > 0.0
    ensures Less(x, high) > -1.0 && (Less(x, high) >= 0.0 <==> x >= high)
    ensures x == high ==> Less(x, high) == 0.0
  {
    var a := x / high;
    assert a * high == x;
    if a >= 1.0 {
      assert a * high >= high;
    }
    if a < 1.0 {
      assert a * high < high;
    }
    if x == high {
      assert (a - 1.0) * high == 0.0;
    }
  }

  lemma ChangeSign(s: seq<real>, i: nat, j: nat)
    requires Positive(s) && i <= j < |s|
    ensures Change(s, i, j) > -1.0 && (Change(s, i, j) >= 0.0 <==> s[i] <= s[j])
    ensures i == j ==> Change(s, i, j) == 0.0
  {
    LessSign(s[j], s[i]);
  }

  /** m is the least change between a day and a later one. */
  ghost predicate LeastChange(s: seq<real>, m: real)
    requires Positive(s)
  {
    && (forall i, j | 0 <= i <= j < |s| :: m <= Change(s, i, j))
    && (exists i, j :: 0 <= i <= j < |s| && m == Change(s, i, j))
  }

  /** The running-maximum form computes the worst loss over every pair of days. */
  lemma DrawdownIsWorstLoss(prices: seq<Option<real>>)
    requires Positive(Present(prices))
    ensures MaxDrawdown(prices).None? <==> Present(prices) == []
    ensures MaxDrawdown(prices).Some? ==> LeastChange(Present(prices), MaxDrawdown(prices).value)
  {
    var s := Present(prices);
    if s != [] {
      var m := Minimum(Drawdowns(s));
      forall i, j | 0 <= i <= j < |s| ensures m <= Change(s, i, j) {
        NoGreaterLoss(s, i, j);
      }
      LossReached(s);
    }
  }

  lemma NoGreaterLoss(s: seq<real>, i: nat, j: nat)
    requires Positive(s) && i <= j < |s|
    ensures Minimum(Drawdowns(s)) <= Change(s, i, j)
  {
    MaxSoFar(s);
    var high := RunningMax(s)[j];
    assert IsMaxUpTo(s, j, high);
    LessOrder(s[j], s[i], high);
    assert Minimum(Drawdowns(s)) <= Drawdowns(s)[j];
  }

  lemma LossReached(s: seq<real>)
    requires Positive(s) && s != []
    ensures exists i, j :: 0 <= i <= j < |s| && Minimum(Drawdowns(s)) == Change(s, i, j)
  {
    var ds := Drawdowns(s);
    MaxSoFar(s);
    var j :| 0 <= j < |s| && ds[j] == Minimum(ds);
    var high := RunningMax(s)[j];
    assert IsMaxUpTo(s, j, high);
    var i :| 0 <= i <= j && s[i] == high;
    LessIsChange(s, i, j);
  }

  ghost predicate NonDecreasing(s: seq<real>) {
    forall i, j | 0 <= i <= j < |s| :: s[i] <= s[j]
  }

  /** A drawdown is a loss of less than everything, and there is none exactly when
      the prices never fall. */
  lemma DrawdownRange(prices: seq<Option<real>>)
    requires Positive(Present(prices)) && Present(prices) != []
    ensures
      var m := MaxDrawdown(prices).value;
      -1.0 < m <= 0.0 && (m == 0.0 <==> NonDecreasing(Present(prices)))
  {
    DrawdownIsWorstLoss(prices);
    LeastRange(Present(prices), MaxDrawdown(prices).value);
  }

  lemma LeastRange(s: seq<real>, m: real)
    requires Positive(s) && s != [] && LeastChange(s, m)
    ensures -1.0 < m <= 0.0 && (m == 0.0 <==> NonDecreasing(s))
  {
    ChangeSign(s, 0, 0);
    var i, j :| 0 <= i <= j < |s| && m == Change(s, i, j);
    ChangeSign(s, i, j);
    if m == 0.0 {
      forall a, b | 0 <= a <= b < |s| ensures s[a] <= s[b] {
        assert m <= Change(s, a, b);
        ChangeSign(s, a, b);
      }
    }
  }

  /** The prices in another unit. */
  function Scaled(prices: seq<Option<real>>, c: real): (r: seq<Option<real>>)
    ensures |r| == |prices|
  {
    if prices == [] then []
    else [if prices[0].None? then None else Some(Times(c, prices[0].value))] + Scaled(prices[1..], c)
  }

  lemma {:induction false} ScaledAt(prices: seq<Option<real>>, c: real, i: nat)
    requires i < |prices|
    ensures prices[i].Some? <==> Scaled(prices, c)[i].Some?
    ensures prices[i].Some? ==> Scaled(prices, c)[i].value == c * prices[i].value
  {
    if i > 0 {
      ScaledAt(prices[1..], c, i - 1);
    }
  }

  function Times(c: real, x: real): real {
    c * x
  }

  ghost predicate IsScaled(s: seq<real>, t: seq<real>, c: real) {
    |s| == |t| && forall i | 0 <= i < |s| :: t[i] == Times(c, s[i])
  }

  lemma IsScaledCons(x: real, s: seq<real>, t: seq<real>, c: real)
    requires IsScaled(s, t, c)
    ensures IsScaled([x] + s, [Times(c, x)] + t, c)
  {
    forall i | 0 <= i < |s| + 1 ensures ([Times(c, x)] + t)[i] == Times(c, ([x] + s)[i]) {
      if i > 0 {
        assert t[i - 1] == Times(c, s[i - 1]);
      }
    }
  }

  lemma {:induction false} ScaledPresent(prices: seq<Option<real>>, c: real)
    ensures IsScaled(Present(prices), Present(Scaled(prices, c)), c)
  {
    if prices != [] {
      ScaledPresent(prices[1..], c);
      if prices[0].Some? {
        IsScaledCons(prices[0].value, Present(prices[1..]), Present(Scaled(prices[1..], c)), c);
      }
    }
  }

  lemma ScaledPositive(prices: seq<Option<real>>, c: real)
    requires Positive(Present(prices)) && c > 0.0
    ensures Positive(Present(Scaled(prices, c)))
  {
    ScaledPresent(prices, c);
    var s, t := Present(prices), Present(Scaled(prices, c));
    forall i | 0 <= i < |t| ensures t[i] > 0.0 {
      assert t[i] == Times(c, s[i]);
    }
  }

  lemma ScaledLess(x: real, y: real, c: real)
    requires y > 0.0 && c > 0.0
    ensures c * y > 0.0 && Less(c * x, c * y) == Less(x, y)
  {
    var a, b := x / y, (c * x) / (c * y);
    assert c * y > 0.0;
    assert a * (c * y) == c * (a * y) == c * x;
    assert b * (c * y) == c * x;
    assert (a - b) * (c * y) == 0.0;
  }

  lemma ScaledChange(s: seq<real>, t: seq<real>, c: real, i: nat, j: nat)
    requires Positive(s) && Positive(t) && IsScaled(s, t, c) && c > 0.0 && i <= j < |s|
    ensures Change(s, i, j) == Change(t, i, j)
  {
    var x, y := s[j], s[i];
    assert t[j] == Times(c, x) && t[i] == Times(c, y);
    ScaledLess(x, y, c);
  }

  lemma ScaledLeast(s: seq<real>, t: seq<real>, c: real, m: real, n: real)
    requires Positive(s) && Positive(t) && IsScaled(s, t, c) && c > 0.0
    requires LeastChange(s, m) && LeastChange(t, n)
    ensures m == n
  {
    forall i, j | 0 <= i <= j < |s| ensures Change(s, i, j) == Change(t, i, j) {
      ScaledChange(s, t, c, i, j);
    }
    LeastUnique(s, t, m, n);
  }

  lemma LeastUnique(s: seq<real>, t: seq<real>, m: real, n: real)
    requires Positive(s) && Positive(t) && |s| == |t| && LeastChange(s, m) && LeastChange(t, n)
    requires forall i, j | 0 <= i <= j < |s| :: Change(s, i, j) == Change(t, i, j)
    ensures m == n
  {
    var i, j :| 0 <= i <= j < |s| && m == Change(s, i, j);
    var k, l :| 0 <= k <= l < |t| && n == Change(t, k, l);
    assert n <= Change(t, i, j) && m <= Change(s, k, l);
  }

  /** Quoting the prices in another unit changes nothing. */
  lemma DrawdownScaleFree(prices: seq<Option<real>>, c: real)
    requires Positive(Present(prices)) && c > 0.0
    ensures Positive(Present(Scaled(prices, c)))
    ensures MaxDrawdown(Scaled(prices, c)) == MaxDrawdown(prices)
  {
    var s, t := Present(prices), Present(Scaled(prices, c));
    ScaledPositive(prices, c);
    ScaledPresent(prices, c);
    DrawdownIsWorstLoss(prices);
    DrawdownIsWorstLoss(Scaled(prices, c));
    if s != [] {
      ScaledLeast(s, t, c, MaxDrawdown(prices).value, MaxDrawdown(Scaled(prices, c)).value);
    }
  }
}
