/**
 * Exact decimal arithmetic as the splitters use it: amounts are rationals
 * (`real`), `Truncate(x, p)` is the decimal library's `Truncate(p)` (round
 * toward zero to a multiple of 10^-p), and `Sum` adds a sequence from the left.
 */
module Decimal {

  function Pow10(n: nat): (r: nat)
    ensures r >= 1
  {
    if n == 0 then 1 else 10 * Pow10(n - 1)
  }

  /** The smallest positive amount representable with `p` decimal places. */
  function Step(p: nat): real
  {
    1.0 / Pow10(p) as real
  }

  /** `x` is a whole multiple of 1/s. */
  predicate OnScale(x: real, s: real)
  {
    (x * s).Floor as real == x * s
  }

  /** `x` has at most `p` decimal places. */
  predicate OnGrid(x: real, p: nat)
  {
    OnScale(x, Pow10(p) as real)
  }

  /** Round toward zero to a whole multiple of 1/s. */
  function TruncateAt(x: real, s: real): real
    requires s > 0.0
  {
    if x >= 0.0 then (x * s).Floor as real / s
    else -(((-x) * s).Floor as real / s)
  }

  /** Round toward zero to a multiple of 10^-p. */
  function Truncate(x: real, p: nat): real
  {
    TruncateAt(x, Pow10(p) as real)
  }

  function Max(a: real, b: real): real
  {
    if a < b then b else a
  }

  function Min(a: real, b: real): real
  {
    if a < b then a else b
  }

  lemma Pow10Add(a: nat, b: nat)
    ensures Pow10(a + b) == Pow10(a) * Pow10(b)
  {
    if a > 0 {
      Pow10Add(a - 1, b);
    }
  }

  lemma DivByScale(a: real, b: real, s: real)
    requires s > 0.0
    ensures a / s * s == a
    ensures (a * s) / s == a
    ensures a <= b * s ==> a / s <= b
    ensures a < b * s ==> a / s < b
  {
  }

  lemma QuotientNonNegative(a: real, s: real)
    requires a >= 0.0 && s > 0.0
    ensures a / s >= 0.0
  {
  }

  lemma ProductNonNegative(a: real, b: real)
    requires a >= 0.0 && b >= 0.0
    ensures a * b >= 0.0
  {
  }

  lemma ScaleByOne(t: real, m: real)
    requires t != 0.0
    ensures t / t * m == m
  {
  }

  lemma ProductMonotone(u: real, q: real, s: real)
    requires u <= q && s >= 0.0
    ensures u * s <= q * s
  {
  }

  lemma NegatedQuotient(a: real, s: real)
    requires s > 0.0
    ensures (-a) / s == -(a / s)
  {
  }

  /** A value whose scaled form is an integer is on that scale. */
  lemma IntegralOnScale(t: real, s: real, k: int)
    requires t * s == k as real
    ensures OnScale(t, s)
  {
  }

  lemma TruncateAtBounds(x: real, s: real)
    requires x >= 0.0 && s > 0.0
    ensures 0.0 <= TruncateAt(x, s) <= x
    ensures x - TruncateAt(x, s) < 1.0 / s
    ensures OnScale(TruncateAt(x, s), s)
  {
    var y := x * s;
    var k := y.Floor;
    var t := k as real / s;
    assert t == TruncateAt(x, s);
    DivByScale(k as real, x, s);
    assert t * s == k as real;
    assert (x - t) * s == y - k as real;
    assert (x - t) * s < 1.0;
    DivByScale((x - t) * s, 1.0 / s, s);
    IntegralOnScale(t, s, k);
  }

  lemma NegativeOnScale(x: real, s: real)
    requires s > 0.0 && x < 0.0 && OnScale(x, s)
    ensures -(((-x) * s).Floor as real / s) == x
  {
    var y := x * s;
    var k := y.Floor;
    assert (-x) * s == (-k) as real;
    assert ((-x) * s).Floor == -k;
    assert (-k) as real / s == -x;
  }

  lemma NonNegativeOnScale(x: real, s: real)
    requires s > 0.0 && OnScale(x, s)
    ensures (x * s).Floor as real / s == x
  {
    var k := (x * s).Floor;
    assert k as real == x * s;
    assert (x * s) / s == x;
  }

  lemma TruncateAtOnScale(x: real, s: real)
    requires s > 0.0 && OnScale(x, s)
    ensures TruncateAt(x, s) == x
  {
    if x < 0.0 {
      NegativeOnScale(x, s);
    } else {
      NonNegativeOnScale(x, s);
    }
  }

  lemma OnScaleSub(a: real, b: real, s: real)
    requires OnScale(a, s) && OnScale(b, s)
    ensures OnScale(a - b, s)
  {
    var ka, kb := (a * s).Floor, (b * s).Floor;
    assert (a - b) * s == a * s - b * s;
    assert (a - b) * s == (ka - kb) as real;
    IntegralOnScale(a - b, s, ka - kb);
  }

  /** Truncating a non-negative amount keeps it non-negative, never rounds up,
      loses less than one step and lands on the grid. */
  lemma TruncateBounds(x: real, p: nat)
    requires x >= 0.0
    ensures 0.0 <= Truncate(x, p) <= x
    ensures x - Truncate(x, p) < Step(p)
    ensures OnGrid(Truncate(x, p), p)
  {
    TruncateAtBounds(x, Pow10(p) as real);
  }

  /** Truncating a non-positive amount moves it toward zero. */
  lemma TruncateNonPositive(x: real, p: nat)
    requires x <= 0.0
    ensures x <= Truncate(x, p) <= 0.0
  {
    if x < 0.0 {
      var s := Pow10(p) as real;
      TruncateAtBounds(-x, s);
      assert TruncateAt(x, s) == -TruncateAt(-x, s);
    }
  }

  /** An amount that already has at most `p` places is left unchanged. */
  lemma TruncateOnGrid(x: real, p: nat)
    requires OnGrid(x, p)
    ensures Truncate(x, p) == x
  {
    TruncateAtOnScale(x, Pow10(p) as real);
  }

  lemma OnGridZero(p: nat)
    ensures OnGrid(0.0, p)
  {
  }

  /** The grid is closed under subtraction. */
  lemma OnGridSub(a: real, b: real, p: nat)
    requires OnGrid(a, p) && OnGrid(b, p)
    ensures OnGrid(a - b, p)
  {
    OnScaleSub(a, b, Pow10(p) as real);
  }

  lemma OnScaleTimesTen(x: real, s: real)
    requires OnScale(x, s)
    ensures OnScale(x, 10.0 * s)
  {
    var k := (x * s).Floor;
    assert x * (10.0 * s) == 10.0 * (x * s);
    IntegralOnScale(x, 10.0 * s, 10 * k);
  }

  /** A value with at most p places also has at most p + 1. */
  lemma OnGridFiner(x: real, p: nat)
    requires OnGrid(x, p)
    ensures OnGrid(x, p + 1)
  {
    var s := Pow10(p) as real;
    OnScaleTimesTen(x, s);
    assert Pow10(p + 1) as real == 10.0 * s;
  }

  /** An integer multiple of 10^-q lies on every finer grid. */
  lemma {:induction false} OnGridScaled(n: int, q: nat, p: nat)
    requires q <= p
    ensures OnGrid(n as real / Pow10(q) as real, p)
  {
    var x := n as real / Pow10(q) as real;
    if p == q {
      DivByScale(n as real, 0.0, Pow10(q) as real);
      IntegralOnScale(x, Pow10(q) as real, n);
    } else {
      OnGridScaled(n, q, p - 1);
      OnGridFiner(x, p - 1);
    }
  }

  /** `given` falls short of `total` by less than one step of the
      precision for each of the n amounts. */
  predicate ShortByLessThanSteps(total: real, given: real, n: nat, prec: nat)
  {
    total - given < n as real * Step(prec)
  }

  /** `amount` is `share` truncated down by less than one step of the grid. */
  predicate WithinStep(amount: real, share: real, p: nat)
  {
    0.0 <= amount <= share && share - amount < Step(p)
  }

  /** `amount` is `share` truncated to the grid of `p` places. */
  predicate TruncatedShare(amount: real, share: real, p: nat)
  {
    OnGrid(amount, p) && WithinStep(amount, share, p)
  }

  lemma TruncatedShareOf(share: real, p: nat)
    requires share >= 0.0
    ensures TruncatedShare(Truncate(share, p), share, p)
  {
    TruncateBounds(share, p);
  }

  /** Left-to-right sum. */
  function Sum(xs: seq<real>): real
  {
    if |xs| == 0 then 0.0 else Sum(xs[..|xs| - 1]) + xs[|xs| - 1]
  }

  lemma {:induction false} SumNonNegative(xs: seq<real>)
    requires forall i :: 0 <= i < |xs| ==> xs[i] >= 0.0
    ensures Sum(xs) >= 0.0
  {
    if |xs| > 0 {
      SumNonNegative(xs[..|xs| - 1]);
    }
  }

  lemma {:induction false} SumPositive(xs: seq<real>)
    requires |xs| > 0
    requires forall i :: 0 <= i < |xs| ==> xs[i] > 0.0
    ensures Sum(xs) > 0.0
  {
    if |xs| > 1 {
      SumPositive(xs[..|xs| - 1]);
    }
  }

  /** A sum is no larger than any bound that holds elementwise. */
  lemma {:induction false} SumMonotone(xs: seq<real>, ys: seq<real>)
    requires |xs| == |ys|
    requires forall i :: 0 <= i < |xs| ==> xs[i] <= ys[i]
    ensures Sum(xs) <= Sum(ys)
  {
    if |xs| > 0 {
      SumMonotone(xs[..|xs| - 1], ys[..|ys| - 1]);
    }
  }

  /** Scaling every term by `m / d` scales the sum by `m / d`. */
  lemma {:induction false} SumScaled(xs: seq<real>, ys: seq<real>, d: real, m: real)
    requires d != 0.0
    requires |xs| == |ys|
    requires forall i :: 0 <= i < |xs| ==> ys[i] == xs[i] / d * m
    ensures Sum(ys) == Sum(xs) / d * m
  {
    if |xs| > 0 {
      var n := |xs| - 1;
      SumScaled(xs[..n], ys[..n], d, m);
      assert Sum(ys) == Sum(ys[..n]) + ys[n];
      assert Sum(xs) == Sum(xs[..n]) + xs[n];
      ScaledAdd(Sum(xs[..n]), xs[n], d, m);
    }
  }

  /** Scaling by `m / d` distributes over a sum of two terms. */
  lemma ScaledAdd(a: real, b: real, d: real, m: real)
    requires d != 0.0
    ensures (a + b) / d * m == a / d * m + b / d * m
  {
    assert (a + b) / d == a / d + b / d;
  }

  /** Lowering each term by less than `st`, without going below zero, lowers
      the sum by less than `st` per term and keeps it non-negative. */
  lemma {:induction false} SumLowered(xs: seq<real>, ys: seq<real>, st: real)
    requires |xs| == |ys|
    requires forall i :: 0 <= i < |xs| ==> 0.0 <= ys[i] <= xs[i] && xs[i] - ys[i] < st
    ensures 0.0 <= Sum(ys) <= Sum(xs)
    ensures |xs| > 0 ==> Sum(xs) - Sum(ys) < |xs| as real * st
  {
    if |xs| > 0 {
      var n := |xs| - 1;
      SumLowered(xs[..n], ys[..n], st);
      assert n as real * st + st == (n + 1) as real * st;
    }
  }

  /** Amounts each within one step below their shares add up to at most the
      shares' total, and fall short of it by less than one step per share. */
  lemma SumWithinSteps(shares: seq<real>, amounts: seq<real>, p: nat)
    requires |shares| == |amounts|
    requires forall i :: 0 <= i < |shares| ==> WithinStep(amounts[i], shares[i], p)
    ensures Sum(amounts) <= Sum(shares)
    ensures |shares| > 0 ==> ShortByLessThanSteps(Sum(shares), Sum(amounts), |shares|, p)
  {
    SumLowered(shares, amounts, Step(p));
  }

  /** A sum of non-negative terms is at least each of its terms. */
  lemma {:induction false} SumAtLeastElement(xs: seq<real>, k: nat)
    requires k < |xs|
    requires forall i :: 0 <= i < |xs| ==> xs[i] >= 0.0
    ensures Sum(xs) >= xs[k]
  {
    var n := |xs| - 1;
    if k < n {
      SumAtLeastElement(xs[..n], k);
    } else {
      SumNonNegative(xs[..n]);
    }
  }

  lemma SumAppend(xs: seq<real>, x: real)
    ensures Sum(xs + [x]) == Sum(xs) + x
  {
    assert (xs + [x])[..|xs|] == xs;
  }

  lemma {:induction false} SumCons(x: real, xs: seq<real>)
    ensures Sum([x] + xs) == x + Sum(xs)
  {
    if |xs| > 0 {
      var n := |xs| - 1;
      assert ([x] + xs)[..|xs|] == [x] + xs[..n];
      SumCons(x, xs[..n]);
    }
  }

  /** A non-zero sum of non-negative terms has a positive term. */
  lemma {:induction false} SumPositiveWitness(xs: seq<real>) returns (k: nat)
    requires forall i :: 0 <= i < |xs| ==> xs[i] >= 0.0
    requires Sum(xs) != 0.0
    ensures k < |xs| && xs[k] > 0.0
  {
    var n := |xs| - 1;
    if xs[n] > 0.0 {
      k := n;
    } else {
      k := SumPositiveWitness(xs[..n]);
    }
  }

  lemma {:induction false} SumConcat(xs: seq<real>, ys: seq<real>)
    ensures Sum(xs + ys) == Sum(xs) + Sum(ys)
  {
    if |ys| > 0 {
      var n := |ys| - 1;
      assert (xs + ys)[..|xs| + n] == xs + ys[..n];
      assert (xs + ys)[|xs| + n] == ys[n];
      SumConcat(xs, ys[..n]);
    } else {
      assert xs + ys == xs;
    }
  }

  lemma {:induction false} SumZeros(xs: seq<real>)
    requires forall i :: 0 <= i < |xs| ==> xs[i] == 0.0
    ensures Sum(xs) == 0.0
  {
    if |xs| > 0 {
      SumZeros(xs[..|xs| - 1]);
    }
  }

  /** Each part's share of `amount`, in proportion to its size within `total`. */
  function Shares(fa: seq<real>, total: real, amount: real): (r: seq<real>)
    requires |fa| == 0 || total != 0.0
    ensures |r| == |fa| && forall i :: 0 <= i < |fa| ==> r[i] == fa[i] / total * amount
  {
    seq(|fa|, i requires 0 <= i < |fa| => fa[i] / total * amount)
  }

  /** Shares of non-negative parts over their positive total are non-negative
      and sum to the amount shared out. */
  lemma SharesSum(fa: seq<real>, amount: real)
    requires forall i :: 0 <= i < |fa| ==> fa[i] >= 0.0
    requires Sum(fa) > 0.0 && amount >= 0.0
    ensures forall i :: 0 <= i < |fa| ==> Shares(fa, Sum(fa), amount)[i] >= 0.0
    ensures Sum(Shares(fa, Sum(fa), amount)) == amount
  {
    var total := Sum(fa);
    var shares := Shares(fa, total, amount);
    forall i | 0 <= i < |fa| ensures shares[i] >= 0.0 {
      QuotientNonNegative(fa[i], total);
      ProductNonNegative(fa[i] / total, amount);
    }
    SumScaled(fa, shares, total, amount);
    ScaleByOne(total, amount);
  }
}
