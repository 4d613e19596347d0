/**
 * The investment splitter. An order is spread over the model products with
 * non-zero weight, in model order: each product's shortfall against its
 * target under the post-order total, or pro-rata by weight when no product is
 * short; each target is grossed up for the product's fee, the gross targets
 * are scaled to the order amount and truncated to the amount precision, units
 * are derived from the market price, and minimum-investment and minimum top-up
 * breaches are flagged without changing the amount.
 */
module Investment {
  import opened Wrappers
  import opened Decimal
  import opened Portfolio
  import Models

  /** A model product taking part in the split, with its current value and
      the net amount it should receive. */
  datatype ProductAlloc = ProductAlloc(mp: ModelItem, current: real, ideal: real)

  /** The ranges the request validator guarantees: a positive order amount
      (the request handler also checks this for every goal), non-negative
      weights and fees below 1. */
  predicate InRange(g: Goal)
  {
    && g.orderAmount > 0.0
    && forall i :: 0 <= i < |g.modelPortfolioDetails| ==>
         g.modelPortfolioDetails[i].weight >= 0.0 && g.modelPortfolioDetails[i].transactionFee < 1.0
  }

  /** ticker -> current value; a later holding with the same ticker wins. */
  function HoldingsMap(hs: seq<Holding>): map<string, real>
  {
    if |hs| == 0 then map[]
    else HoldingsMap(hs[..|hs| - 1])[hs[|hs| - 1].ticker := hs[|hs| - 1].value]
  }

  /** Sum of the current values of all holdings. */
  function TotalValue(hs: seq<Holding>): real
  {
    if |hs| == 0 then 0.0 else TotalValue(hs[..|hs| - 1]) + hs[|hs| - 1].value
  }

  /** The current value of a ticker; a product that is not held has value zero. */
  function CurrentValue(m: map<string, real>, ticker: string): real
  {
    if ticker in m then m[ticker] else 0.0
  }

  /** The post-order total every shortfall is measured against. */
  function PostTotal(g: Goal): real
  {
    TotalValue(g.goalDetails) + g.orderAmount
  }

  /** How far a product is below its target under the post-order total. */
  function Shortfall(weight: real, postTotal: real, current: real): real
  {
    Max(0.0, weight * postTotal - current)
  }

  /** One allocation per model item with non-zero weight, with its shortfall target. */
  function ShortfallAllocs(mps: seq<ModelItem>, hm: map<string, real>, postTotal: real): seq<ProductAlloc>
  {
    if |mps| == 0 then []
    else
      var rest := ShortfallAllocs(mps[..|mps| - 1], hm, postTotal);
      var mp := mps[|mps| - 1];
      if mp.weight == 0.0 then rest
      else
        var current := CurrentValue(hm, mp.ticker);
        rest + [ProductAlloc(mp, current, Shortfall(mp.weight, postTotal, current))]
  }

  function Ideals(allocs: seq<ProductAlloc>): (r: seq<real>)
    ensures |r| == |allocs| && forall i :: 0 <= i < |allocs| ==> r[i] == allocs[i].ideal
  {
    seq(|allocs|, i requires 0 <= i < |allocs| => allocs[i].ideal)
  }

  function Weights(allocs: seq<ProductAlloc>): (r: seq<real>)
    ensures |r| == |allocs| && forall i :: 0 <= i < |allocs| ==> r[i] == allocs[i].mp.weight
  {
    seq(|allocs|, i requires 0 <= i < |allocs| => allocs[i].mp.weight)
  }

  /** Pro-rata by weight: every target becomes weight / totalWeight of the order. */
  function Fallback(allocs: seq<ProductAlloc>, totalWeight: real, orderAmount: real): (r: seq<ProductAlloc>)
    requires |allocs| == 0 || totalWeight != 0.0
    ensures |r| == |allocs|
    ensures forall i :: 0 <= i < |allocs| ==>
      r[i] == allocs[i].(ideal := allocs[i].mp.weight / totalWeight * orderAmount)
  {
    seq(|allocs|, i requires 0 <= i < |allocs| =>
      allocs[i].(ideal := allocs[i].mp.weight / totalWeight * orderAmount))
  }

  /** The fallback divides by the total weight of the active products. */
  predicate FallbackDefined(g: Goal)
  {
    var allocs := ShortfallAllocs(g.modelPortfolioDetails, HoldingsMap(g.goalDetails), PostTotal(g));
    Sum(Ideals(allocs)) == 0.0 ==> |allocs| == 0 || Sum(Weights(allocs)) != 0.0
  }

  /** The allocations before fee adjustment: shortfall targets, or the
      pro-rata fallback when every shortfall is zero. */
  function Targets(g: Goal): seq<ProductAlloc>
    requires FallbackDefined(g)
  {
    var allocs := ShortfallAllocs(g.modelPortfolioDetails, HoldingsMap(g.goalDetails), PostTotal(g));
    if Sum(Ideals(allocs)) == 0.0 then Fallback(allocs, Sum(Weights(allocs)), g.orderAmount) else allocs
  }

  predicate FeesBelowOne(allocs: seq<ProductAlloc>)
  {
    forall i :: 0 <= i < |allocs| ==> allocs[i].mp.transactionFee < 1.0
  }

  /** Grossing up divides by one minus each fee. */
  predicate FeesDefined(allocs: seq<ProductAlloc>)
  {
    forall i :: 0 <= i < |allocs| ==> allocs[i].mp.transactionFee != 1.0
  }

  /** The gross amount that nets `ideal` after the product's fee. */
  function FeeAdjusted(a: ProductAlloc): real
    requires a.mp.transactionFee != 1.0
  {
    a.ideal / (1.0 - a.mp.transactionFee)
  }

  function FeeAdjustedAll(allocs: seq<ProductAlloc>): (r: seq<real>)
    requires FeesDefined(allocs)
    ensures |r| == |allocs| && forall i :: 0 <= i < |allocs| ==> r[i] == FeeAdjusted(allocs[i])
  {
    seq(|allocs|, i requires 0 <= i < |allocs| => FeeAdjusted(allocs[i]))
  }

  /** Flag-and-keep: a positive purchase of a product not yet held is checked
      against the initial-investment minimums, of a held product against the
      top-up minimums. */
  function InvestmentViolation(current: real, gross: real, units: real, mp: ModelItem): Option<Models.Violation>
  {
    if gross > 0.0 then
      if current == 0.0 then
        if gross < mp.minInitialInvestmentAmt || units < mp.minInitialInvestmentUnits
        then Some(Models.MinInvestmentViolation) else None
      else
        if gross < mp.minTopupAmt || units < mp.minTopupUnits
        then Some(Models.MinTopupViolation) else None
    else None
  }

  function InvestmentDetail(a: ProductAlloc, share: real, amountPrec: nat, unitPrec: nat): Models.TransactionDetail
  {
    var gross := Truncate(share, amountPrec);
    var units := Units(gross, a.mp.marketPrice, unitPrec);
    Models.TransactionDetail(a.mp.ticker, Models.Buy, gross, units, InvestmentViolation(a.current, gross, units, a.mp))
  }

  /** The splitter never divides by zero: the decimal library panics on a
      zero divisor, so this is all the splitter demands of its input. */
  predicate Splittable(g: Goal)
  {
    && FallbackDefined(g)
    && FeesDefined(Targets(g))
    && (|Targets(g)| == 0 || Sum(FeeAdjustedAll(Targets(g))) != 0.0)
  }

  /** An in-range goal; by InRangeSplittable the second conjunct follows
      from the first. */
  predicate ValidInvestment(g: Goal)
  {
    InRange(g) && Splittable(g)
  }

  /** Each product's exact share of the order: its fee-adjusted target over
      the total fee-adjusted target, times the order amount. */
  function GoalShares(g: Goal): (r: seq<real>)
    requires Splittable(g)
    ensures |r| == |Targets(g)|
  {
    var fa := FeeAdjustedAll(Targets(g));
    Shares(fa, Sum(fa), g.orderAmount)
  }

  function InvestmentDetails(allocs: seq<ProductAlloc>, shares: seq<real>, amountPrec: nat, unitPrec: nat)
    : (r: seq<Models.TransactionDetail>)
    requires |shares| == |allocs|
    ensures |r| == |allocs|
    ensures forall i :: 0 <= i < |allocs| ==> r[i] == InvestmentDetail(allocs[i], shares[i], amountPrec, unitPrec)
  {
    seq(|allocs|, i requires 0 <= i < |allocs| => InvestmentDetail(allocs[i], shares[i], amountPrec, unitPrec))
  }

  /** The result of an investment order, as a function of the goal. */
  function Invest(g: Goal, amountPrec: nat, unitPrec: nat): Models.GoalResult
    requires Splittable(g)
  {
    Models.GoalResult(g.goalId, g.orderType, InvestmentDetails(Targets(g), GoalShares(g), amountPrec, unitPrec))
  }

  // ---------------------------------------------------------------------------
  // Lemmas
  // ---------------------------------------------------------------------------

  lemma {:induction false} ShortfallAllocsAt(mps: seq<ModelItem>, hm: map<string, real>, postTotal: real)
    ensures |ShortfallAllocs(mps, hm, postTotal)| == |ActiveItems(mps)|
    ensures forall i :: 0 <= i < |ActiveItems(mps)| ==>
      var mp := ActiveItems(mps)[i];
      ShortfallAllocs(mps, hm, postTotal)[i] ==
        ProductAlloc(mp, CurrentValue(hm, mp.ticker), Shortfall(mp.weight, postTotal, CurrentValue(hm, mp.ticker)))
  {
    if |mps| > 0 {
      ShortfallAllocsAt(mps[..|mps| - 1], hm, postTotal);
    }
  }

  /** The shortfall allocations follow the active items, with their current
      values and non-negative targets. */
  lemma ShortfallAllocsItems(mps: seq<ModelItem>, hm: map<string, real>, postTotal: real)
    ensures |ShortfallAllocs(mps, hm, postTotal)| == |ActiveItems(mps)|
    ensures forall i :: 0 <= i < |ShortfallAllocs(mps, hm, postTotal)| ==>
      var a := ShortfallAllocs(mps, hm, postTotal)[i];
      a.mp == ActiveItems(mps)[i] && a.current == CurrentValue(hm, a.mp.ticker) && a.ideal >= 0.0
  {
    ShortfallAllocsAt(mps, hm, postTotal);
  }

  lemma ShortfallWeightPositive(mps: seq<ModelItem>, hm: map<string, real>, postTotal: real)
    requires forall i :: 0 <= i < |mps| ==> mps[i].weight >= 0.0
    ensures |ShortfallAllocs(mps, hm, postTotal)| == 0 || Sum(Weights(ShortfallAllocs(mps, hm, postTotal))) > 0.0
  {
    ShortfallAllocsItems(mps, hm, postTotal);
    TotalWeightPositive(mps, ShortfallAllocs(mps, hm, postTotal));
  }

  lemma TotalWeightPositive(mps: seq<ModelItem>, allocs: seq<ProductAlloc>)
    requires forall i :: 0 <= i < |mps| ==> mps[i].weight >= 0.0
    requires |allocs| == |ActiveItems(mps)|
    requires forall i :: 0 <= i < |allocs| ==> allocs[i].mp == ActiveItems(mps)[i]
    ensures |allocs| == 0 || Sum(Weights(allocs)) > 0.0
  {
    ActiveItemsWeights(mps);
    if |allocs| > 0 {
      SumPositive(Weights(allocs));
    }
  }

  /** The shape of the targets: one per active item, with its current value,
      a non-negative net target, and (when the goal is valid) a fee below 1. */
  lemma TargetsShape(g: Goal)
    requires InRange(g) && FallbackDefined(g)
    ensures |Targets(g)| == |ActiveItems(g.modelPortfolioDetails)|
    ensures forall i :: 0 <= i < |Targets(g)| ==>
      && Targets(g)[i].mp == ActiveItems(g.modelPortfolioDetails)[i]
      && Targets(g)[i].current == CurrentValue(HoldingsMap(g.goalDetails), Targets(g)[i].mp.ticker)
      && Targets(g)[i].ideal >= 0.0
      && Targets(g)[i].mp.weight > 0.0
    ensures FeesBelowOne(Targets(g))
  {
    var mps := g.modelPortfolioDetails;
    var hm := HoldingsMap(g.goalDetails);
    var allocs := ShortfallAllocs(mps, hm, PostTotal(g));
    ShortfallAllocsItems(mps, hm, PostTotal(g));
    ActiveItemsWeights(mps);
    if Sum(Ideals(allocs)) == 0.0 {
      ShortfallWeightPositive(mps, hm, PostTotal(g));
      var tw := Sum(Weights(allocs));
      forall i | 0 <= i < |allocs| ensures allocs[i].mp.weight / tw * g.orderAmount >= 0.0 {
        DivByScale(allocs[i].mp.weight, 0.0, tw);
      }
    }
  }

  lemma TotalFeeAdjustedPositive(g: Goal)
    requires InRange(g) && FallbackDefined(g)
    ensures FeesBelowOne(Targets(g))
    ensures |Targets(g)| == 0 || Sum(FeeAdjustedAll(Targets(g))) > 0.0
    ensures forall i :: 0 <= i < |Targets(g)| ==> FeeAdjustedAll(Targets(g))[i] >= 0.0
  {
    TargetsShape(g);
    var allocs := Targets(g);
    var fa := FeeAdjustedAll(allocs);
    forall i | 0 <= i < |allocs| ensures fa[i] >= 0.0 && (allocs[i].ideal > 0.0 ==> fa[i] > 0.0) {
      DivByScale(allocs[i].ideal, 0.0, 1.0 - allocs[i].mp.transactionFee);
    }
    if |allocs| > 0 {
      var k := PositiveTarget(g);
      SumAtLeastElement(fa, k);
    }
  }

  /** Some target is positive: either a shortfall is, or the fallback gives
      every product a positive share of a positive order. */
  lemma PositiveTarget(g: Goal) returns (k: nat)
    requires InRange(g) && FallbackDefined(g)
    requires |Targets(g)| > 0
    ensures k < |Targets(g)| && Targets(g)[k].ideal > 0.0
  {
    TargetsShape(g);
    var mps := g.modelPortfolioDetails;
    var hm := HoldingsMap(g.goalDetails);
    var allocs := ShortfallAllocs(mps, hm, PostTotal(g));
    ShortfallAllocsItems(mps, hm, PostTotal(g));
    if Sum(Ideals(allocs)) == 0.0 {
      ShortfallWeightPositive(mps, hm, PostTotal(g));
      var tw := Sum(Weights(allocs));
      k := 0;
      DivByScale(allocs[0].mp.weight, 0.0, tw);
      assert allocs[0].mp.weight / tw > 0.0;
    } else {
      k := SumPositiveWitness(Ideals(allocs));
    }
  }

  /** The validator's ranges rule out every division by zero. */
  lemma InRangeSplittable(g: Goal)
    requires InRange(g)
    ensures ValidInvestment(g)
  {
    ShortfallWeightPositive(g.modelPortfolioDetails, HoldingsMap(g.goalDetails), PostTotal(g));
    TotalFeeAdjustedPositive(g);
  }

  /** Every product is already at or above its target: the fallback applies. */
  predicate AllShortfallsZero(g: Goal)
  {
    Sum(Ideals(ShortfallAllocs(g.modelPortfolioDetails, HoldingsMap(g.goalDetails), PostTotal(g)))) == 0.0
  }

  /** While some product is short, each target is that product's shortfall
      max(0, w * postTotal - current), where postTotal counts every holding
      plus the order and a product not held has current value zero. */
  lemma TargetsAreShortfalls(g: Goal)
    requires !AllShortfallsZero(g)
    ensures |Targets(g)| == |ActiveItems(g.modelPortfolioDetails)|
    ensures forall i :: 0 <= i < |Targets(g)| ==>
      var t := Targets(g)[i];
      && t.mp == ActiveItems(g.modelPortfolioDetails)[i]
      && t.current == CurrentValue(HoldingsMap(g.goalDetails), t.mp.ticker)
      && t.ideal == Shortfall(t.mp.weight, PostTotal(g), t.current)
  {
    ShortfallAllocsAt(g.modelPortfolioDetails, HoldingsMap(g.goalDetails), PostTotal(g));
  }

  /** When no product is short, each target is its weight share of the order. */
  lemma TargetsAreWeightShares(g: Goal)
    requires InRange(g) && FallbackDefined(g) && AllShortfallsZero(g)
    ensures |Targets(g)| == |ActiveItems(g.modelPortfolioDetails)|
    ensures |Targets(g)| > 0 ==> Sum(Weights(Targets(g))) > 0.0
    ensures forall i :: 0 <= i < |Targets(g)| ==>
      var t := Targets(g)[i];
      && t.mp == ActiveItems(g.modelPortfolioDetails)[i]
      && t.current == CurrentValue(HoldingsMap(g.goalDetails), t.mp.ticker)
      && t.ideal == t.mp.weight / Sum(Weights(Targets(g))) * g.orderAmount
  {
    var allocs := ShortfallAllocs(g.modelPortfolioDetails, HoldingsMap(g.goalDetails), PostTotal(g));
    ShortfallAllocsItems(g.modelPortfolioDetails, HoldingsMap(g.goalDetails), PostTotal(g));
    ShortfallWeightPositive(g.modelPortfolioDetails, HoldingsMap(g.goalDetails), PostTotal(g));
    var tw := Sum(Weights(allocs));
    var t := Fallback(allocs, tw, g.orderAmount);
    assert Targets(g) == t;
    assert Weights(t) == Weights(allocs) by {
      assert forall i :: 0 <= i < |t| ==> t[i].mp == allocs[i].mp;
    }
  }

  /** Spreading by weight over a positive total weight hands out exactly the amount. */
  lemma FallbackSum(allocs: seq<ProductAlloc>, orderAmount: real)
    requires Sum(Weights(allocs)) > 0.0
    ensures Sum(Ideals(Fallback(allocs, Sum(Weights(allocs)), orderAmount))) == orderAmount
  {
    var tw := Sum(Weights(allocs));
    var f := Fallback(allocs, tw, orderAmount);
    assert forall i :: 0 <= i < |allocs| ==> Ideals(f)[i] == Weights(allocs)[i] / tw * orderAmount;
    SumScaled(Weights(allocs), Ideals(f), tw, orderAmount);
    ScaleByOne(tw, orderAmount);
  }

  /** The pro-rata fallback hands out exactly the order amount. */
  lemma FallbackSumsToOrder(g: Goal)
    requires InRange(g) && FallbackDefined(g) && AllShortfallsZero(g)
    requires |ActiveItems(g.modelPortfolioDetails)| > 0
    ensures Sum(Ideals(Targets(g))) == g.orderAmount
  {
    var allocs := ShortfallAllocs(g.modelPortfolioDetails, HoldingsMap(g.goalDetails), PostTotal(g));
    ShortfallAllocsItems(g.modelPortfolioDetails, HoldingsMap(g.goalDetails), PostTotal(g));
    ShortfallWeightPositive(g.modelPortfolioDetails, HoldingsMap(g.goalDetails), PostTotal(g));
    assert Targets(g) == Fallback(allocs, Sum(Weights(allocs)), g.orderAmount);
    FallbackSum(allocs, g.orderAmount);
  }

  /** A product not held at all has current value zero. */
  lemma {:induction false} HoldingsMapKeys(hs: seq<Holding>, ticker: string)
    ensures ticker in HoldingsMap(hs) <==> exists i :: 0 <= i < |hs| && hs[i].ticker == ticker
  {
    if |hs| > 0 {
      var n := |hs| - 1;
      HoldingsMapKeys(hs[..n], ticker);
      assert forall i :: 0 <= i < n ==> hs[..n][i] == hs[i];
    }
  }

  predicate UniqueTickers(hs: seq<Holding>)
  {
    forall i, j :: 0 <= i < j < |hs| ==> hs[i].ticker != hs[j].ticker
  }

  /** With unique tickers, a holding's current value is its own value. */
  lemma {:induction false} HoldingsMapValue(hs: seq<Holding>, k: nat)
    requires UniqueTickers(hs) && k < |hs|
    ensures CurrentValue(HoldingsMap(hs), hs[k].ticker) == hs[k].value
  {
    var n := |hs| - 1;
    if k < n {
      HoldingsMapValue(hs[..n], k);
    }
  }

  /** Raising one holding's value leaves every other ticker's current value alone. */
  lemma {:induction false} HoldingsMapUpdate(hs: seq<Holding>, k: nat, v: real, ticker: string)
    requires k < |hs| && ticker != hs[k].ticker
    ensures CurrentValue(HoldingsMap(hs[k := hs[k].(value := v)]), ticker) == CurrentValue(HoldingsMap(hs), ticker)
  {
    var n := |hs| - 1;
    var hs' := hs[k := hs[k].(value := v)];
    if k < n {
      assert hs'[..n] == hs[..n][k := hs[k].(value := v)];
      HoldingsMapUpdate(hs[..n], k, v, ticker);
    } else {
      assert hs'[..n] == hs[..n];
    }
  }

  lemma {:induction false} TotalValueUpdate(hs: seq<Holding>, k: nat, v: real)
    requires k < |hs|
    ensures TotalValue(hs[k := hs[k].(value := v)]) == TotalValue(hs) - hs[k].value + v
  {
    var n := |hs| - 1;
    var hs' := hs[k := hs[k].(value := v)];
    if k < n {
      assert hs'[..n] == hs[..n][k := hs[k].(value := v)];
      TotalValueUpdate(hs[..n], k, v);
    } else {
      assert hs'[..n] == hs[..n];
    }
  }

  /** Raising a product's own value by delta also raises the post-order total
      by delta, so with a weight of at most 1 its shortfall cannot grow. */
  lemma ShortfallNonIncreasing(weight: real, postTotal: real, current: real, delta: real)
    requires 0.0 <= weight <= 1.0 && delta >= 0.0
    ensures Shortfall(weight, postTotal + delta, current + delta) <= Shortfall(weight, postTotal, current)
  {
    assert weight * (postTotal + delta) - (current + delta) == weight * postTotal - current - (1.0 - weight) * delta;
    assert (1.0 - weight) * delta >= 0.0;
  }

  /** The goal-level statement: in a goal with unique tickers, raising holding
      k's value by delta does not raise the shortfall of the model product with
      that ticker. */
  lemma ShortfallMonotoneInCurrent(g: Goal, k: nat, delta: real, mp: ModelItem)
    requires k < |g.goalDetails| && UniqueTickers(g.goalDetails) && delta >= 0.0
    requires mp.ticker == g.goalDetails[k].ticker && 0.0 <= mp.weight <= 1.0
    ensures var h := g.goalDetails[k];
      var g' := g.(goalDetails := g.goalDetails[k := h.(value := h.value + delta)]);
      Shortfall(mp.weight, PostTotal(g'), CurrentValue(HoldingsMap(g'.goalDetails), mp.ticker))
        <= Shortfall(mp.weight, PostTotal(g), CurrentValue(HoldingsMap(g.goalDetails), mp.ticker))
  {
    var h := g.goalDetails[k];
    var hs' := g.goalDetails[k := h.(value := h.value + delta)];
    TotalValueUpdate(g.goalDetails, k, h.value + delta);
    HoldingsMapValue(g.goalDetails, k);
    assert UniqueTickers(hs');
    HoldingsMapValue(hs', k);
    ShortfallNonIncreasing(mp.weight, PostTotal(g), h.value, delta);
  }

  /** Grossing up for a fee in [0, 1) never lowers a target. */
  lemma FeeAdjustedBounds(g: Goal)
    requires ValidInvestment(g)
    requires forall i :: 0 <= i < |g.modelPortfolioDetails| ==> g.modelPortfolioDetails[i].transactionFee >= 0.0
    ensures FeesBelowOne(Targets(g))
    ensures forall i :: 0 <= i < |Targets(g)| ==> FeeAdjustedAll(Targets(g))[i] >= Targets(g)[i].ideal >= 0.0
    ensures |Targets(g)| > 0 ==> Sum(FeeAdjustedAll(Targets(g))) > 0.0
  {
    TargetsShape(g);
    TotalFeeAdjustedPositive(g);
    ActiveItemsWeights(g.modelPortfolioDetails);
    var t := Targets(g);
    forall i | 0 <= i < |t| ensures FeeAdjusted(t[i]) >= t[i].ideal {
      var d := 1.0 - t[i].mp.transactionFee;
      assert 0.0 < d <= 1.0;
      assert t[i].ideal * d <= t[i].ideal;
      DivByScale(t[i].ideal, t[i].ideal / d, d);
      assert t[i].ideal / d * d == t[i].ideal;
    }
  }

  /** The exact shares are non-negative and sum to the order amount. */
  lemma SharesAt(g: Goal)
    requires ValidInvestment(g)
    ensures FeesBelowOne(Targets(g))
    ensures |Targets(g)| > 0 ==> Sum(FeeAdjustedAll(Targets(g))) > 0.0
    ensures forall i :: 0 <= i < |Targets(g)| ==> GoalShares(g)[i] >= 0.0
    ensures |Targets(g)| > 0 ==> Sum(GoalShares(g)) == g.orderAmount
  {
    TotalFeeAdjustedPositive(g);
    var t := Targets(g);
    var fa := FeeAdjustedAll(t);
    assert GoalShares(g) == Shares(fa, Sum(fa), g.orderAmount);
    if |fa| > 0 {
      SharesSum(fa, g.orderAmount);
    }
  }

  /** One detail's gross: its share truncated to the amount grid. */
  lemma DetailGross(a: ProductAlloc, share: real, amountPrec: nat, unitPrec: nat)
    requires share >= 0.0
    ensures TruncatedShare(InvestmentDetail(a, share, amountPrec, unitPrec).value, share, amountPrec)
  {
    TruncatedShareOf(share, amountPrec);
  }

  /** Truncating non-negative shares: each gross is on the grid and at most
      its share, and the total falls short of the shares' total by less than a
      step per share. */
  lemma GrossOfShares(allocs: seq<ProductAlloc>, shares: seq<real>, amountPrec: nat, unitPrec: nat)
    requires |shares| == |allocs| && forall i :: 0 <= i < |shares| ==> shares[i] >= 0.0
    ensures var ds := InvestmentDetails(allocs, shares, amountPrec, unitPrec);
      && (forall i :: 0 <= i < |ds| ==> 0.0 <= ds[i].value <= shares[i] && OnGrid(ds[i].value, amountPrec))
      && Sum(Models.Amounts(ds)) <= Sum(shares)
      && (|ds| > 0 ==> ShortByLessThanSteps(Sum(shares), Sum(Models.Amounts(ds)), |ds|, amountPrec))
  {
    var ds := InvestmentDetails(allocs, shares, amountPrec, unitPrec);
    var amounts := Models.Amounts(ds);
    GrossEach(allocs, shares, amountPrec, unitPrec);
    assert forall i :: 0 <= i < |shares| ==> WithinStep(amounts[i], shares[i], amountPrec);
    SumWithinSteps(shares, amounts, amountPrec);
  }

  lemma GrossEach(allocs: seq<ProductAlloc>, shares: seq<real>, amountPrec: nat, unitPrec: nat)
    requires |shares| == |allocs| && forall i :: 0 <= i < |shares| ==> shares[i] >= 0.0
    ensures var ds := InvestmentDetails(allocs, shares, amountPrec, unitPrec);
      var amounts := Models.Amounts(ds);
      && |amounts| == |shares|
      && forall i :: 0 <= i < |ds| ==> TruncatedShare(amounts[i], shares[i], amountPrec)
  {
    var ds := InvestmentDetails(allocs, shares, amountPrec, unitPrec);
    var amounts := Models.Amounts(ds);
    forall i | 0 <= i < |ds| ensures TruncatedShare(amounts[i], shares[i], amountPrec) {
      DetailGross(allocs[i], shares[i], amountPrec, unitPrec);
    }
  }

  /** Every gross amount is non-negative, on the amount grid and at most its
      exact share; together they never exceed the order and fall short of it by
      less than one step of the amount precision per product. */
  lemma GrossBounds(g: Goal, amountPrec: nat, unitPrec: nat)
    requires ValidInvestment(g)
    ensures var ds := Invest(g, amountPrec, unitPrec).transactionDetails;
      && |ds| == |GoalShares(g)|
      && (forall i :: 0 <= i < |ds| ==>
            0.0 <= ds[i].value <= GoalShares(g)[i] && OnGrid(ds[i].value, amountPrec))
      && Sum(Models.Amounts(ds)) <= g.orderAmount
      && (|ds| > 0 ==> ShortByLessThanSteps(g.orderAmount, Sum(Models.Amounts(ds)), |ds|, amountPrec))
  {
    SharesAt(g);
    var sh := GoalShares(g);
    GrossOfShares(Targets(g), sh, amountPrec, unitPrec);
    if |sh| == 0 {
      assert Models.Amounts(Invest(g, amountPrec, unitPrec).transactionDetails) == [];
    }
  }

  /** Exactly one BUY per model item with non-zero weight, in model order; the
      transaction type is the order type. */
  lemma InvestShape(g: Goal, amountPrec: nat, unitPrec: nat)
    requires Splittable(g)
    ensures var r := Invest(g, amountPrec, unitPrec);
      && r.goalId == g.goalId && r.transactionType == g.orderType
      && |r.transactionDetails| == |ActiveItems(g.modelPortfolioDetails)|
      && forall i :: 0 <= i < |r.transactionDetails| ==>
           r.transactionDetails[i].ticker == ActiveItems(g.modelPortfolioDetails)[i].ticker
           && r.transactionDetails[i].direction == Models.Buy
  {
    ShortfallAllocsItems(g.modelPortfolioDetails, HoldingsMap(g.goalDetails), PostTotal(g));
  }

  lemma DetailUnits(a: ProductAlloc, share: real, amountPrec: nat, unitPrec: nat)
    requires share >= 0.0
    ensures var d := InvestmentDetail(a, share, amountPrec, unitPrec);
      UnitsFit(d.units, d.value, a.mp.marketPrice, unitPrec)
  {
    TruncateBounds(share, amountPrec);
    UnitsBounds(Truncate(share, amountPrec), a.mp.marketPrice, unitPrec);
  }

  /** Units are the gross amount over the market price, truncated to the unit
      precision. */
  lemma UnitsRule(g: Goal, amountPrec: nat, unitPrec: nat)
    requires ValidInvestment(g)
    ensures var ds := Invest(g, amountPrec, unitPrec).transactionDetails;
      && |ds| == |Targets(g)|
      && forall i :: 0 <= i < |ds| ==> UnitsFit(ds[i].units, ds[i].value, Targets(g)[i].mp.marketPrice, unitPrec)
  {
    SharesAt(g);
    var t := Targets(g);
    var sh := GoalShares(g);
    var ds := InvestmentDetails(t, sh, amountPrec, unitPrec);
    assert Invest(g, amountPrec, unitPrec).transactionDetails == ds;
    forall i | 0 <= i < |ds| ensures UnitsFit(ds[i].units, ds[i].value, t[i].mp.marketPrice, unitPrec) {
      DetailUnits(t[i], sh[i], amountPrec, unitPrec);
    }
  }

  /** Flag-and-keep: a flag needs a positive gross; MIN_INVESTMENT_VIOLATION
      exactly when the product's current value is zero and the gross or units
      fall below the initial minimums, MIN_TOPUP_VIOLATION exactly when its
      current value is non-zero and they fall below the top-up minimums; the
      emitted amount is the truncated share whether or not a flag is raised. */
  lemma ViolationRule(g: Goal, amountPrec: nat, unitPrec: nat)
    requires Splittable(g)
    ensures var ds := Invest(g, amountPrec, unitPrec).transactionDetails;
      forall i :: 0 <= i < |ds| ==>
        var t := Targets(g)[i];
        var d := ds[i];
        && d.value == Truncate(GoalShares(g)[i], amountPrec)
        && (d.error.Some? ==> d.value > 0.0)
        && (d.error == Some(Models.MinInvestmentViolation) <==>
              t.current == 0.0 && d.value > 0.0
              && (d.value < t.mp.minInitialInvestmentAmt || d.units < t.mp.minInitialInvestmentUnits))
        && (d.error == Some(Models.MinTopupViolation) <==>
              t.current != 0.0 && d.value > 0.0
              && (d.value < t.mp.minTopupAmt || d.units < t.mp.minTopupUnits))
  {
  }

  // ---------------------------------------------------------------------------
  // The splitter
  // ---------------------------------------------------------------------------

  /** For an in-range goal every purchase and its units are non-negative,
      and the purchases add up to the order amount less strictly under one
      amount step per product. */
  lemma InvestBounds(g: Goal, amountPrec: nat, unitPrec: nat)
    requires InRange(g)
    ensures Splittable(g)
    ensures var ds := Invest(g, amountPrec, unitPrec).transactionDetails;
      && (forall i :: 0 <= i < |ds| ==> ds[i].value >= 0.0 && ds[i].units >= 0.0)
      && Sum(Models.Amounts(ds)) <= g.orderAmount
      && (|ds| > 0 ==> ShortByLessThanSteps(g.orderAmount, Sum(Models.Amounts(ds)), |ds|, amountPrec))
  {
    InRangeSplittable(g);
    GrossBounds(g, amountPrec, unitPrec);
    UnitsRule(g, amountPrec, unitPrec);
  }

  /** The holdings pass: the ticker -> value map and the total current value. */
  method CollectHoldings(hs: seq<Holding>) returns (holdingsMap: map<string, real>, vTotal: real)
    ensures holdingsMap == HoldingsMap(hs) && vTotal == TotalValue(hs)
  {
    holdingsMap, vTotal := map[], 0.0;
    var k := 0;
    while k < |hs|
      invariant 0 <= k <= |hs|
      invariant holdingsMap == HoldingsMap(hs[..k])
      invariant vTotal == TotalValue(hs[..k])
    {
      assert hs[..k + 1][..k] == hs[..k];
      holdingsMap := holdingsMap[hs[k].ticker := hs[k].value];
      vTotal := vTotal + hs[k].value;
      k := k + 1;
    }
    assert hs[..k] == hs;
  }

  /** One more model item extends the shortfall allocations by its own, unless
      its weight is zero. */
  lemma ShortfallAllocsStep(mps: seq<ModelItem>, k: nat, hm: map<string, real>, postTotal: real)
    requires k < |mps|
    ensures var mp := mps[k];
      ShortfallAllocs(mps[..k + 1], hm, postTotal) ==
        ShortfallAllocs(mps[..k], hm, postTotal)
          + if mp.weight == 0.0 then []
            else [ProductAlloc(mp, CurrentValue(hm, mp.ticker), Shortfall(mp.weight, postTotal, CurrentValue(hm, mp.ticker)))]
  {
    assert mps[..k + 1][..k] == mps[..k];
  }

  lemma AllocsAppend(allocs: seq<ProductAlloc>, a: ProductAlloc)
    ensures Sum(Ideals(allocs + [a])) == Sum(Ideals(allocs)) + a.ideal
    ensures Sum(Weights(allocs + [a])) == Sum(Weights(allocs)) + a.mp.weight
  {
    assert Ideals(allocs + [a]) == Ideals(allocs) + [a.ideal];
    assert Weights(allocs + [a]) == Weights(allocs) + [a.mp.weight];
    SumAppend(Ideals(allocs), a.ideal);
    SumAppend(Weights(allocs), a.mp.weight);
  }

  /** The model pass: a shortfall target for every product with non-zero
      weight, with the running totals of targets and weights. */
  method CollectShortfalls(mps: seq<ModelItem>, holdingsMap: map<string, real>, postTotal: real)
    returns (allocs: seq<ProductAlloc>, totalIdeal: real, totalWeight: real)
    ensures allocs == ShortfallAllocs(mps, holdingsMap, postTotal)
    ensures totalIdeal == Sum(Ideals(allocs)) && totalWeight == Sum(Weights(allocs))
  {
    allocs, totalIdeal, totalWeight := [], 0.0, 0.0;
    var k := 0;
    while k < |mps|
      invariant 0 <= k <= |mps|
      invariant allocs == ShortfallAllocs(mps[..k], holdingsMap, postTotal)
      invariant totalIdeal == Sum(Ideals(allocs)) && totalWeight == Sum(Weights(allocs))
    {
      var mp := mps[k];
      ShortfallAllocsStep(mps, k, holdingsMap, postTotal);
      if mp.weight != 0.0 {
        totalWeight := totalWeight + mp.weight;
        var currentVal := if mp.ticker in holdingsMap then holdingsMap[mp.ticker] else 0.0;
        var ideal := mp.weight * postTotal - currentVal;
        if ideal < 0.0 {
          ideal := 0.0;
        }
        var a := ProductAlloc(mp, currentVal, ideal);
        assert ideal == Shortfall(mp.weight, postTotal, currentVal);
        AllocsAppend(allocs, a);
        allocs := allocs + [a];
        totalIdeal := totalIdeal + ideal;
      }
      k := k + 1;
    }
    assert mps[..k] == mps;
  }

  /** The fallback pass: every target, in place, becomes its weight share of the order. */
  method SpreadByWeight(shortfalls: seq<ProductAlloc>, totalWeight: real, orderAmount: real)
    returns (allocs: seq<ProductAlloc>)
    requires |shortfalls| == 0 || totalWeight != 0.0
    ensures allocs == Fallback(shortfalls, totalWeight, orderAmount)
  {
    allocs := shortfalls;
    var k := 0;
    while k < |allocs|
      invariant 0 <= k <= |allocs| == |shortfalls|
      invariant forall j :: 0 <= j < k ==>
        allocs[j] == shortfalls[j].(ideal := shortfalls[j].mp.weight / totalWeight * orderAmount)
      invariant forall j :: k <= j < |allocs| ==> allocs[j] == shortfalls[j]
    {
      var w := allocs[k].mp.weight;
      allocs := allocs[k := allocs[k].(ideal := w / totalWeight * orderAmount)];
      k := k + 1;
    }
  }

  /** The fee pass: each target grossed up for its fee, and their total. */
  method GrossUp(allocs: seq<ProductAlloc>) returns (feeAdjusted: array<real>, totalFeeAdjusted: real)
    requires FeesDefined(allocs)
    ensures fresh(feeAdjusted)
    ensures feeAdjusted[..] == FeeAdjustedAll(allocs) && totalFeeAdjusted == Sum(feeAdjusted[..])
  {
    feeAdjusted := new real[|allocs|];
    totalFeeAdjusted := 0.0;
    var k := 0;
    while k < |allocs|
      invariant 0 <= k <= |allocs| == feeAdjusted.Length
      invariant feeAdjusted[..k] == FeeAdjustedAll(allocs)[..k]
      invariant totalFeeAdjusted == Sum(feeAdjusted[..k])
    {
      var divisor := 1.0 - allocs[k].mp.transactionFee;
      feeAdjusted[k] := allocs[k].ideal / divisor;
      assert feeAdjusted[..k + 1][..k] == feeAdjusted[..k];
      totalFeeAdjusted := totalFeeAdjusted + feeAdjusted[k];
      k := k + 1;
    }
    assert feeAdjusted[..k] == feeAdjusted[..];
    assert FeeAdjustedAll(allocs)[..k] == FeeAdjustedAll(allocs);
  }

  /** The detail pass: scale, truncate, derive units and flag minimum breaches. */
  method ScaleAndFlag(allocs: seq<ProductAlloc>, feeAdjusted: array<real>, totalFeeAdjusted: real,
                      orderAmount: real, amountPrec: nat, unitPrec: nat)
    returns (details: seq<Models.TransactionDetail>)
    requires feeAdjusted.Length == |allocs| && (|allocs| == 0 || totalFeeAdjusted != 0.0)
    ensures details ==
      InvestmentDetails(allocs, Shares(feeAdjusted[..], totalFeeAdjusted, orderAmount), amountPrec, unitPrec)
  {
    ghost var shares := Shares(feeAdjusted[..], totalFeeAdjusted, orderAmount);
    details := [];
    var k := 0;
    while k < |allocs|
      invariant 0 <= k <= |allocs|
      invariant |details| == k
      invariant forall j :: 0 <= j < k ==> details[j] == InvestmentDetail(allocs[j], shares[j], amountPrec, unitPrec)
    {
      var a := allocs[k];
      var share := feeAdjusted[k] / totalFeeAdjusted * orderAmount;
      assert feeAdjusted[..][k] == feeAdjusted[k];
      assert share == shares[k];
      var gross := Truncate(share, amountPrec);
      var units := 0.0;
      if a.mp.marketPrice > 0.0 {
        units := Truncate(gross / a.mp.marketPrice, unitPrec);
      }
      var tradeErr: Option<Models.Violation> := None;
      if gross > 0.0 {
        if a.current == 0.0 {
          if gross < a.mp.minInitialInvestmentAmt || units < a.mp.minInitialInvestmentUnits {
            tradeErr := Some(Models.MinInvestmentViolation);
          }
        } else {
          if gross < a.mp.minTopupAmt || units < a.mp.minTopupUnits {
            tradeErr := Some(Models.MinTopupViolation);
          }
        }
      }
      assert units == Units(gross, a.mp.marketPrice, unitPrec);
      assert tradeErr == InvestmentViolation(a.current, gross, units, a.mp);
      ghost var d := Models.TransactionDetail(a.mp.ticker, Models.Buy, gross, units, tradeErr);
      assert d == InvestmentDetail(a, shares[k], amountPrec, unitPrec);
      details := details + [Models.TransactionDetail(a.mp.ticker, Models.Buy, gross, units, tradeErr)];
      k := k + 1;
    }
  }

  method ProcessInvestment(goal: Goal, amountPrec: nat, unitPrec: nat) returns (result: Models.GoalResult)
    requires Splittable(goal)
    ensures result == Invest(goal, amountPrec, unitPrec)
    ensures result.goalId == goal.goalId && result.transactionType == goal.orderType
    ensures |result.transactionDetails| == |ActiveItems(goal.modelPortfolioDetails)|
    ensures forall i :: 0 <= i < |result.transactionDetails| ==>
      && result.transactionDetails[i].ticker == ActiveItems(goal.modelPortfolioDetails)[i].ticker
      && result.transactionDetails[i].direction == Models.Buy
    ensures InRange(goal) ==>
      && (forall i :: 0 <= i < |result.transactionDetails| ==>
            result.transactionDetails[i].value >= 0.0 && result.transactionDetails[i].units >= 0.0)
      && Sum(Models.Amounts(result.transactionDetails)) <= goal.orderAmount
      && (|result.transactionDetails| > 0 ==>
            ShortByLessThanSteps(goal.orderAmount, Sum(Models.Amounts(result.transactionDetails)),
                                 |result.transactionDetails|, amountPrec))
  {
    var orderAmount := goal.orderAmount;
    var holdingsMap, vTotal := CollectHoldings(goal.goalDetails);
    var postTotal := vTotal + orderAmount;
    var allocs, totalIdeal, totalWeight := CollectShortfalls(goal.modelPortfolioDetails, holdingsMap, postTotal);
    if totalIdeal == 0.0 {
      allocs := SpreadByWeight(allocs, totalWeight, orderAmount);
      totalIdeal := orderAmount;
    }
    assert allocs == Targets(goal);
    var feeAdjusted, totalFeeAdjusted := GrossUp(allocs);
    var details := ScaleAndFlag(allocs, feeAdjusted, totalFeeAdjusted, orderAmount, amountPrec, unitPrec);
    result := Models.GoalResult(goal.goalId, goal.orderType, details);
    InvestShape(goal, amountPrec, unitPrec);
    if InRange(goal) {
      InvestBounds(goal, amountPrec, unitPrec);
    }
  }
}
