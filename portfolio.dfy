/**
 * The splitters' view of a goal: the same records with every decimal field
 * read as an exact value. A splitter ignores parse errors, so a field that is
 * empty or does not parse reads as zero.
 */
module Portfolio {
  import opened Wrappers
  import opened Decimal
  import Text
  import Models

  datatype Holding = Holding(
    ticker: string,
    units: real,
    marketPrice: real,
    value: real,
    minInitialInvestmentAmt: real,
    minInitialInvestmentUnits: real,
    minTopupAmt: real,
    minTopupUnits: real,
    minRedemptionAmt: real,
    minRedemptionUnits: real,
    minHoldingAmt: real,
    minHoldingUnits: real,
    transactionFee: real)

  datatype ModelItem = ModelItem(
    ticker: string,
    weight: real,
    marketPrice: real,
    minInitialInvestmentAmt: real,
    minInitialInvestmentUnits: real,
    minTopupAmt: real,
    minTopupUnits: real,
    minRedemptionAmt: real,
    minRedemptionUnits: real,
    minHoldingAmt: real,
    minHoldingUnits: real,
    transactionFee: real)

  datatype Goal = Goal(
    goalId: string,
    goalDetails: seq<Holding>,
    orderAmount: real,
    orderType: string,
    modelPortfolioId: string,
    modelPortfolioDetails: seq<ModelItem>)

  function DecodeHolding(h: Models.Holding): Holding
  {
    Holding(
      h.ticker,
      Text.ParseOrZero(h.units),
      Text.ParseOrZero(h.marketPrice),
      Text.ParseOrZero(h.value),
      Text.ParseOrZero(h.minInitialInvestmentAmt),
      Text.ParseOrZero(h.minInitialInvestmentUnits),
      Text.ParseOrZero(h.minTopupAmt),
      Text.ParseOrZero(h.minTopupUnits),
      Text.ParseOrZero(h.minRedemptionAmt),
      Text.ParseOrZero(h.minRedemptionUnits),
      Text.ParseOrZero(h.minHoldingAmt),
      Text.ParseOrZero(h.minHoldingUnits),
      Text.ParseOrZero(h.transactionFee))
  }

  function DecodeModelItem(mp: Models.ModelItem): ModelItem
  {
    ModelItem(
      mp.ticker,
      Text.ParseOrZero(mp.weight),
      Text.ParseOrZero(mp.marketPrice),
      Text.ParseOrZero(mp.minInitialInvestmentAmt),
      Text.ParseOrZero(mp.minInitialInvestmentUnits),
      Text.ParseOrZero(mp.minTopupAmt),
      Text.ParseOrZero(mp.minTopupUnits),
      Text.ParseOrZero(mp.minRedemptionAmt),
      Text.ParseOrZero(mp.minRedemptionUnits),
      Text.ParseOrZero(mp.minHoldingAmt),
      Text.ParseOrZero(mp.minHoldingUnits),
      Text.ParseOrZero(mp.transactionFee))
  }

  function DecodeGoal(g: Models.Goal): (r: Goal)
    ensures |r.goalDetails| == |g.goalDetails| && |r.modelPortfolioDetails| == |g.modelPortfolioDetails|
    ensures forall i :: 0 <= i < |g.goalDetails| ==> r.goalDetails[i] == DecodeHolding(g.goalDetails[i])
    ensures forall i :: 0 <= i < |g.modelPortfolioDetails| ==>
      r.modelPortfolioDetails[i] == DecodeModelItem(g.modelPortfolioDetails[i])
  {
    Goal(
      g.goalId,
      seq(|g.goalDetails|, i requires 0 <= i < |g.goalDetails| => DecodeHolding(g.goalDetails[i])),
      Text.ParseOrZero(g.orderAmount),
      g.orderType,
      g.modelPortfolioId,
      seq(|g.modelPortfolioDetails|, i requires 0 <= i < |g.modelPortfolioDetails| =>
        DecodeModelItem(g.modelPortfolioDetails[i])))
  }

  /** Units bought or sold for an amount: amount / price truncated to `unitPrec`
      places, or zero when the price is not positive. */
  function Units(amount: real, price: real, unitPrec: nat): real
  {
    if price > 0.0 then Truncate(amount / price, unitPrec) else 0.0
  }

  /** The derived units never cost more than the amount they were derived from. */
  lemma UnitsBounds(amount: real, price: real, unitPrec: nat)
    requires amount >= 0.0
    ensures Units(amount, price, unitPrec) >= 0.0
    ensures Units(amount, price, unitPrec) * price <= amount
    ensures OnGrid(Units(amount, price, unitPrec), unitPrec)
  {
    if price > 0.0 {
      var q := amount / price;
      QuotientNonNegative(amount, price);
      TruncateBounds(q, unitPrec);
      var u := Truncate(q, unitPrec);
      DivByScale(amount, 0.0, price);
      ProductMonotone(u, q, price);
    } else {
      OnGridZero(unitPrec);
    }
  }

  /** Units never negative, never worth more than the amount they buy, on the
      unit grid, and zero when there is no positive price. */
  predicate UnitsFit(units: real, value: real, price: real, unitPrec: nat)
  {
    && units >= 0.0
    && units * price <= value
    && OnGrid(units, unitPrec)
    && (price <= 0.0 ==> units == 0.0)
  }

  /** The model items with non-zero weight, in model order. */
  function ActiveItems(mps: seq<ModelItem>): seq<ModelItem>
  {
    if |mps| == 0 then []
    else
      var rest := ActiveItems(mps[..|mps| - 1]);
      if mps[|mps| - 1].weight == 0.0 then rest else rest + [mps[|mps| - 1]]
  }

  /** The positions of the model items with non-zero weight. */
  function ActiveIndices(mps: seq<ModelItem>): seq<nat>
  {
    if |mps| == 0 then []
    else
      var rest := ActiveIndices(mps[..|mps| - 1]);
      if mps[|mps| - 1].weight == 0.0 then rest else rest + [|mps| - 1]
  }

  /** The active items are exactly the model items with non-zero weight, in
      model order. */
  lemma {:induction false} ActiveItemsOrdered(mps: seq<ModelItem>)
    ensures |ActiveIndices(mps)| == |ActiveItems(mps)|
    ensures forall i :: 0 <= i < |ActiveIndices(mps)| ==>
      ActiveIndices(mps)[i] < |mps| && ActiveItems(mps)[i] == mps[ActiveIndices(mps)[i]]
    ensures forall i, j :: 0 <= i < j < |ActiveIndices(mps)| ==> ActiveIndices(mps)[i] < ActiveIndices(mps)[j]
    ensures forall j :: 0 <= j < |mps| ==> (j in ActiveIndices(mps) <==> mps[j].weight != 0.0)
  {
    if |mps| > 0 {
      var n := |mps| - 1;
      ActiveItemsOrdered(mps[..n]);
      assert forall j :: 0 <= j < n ==> mps[..n][j] == mps[j];
    }
  }

  lemma ActiveItemsWeights(mps: seq<ModelItem>)
    ensures forall i :: 0 <= i < |ActiveItems(mps)| ==>
      ActiveItems(mps)[i] in mps && ActiveItems(mps)[i].weight != 0.0
  {
    ActiveItemsOrdered(mps);
    forall i | 0 <= i < |ActiveItems(mps)|
      ensures ActiveItems(mps)[i] in mps && ActiveItems(mps)[i].weight != 0.0
    {
      var j := ActiveIndices(mps)[i];
      assert j in ActiveIndices(mps);
    }
  }
}
