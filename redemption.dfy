/**
 * The redemption splitter, in two phases. Phase 1 sells the held products the
 * model gives zero weight (or does not list), smallest value first, each in
 * full while the budget lasts and the last one partially. Phase 2 spreads
 * what is left of the budget over the model products with non-zero weight,
 * in proportion to how far each is above its target under the
 * post-redemption total. Every sale is checked against the minimum
 * redemption and, for a partial sale, the minimum remaining holding; a breach
 * is flagged and the amount is kept.
 */
module Redemption {
  import opened Wrappers
  import opened Decimal
  import opened Portfolio
  import Models

  // ---------------------------------------------------------------------------
  // Holdings and the model
  // ---------------------------------------------------------------------------

  /** ticker -> holding, for holdings with positive value; a later holding
      with the same ticker wins. */
  function PositiveHoldings(hs: seq<Holding>): map<string, Holding>
  {
    if |hs| == 0 then map[]
    else
      var m := PositiveHoldings(hs[..|hs| - 1]);
      var h := hs[|hs| - 1];
      if h.value > 0.0 then m[h.ticker := h] else m
  }

  /** The total value of the holdings with positive value. */
  function PositiveTotal(hs: seq<Holding>): real
  {
    if |hs| == 0 then 0.0
    else
      var h := hs[|hs| - 1];
      PositiveTotal(hs[..|hs| - 1]) + (if h.value > 0.0 then h.value else 0.0)
  }

  /** ticker -> model item; a later item with the same ticker wins. */
  function ModelMap(mps: seq<ModelItem>): map<string, ModelItem>
  {
    if |mps| == 0 then map[]
    else ModelMap(mps[..|mps| - 1])[mps[|mps| - 1].ticker := mps[|mps| - 1]]
  }

  predicate UniqueModelTickers(mps: seq<ModelItem>)
  {
    forall i, j :: 0 <= i < j < |mps| ==> mps[i].ticker != mps[j].ticker
  }

  /** The model weight of a ticker; a ticker the model does not list has weight zero. */
  function ModelWeight(mm: map<string, ModelItem>, ticker: string): real
  {
    if ticker in mm then mm[ticker].weight else 0.0
  }

  // ---------------------------------------------------------------------------
  // Phase 1: zero-weight and absent products
  // ---------------------------------------------------------------------------

  datatype ZwProduct = ZwProduct(holding: Holding, value: real)

  /** The held products with positive value and zero model weight, in holdings order. */
  function Candidates(hs: seq<Holding>, mm: map<string, ModelItem>): seq<ZwProduct>
  {
    if |hs| == 0 then []
    else
      var rest := Candidates(hs[..|hs| - 1], mm);
      var h := hs[|hs| - 1];
      if h.value > 0.0 && ModelWeight(mm, h.ticker) == 0.0 then rest + [ZwProduct(h, h.value)] else rest
  }

  predicate SortedByValue(zs: seq<ZwProduct>)
  {
    forall i, j :: 0 <= i < j < |zs| ==> zs[i].value <= zs[j].value
  }

  /** A phase-1 queue of a goal: its candidates, ascending by value. The
      order among products of equal value is left open, as the sort that
      produces it is not stable. */
  predicate IsQueue(g: Goal, zs: seq<ZwProduct>)
  {
    && SortedByValue(zs)
    && multiset(zs) == multiset(Candidates(g.goalDetails, ModelMap(g.modelPortfolioDetails)))
  }

  /** The redemption checks: first the minimum redemption amount and units;
      then, unless the whole holding is sold, the minimum amount and units
      that must remain held. */
  function CheckRedemptionMinimums(
    amount: real, units: real, isFull: bool,
    currentVal: real, currentUnits: real,
    minRedemptionAmt: real, minRedemptionUnits: real,
    minHoldingAmt: real, minHoldingUnits: real): (r: Option<Models.Violation>)
    ensures r == Some(Models.MinRedemptionViolation) <==> amount < minRedemptionAmt || units < minRedemptionUnits
    ensures r == Some(Models.MinHoldingViolation) <==>
      && !(amount < minRedemptionAmt || units < minRedemptionUnits)
      && !isFull
      && (currentVal - amount < minHoldingAmt || currentUnits - units < minHoldingUnits)
    ensures r.None? || r == Some(Models.MinRedemptionViolation) || r == Some(Models.MinHoldingViolation)
    ensures isFull ==> r != Some(Models.MinHoldingViolation)
  {
    if amount < minRedemptionAmt || units < minRedemptionUnits then
      Some(Models.MinRedemptionViolation)
    else if !isFull && (currentVal - amount < minHoldingAmt || currentUnits - units < minHoldingUnits) then
      Some(Models.MinHoldingViolation)
    else
      None
  }

  /** A zero-weight product is sold in full when its value fits the budget. */
  predicate FitsBudget(zp: ZwProduct, remaining: real)
  {
    !(zp.value > remaining)
  }

  function Phase1Amount(zp: ZwProduct, remaining: real, amountPrec: nat): real
  {
    Truncate(if FitsBudget(zp, remaining) then zp.value else remaining, amountPrec)
  }

  function Phase1Detail(zp: ZwProduct, remaining: real, amountPrec: nat, unitPrec: nat): Models.TransactionDetail
  {
    var h := zp.holding;
    var amount := Phase1Amount(zp, remaining, amountPrec);
    var units := Units(amount, h.marketPrice, unitPrec);
    Models.TransactionDetail(h.ticker, Models.Sell, amount, units,
      CheckRedemptionMinimums(amount, units, FitsBudget(zp, remaining), h.value, h.units,
        h.minRedemptionAmt, h.minRedemptionUnits, h.minHoldingAmt, h.minHoldingUnits))
  }

  /** The phase-1 sales of the products `zs`, in order, until the budget is zero. */
  function Phase1(zs: seq<ZwProduct>, remaining: real, amountPrec: nat, unitPrec: nat)
    : (r: seq<Models.TransactionDetail>)
    ensures |r| <= |zs|
    ensures |r| == 0 <==> |zs| == 0 || remaining == 0.0
  {
    if |zs| == 0 || remaining == 0.0 then []
    else
      [Phase1Detail(zs[0], remaining, amountPrec, unitPrec)]
        + Phase1(zs[1..], remaining - Phase1Amount(zs[0], remaining, amountPrec), amountPrec, unitPrec)
  }

  /** The budget before each phase-1 sale, in order: the order amount, then
      what each sale leaves. */
  function Phase1Budgets(zs: seq<ZwProduct>, remaining: real, amountPrec: nat): (r: seq<real>)
    ensures |r| <= |zs|
    ensures |r| == 0 <==> |zs| == 0 || remaining == 0.0
  {
    if |zs| == 0 || remaining == 0.0 then []
    else [remaining] + Phase1Budgets(zs[1..], remaining - Phase1Amount(zs[0], remaining, amountPrec), amountPrec)
  }

  /** The budget left after phase 1. */
  function Phase1Left(zs: seq<ZwProduct>, remaining: real, amountPrec: nat): real
  {
    if |zs| == 0 || remaining == 0.0 then remaining
    else Phase1Left(zs[1..], remaining - Phase1Amount(zs[0], remaining, amountPrec), amountPrec)
  }

  function Values(zs: seq<ZwProduct>): (r: seq<real>)
    ensures |r| == |zs| && forall i :: 0 <= i < |zs| ==> r[i] == zs[i].value
  {
    seq(|zs|, i requires 0 <= i < |zs| => zs[i].value)
  }

  // ---------------------------------------------------------------------------
  // Phase 2: overweight model products
  // ---------------------------------------------------------------------------

  /** A model product with non-zero weight, the positive holding of it (if
      any) and how far it is above its target. */
  datatype RedeemAlloc = RedeemAlloc(mp: ModelItem, holding: Option<Holding>, ideal: real)

  function HeldValue(hm: map<string, Holding>, ticker: string): real
  {
    if ticker in hm then hm[ticker].value else 0.0
  }

  function Held(hm: map<string, Holding>, ticker: string): Option<Holding>
  {
    if ticker in hm then Some(hm[ticker]) else None
  }

  /** How far a product is above its target under the post-redemption total. */
  function Overweight(weight: real, postTotal: real, current: real): real
  {
    Max(0.0, current - weight * postTotal)
  }

  /** One allocation per model item with non-zero weight, in model order. */
  function OverweightAllocs(mps: seq<ModelItem>, hm: map<string, Holding>, postTotal: real): seq<RedeemAlloc>
  {
    if |mps| == 0 then []
    else
      var rest := OverweightAllocs(mps[..|mps| - 1], hm, postTotal);
      var mp := mps[|mps| - 1];
      if mp.weight == 0.0 then rest
      else rest + [RedeemAlloc(mp, Held(hm, mp.ticker), Overweight(mp.weight, postTotal, HeldValue(hm, mp.ticker)))]
  }

  function Ideals(allocs: seq<RedeemAlloc>): (r: seq<real>)
    ensures |r| == |allocs| && forall i :: 0 <= i < |allocs| ==> r[i] == allocs[i].ideal
  {
    seq(|allocs|, i requires 0 <= i < |allocs| => allocs[i].ideal)
  }

  /** The exact share of the budget each allocation is to sell: its part of
      the total overweight, scaled to the budget; nothing when no product is
      overweight or no budget is left. */
  function Phase2Shares(allocs: seq<RedeemAlloc>, totalIdeal: real, remaining: real): (r: seq<real>)
    ensures |r| == |allocs|
  {
    if totalIdeal != 0.0 && remaining > 0.0 then Shares(Ideals(allocs), totalIdeal, remaining)
    else seq(|allocs|, i => 0.0)
  }

  /** Units, derived only for a positive amount at a positive price. */
  function Phase2Units(amount: real, price: real, unitPrec: nat): real
  {
    if price > 0.0 && amount > 0.0 then Truncate(amount / price, unitPrec) else 0.0
  }

  /** Only a positive sale of a held product is checked, against the model
      item's minimums; selling at least the holding's value is a full sale. */
  function Phase2Violation(a: RedeemAlloc, amount: real, units: real): Option<Models.Violation>
  {
    if amount > 0.0 && a.holding.Some? then
      var h := a.holding.value;
      CheckRedemptionMinimums(amount, units, amount >= h.value, h.value, h.units,
        a.mp.minRedemptionAmt, a.mp.minRedemptionUnits, a.mp.minHoldingAmt, a.mp.minHoldingUnits)
    else None
  }

  /** The phase-2 sale of one allocation: its share, truncated. */
  function Phase2Detail(a: RedeemAlloc, share: real, amountPrec: nat, unitPrec: nat): Models.TransactionDetail
  {
    var amount := Truncate(share, amountPrec);
    var units := Phase2Units(amount, a.mp.marketPrice, unitPrec);
    Models.TransactionDetail(a.mp.ticker, Models.Sell, amount, units, Phase2Violation(a, amount, units))
  }

  function Phase2(allocs: seq<RedeemAlloc>, shares: seq<real>, amountPrec: nat, unitPrec: nat)
    : (r: seq<Models.TransactionDetail>)
    requires |shares| == |allocs|
    ensures |r| == |allocs|
    ensures forall i :: 0 <= i < |allocs| ==> r[i] == Phase2Detail(allocs[i], shares[i], amountPrec, unitPrec)
  {
    seq(|allocs|, i requires 0 <= i < |allocs| => Phase2Detail(allocs[i], shares[i], amountPrec, unitPrec))
  }

  // ---------------------------------------------------------------------------
  // The whole redemption
  // ---------------------------------------------------------------------------

  /** The total the phase-2 targets are measured against. */
  function RedeemPostTotal(g: Goal): real
  {
    PositiveTotal(g.goalDetails) - g.orderAmount
  }

  function Overweights(g: Goal): seq<RedeemAlloc>
  {
    OverweightAllocs(g.modelPortfolioDetails, PositiveHoldings(g.goalDetails), RedeemPostTotal(g))
  }

  /** The result of a redemption order, as a function of the goal and of
      the order in which its phase-1 queue is processed. */
  function Redeem(g: Goal, queue: seq<ZwProduct>, amountPrec: nat, unitPrec: nat): Models.GoalResult
  {
    var allocs := Overweights(g);
    var shares := Phase2Shares(allocs, Sum(Ideals(allocs)), Phase1Left(queue, g.orderAmount, amountPrec));
    Models.GoalResult(g.goalId, g.orderType,
      Phase1(queue, g.orderAmount, amountPrec, unitPrec) + Phase2(allocs, shares, amountPrec, unitPrec))
  }

  // ---------------------------------------------------------------------------
  // Lemmas: holdings, the model and the phase-1 queue
  // ---------------------------------------------------------------------------

  /** The positive-holdings map keeps, under its own ticker, a holding of the
      goal with positive value, and every holding with positive value has its
      ticker in the map. */
  lemma {:induction false} PositiveHoldingsAt(hs: seq<Holding>)
    ensures forall t :: t in PositiveHoldings(hs) ==>
      && PositiveHoldings(hs)[t].ticker == t
      && PositiveHoldings(hs)[t].value > 0.0
      && PositiveHoldings(hs)[t] in hs
    ensures forall i :: 0 <= i < |hs| && hs[i].value > 0.0 ==> hs[i].ticker in PositiveHoldings(hs)
  {
    if |hs| > 0 {
      var n := |hs| - 1;
      PositiveHoldingsAt(hs[..n]);
      assert hs == hs[..n] + [hs[n]];
      assert forall i :: 0 <= i < n ==> hs[..n][i] == hs[i];
    }
  }

  /** The total of the positive holdings is non-negative and at least the
      value of each of them. */
  lemma {:induction false} PositiveTotalBounds(hs: seq<Holding>)
    ensures PositiveTotal(hs) >= 0.0
    ensures forall i :: 0 <= i < |hs| && hs[i].value > 0.0 ==> PositiveTotal(hs) >= hs[i].value
  {
    if |hs| > 0 {
      var n := |hs| - 1;
      PositiveTotalBounds(hs[..n]);
      assert forall i :: 0 <= i < n ==> hs[..n][i] == hs[i];
    }
  }

  /** The model map keeps, under its own ticker, an item of the model; every
      model ticker is in it, and with unique tickers it finds each item. */
  lemma {:induction false} ModelMapAt(mps: seq<ModelItem>)
    ensures forall t :: t in ModelMap(mps) ==> ModelMap(mps)[t] in mps && ModelMap(mps)[t].ticker == t
    ensures forall i :: 0 <= i < |mps| ==> mps[i].ticker in ModelMap(mps)
    ensures UniqueModelTickers(mps) ==> forall i :: 0 <= i < |mps| ==> ModelMap(mps)[mps[i].ticker] == mps[i]
  {
    if |mps| > 0 {
      var n := |mps| - 1;
      ModelMapAt(mps[..n]);
      assert mps == mps[..n] + [mps[n]];
      assert forall i :: 0 <= i < n ==> mps[..n][i] == mps[i];
    }
  }

  /** The candidates are exactly the holdings with positive value whose
      ticker has zero model weight (or is not in the model). */
  lemma {:induction false} CandidatesAt(hs: seq<Holding>, mm: map<string, ModelItem>)
    ensures forall k :: 0 <= k < |Candidates(hs, mm)| ==>
      var z := Candidates(hs, mm)[k];
      z.holding in hs && z.value == z.holding.value && z.value > 0.0 && ModelWeight(mm, z.holding.ticker) == 0.0
    ensures forall i :: 0 <= i < |hs| && hs[i].value > 0.0 && ModelWeight(mm, hs[i].ticker) == 0.0 ==>
      ZwProduct(hs[i], hs[i].value) in Candidates(hs, mm)
  {
    if |hs| > 0 {
      var n := |hs| - 1;
      CandidatesAt(hs[..n], mm);
      assert hs == hs[..n] + [hs[n]];
      assert forall i :: 0 <= i < n ==> hs[..n][i] == hs[i];
    }
  }

  /** A queue holds exactly the zero-weight holdings with positive value. */
  lemma QueueAt(g: Goal, zs: seq<ZwProduct>)
    requires IsQueue(g, zs)
    ensures forall k :: 0 <= k < |zs| ==>
      && zs[k].holding in g.goalDetails
      && zs[k].value == zs[k].holding.value
      && zs[k].value > 0.0
      && ModelWeight(ModelMap(g.modelPortfolioDetails), zs[k].holding.ticker) == 0.0
    ensures forall i | 0 <= i < |g.goalDetails| ::
      (g.goalDetails[i].value > 0.0 && ModelWeight(ModelMap(g.modelPortfolioDetails), g.goalDetails[i].ticker) == 0.0)
      ==> ZwProduct(g.goalDetails[i], g.goalDetails[i].value) in zs
    ensures forall i, j :: 0 <= i < j < |zs| ==> zs[i].value <= zs[j].value
  {
    var hs, mm := g.goalDetails, ModelMap(g.modelPortfolioDetails);
    var c := Candidates(hs, mm);
    CandidatesAt(hs, mm);
    forall k | 0 <= k < |zs| ensures zs[k] in c {
      assert zs[k] in multiset(zs);
    }
    forall i | 0 <= i < |hs| && hs[i].value > 0.0 && ModelWeight(mm, hs[i].ticker) == 0.0
      ensures ZwProduct(hs[i], hs[i].value) in zs
    {
      assert ZwProduct(hs[i], hs[i].value) in multiset(c);
    }
  }

  /** With the holdings' values on the amount grid, so are the queued values. */
  lemma QueueOnGrid(g: Goal, zs: seq<ZwProduct>, amountPrec: nat)
    requires IsQueue(g, zs)
    requires forall i :: 0 <= i < |g.goalDetails| ==> OnGrid(g.goalDetails[i].value, amountPrec)
    ensures ValuesOnGrid(zs, amountPrec)
  {
    QueueAt(g, zs);
    forall k | 0 <= k < |zs| ensures OnGrid(zs[k].value, amountPrec) {
      var i :| 0 <= i < |g.goalDetails| && g.goalDetails[i] == zs[k].holding;
    }
  }

  /** One phase-2 allocation per model item of non-zero weight, in model
      order, with the positive holding of it and how far it is overweight. */
  lemma {:induction false} OverweightAllocsAt(mps: seq<ModelItem>, hm: map<string, Holding>, postTotal: real)
    ensures |OverweightAllocs(mps, hm, postTotal)| == |ActiveItems(mps)|
    ensures forall j :: 0 <= j < |ActiveItems(mps)| ==>
      var mp := ActiveItems(mps)[j];
      OverweightAllocs(mps, hm, postTotal)[j] ==
        RedeemAlloc(mp, Held(hm, mp.ticker), Overweight(mp.weight, postTotal, HeldValue(hm, mp.ticker)))
  {
    if |mps| > 0 {
      OverweightAllocsAt(mps[..|mps| - 1], hm, postTotal);
    }
  }

  /** A phase-2 allocation's target is Overweight(w, vTotal - orderAmount, V),
      that is max(0, V - w * (vTotal - orderAmount)), where vTotal counts the positive holdings only and V is the value of the
      product's positive holding, or zero when there is none. */
  predicate IsOverweightTarget(a: RedeemAlloc, hs: seq<Holding>, orderAmount: real)
  {
    var hm := PositiveHoldings(hs);
    && a.ideal == Overweight(a.mp.weight, PositiveTotal(hs) - orderAmount, HeldValue(hm, a.mp.ticker))
    && a.ideal >= 0.0
    && (a.holding.Some? <==> a.mp.ticker in hm)
    && (a.holding.Some? ==>
          && a.holding.value.ticker == a.mp.ticker
          && a.holding.value.value == HeldValue(hm, a.mp.ticker) > 0.0
          && a.holding.value in hs)
  }

  lemma OverweightTargetOf(mp: ModelItem, hs: seq<Holding>, orderAmount: real)
    ensures var hm := PositiveHoldings(hs);
      IsOverweightTarget(
        RedeemAlloc(mp, Held(hm, mp.ticker), Overweight(mp.weight, PositiveTotal(hs) - orderAmount, HeldValue(hm, mp.ticker))),
        hs, orderAmount)
  {
    var hm := PositiveHoldings(hs);
    var t := mp.ticker;
    var a := RedeemAlloc(mp, Held(hm, t), Overweight(mp.weight, PositiveTotal(hs) - orderAmount, HeldValue(hm, t)));
    assert a.ideal >= 0.0;
    if t in hm {
      PositiveHoldingsAt(hs);
      var h := hm[t];
      assert h.ticker == t && h.value > 0.0 && h in hs;
      assert a.holding == Some(h);
    }
  }

  /** One phase-2 allocation per model item of non-zero weight, in model
      order, each with its overweight target. */
  lemma RedeemTargets(g: Goal)
    ensures |Overweights(g)| == |ActiveItems(g.modelPortfolioDetails)|
    ensures forall j :: 0 <= j < |Overweights(g)| ==>
      && Overweights(g)[j].mp == ActiveItems(g.modelPortfolioDetails)[j]
      && IsOverweightTarget(Overweights(g)[j], g.goalDetails, g.orderAmount)
  {
    var hm := PositiveHoldings(g.goalDetails);
    var mps := g.modelPortfolioDetails;
    OverweightAllocsAt(mps, hm, RedeemPostTotal(g));
    forall j | 0 <= j < |Overweights(g)|
      ensures IsOverweightTarget(Overweights(g)[j], g.goalDetails, g.orderAmount)
    {
      OverweightTargetOf(ActiveItems(mps)[j], g.goalDetails, g.orderAmount);
    }
  }

  /** With unique model tickers, no product is sold in both phases: queued
      products have zero weight, phase-2 products non-zero weight. */
  lemma ZeroWeightNotInPhase2(g: Goal, zs: seq<ZwProduct>)
    requires IsQueue(g, zs) && UniqueModelTickers(g.modelPortfolioDetails)
    ensures forall k, j :: 0 <= k < |zs| && 0 <= j < |Overweights(g)| ==>
      zs[k].holding.ticker != Overweights(g)[j].mp.ticker
  {
    var mps := g.modelPortfolioDetails;
    QueueAt(g, zs);
    RedeemTargets(g);
    ActiveItemsWeights(mps);
    ModelMapAt(mps);
    forall k, j | 0 <= k < |zs| && 0 <= j < |Overweights(g)|
      ensures zs[k].holding.ticker != Overweights(g)[j].mp.ticker
    {
      var mp := Overweights(g)[j].mp;
      assert mp in mps && mp.weight != 0.0;
      var i :| 0 <= i < |mps| && mps[i] == mp;
      assert ModelWeight(ModelMap(mps), mp.ticker) == mp.weight;
    }
  }

  // ---------------------------------------------------------------------------
  // Lemmas: phase 1
  // ---------------------------------------------------------------------------

  /** A phase-1 amount is on the amount grid, within the budget and the
      product's value. Below the budget the whole (truncated) value is sold,
      above it less than the value; on the grid, the product is sold in full
      exactly when its value fits the budget, and otherwise receives the
      whole budget. */
  lemma Phase1AmountBounds(zp: ZwProduct, remaining: real, amountPrec: nat)
    requires remaining >= 0.0 && zp.value >= 0.0
    ensures var a := Phase1Amount(zp, remaining, amountPrec);
      && 0.0 <= a <= remaining && a <= zp.value && OnGrid(a, amountPrec)
      && (!FitsBudget(zp, remaining) ==> a < zp.value)
      && (OnGrid(zp.value, amountPrec) ==> (a == zp.value <==> FitsBudget(zp, remaining)))
      && (OnGrid(remaining, amountPrec) && !FitsBudget(zp, remaining) ==> a == remaining)
  {
    TruncateBounds(zp.value, amountPrec);
    TruncateBounds(remaining, amountPrec);
    if OnGrid(zp.value, amountPrec) {
      TruncateOnGrid(zp.value, amountPrec);
    }
    if OnGrid(remaining, amountPrec) {
      TruncateOnGrid(remaining, amountPrec);
    }
  }

  /** What a phase-1 sale of `zp` out of budget `budget` satisfies: it sells
      that product, within its value and the budget, on the amount grid, with
      units that fit the amount at the holding's price; a sale is partial when
      the product's value does not fit the budget, and then sells less than
      the value. The thresholds are the holding's own: a sale below the
      minimum redemption is flagged as such, and otherwise a partial sale that
      leaves less than the minimum holding is flagged as such. */
  predicate ForcedSaleOk(d: Models.TransactionDetail, zp: ZwProduct, budget: real, amountPrec: nat, unitPrec: nat)
  {
    var h := zp.holding;
    var belowRedemption := d.value < h.minRedemptionAmt || d.units < h.minRedemptionUnits;
    && d.ticker == h.ticker
    && d.direction == Models.Sell
    && 0.0 <= d.value <= zp.value
    && d.value <= budget
    && OnGrid(d.value, amountPrec)
    && UnitsFit(d.units, d.value, h.marketPrice, unitPrec)
    && (!FitsBudget(zp, budget) ==> d.value < zp.value)
    && (d.error == Some(Models.MinRedemptionViolation) <==> belowRedemption)
    && (d.error == Some(Models.MinHoldingViolation) <==>
          && !belowRedemption
          && !FitsBudget(zp, budget)
          && (h.value - d.value < h.minHoldingAmt || h.units - d.units < h.minHoldingUnits))
  }

  lemma Phase1DetailOk(zp: ZwProduct, remaining: real, amountPrec: nat, unitPrec: nat)
    requires remaining >= 0.0 && zp.value >= 0.0
    ensures ForcedSaleOk(Phase1Detail(zp, remaining, amountPrec, unitPrec), zp, remaining, amountPrec, unitPrec)
  {
    Phase1AmountBounds(zp, remaining, amountPrec);
    UnitsBounds(Phase1Amount(zp, remaining, amountPrec), zp.holding.marketPrice, unitPrec);
  }

  /** Phase 1 emits at most one sale per queued product, in queue order.
      The budget before the first sale is the order amount, before each later
      one what the previous sale left, and it is positive before every sale;
      each sale satisfies ForcedSaleOk against its budget. */
  lemma {:induction false} Phase1Shape(zs: seq<ZwProduct>, remaining: real, amountPrec: nat, unitPrec: nat)
    requires remaining >= 0.0 && forall k :: 0 <= k < |zs| ==> zs[k].value >= 0.0
    ensures var ds := Phase1(zs, remaining, amountPrec, unitPrec);
      var bs := Phase1Budgets(zs, remaining, amountPrec);
      && |bs| == |ds|
      && (|ds| > 0 ==> bs[0] == remaining)
      && (forall i :: 0 <= i < |ds| - 1 ==> bs[i + 1] == bs[i] - ds[i].value)
      && (forall i :: 0 <= i < |ds| ==> bs[i] > 0.0 && ForcedSaleOk(ds[i], zs[i], bs[i], amountPrec, unitPrec))
  {
    if |zs| > 0 && remaining != 0.0 {
      var a := Phase1Amount(zs[0], remaining, amountPrec);
      Phase1AmountBounds(zs[0], remaining, amountPrec);
      Phase1DetailOk(zs[0], remaining, amountPrec, unitPrec);
      Phase1Shape(zs[1..], remaining - a, amountPrec, unitPrec);
      var rest := Phase1(zs[1..], remaining - a, amountPrec, unitPrec);
      var bs' := Phase1Budgets(zs[1..], remaining - a, amountPrec);
      var ds := Phase1(zs, remaining, amountPrec, unitPrec);
      var bs := Phase1Budgets(zs, remaining, amountPrec);
      var d := Phase1Detail(zs[0], remaining, amountPrec, unitPrec);
      assert ds == [d] + rest;
      assert bs == [remaining] + bs';
      assert d.value == a;
      forall i | 0 <= i < |ds| - 1 ensures bs[i + 1] == bs[i] - ds[i].value {
        if i > 0 {
          assert ds[i] == rest[i - 1] && bs[i + 1] == bs'[i] && bs[i] == bs'[i - 1];
        }
      }
      forall i | 0 <= i < |ds| ensures bs[i] > 0.0 && ForcedSaleOk(ds[i], zs[i], bs[i], amountPrec, unitPrec) {
        if i > 0 {
          assert ds[i] == rest[i - 1] && zs[i] == zs[1..][i - 1] && bs[i] == bs'[i - 1];
        }
      }
    }
  }

  /** The budget never goes negative, and it drops by exactly what is sold:
      the phase-1 amounts add up to the order amount less what is left. */
  lemma {:induction false} Phase1Budget(zs: seq<ZwProduct>, remaining: real, amountPrec: nat, unitPrec: nat)
    requires remaining >= 0.0 && forall k :: 0 <= k < |zs| ==> zs[k].value >= 0.0
    ensures 0.0 <= Phase1Left(zs, remaining, amountPrec) <= remaining
    ensures Sum(Models.Amounts(Phase1(zs, remaining, amountPrec, unitPrec))) == remaining - Phase1Left(zs, remaining, amountPrec)
  {
    if |zs| > 0 && remaining != 0.0 {
      var d := Phase1Detail(zs[0], remaining, amountPrec, unitPrec);
      var a := Phase1Amount(zs[0], remaining, amountPrec);
      Phase1AmountBounds(zs[0], remaining, amountPrec);
      Phase1Budget(zs[1..], remaining - a, amountPrec, unitPrec);
      var rest := Phase1(zs[1..], remaining - a, amountPrec, unitPrec);
      assert Phase1(zs, remaining, amountPrec, unitPrec) == [d] + rest;
      Models.AmountsAppend([d], rest);
      assert Models.Amounts([d]) == [a];
      SumCons(a, Models.Amounts(rest));
    } else {
      assert Models.Amounts(Phase1(zs, remaining, amountPrec, unitPrec)) == [];
    }
  }

  /** Every queued value is positive and on the amount grid. */
  predicate ValuesOnGrid(zs: seq<ZwProduct>, amountPrec: nat)
  {
    forall k :: 0 <= k < |zs| ==> zs[k].value > 0.0 && OnGrid(zs[k].value, amountPrec)
  }

  /** With the budget and the values on the amount grid, phase 1 is greedy:
      every sale but the last is a full one, and what is left is the budget
      less the queue's total, or nothing. */
  lemma {:induction false} Phase1Greedy(zs: seq<ZwProduct>, remaining: real, amountPrec: nat, unitPrec: nat)
    requires remaining >= 0.0 && OnGrid(remaining, amountPrec)
    requires ValuesOnGrid(zs, amountPrec)
    ensures Phase1Left(zs, remaining, amountPrec) == Max(0.0, remaining - Sum(Values(zs)))
    ensures forall i :: 0 <= i < |Phase1(zs, remaining, amountPrec, unitPrec)| - 1 ==>
      Phase1(zs, remaining, amountPrec, unitPrec)[i].value == zs[i].value
  {
    Phase1LeftGreedy(zs, remaining, amountPrec);
    Phase1FullSales(zs, remaining, amountPrec, unitPrec);
  }

  lemma {:induction false} Phase1LeftGreedy(zs: seq<ZwProduct>, remaining: real, amountPrec: nat)
    requires remaining >= 0.0 && OnGrid(remaining, amountPrec)
    requires ValuesOnGrid(zs, amountPrec)
    ensures Phase1Left(zs, remaining, amountPrec) == Max(0.0, remaining - Sum(Values(zs)))
  {
    if |zs| > 0 {
      var z := zs[0];
      assert Values(zs) == [z.value] + Values(zs[1..]);
      SumCons(z.value, Values(zs[1..]));
      SumNonNegative(Values(zs[1..]));
      if remaining != 0.0 {
        var a := Phase1Amount(z, remaining, amountPrec);
        Phase1AmountBounds(z, remaining, amountPrec);
        OnGridSub(remaining, a, amountPrec);
        Phase1LeftGreedy(zs[1..], remaining - a, amountPrec);
      }
    }
  }

  lemma {:induction false} Phase1FullSales(zs: seq<ZwProduct>, remaining: real, amountPrec: nat, unitPrec: nat)
    requires remaining >= 0.0 && OnGrid(remaining, amountPrec)
    requires ValuesOnGrid(zs, amountPrec)
    ensures forall i :: 0 <= i < |Phase1(zs, remaining, amountPrec, unitPrec)| - 1 ==>
      Phase1(zs, remaining, amountPrec, unitPrec)[i].value == zs[i].value
  {
    if |zs| > 0 && remaining != 0.0 {
      var z := zs[0];
      var a := Phase1Amount(z, remaining, amountPrec);
      Phase1AmountBounds(z, remaining, amountPrec);
      OnGridSub(remaining, a, amountPrec);
      Phase1FullSales(zs[1..], remaining - a, amountPrec, unitPrec);
      var rest := Phase1(zs[1..], remaining - a, amountPrec, unitPrec);
      var ds := Phase1(zs, remaining, amountPrec, unitPrec);
      assert ds == [Phase1Detail(z, remaining, amountPrec, unitPrec)] + rest;
      forall i | 0 <= i < |ds| - 1 ensures ds[i].value == zs[i].value {
        if i > 0 {
          assert ds[i] == rest[i - 1] && zs[i] == zs[1..][i - 1];
        }
      }
    }
  }


  /** A budget that covers the whole queue sells every queued product in
      full. */
  lemma {:induction false} Phase1CoversQueue(zs: seq<ZwProduct>, remaining: real, amountPrec: nat, unitPrec: nat)
    requires OnGrid(remaining, amountPrec) && ValuesOnGrid(zs, amountPrec)
    requires Sum(Values(zs)) <= remaining
    ensures |Phase1(zs, remaining, amountPrec, unitPrec)| == |zs|
    ensures forall i :: 0 <= i < |zs| ==> Phase1(zs, remaining, amountPrec, unitPrec)[i].value == zs[i].value
  {
    Phase1SellsValues(zs, remaining, amountPrec, unitPrec);
  }

  /** Under a covering budget the first product is sold in full and the
      budget left covers the rest of the queue. */
  lemma CoveredHead(zs: seq<ZwProduct>, remaining: real, amountPrec: nat)
    requires |zs| > 0 && OnGrid(remaining, amountPrec) && ValuesOnGrid(zs, amountPrec)
    requires Sum(Values(zs)) <= remaining
    ensures var a := Phase1Amount(zs[0], remaining, amountPrec);
      && remaining != 0.0 && a == zs[0].value && OnGrid(remaining - a, amountPrec)
      && Sum(Values(zs[1..])) <= remaining - a
  {
    var z := zs[0];
    var a := Phase1Amount(z, remaining, amountPrec);
    assert Values(zs) == [z.value] + Values(zs[1..]);
    SumCons(z.value, Values(zs[1..]));
    SumNonNegative(Values(zs[1..]));
    assert FitsBudget(z, remaining);
    Phase1AmountBounds(z, remaining, amountPrec);
    OnGridSub(remaining, a, amountPrec);
  }

  /** Under a covering budget the phase-1 amounts are the queued values. */
  lemma {:induction false} Phase1SellsValues(zs: seq<ZwProduct>, remaining: real, amountPrec: nat, unitPrec: nat)
    requires OnGrid(remaining, amountPrec) && ValuesOnGrid(zs, amountPrec)
    requires Sum(Values(zs)) <= remaining
    ensures Models.Amounts(Phase1(zs, remaining, amountPrec, unitPrec)) == Values(zs)
  {
    if |zs| > 0 {
      var z := zs[0];
      var a := Phase1Amount(z, remaining, amountPrec);
      CoveredHead(zs, remaining, amountPrec);
      Phase1SellsValues(zs[1..], remaining - a, amountPrec, unitPrec);
      var d := Phase1Detail(z, remaining, amountPrec, unitPrec);
      var rest := Phase1(zs[1..], remaining - a, amountPrec, unitPrec);
      assert Phase1(zs, remaining, amountPrec, unitPrec) == [d] + rest;
      assert d.value == z.value;
      AmountsCons(d, rest, zs);
    }
  }

  /** A sale of the first product's value followed by sales of the others'
      values sells the values of the whole queue. */
  lemma AmountsCons(d: Models.TransactionDetail, rest: seq<Models.TransactionDetail>, zs: seq<ZwProduct>)
    requires |zs| > 0 && d.value == zs[0].value && Models.Amounts(rest) == Values(zs[1..])
    ensures Models.Amounts([d] + rest) == Values(zs)
  {
    Models.AmountsAppend([d], rest);
    assert Models.Amounts([d]) == [d.value];
    assert Values(zs) == [zs[0].value] + Values(zs[1..]);
  }

  // ---------------------------------------------------------------------------
  // Lemmas: phase 2 and the whole redemption
  // ---------------------------------------------------------------------------

  /** What a phase-2 sale for allocation `a` satisfies: it sells that model
      product, a non-negative amount on the amount grid, with units that fit
      the amount at the model item's price. Only a positive sale of a held
      product is flagged. The thresholds are the model item's, measured
      against the holding: a sale below the minimum redemption is flagged as
      such, and otherwise a sale of less than the holding's value that leaves
      less than the minimum holding is flagged as such. */
  predicate OverweightSaleOk(d: Models.TransactionDetail, a: RedeemAlloc, amountPrec: nat, unitPrec: nat)
  {
    && d.ticker == a.mp.ticker
    && d.direction == Models.Sell
    && d.value >= 0.0
    && OnGrid(d.value, amountPrec)
    && UnitsFit(d.units, d.value, a.mp.marketPrice, unitPrec)
    && (d.error.Some? ==> d.value > 0.0 && a.holding.Some?)
    && (d.value > 0.0 && a.holding.Some? ==>
          var h := a.holding.value;
          var belowRedemption := d.value < a.mp.minRedemptionAmt || d.units < a.mp.minRedemptionUnits;
          && (d.error == Some(Models.MinRedemptionViolation) <==> belowRedemption)
          && (d.error == Some(Models.MinHoldingViolation) <==>
                && !belowRedemption
                && d.value < h.value
                && (h.value - d.value < a.mp.minHoldingAmt || h.units - d.units < a.mp.minHoldingUnits)))
  }

  lemma Phase2UnitsFit(amount: real, price: real, unitPrec: nat)
    requires amount >= 0.0
    ensures UnitsFit(Phase2Units(amount, price, unitPrec), amount, price, unitPrec)
  {
    if amount > 0.0 {
      UnitsBounds(amount, price, unitPrec);
    } else {
      OnGridZero(unitPrec);
    }
  }

  /** One phase-2 sale is its share truncated to the amount grid, and
      satisfies OverweightSaleOk. */
  lemma Phase2DetailAt(a: RedeemAlloc, share: real, amountPrec: nat, unitPrec: nat)
    requires share >= 0.0
    ensures var d := Phase2Detail(a, share, amountPrec, unitPrec);
      OverweightSaleOk(d, a, amountPrec, unitPrec) && TruncatedShare(d.value, share, amountPrec)
  {
    TruncatedShareOf(share, amountPrec);
    Phase2UnitsFit(Truncate(share, amountPrec), a.mp.marketPrice, unitPrec);
  }

  /** The phase-2 shares are non-negative. They are all zero when no product
      is overweight or no budget is left, and otherwise add up to the budget. */
  lemma Phase2SharesAt(allocs: seq<RedeemAlloc>, remaining: real)
    requires forall i :: 0 <= i < |allocs| ==> allocs[i].ideal >= 0.0
    ensures var t := Sum(Ideals(allocs));
      var shares := Phase2Shares(allocs, t, remaining);
      && (forall i :: 0 <= i < |shares| ==> shares[i] >= 0.0)
      && (t == 0.0 || remaining <= 0.0 ==> forall i :: 0 <= i < |shares| ==> shares[i] == 0.0)
      && (t != 0.0 && remaining > 0.0 ==> |shares| > 0 && Sum(shares) == remaining)
  {
    var ideals := Ideals(allocs);
    var t := Sum(ideals);
    if t != 0.0 && remaining > 0.0 {
      SumNonNegative(ideals);
      SharesSum(ideals, remaining);
    }
  }

  /** Truncating non-negative shares gives, per allocation, a sale that
      satisfies OverweightSaleOk and is its share truncated. */
  lemma Phase2OfShares(allocs: seq<RedeemAlloc>, shares: seq<real>, amountPrec: nat, unitPrec: nat)
    requires |shares| == |allocs| && forall i :: 0 <= i < |shares| ==> shares[i] >= 0.0
    ensures var ds := Phase2(allocs, shares, amountPrec, unitPrec);
      && (forall i :: 0 <= i < |ds| ==> OverweightSaleOk(ds[i], allocs[i], amountPrec, unitPrec))
      && (forall i :: 0 <= i < |ds| ==> TruncatedShare(ds[i].value, shares[i], amountPrec))
  {
    var ds := Phase2(allocs, shares, amountPrec, unitPrec);
    forall i | 0 <= i < |ds|
      ensures OverweightSaleOk(ds[i], allocs[i], amountPrec, unitPrec)
      ensures TruncatedShare(ds[i].value, shares[i], amountPrec)
    {
      Phase2DetailAt(allocs[i], shares[i], amountPrec, unitPrec);
    }
  }

  /** In total the truncated shares sell at most the shares' sum, and fall
      short of it by less than one step of the amount grid per allocation. */
  lemma Phase2Total(allocs: seq<RedeemAlloc>, shares: seq<real>, amountPrec: nat, unitPrec: nat)
    requires |shares| == |allocs| && forall i :: 0 <= i < |shares| ==> shares[i] >= 0.0
    ensures var ds := Phase2(allocs, shares, amountPrec, unitPrec);
      && Sum(Models.Amounts(ds)) <= Sum(shares)
      && (|ds| > 0 ==> ShortByLessThanSteps(Sum(shares), Sum(Models.Amounts(ds)), |ds|, amountPrec))
  {
    var ds := Phase2(allocs, shares, amountPrec, unitPrec);
    var amounts := Models.Amounts(ds);
    forall i | 0 <= i < |ds| ensures WithinStep(amounts[i], shares[i], amountPrec) {
      assert amounts[i] == Truncate(shares[i], amountPrec);
      TruncatedShareOf(shares[i], amountPrec);
    }
    SumWithinSteps(shares, amounts, amountPrec);
  }

  /** Phase 2 emits one sale per allocation, in model order. Nothing is sold
      when no product is overweight or no budget is left; otherwise the sales
      never exceed the budget and fall short of it by less than one step of
      the amount grid per product. */
  lemma Phase2Bounds(allocs: seq<RedeemAlloc>, remaining: real, amountPrec: nat, unitPrec: nat)
    requires forall i :: 0 <= i < |allocs| ==> allocs[i].ideal >= 0.0
    ensures var t := Sum(Ideals(allocs));
      var ds := Phase2(allocs, Phase2Shares(allocs, t, remaining), amountPrec, unitPrec);
      && (forall i :: 0 <= i < |ds| ==> OverweightSaleOk(ds[i], allocs[i], amountPrec, unitPrec))
      && (t == 0.0 || remaining <= 0.0 ==> forall i :: 0 <= i < |ds| ==> ds[i].value == 0.0)
      && Sum(Models.Amounts(ds)) <= Max(0.0, remaining)
      && (t != 0.0 && remaining > 0.0 ==>
            |ds| > 0 && ShortByLessThanSteps(remaining, Sum(Models.Amounts(ds)), |ds|, amountPrec))
  {
    var t := Sum(Ideals(allocs));
    var shares := Phase2Shares(allocs, t, remaining);
    Phase2SharesAt(allocs, remaining);
    Phase2OfShares(allocs, shares, amountPrec, unitPrec);
    Phase2Total(allocs, shares, amountPrec, unitPrec);
    if t == 0.0 || remaining <= 0.0 {
      SumZeros(shares);
      var ds := Phase2(allocs, shares, amountPrec, unitPrec);
      forall i | 0 <= i < |ds| ensures ds[i].value == 0.0 {
        assert TruncatedShare(ds[i].value, shares[i], amountPrec);
      }
    }
  }

  /** On the grid, a queue worth at least the budget uses all of it. */
  lemma Phase1Exhausts(zs: seq<ZwProduct>, remaining: real, amountPrec: nat, unitPrec: nat)
    requires remaining >= 0.0 && OnGrid(remaining, amountPrec) && ValuesOnGrid(zs, amountPrec)
    requires Sum(Values(zs)) >= remaining
    ensures Phase1Left(zs, remaining, amountPrec) == 0.0
    ensures Sum(Models.Amounts(Phase1(zs, remaining, amountPrec, unitPrec))) == remaining
  {
    Phase1Greedy(zs, remaining, amountPrec, unitPrec);
    Phase1Budget(zs, remaining, amountPrec, unitPrec);
  }

  /** With no budget left, phase 2 sells nothing. */
  lemma Phase2NothingLeft(allocs: seq<RedeemAlloc>, amountPrec: nat, unitPrec: nat)
    requires forall i :: 0 <= i < |allocs| ==> allocs[i].ideal >= 0.0
    ensures var ds := Phase2(allocs, Phase2Shares(allocs, Sum(Ideals(allocs)), 0.0), amountPrec, unitPrec);
      forall i :: 0 <= i < |ds| ==> ds[i].value == 0.0
  {
    Phase2Bounds(allocs, 0.0, amountPrec, unitPrec);
  }

  /** A queue's products and the phase-2 allocations meet the other lemmas'
      requirements: positive values and non-negative targets. */
  lemma RedeemInputs(g: Goal, zs: seq<ZwProduct>)
    requires IsQueue(g, zs)
    ensures forall k :: 0 <= k < |zs| ==> zs[k].value >= 0.0
    ensures forall j :: 0 <= j < |Overweights(g)| ==> Overweights(g)[j].ideal >= 0.0
    ensures |Overweights(g)| == |ActiveItems(g.modelPortfolioDetails)|
  {
    QueueAt(g, zs);
    RedeemTargets(g);
  }

  /** A redemption's sales are its phase-1 sales followed by its phase-2 sales. */
  lemma RedeemSplit(g: Goal, zs: seq<ZwProduct>, amountPrec: nat, unitPrec: nat)
    ensures var allocs := Overweights(g);
      var left := Phase1Left(zs, g.orderAmount, amountPrec);
      Redeem(g, zs, amountPrec, unitPrec).transactionDetails
        == Phase1(zs, g.orderAmount, amountPrec, unitPrec)
           + Phase2(allocs, Phase2Shares(allocs, Sum(Ideals(allocs)), left), amountPrec, unitPrec)
  {
  }

  /** Phase-1 sales followed by phase-2 sales keep each one's properties at
      its own position, and all of them are SELLs of non-negative amounts. */
  lemma SalesConcat(p1: seq<Models.TransactionDetail>, p2: seq<Models.TransactionDetail>,
                    zs: seq<ZwProduct>, bs: seq<real>, allocs: seq<RedeemAlloc>, amountPrec: nat, unitPrec: nat)
    requires |p1| <= |zs| && |bs| == |p1| && |p2| == |allocs|
    requires forall i :: 0 <= i < |p1| ==> ForcedSaleOk(p1[i], zs[i], bs[i], amountPrec, unitPrec)
    requires forall j :: 0 <= j < |p2| ==> OverweightSaleOk(p2[j], allocs[j], amountPrec, unitPrec)
    ensures var ds := p1 + p2;
      && (forall i :: 0 <= i < |p1| ==> ForcedSaleOk(ds[i], zs[i], bs[i], amountPrec, unitPrec))
      && (forall j :: 0 <= j < |p2| ==> OverweightSaleOk(ds[|p1| + j], allocs[j], amountPrec, unitPrec))
      && (forall i :: 0 <= i < |ds| ==> ds[i].direction == Models.Sell && ds[i].value >= 0.0)
  {
    var ds := p1 + p2;
    forall i | 0 <= i < |ds| ensures ds[i].direction == Models.Sell && ds[i].value >= 0.0 {
      if i >= |p1| {
        assert ds[i] == p2[i - |p1|];
      }
    }
  }

  /** The redemption's sales: first the phase-1 sales, one per queued product
      until the budget runs out, then one phase-2 sale per model item of
      non-zero weight, in model order; every one a SELL of a non-negative
      amount. */
  lemma RedeemOrder(g: Goal, zs: seq<ZwProduct>, amountPrec: nat, unitPrec: nat)
    requires IsQueue(g, zs) && g.orderAmount >= 0.0
    ensures var r := Redeem(g, zs, amountPrec, unitPrec);
      var n1 := |Phase1(zs, g.orderAmount, amountPrec, unitPrec)|;
      && r.goalId == g.goalId && r.transactionType == g.orderType
      && n1 <= |zs|
      && |r.transactionDetails| == n1 + |ActiveItems(g.modelPortfolioDetails)|
      && |Phase1Budgets(zs, g.orderAmount, amountPrec)| == n1
      && (forall i :: 0 <= i < n1 ==>
            ForcedSaleOk(r.transactionDetails[i], zs[i], Phase1Budgets(zs, g.orderAmount, amountPrec)[i], amountPrec, unitPrec))
      && (forall j :: 0 <= j < |Overweights(g)| ==>
            OverweightSaleOk(r.transactionDetails[n1 + j], Overweights(g)[j], amountPrec, unitPrec))
      && (forall i :: 0 <= i < |r.transactionDetails| ==>
            r.transactionDetails[i].direction == Models.Sell && r.transactionDetails[i].value >= 0.0)
  {
    var allocs := Overweights(g);
    var left := Phase1Left(zs, g.orderAmount, amountPrec);
    var p1 := Phase1(zs, g.orderAmount, amountPrec, unitPrec);
    var p2 := Phase2(allocs, Phase2Shares(allocs, Sum(Ideals(allocs)), left), amountPrec, unitPrec);
    RedeemInputs(g, zs);
    Phase1Shape(zs, g.orderAmount, amountPrec, unitPrec);
    Phase2Bounds(allocs, left, amountPrec, unitPrec);
    RedeemSplit(g, zs, amountPrec, unitPrec);
    SalesConcat(p1, p2, zs, Phase1Budgets(zs, g.orderAmount, amountPrec), allocs, amountPrec, unitPrec);
  }

  /** The sales never exceed the order amount. When phase 1 leaves budget
      and some model product is overweight, they fall short of the order by
      less than one step of the amount grid per phase-2 product. */
  lemma RedeemTotal(g: Goal, zs: seq<ZwProduct>, amountPrec: nat, unitPrec: nat)
    requires IsQueue(g, zs) && g.orderAmount >= 0.0
    ensures var ds := Redeem(g, zs, amountPrec, unitPrec).transactionDetails;
      Sum(Models.Amounts(ds)) <= g.orderAmount
    ensures var ds := Redeem(g, zs, amountPrec, unitPrec).transactionDetails;
      var left := Phase1Left(zs, g.orderAmount, amountPrec);
      Sum(Ideals(Overweights(g))) != 0.0 && left > 0.0 ==>
        ShortByLessThanSteps(g.orderAmount, Sum(Models.Amounts(ds)), |Overweights(g)|, amountPrec)
  {
    var allocs := Overweights(g);
    var left := Phase1Left(zs, g.orderAmount, amountPrec);
    var p1 := Phase1(zs, g.orderAmount, amountPrec, unitPrec);
    var p2 := Phase2(allocs, Phase2Shares(allocs, Sum(Ideals(allocs)), left), amountPrec, unitPrec);
    RedeemInputs(g, zs);
    Phase1Budget(zs, g.orderAmount, amountPrec, unitPrec);
    Phase2Bounds(allocs, left, amountPrec, unitPrec);
    RedeemSplit(g, zs, amountPrec, unitPrec);
    Models.AmountsAppend(p1, p2);
    SumConcat(Models.Amounts(p1), Models.Amounts(p2));
  }

  /** Zero-weight products come first: with amounts on the grid, a queue
      worth at least the order is sold down to exactly the order amount in
      phase 1, and phase 2 then sells nothing. */
  lemma RedeemZeroWeightFirst(g: Goal, zs: seq<ZwProduct>, amountPrec: nat, unitPrec: nat)
    requires IsQueue(g, zs) && g.orderAmount >= 0.0
    requires OnGrid(g.orderAmount, amountPrec) && ValuesOnGrid(zs, amountPrec)
    requires Sum(Values(zs)) >= g.orderAmount
    ensures Sum(Models.Amounts(Phase1(zs, g.orderAmount, amountPrec, unitPrec))) == g.orderAmount
    ensures var ds := Redeem(g, zs, amountPrec, unitPrec).transactionDetails;
      forall i :: |Phase1(zs, g.orderAmount, amountPrec, unitPrec)| <= i < |ds| ==> ds[i].value == 0.0
  {
    var allocs := Overweights(g);
    var p1 := Phase1(zs, g.orderAmount, amountPrec, unitPrec);
    Phase1Exhausts(zs, g.orderAmount, amountPrec, unitPrec);
    RedeemInputs(g, zs);
    Phase2NothingLeft(allocs, amountPrec, unitPrec);
    var p2 := Phase2(allocs, Phase2Shares(allocs, Sum(Ideals(allocs)), 0.0), amountPrec, unitPrec);
    RedeemSplit(g, zs, amountPrec, unitPrec);
    assert Redeem(g, zs, amountPrec, unitPrec).transactionDetails == p1 + p2;
    ZeroTail(p1, p2);
  }

  /** Sales of nothing appended after `p1` sell nothing at every position past `p1`. */
  lemma ZeroTail(p1: seq<Models.TransactionDetail>, p2: seq<Models.TransactionDetail>)
    requires forall i :: 0 <= i < |p2| ==> p2[i].value == 0.0
    ensures forall i :: |p1| <= i < |p1 + p2| ==> (p1 + p2)[i].value == 0.0
  {
    forall i | |p1| <= i < |p1 + p2| ensures (p1 + p2)[i].value == 0.0 {
      assert (p1 + p2)[i] == p2[i - |p1|];
    }
  }

  /** What every redemption promises, whatever the phase-1 queue: the goal's
      identity and order type, a sale for every model product of non-zero
      weight, and, for a non-negative order, only SELLs of non-negative
      amounts that add up to at most the order. */
  lemma RedeemGuarantees(g: Goal, zs: seq<ZwProduct>, amountPrec: nat, unitPrec: nat)
    requires IsQueue(g, zs)
    ensures var r := Redeem(g, zs, amountPrec, unitPrec);
      && r.goalId == g.goalId && r.transactionType == g.orderType
      && |r.transactionDetails| >= |ActiveItems(g.modelPortfolioDetails)|
      && (g.orderAmount >= 0.0 ==>
            && (forall i :: 0 <= i < |r.transactionDetails| ==>
                  r.transactionDetails[i].direction == Models.Sell && r.transactionDetails[i].value >= 0.0)
            && Sum(Models.Amounts(r.transactionDetails)) <= g.orderAmount)
  {
    RedeemSplit(g, zs, amountPrec, unitPrec);
    RedeemTargets(g);
    if g.orderAmount >= 0.0 {
      RedeemOrder(g, zs, amountPrec, unitPrec);
      RedeemTotal(g, zs, amountPrec, unitPrec);
    }
  }

  /** The phase-2 targets need not add up to the phase-1 leftover: A is held
      for 100 with weight 0.5, B is not held with weight 0.5, and the order is
      10. Nothing goes to phase 1, so all 10 is left for phase 2, but the
      targets are 55 and 0. */
  lemma ClampedTargets(g: Goal)
    requires |g.goalDetails| == 1 && g.goalDetails[0].value == 100.0
    requires |g.modelPortfolioDetails| == 2
    requires g.modelPortfolioDetails[0].ticker == g.goalDetails[0].ticker
    requires g.modelPortfolioDetails[1].ticker != g.goalDetails[0].ticker
    requires g.modelPortfolioDetails[0].weight == 0.5 && g.modelPortfolioDetails[1].weight == 0.5
    requires g.orderAmount == 10.0
    ensures Candidates(g.goalDetails, ModelMap(g.modelPortfolioDetails)) == []
    ensures Phase1Left([], g.orderAmount, 0) == 10.0
    ensures Ideals(Overweights(g)) == [55.0, 0.0]
    ensures Sum(Ideals(Overweights(g))) != Phase1Left([], g.orderAmount, 0)
  {
    var hs, mps := g.goalDetails, g.modelPortfolioDetails;
    assert hs[..0] == [];
    assert mps[..1] == [mps[0]] && [mps[0]][..0] == [];
    var hm := PositiveHoldings(hs);
    assert PositiveHoldings(hs[..0]) == map[];
    assert hm == PositiveHoldings(hs[..0])[hs[0].ticker := hs[0]];
    assert HeldValue(hm, mps[0].ticker) == 100.0 && Held(hm, mps[0].ticker) == Some(hs[0]);
    assert HeldValue(hm, mps[1].ticker) == 0.0 && Held(hm, mps[1].ticker) == None;
    assert PositiveTotal(hs) == PositiveTotal(hs[..0]) + 100.0;
    var mm := ModelMap(mps);
    assert ModelMap(mps[..1]) == ModelMap(mps[..1][..0])[mps[0].ticker := mps[0]];
    assert mm == ModelMap(mps[..1])[mps[1].ticker := mps[1]];
    assert ModelWeight(mm, hs[0].ticker) == 0.5;
    assert Candidates(hs[..0], mm) == [];
    assert Overweight(0.5, 90.0, 100.0) == 55.0;
    assert Overweight(0.5, 90.0, 0.0) == 0.0;
    var a0 := RedeemAlloc(mps[0], Some(hs[0]), 55.0);
    assert OverweightAllocs(mps[..1], hm, 90.0) == OverweightAllocs(mps[..1][..0], hm, 90.0) + [a0];
    assert Overweights(g) == OverweightAllocs(mps[..1], hm, 90.0) + [RedeemAlloc(mps[1], None, 0.0)];
    assert Sum([55.0, 0.0]) == 55.0 by {
      assert [55.0, 0.0][1..] == [0.0] && [0.0][1..] == [];
    }
  }

  /** With weights adding up to more than 1, budget can be left while no
      product is overweight: two products held for 100 each with weight 0.6,
      and an order of 10. Nothing goes to phase 1 and phase 2 sells nothing. */
  lemma NothingOverweight(g: Goal, amountPrec: nat, unitPrec: nat)
    requires |g.goalDetails| == 2 && g.goalDetails[0].value == 100.0 && g.goalDetails[1].value == 100.0
    requires g.goalDetails[0].ticker != g.goalDetails[1].ticker
    requires |g.modelPortfolioDetails| == 2
    requires g.modelPortfolioDetails[0].ticker == g.goalDetails[0].ticker
    requires g.modelPortfolioDetails[1].ticker == g.goalDetails[1].ticker
    requires g.modelPortfolioDetails[0].weight == 0.6 && g.modelPortfolioDetails[1].weight == 0.6
    requires g.orderAmount == 10.0
    ensures Candidates(g.goalDetails, ModelMap(g.modelPortfolioDetails)) == []
    ensures Phase1Left([], g.orderAmount, amountPrec) == 10.0
    ensures Ideals(Overweights(g)) == [0.0, 0.0]
    ensures var r := Redeem(g, [], amountPrec, unitPrec);
      |r.transactionDetails| == 2 &&
      forall i :: 0 <= i < 2 ==> r.transactionDetails[i].value == 0.0
  {
    var hs, mps := g.goalDetails, g.modelPortfolioDetails;
    assert hs[..1] == [hs[0]] && [hs[0]][..0] == [];
    assert mps[..1] == [mps[0]] && [mps[0]][..0] == [];
    var hm := PositiveHoldings(hs);
    assert PositiveHoldings(hs[..1]) == PositiveHoldings(hs[..1][..0])[hs[0].ticker := hs[0]];
    assert hm == PositiveHoldings(hs[..1])[hs[1].ticker := hs[1]];
    assert HeldValue(hm, mps[0].ticker) == 100.0 && Held(hm, mps[0].ticker) == Some(hs[0]);
    assert HeldValue(hm, mps[1].ticker) == 100.0 && Held(hm, mps[1].ticker) == Some(hs[1]);
    assert PositiveTotal(hs[..1]) == PositiveTotal(hs[..1][..0]) + 100.0;
    assert PositiveTotal(hs) == PositiveTotal(hs[..1]) + 100.0;
    var mm := ModelMap(mps);
    assert ModelMap(mps[..1]) == ModelMap(mps[..1][..0])[mps[0].ticker := mps[0]];
    assert mm == ModelMap(mps[..1])[mps[1].ticker := mps[1]];
    assert ModelWeight(mm, hs[0].ticker) == 0.6 && ModelWeight(mm, hs[1].ticker) == 0.6;
    assert Candidates(hs[..1][..0], mm) == [];
    assert Candidates(hs[..1], mm) == [];
    assert Overweight(0.6, 190.0, 100.0) == 0.0;
    var a0 := RedeemAlloc(mps[0], Some(hs[0]), 0.0);
    var allocs := [a0, RedeemAlloc(mps[1], Some(hs[1]), 0.0)];
    assert OverweightAllocs(mps[..1], hm, 190.0) == OverweightAllocs(mps[..1][..0], hm, 190.0) + [a0];
    assert Overweights(g) == OverweightAllocs(mps[..1], hm, 190.0) + [allocs[1]];
    assert Sum([0.0, 0.0]) == 0.0 by {
      assert [0.0, 0.0][1..] == [0.0] && [0.0][1..] == [];
    }
    var shares := Phase2Shares(allocs, 0.0, 10.0);
    assert shares == [0.0, 0.0];
    assert Phase1([], g.orderAmount, amountPrec, unitPrec) == [];
    Phase2OfShares(allocs, shares, amountPrec, unitPrec);
  }

  // ---------------------------------------------------------------------------
  // The splitter itself
  // ---------------------------------------------------------------------------

  /** The holdings pass: the holdings with positive value by ticker, and their total. */
  method CollectPositiveHoldings(hs: seq<Holding>) returns (holdingsMap: map<string, Holding>, vTotal: real)
    ensures holdingsMap == PositiveHoldings(hs) && vTotal == PositiveTotal(hs)
  {
    holdingsMap, vTotal := map[], 0.0;
    for k := 0 to |hs|
      invariant holdingsMap == PositiveHoldings(hs[..k])
      invariant vTotal == PositiveTotal(hs[..k])
    {
      assert hs[..k + 1][..k] == hs[..k];
      var h := hs[k];
      if h.value > 0.0 {
        holdingsMap := holdingsMap[h.ticker := h];
        vTotal := vTotal + h.value;
      }
    }
    assert hs[..|hs|] == hs;
  }

  /** The model pass: every model item by ticker. */
  method CollectModelMap(mps: seq<ModelItem>) returns (modelMap: map<string, ModelItem>)
    ensures modelMap == ModelMap(mps)
  {
    modelMap := map[];
    for k := 0 to |mps|
      invariant modelMap == ModelMap(mps[..k])
    {
      assert mps[..k + 1][..k] == mps[..k];
      modelMap := modelMap[mps[k].ticker := mps[k]];
    }
    assert mps[..|mps|] == mps;
  }

  /** The phase-1 candidates: held products with positive value that the
      model does not list or gives zero weight, in holdings order. */
  method CollectCandidates(hs: seq<Holding>, modelMap: map<string, ModelItem>) returns (zw: seq<ZwProduct>)
    ensures zw == Candidates(hs, modelMap)
  {
    zw := [];
    for k := 0 to |hs|
      invariant zw == Candidates(hs[..k], modelMap)
    {
      assert hs[..k + 1][..k] == hs[..k];
      var h := hs[k];
      if h.value > 0.0 {
        var w := 0.0;
        if h.ticker in modelMap {
          w := modelMap[h.ticker].weight;
        }
        if w == 0.0 {
          zw := zw + [ZwProduct(h, h.value)];
        }
      }
    }
    assert hs[..|hs|] == hs;
  }

  /** Exchanges `a[j - 1]` and `a[j]`. */
  method Swap(a: array<ZwProduct>, j: int)
    requires 0 < j < a.Length
    modifies a
    ensures a[..] == old(a[..])[j - 1 := old(a[j])][j := old(a[j - 1])]
    ensures multiset(a[..]) == multiset(old(a[..]))
  {
    a[j - 1], a[j] := a[j], a[j - 1];
  }

  /** Moves `a[i]` down into the sorted prefix `a[..i]`. */
  method InsertDown(a: array<ZwProduct>, i: int)
    requires 0 <= i < a.Length
    requires forall k, l :: 0 <= k < l < i ==> a[k].value <= a[l].value
    modifies a
    ensures forall k, l :: 0 <= k < l <= i ==> a[k].value <= a[l].value
    ensures multiset(a[..]) == multiset(old(a[..]))
  {
    var j := i;
    while j > 0 && a[j - 1].value > a[j].value
      invariant 0 <= j <= i
      invariant forall k, l :: 0 <= k < l <= i && k != j && l != j ==> a[k].value <= a[l].value
      invariant forall l :: j < l <= i ==> a[j].value < a[l].value
      invariant multiset(a[..]) == multiset(old(a[..]))
    {
      Swap(a, j);
      j := j - 1;
    }
  }

  /** Sorts the candidates ascending by value, in place. */
  method SortByValue(a: array<ZwProduct>)
    modifies a
    ensures SortedByValue(a[..])
    ensures multiset(a[..]) == multiset(old(a[..]))
  {
    var i := 0;
    while i < a.Length
      invariant 0 <= i <= a.Length
      invariant forall k, l :: 0 <= k < l < i ==> a[k].value <= a[l].value
      invariant multiset(a[..]) == multiset(old(a[..]))
    {
      InsertDown(a, i);
      i := i + 1;
    }
  }

  /** The candidates, sorted ascending by value in a fresh array. */
  method SortedQueue(zw: seq<ZwProduct>) returns (queue: seq<ZwProduct>)
    ensures SortedByValue(queue) && multiset(queue) == multiset(zw)
  {
    var products := new ZwProduct[|zw|](i requires 0 <= i < |zw| => zw[i]);
    assert products[..] == zw;
    SortByValue(products);
    queue := products[..];
  }

  /** One step of phase 1 at position `k` of the queue. */
  lemma Phase1Step(zs: seq<ZwProduct>, k: nat, remaining: real, amountPrec: nat, unitPrec: nat)
    requires k < |zs| && remaining != 0.0
    ensures var a := Phase1Amount(zs[k], remaining, amountPrec);
      && Phase1(zs[k..], remaining, amountPrec, unitPrec)
           == [Phase1Detail(zs[k], remaining, amountPrec, unitPrec)] + Phase1(zs[k + 1..], remaining - a, amountPrec, unitPrec)
      && Phase1Left(zs[k..], remaining, amountPrec) == Phase1Left(zs[k + 1..], remaining - a, amountPrec)
  {
    assert zs[k..][1..] == zs[k + 1..];
  }

  /** One phase-1 sale: the whole product when its value fits the budget,
      otherwise the budget, truncated; its units and checks. */
  method SellZeroWeight(zp: ZwProduct, remaining: real, amountPrec: nat, unitPrec: nat)
    returns (d: Models.TransactionDetail, redeemAmt: real)
    ensures d == Phase1Detail(zp, remaining, amountPrec, unitPrec)
    ensures redeemAmt == Phase1Amount(zp, remaining, amountPrec) == d.value
  {
    var isFullRedemption := !(zp.value > remaining);
    redeemAmt := zp.value;
    if !isFullRedemption {
      redeemAmt := remaining;
    }
    redeemAmt := Truncate(redeemAmt, amountPrec);
    var price := zp.holding.marketPrice;
    var units := 0.0;
    if price > 0.0 {
      units := Truncate(redeemAmt / price, unitPrec);
    }
    var tradeErr := CheckRedemptionMinimums(
      redeemAmt, units, isFullRedemption, zp.holding.value, zp.holding.units,
      zp.holding.minRedemptionAmt, zp.holding.minRedemptionUnits,
      zp.holding.minHoldingAmt, zp.holding.minHoldingUnits);
    d := Models.TransactionDetail(zp.holding.ticker, Models.Sell, redeemAmt, units, tradeErr);
  }

  /** Phase 1: sell the queued products in order until the budget is used up. */
  method RedeemZeroWeight(queue: seq<ZwProduct>, orderAmount: real, amountPrec: nat, unitPrec: nat)
    returns (details: seq<Models.TransactionDetail>, remaining: real)
    ensures details == Phase1(queue, orderAmount, amountPrec, unitPrec)
    ensures remaining == Phase1Left(queue, orderAmount, amountPrec)
  {
    details, remaining := [], orderAmount;
    var k := 0;
    while k < |queue|
      invariant 0 <= k <= |queue|
      invariant details + Phase1(queue[k..], remaining, amountPrec, unitPrec)
        == Phase1(queue, orderAmount, amountPrec, unitPrec)
      invariant Phase1Left(queue[k..], remaining, amountPrec) == Phase1Left(queue, orderAmount, amountPrec)
    {
      if remaining == 0.0 {
        break;
      }
      var d, redeemAmt := SellZeroWeight(queue[k], remaining, amountPrec, unitPrec);
      Phase1Step(queue, k, remaining, amountPrec, unitPrec);
      details := details + [d];
      remaining := remaining - redeemAmt;
      k := k + 1;
    }
  }

  /** One more model item extends the phase-2 allocations by its own, unless
      its weight is zero. */
  lemma OverweightAllocsStep(mps: seq<ModelItem>, k: nat, hm: map<string, Holding>, postTotal: real)
    requires k < |mps|
    ensures var mp := mps[k];
      OverweightAllocs(mps[..k + 1], hm, postTotal) ==
        OverweightAllocs(mps[..k], hm, postTotal)
          + if mp.weight == 0.0 then []
            else [RedeemAlloc(mp, Held(hm, mp.ticker), Overweight(mp.weight, postTotal, HeldValue(hm, mp.ticker)))]
  {
    assert mps[..k + 1][..k] == mps[..k];
  }

  lemma IdealsAppend(allocs: seq<RedeemAlloc>, a: RedeemAlloc)
    ensures Sum(Ideals(allocs + [a])) == Sum(Ideals(allocs)) + a.ideal
  {
    assert Ideals(allocs + [a]) == Ideals(allocs) + [a.ideal];
    SumAppend(Ideals(allocs), a.ideal);
  }

  /** The allocation pass: how far each model product of non-zero weight is
      above its target, and the total. */
  method CollectOverweights(mps: seq<ModelItem>, holdingsMap: map<string, Holding>, postTotal: real)
    returns (allocs: seq<RedeemAlloc>, totalIdeal: real)
    ensures allocs == OverweightAllocs(mps, holdingsMap, postTotal)
    ensures totalIdeal == Sum(Ideals(allocs))
  {
    allocs, totalIdeal := [], 0.0;
    for k := 0 to |mps|
      invariant allocs == OverweightAllocs(mps[..k], holdingsMap, postTotal)
      invariant totalIdeal == Sum(Ideals(allocs))
    {
      var mp := mps[k];
      OverweightAllocsStep(mps, k, holdingsMap, postTotal);
      if mp.weight != 0.0 {
        var currentVal := 0.0;
        var hp: Option<Holding> := None;
        if mp.ticker in holdingsMap {
          currentVal := holdingsMap[mp.ticker].value;
          hp := Some(holdingsMap[mp.ticker]);
        }
        var ideal := currentVal - mp.weight * postTotal;
        if ideal < 0.0 {
          ideal := 0.0;
        }
        var a := RedeemAlloc(mp, hp, ideal);
        assert a.ideal == Overweight(mp.weight, postTotal, HeldValue(holdingsMap, mp.ticker));
        IdealsAppend(allocs, a);
        allocs := allocs + [a];
        totalIdeal := totalIdeal + ideal;
      }
    }
    assert mps[..|mps|] == mps;
  }

  /** Phase 2: each allocation's part of the remaining budget, truncated,
      with its units and checks. */
  method RedeemOverweights(allocs: seq<RedeemAlloc>, totalIdeal: real, remaining: real,
                           amountPrec: nat, unitPrec: nat)
    returns (details: seq<Models.TransactionDetail>)
    ensures details == Phase2(allocs, Phase2Shares(allocs, totalIdeal, remaining), amountPrec, unitPrec)
  {
    ghost var shares := Phase2Shares(allocs, totalIdeal, remaining);
    details := [];
    for k := 0 to |allocs|
      invariant |details| == k
      invariant forall j :: 0 <= j < k ==> details[j] == Phase2Detail(allocs[j], shares[j], amountPrec, unitPrec)
    {
      var a := allocs[k];
      var redeemAmt := 0.0;
      if totalIdeal != 0.0 && remaining > 0.0 {
        var share := a.ideal / totalIdeal * remaining;
        assert share == shares[k];
        redeemAmt := Truncate(share, amountPrec);
      } else {
        assert shares[k] == 0.0;
        TruncateOnGrid(0.0, amountPrec);
      }
      var price := a.mp.marketPrice;
      var units := 0.0;
      if price > 0.0 && redeemAmt > 0.0 {
        units := Truncate(redeemAmt / price, unitPrec);
      }
      var tradeErr: Option<Models.Violation> := None;
      if redeemAmt > 0.0 && a.holding.Some? {
        var currentVal := a.holding.value.value;
        var isFullRedemption := redeemAmt >= currentVal;
        tradeErr := CheckRedemptionMinimums(
          redeemAmt, units, isFullRedemption, a.holding.value.value, a.holding.value.units,
          a.mp.minRedemptionAmt, a.mp.minRedemptionUnits, a.mp.minHoldingAmt, a.mp.minHoldingUnits);
      }
      var d := Models.TransactionDetail(a.mp.ticker, Models.Sell, redeemAmt, units, tradeErr);
      assert d == Phase2Detail(a, shares[k], amountPrec, unitPrec);
      details := details + [d];
    }
  }

  /** Splits a redemption order: phase 1 over the zero-weight products in
      ascending order of value, then phase 2 over the overweight model
      products. Selling happens in the processing order of some phase-1
      queue of the goal; for every such queue, the lemmas above describe the
      result. */
  method ProcessRedemption(goal: Goal, amountPrec: nat, unitPrec: nat) returns (result: Models.GoalResult)
    ensures exists queue :: IsQueue(goal, queue) && result == Redeem(goal, queue, amountPrec, unitPrec)
    ensures result.goalId == goal.goalId && result.transactionType == goal.orderType
    ensures |result.transactionDetails| >= |ActiveItems(goal.modelPortfolioDetails)|
    ensures goal.orderAmount >= 0.0 ==>
      && (forall i :: 0 <= i < |result.transactionDetails| ==>
            result.transactionDetails[i].direction == Models.Sell && result.transactionDetails[i].value >= 0.0)
      && Sum(Models.Amounts(result.transactionDetails)) <= goal.orderAmount
  {
    var orderAmount := goal.orderAmount;
    var holdingsMap, vTotal := CollectPositiveHoldings(goal.goalDetails);
    var modelMap := CollectModelMap(goal.modelPortfolioDetails);
    var zw := CollectCandidates(goal.goalDetails, modelMap);
    var queue := SortedQueue(zw);
    assert IsQueue(goal, queue);
    var details, remaining := RedeemZeroWeight(queue, orderAmount, amountPrec, unitPrec);
    var postTotal := vTotal - orderAmount;
    var allocs, totalIdeal := CollectOverweights(goal.modelPortfolioDetails, holdingsMap, postTotal);
    var sold := RedeemOverweights(allocs, totalIdeal, remaining, amountPrec, unitPrec);
    details := details + sold;
    result := Models.GoalResult(goal.goalId, goal.orderType, details);
    assert result == Redeem(goal, queue, amountPrec, unitPrec);
    RedeemGuarantees(goal, queue, amountPrec, unitPrec);
  }
}
