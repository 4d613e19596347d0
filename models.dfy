/**
 * The request and response records exchanged with the splitter. Request
 * fields are the decimal strings the client sends; the response carries the
 * emitted amounts and unit counts as exact values (their fixed-place string
 * rendering is not part of the model).
 */
module Models {
  import opened Wrappers

  datatype SplitRequest = SplitRequest(
    amountDecimalPrecision: string,
    unitDecimalPrecision: string,
    volatilityBuffer: string,
    goals: seq<Goal>)

  datatype Goal = Goal(
    goalId: string,
    goalDetails: seq<Holding>,
    orderAmount: string,
    orderType: string,
    modelPortfolioId: string,
    modelPortfolioDetails: seq<ModelItem>)

  /** A product the goal currently holds. */
  datatype Holding = Holding(
    ticker: string,
    units: string,
    marketPrice: string,
    value: string,
    minInitialInvestmentAmt: string,
    minInitialInvestmentUnits: string,
    minTopupAmt: string,
    minTopupUnits: string,
    minRedemptionAmt: string,
    minRedemptionUnits: string,
    minHoldingAmt: string,
    minHoldingUnits: string,
    transactionFee: string)

  /** A product of the model portfolio with its target weight. */
  datatype ModelItem = ModelItem(
    ticker: string,
    weight: string,
    marketPrice: string,
    minInitialInvestmentAmt: string,
    minInitialInvestmentUnits: string,
    minTopupAmt: string,
    minTopupUnits: string,
    minRedemptionAmt: string,
    minRedemptionUnits: string,
    minHoldingAmt: string,
    minHoldingUnits: string,
    transactionFee: string)

  datatype Direction = Buy | Sell {
    function Name(): string
    {
      match this
      case Buy => "BUY"
      case Sell => "SELL"
    }
  }

  /** The business-rule breaches a trade can be flagged with. */
  datatype Violation =
    | MinInvestmentViolation
    | MinTopupViolation
    | MinRedemptionViolation
    | MinHoldingViolation
  {
    function Code(): string
    {
      match this
      case MinInvestmentViolation => "MIN_INVESTMENT_VIOLATION"
      case MinTopupViolation => "MIN_TOPUP_VIOLATION"
      case MinRedemptionViolation => "MIN_REDEMPTION_VIOLATION"
      case MinHoldingViolation => "MIN_HOLDING_VIOLATION"
    }

    function Message(): string
    {
      match this
      case MinInvestmentViolation =>
        "Cannot trade this ticker because it breaches the minimum initial investment amount"
      case MinTopupViolation =>
        "Cannot trade this ticker because it breaches the minimum topup amount"
      case MinRedemptionViolation =>
        "Cannot trade this ticker because it breaches the minimum redemption amount"
      case MinHoldingViolation =>
        "Cannot trade this ticker because the remaining holding would breach the minimum holding amount"
    }
  }

  datatype TransactionDetail = TransactionDetail(
    ticker: string,
    direction: Direction,
    value: real,
    units: real,
    error: Option<Violation>)

  datatype GoalResult = GoalResult(
    goalId: string,
    transactionType: string,
    transactionDetails: seq<TransactionDetail>)

  /** The emitted amounts, in output order. */
  function Amounts(ds: seq<TransactionDetail>): (r: seq<real>)
    ensures |r| == |ds|
    ensures forall i :: 0 <= i < |ds| ==> r[i] == ds[i].value
  {
    seq(|ds|, i requires 0 <= i < |ds| => ds[i].value)
  }

  lemma AmountsAppend(ds: seq<TransactionDetail>, es: seq<TransactionDetail>)
    ensures Amounts(ds + es) == Amounts(ds) + Amounts(es)
  {
  }
}
