/**
 * The request validator: range and precision checks on the decimal strings
 * of a request, run in a fixed order and stopping at the first failure. The
 * lemmas at the end say what an accepted request means for the values the
 * splitters read: amounts on the precision grid, rates below one, weights in
 * [0, 1] and a positive order.
 */
module Validate {
  import opened Wrappers
  import opened Text
  import Decimal
  import Models
  import Portfolio
  import Investment
  import Redemption

  /** Why a request was rejected. */
  datatype ValidationError =
    | NotDecimal(field: string)
    | NotPositive(field: string)
    | Negative(field: string)
    | TooManyPlaces(field: string, maxPrec: int)
    | BadPrice(field: string)
    | BadRate(field: string)
    | BadWeight(ticker: string)
    | NotNonNegativeInt(field: string)
    | Empty(field: string)
    | EmptyTicker(list: string)
    | RedemptionWithoutHoldings
  {
    function Message(): string
    {
      match this
      case NotDecimal(f) => f + ": must be a valid decimal number"
      case NotPositive(f) => f + ": must be greater than 0"
      case Negative(f) => f + ": must be >= 0"
      case TooManyPlaces(f, p) => f + ": must have at most " + IntToString(p) + " decimal place(s)"
      case BadPrice(f) => f + ": must be a number greater than 0"
      case BadRate(f) => f + ": must be a number >= 0 and < 1"
      case BadWeight(t) => "weight (" + t + "): must be a number between 0 and 1"
      case NotNonNegativeInt(f) => f + ": must be a non-negative integer"
      case Empty(f) => f + " must not be empty"
      case EmptyTicker(l) => l + ": ticker must not be empty"
      case RedemptionWithoutHoldings => "goalDetails must not be empty for redemption orders"
    }
  }

  function NatToString(n: nat): string
  {
    var digit := ['0' + (n % 10) as char];
    if n < 10 then digit else NatToString(n / 10) + digit
  }

  function IntToString(i: int): string
  {
    if i < 0 then "-" + NatToString(-i) else NatToString(i)
  }

  /** The decimal digits of `n`, most significant first. */
  lemma {:induction false} NatToStringDigits(n: nat)
    ensures var t := NatToString(n);
      |t| > 0 && IsDigit(t[0]) && AllDigits(t) && DigitsValue(t) == n
  {
    var digit := ['0' + (n % 10) as char];
    if n >= 10 {
      NatToStringDigits(n / 10);
      var t := NatToString(n);
      var u := NatToString(n / 10);
      assert t == u + digit;
      assert t[..|t| - 1] == u && t[0] == u[0];
      assert AllDigits(t) by {
        forall i | 0 <= i < |t| ensures IsDigit(t[i]) {
          if i < |u| { assert t[i] == u[i]; }
        }
      }
      assert DigitsValue(t) == DigitsValue(u) * 10 + n % 10;
    }
  }

  /** The integer parser reads back every 64-bit integer as it is written. */
  lemma ParseIntToString(n: int)
    requires MinInt64 <= n <= MaxInt64
    ensures ParseInt(IntToString(n)) == Some(n)
  {
    var m := if n < 0 then -n else n;
    NatToStringDigits(m);
    var t := NatToString(m);
    if n < 0 {
      var s := "-" + t;
      assert s[1..] == t && Unsigned(s) == t;
    } else {
      assert Unsigned(t) == t;
    }
  }

  predicate Blank(s: string)
  {
    TrimSpace(s) == []
  }

  // ---------------------------------------------------------------------------
  // Field validators
  // ---------------------------------------------------------------------------

  /** The sign an amount must have: positive, or at least non-negative. */
  predicate SignOk(v: real, mustBePositive: bool)
  {
    if mustBePositive then v > 0.0 else v >= 0.0
  }

  /** A decimal amount or unit count: it must parse once trimmed, be positive
      (or non-negative), and have at most `maxPrec` places; the checks run in
      that order and the first failure is reported. */
  function ValidateAmountField(s: string, field: string, mustBePositive: bool, maxPrec: int)
    : (r: Outcome<ValidationError>)
    ensures var t := TrimSpace(s);
      r.Pass? <==>
        && ParseDecimal(t).Some?
        && (mustBePositive ==> ParseDecimal(t).value > 0.0)
        && (!mustBePositive ==> ParseDecimal(t).value >= 0.0)
        && DecimalPlaces(t) <= maxPrec
    ensures ParseDecimal(TrimSpace(s)).None? ==> r == Fail(NotDecimal(field))
    ensures var t := TrimSpace(s);
      (ParseDecimal(t).Some? && !SignOk(ParseDecimal(t).value, mustBePositive))
        ==> r == Fail(if mustBePositive then NotPositive(field) else Negative(field))
    ensures var t := TrimSpace(s);
      (ParseDecimal(t).Some? && SignOk(ParseDecimal(t).value, mustBePositive) && DecimalPlaces(t) > maxPrec)
        ==> r == Fail(TooManyPlaces(field, maxPrec))
  {
    var t := TrimSpace(s);
    match ParseDecimal(t)
    case None => Fail(NotDecimal(field))
    case Some(d) =>
      if mustBePositive && !(d > 0.0) then Fail(NotPositive(field))
      else if !mustBePositive && d < 0.0 then Fail(Negative(field))
      else if DecimalPlaces(t) > maxPrec then Fail(TooManyPlaces(field, maxPrec))
      else Pass
  }

  /** A strictly positive decimal, with no precision limit. */
  function ValidatePriceField(s: string, field: string): (r: Outcome<ValidationError>)
    ensures r.Pass? <==> ParseDecimal(TrimSpace(s)).Some? && ParseDecimal(TrimSpace(s)).value > 0.0
    ensures r.Fail? ==> r.error == BadPrice(field)
  {
    match ParseDecimal(TrimSpace(s))
    case Some(d) => if d > 0.0 then Pass else Fail(BadPrice(field))
    case None => Fail(BadPrice(field))
  }

  /** A decimal in [0, 1): fees and the volatility buffer. */
  function ValidateRateField(s: string, field: string): (r: Outcome<ValidationError>)
    ensures r.Pass? <==>
      ParseDecimal(TrimSpace(s)).Some? && 0.0 <= ParseDecimal(TrimSpace(s)).value < 1.0
    ensures r.Fail? ==> r.error == BadRate(field)
  {
    match ParseDecimal(TrimSpace(s))
    case Some(d) => if d < 0.0 || d >= 1.0 then Fail(BadRate(field)) else Pass
    case None => Fail(BadRate(field))
  }

  /** Like ValidateAmountField with `mustBePositive` false, but a blank field
      is accepted. */
  function ValidateOptionalAmountField(s: string, field: string, maxPrec: int): (r: Outcome<ValidationError>)
    ensures (forall i :: 0 <= i < |s| ==> IsSpace(s[i])) ==> r.Pass?
    ensures !Blank(s) ==> r == ValidateAmountField(s, field, false, maxPrec)
  {
    if Blank(s) then Pass else ValidateAmountField(s, field, false, maxPrec)
  }

  /** Like ValidateRateField, but a blank field is accepted. */
  function ValidateOptionalRateField(s: string, field: string): (r: Outcome<ValidationError>)
    ensures (forall i :: 0 <= i < |s| ==> IsSpace(s[i])) ==> r.Pass?
    ensures !Blank(s) ==> r == ValidateRateField(s, field)
  {
    if Blank(s) then Pass else ValidateRateField(s, field)
  }

  /** A non-negative integer, once trimmed. */
  function ParseNonNegInt(s: string, field: string): (r: Result<int, ValidationError>)
    ensures r.Success? <==> ParseInt(TrimSpace(s)).Some? && ParseInt(TrimSpace(s)).value >= 0
    ensures r.Success? ==> r.value >= 0 && ParseInt(TrimSpace(s)) == Some(r.value)
    ensures r.Failure? ==> r.error == NotNonNegativeInt(field)
  {
    match ParseInt(TrimSpace(s))
    case Some(n) => if n < 0 then Failure(NotNonNegativeInt(field)) else Success(n)
    case None => Failure(NotNonNegativeInt(field))
  }

  /** The first failure among checks run in order, or Pass when none fails. */
  function FirstFailure(os: seq<Outcome<ValidationError>>): (r: Outcome<ValidationError>)
    ensures r.Pass? <==> forall i :: 0 <= i < |os| ==> os[i].Pass?
    ensures r.Fail? ==>
      exists i :: 0 <= i < |os| && r == os[i] && (forall j :: 0 <= j < i ==> os[j].Pass?)
  {
    if |os| == 0 then Pass
    else if os[0].Fail? then os[0]
    else
      var rest := FirstFailure(os[1..]);
      assert forall i :: 0 < i < |os| ==> os[1..][i - 1] == os[i];
      rest
  }

  /** Each optional amount field's outcome, in order. */
  function OptionalAmountOutcomes(fields: seq<(string, string)>, maxPrec: int)
    : (os: seq<Outcome<ValidationError>>)
    ensures |os| == |fields|
    ensures forall i :: 0 <= i < |fields| ==> os[i] == ValidateOptionalAmountField(fields[i].0, fields[i].1, maxPrec)
  {
    seq(|fields|, i requires 0 <= i < |fields| => ValidateOptionalAmountField(fields[i].0, fields[i].1, maxPrec))
  }

  /** The optional amount fields `(value, name)`, each checked in order. */
  function FirstOptionalAmountError(fields: seq<(string, string)>, maxPrec: int): (r: Outcome<ValidationError>)
    ensures r.Pass? <==>
      forall i :: 0 <= i < |fields| ==> ValidateOptionalAmountField(fields[i].0, fields[i].1, maxPrec).Pass?
  {
    FirstFailure(OptionalAmountOutcomes(fields, maxPrec))
  }

  // ---------------------------------------------------------------------------
  // Record validators
  // ---------------------------------------------------------------------------

  function Labelled(name: string, ticker: string): string
  {
    name + " (" + ticker + ")"
  }

  function HoldingAmountFields(h: Models.Holding): seq<(string, string)>
  {
    [(h.minInitialInvestmentAmt, Labelled("minInitialInvestmentAmt", h.ticker)),
     (h.minTopupAmt, Labelled("minTopupAmt", h.ticker)),
     (h.minRedemptionAmt, Labelled("minRedemptionAmt", h.ticker)),
     (h.minHoldingAmt, Labelled("minHoldingAmt", h.ticker))]
  }

  function HoldingUnitFields(h: Models.Holding): seq<(string, string)>
  {
    [(h.minInitialInvestmentUnits, Labelled("minInitialInvestmentUnits", h.ticker)),
     (h.minTopupUnits, Labelled("minTopupUnits", h.ticker)),
     (h.minRedemptionUnits, Labelled("minRedemptionUnits", h.ticker)),
     (h.minHoldingUnits, Labelled("minHoldingUnits", h.ticker))]
  }

  function ItemAmountFields(mp: Models.ModelItem): seq<(string, string)>
  {
    [(mp.minInitialInvestmentAmt, Labelled("minInitialInvestmentAmt", mp.ticker)),
     (mp.minTopupAmt, Labelled("minTopupAmt", mp.ticker)),
     (mp.minRedemptionAmt, Labelled("minRedemptionAmt", mp.ticker)),
     (mp.minHoldingAmt, Labelled("minHoldingAmt", mp.ticker))]
  }

  function ItemUnitFields(mp: Models.ModelItem): seq<(string, string)>
  {
    [(mp.minInitialInvestmentUnits, Labelled("minInitialInvestmentUnits", mp.ticker)),
     (mp.minTopupUnits, Labelled("minTopupUnits", mp.ticker)),
     (mp.minRedemptionUnits, Labelled("minRedemptionUnits", mp.ticker)),
     (mp.minHoldingUnits, Labelled("minHoldingUnits", mp.ticker))]
  }

  /** A holding: non-blank ticker; units on the unit grid; a positive price;
      a value on the amount grid; optional minimums on their grids; an
      optional fee in [0, 1). */
  function ValidateHolding(h: Models.Holding, amountPrec: int, unitPrec: int): (r: Outcome<ValidationError>)
    ensures r.Pass? <==>
      && !Blank(h.ticker)
      && ValidateAmountField(h.units, Labelled("units", h.ticker), false, unitPrec).Pass?
      && ValidatePriceField(h.marketPrice, Labelled("marketPrice", h.ticker)).Pass?
      && ValidateAmountField(h.value, Labelled("value", h.ticker), false, amountPrec).Pass?
      && FirstOptionalAmountError(HoldingAmountFields(h), amountPrec).Pass?
      && FirstOptionalAmountError(HoldingUnitFields(h), unitPrec).Pass?
      && ValidateOptionalRateField(h.transactionFee, Labelled("transactionFee", h.ticker)).Pass?
    ensures Blank(h.ticker) ==> r == Fail(EmptyTicker("goalDetails"))
  {
    if Blank(h.ticker) then Fail(EmptyTicker("goalDetails"))
    else
      var units := ValidateAmountField(h.units, Labelled("units", h.ticker), false, unitPrec);
      var price := ValidatePriceField(h.marketPrice, Labelled("marketPrice", h.ticker));
      var value := ValidateAmountField(h.value, Labelled("value", h.ticker), false, amountPrec);
      var amounts := FirstOptionalAmountError(HoldingAmountFields(h), amountPrec);
      var unitMins := FirstOptionalAmountError(HoldingUnitFields(h), unitPrec);
      if units.Fail? then units
      else if price.Fail? then price
      else if value.Fail? then value
      else if amounts.Fail? then amounts
      else if unitMins.Fail? then unitMins
      else ValidateOptionalRateField(h.transactionFee, Labelled("transactionFee", h.ticker))
  }

  /** The weight is parsed as sent, without trimming, and must lie in [0, 1]. */
  predicate WeightInRange(weight: string)
  {
    ParseDecimal(weight).Some? && 0.0 <= ParseDecimal(weight).value <= 1.0
  }

  /** A model item: non-blank ticker; an untrimmed weight in [0, 1], both
      ends included; a positive price; optional minimums on their grids; an
      optional fee in [0, 1). */
  function ValidateModelItem(mp: Models.ModelItem, amountPrec: int, unitPrec: int): (r: Outcome<ValidationError>)
    ensures r.Pass? <==>
      && !Blank(mp.ticker)
      && WeightInRange(mp.weight)
      && ValidatePriceField(mp.marketPrice, Labelled("marketPrice", mp.ticker)).Pass?
      && FirstOptionalAmountError(ItemAmountFields(mp), amountPrec).Pass?
      && FirstOptionalAmountError(ItemUnitFields(mp), unitPrec).Pass?
      && ValidateOptionalRateField(mp.transactionFee, Labelled("transactionFee", mp.ticker)).Pass?
    ensures !Blank(mp.ticker) && !WeightInRange(mp.weight) ==> r == Fail(BadWeight(mp.ticker))
  {
    if Blank(mp.ticker) then Fail(EmptyTicker("modelPortfolioDetails"))
    else if !WeightInRange(mp.weight) then Fail(BadWeight(mp.ticker))
    else
      var price := ValidatePriceField(mp.marketPrice, Labelled("marketPrice", mp.ticker));
      var amounts := FirstOptionalAmountError(ItemAmountFields(mp), amountPrec);
      var unitMins := FirstOptionalAmountError(ItemUnitFields(mp), unitPrec);
      if price.Fail? then price
      else if amounts.Fail? then amounts
      else if unitMins.Fail? then unitMins
      else ValidateOptionalRateField(mp.transactionFee, Labelled("transactionFee", mp.ticker))
  }

  /** Each holding's outcome, in order. */
  function HoldingOutcomes(hs: seq<Models.Holding>, amountPrec: int, unitPrec: int)
    : (os: seq<Outcome<ValidationError>>)
    ensures |os| == |hs|
    ensures forall i :: 0 <= i < |hs| ==> os[i] == ValidateHolding(hs[i], amountPrec, unitPrec)
  {
    seq(|hs|, i requires 0 <= i < |hs| => ValidateHolding(hs[i], amountPrec, unitPrec))
  }

  /** The first holding that fails, in order. */
  function FirstHoldingError(hs: seq<Models.Holding>, amountPrec: int, unitPrec: int): (r: Outcome<ValidationError>)
    ensures r.Pass? <==>
      forall i :: 0 <= i < |hs| ==> ValidateHolding(hs[i], amountPrec, unitPrec).Pass?
  {
    FirstFailure(HoldingOutcomes(hs, amountPrec, unitPrec))
  }


  /** Each model item's outcome, in order. */
  function ModelItemOutcomes(mps: seq<Models.ModelItem>, amountPrec: int, unitPrec: int)
    : (os: seq<Outcome<ValidationError>>)
    ensures |os| == |mps|
    ensures forall i :: 0 <= i < |mps| ==> os[i] == ValidateModelItem(mps[i], amountPrec, unitPrec)
  {
    seq(|mps|, i requires 0 <= i < |mps| => ValidateModelItem(mps[i], amountPrec, unitPrec))
  }

  /** The first model item that fails, in order. */
  function FirstModelItemError(mps: seq<Models.ModelItem>, amountPrec: int, unitPrec: int): (r: Outcome<ValidationError>)
    ensures r.Pass? <==>
      forall i :: 0 <= i < |mps| ==> ValidateModelItem(mps[i], amountPrec, unitPrec).Pass?
  {
    FirstFailure(ModelItemOutcomes(mps, amountPrec, unitPrec))
  }

  /** An order type that, lower-cased, reads "redemption". */
  predicate IsRedemption(orderType: string)
  {
    ToLowerAscii(orderType) == "redemption"
  }

  /** The order types read as redemptions are the ten-letter word
      "redemption" in any mix of ASCII upper and lower case. */
  lemma IsRedemptionSpelled(s: string)
    ensures IsRedemption(s) <==>
      |s| == 10 && forall i :: 0 <= i < 10 ==> s[i] == "redemption"[i] || s[i] == "REDEMPTION"[i]
  {
    var lower, upper := "redemption", "REDEMPTION";
    assert forall i :: 0 <= i < 10 ==>
      && !IsAsciiUpper(lower[i]) && IsAsciiUpper(upper[i]) && upper[i] as int + 32 == lower[i] as int;
    var r := ToLowerAscii(s);
    if |s| == 10 && forall i :: 0 <= i < 10 ==> s[i] == lower[i] || s[i] == upper[i] {
      forall i | 0 <= i < 10 ensures r[i] == lower[i] {
        if s[i] == upper[i] { assert r[i] != s[i]; }
      }
      assert r == lower;
    }
  }

  /** A goal: non-blank identifiers and order type; a positive order amount on
      the amount grid; holdings for a redemption; valid holdings; a non-empty
      model of valid items. */
  function ValidateGoal(g: Models.Goal, amountPrec: int, unitPrec: int): (r: Outcome<ValidationError>)
    ensures r.Pass? <==>
      && !Blank(g.goalId) && !Blank(g.modelPortfolioId) && !Blank(g.orderType)
      && ValidateAmountField(g.orderAmount, "orderAmount", true, amountPrec).Pass?
      && !(IsRedemption(g.orderType) && |g.goalDetails| == 0)
      && (forall i :: 0 <= i < |g.goalDetails| ==> ValidateHolding(g.goalDetails[i], amountPrec, unitPrec).Pass?)
      && |g.modelPortfolioDetails| > 0
      && (forall i :: 0 <= i < |g.modelPortfolioDetails| ==>
            ValidateModelItem(g.modelPortfolioDetails[i], amountPrec, unitPrec).Pass?)
    ensures && !Blank(g.goalId) && !Blank(g.modelPortfolioId) && !Blank(g.orderType)
            && ValidateAmountField(g.orderAmount, "orderAmount", true, amountPrec).Pass?
            && IsRedemption(g.orderType) && |g.goalDetails| == 0
            ==> r == Fail(RedemptionWithoutHoldings)
  {
    if Blank(g.goalId) then Fail(Empty("goalId"))
    else if Blank(g.modelPortfolioId) then Fail(Empty("modelPortfolioId"))
    else if Blank(g.orderType) then Fail(Empty("orderType"))
    else
      var amount := ValidateAmountField(g.orderAmount, "orderAmount", true, amountPrec);
      if amount.Fail? then amount
      else if IsRedemption(g.orderType) && |g.goalDetails| == 0 then Fail(RedemptionWithoutHoldings)
      else
        var holdings := FirstHoldingError(g.goalDetails, amountPrec, unitPrec);
        if holdings.Fail? then holdings
        else if |g.modelPortfolioDetails| == 0 then Fail(Empty("modelPortfolioDetails"))
        else FirstModelItemError(g.modelPortfolioDetails, amountPrec, unitPrec)
  }

  /** Each goal's outcome, in order. */
  function GoalOutcomes(goals: seq<Models.Goal>, amountPrec: int, unitPrec: int)
    : (os: seq<Outcome<ValidationError>>)
    ensures |os| == |goals|
    ensures forall i :: 0 <= i < |goals| ==> os[i] == ValidateGoal(goals[i], amountPrec, unitPrec)
  {
    seq(|goals|, i requires 0 <= i < |goals| => ValidateGoal(goals[i], amountPrec, unitPrec))
  }

  /** The first goal that fails, in order. */
  function FirstGoalError(goals: seq<Models.Goal>, amountPrec: int, unitPrec: int): (r: Outcome<ValidationError>)
    ensures r.Pass? <==>
      forall i :: 0 <= i < |goals| ==> ValidateGoal(goals[i], amountPrec, unitPrec).Pass?
  {
    FirstFailure(GoalOutcomes(goals, amountPrec, unitPrec))
  }


  /** A request: both precisions non-negative integers; the volatility buffer,
      when sent, a rate; at least one goal; every goal valid under the parsed
      precisions. On success, the two precisions. */
  function ValidateRequest(req: Models.SplitRequest): (r: Result<(int, int), ValidationError>)
    ensures r.Success? ==>
      && ParseNonNegInt(req.amountDecimalPrecision, "amountDecimalPrecision") == Success(r.value.0)
      && ParseNonNegInt(req.unitDecimalPrecision, "unitDecimalPrecision") == Success(r.value.1)
      && (req.volatilityBuffer != "" ==> ValidateRateField(req.volatilityBuffer, "volatilityBuffer").Pass?)
      && |req.goals| > 0
      && forall i :: 0 <= i < |req.goals| ==> ValidateGoal(req.goals[i], r.value.0, r.value.1).Pass?
  {
    match ParseNonNegInt(req.amountDecimalPrecision, "amountDecimalPrecision")
    case Failure(e) => Failure(e)
    case Success(ap) =>
      match ParseNonNegInt(req.unitDecimalPrecision, "unitDecimalPrecision")
      case Failure(e) => Failure(e)
      case Success(up) =>
        if req.volatilityBuffer != "" && ValidateRateField(req.volatilityBuffer, "volatilityBuffer").Fail? then
          Failure(ValidateRateField(req.volatilityBuffer, "volatilityBuffer").error)
        else if |req.goals| == 0 then Failure(Empty("goals"))
        else
          match FirstGoalError(req.goals, ap, up)
          case Fail(e) => Failure(e)
          case Pass => Success((ap, up))
  }

  /** The converse: a request meeting every rule is accepted. */
  lemma RequestAccepted(req: Models.SplitRequest)
    requires ParseNonNegInt(req.amountDecimalPrecision, "amountDecimalPrecision").Success?
    requires ParseNonNegInt(req.unitDecimalPrecision, "unitDecimalPrecision").Success?
    requires req.volatilityBuffer != "" ==> ValidateRateField(req.volatilityBuffer, "volatilityBuffer").Pass?
    requires |req.goals| > 0
    requires var ap := ParseNonNegInt(req.amountDecimalPrecision, "amountDecimalPrecision").value;
      var up := ParseNonNegInt(req.unitDecimalPrecision, "unitDecimalPrecision").value;
      forall i :: 0 <= i < |req.goals| ==> ValidateGoal(req.goals[i], ap, up).Pass?
    ensures ValidateRequest(req).Success?
  {
    var ap := ParseNonNegInt(req.amountDecimalPrecision, "amountDecimalPrecision").value;
    var up := ParseNonNegInt(req.unitDecimalPrecision, "unitDecimalPrecision").value;
    assert FirstGoalError(req.goals, ap, up).Pass?;
  }

  // ---------------------------------------------------------------------------
  // What the splitters read from an accepted request
  // ---------------------------------------------------------------------------

  /** An accepted amount field is on the grid of its precision, which is
      therefore non-negative. */
  lemma AcceptedAmountOnGrid(s: string, field: string, mustBePositive: bool, maxPrec: int)
    requires ValidateAmountField(s, field, mustBePositive, maxPrec).Pass?
    ensures maxPrec >= 0
    ensures Decimal.OnGrid(ParseDecimal(TrimSpace(s)).value, maxPrec as nat)
  {
    ParsedOnGrid(TrimSpace(s), maxPrec as nat);
  }

  /** The splitters parse the field as sent, without trimming, and read zero
      when that fails; an accepted amount field then reads as its validated
      value or zero, either way non-negative and on the grid. */
  lemma AcceptedAmountRead(s: string, field: string, mustBePositive: bool, maxPrec: int)
    requires ValidateAmountField(s, field, mustBePositive, maxPrec).Pass?
    ensures var v := ParseOrZero(s);
      && maxPrec >= 0
      && (v == 0.0 || v == ParseDecimal(TrimSpace(s)).value)
      && v >= 0.0 && Decimal.OnGrid(v, maxPrec as nat)
      && (mustBePositive && ParseDecimal(s).Some? ==> v > 0.0)
  {
    AcceptedAmountOnGrid(s, field, mustBePositive, maxPrec);
    UntrimmedParse(s);
    Decimal.OnGridZero(maxPrec as nat);
  }

  /** An accepted optional amount reads as a non-negative value on the grid. */
  lemma OptionalAmountRead(s: string, field: string, maxPrec: nat)
    requires ValidateOptionalAmountField(s, field, maxPrec).Pass?
    ensures ParseOrZero(s) >= 0.0 && Decimal.OnGrid(ParseOrZero(s), maxPrec)
  {
    if Blank(s) {
      BlankReadsZero(s);
      Decimal.OnGridZero(maxPrec);
    } else {
      AcceptedAmountRead(s, field, false, maxPrec);
    }
  }

  /** A blank string does not parse, so it reads as zero. */
  lemma BlankReadsZero(s: string)
    requires Blank(s)
    ensures ParseDecimal(s).None? && ParseOrZero(s) == 0.0
  {
    if ParseDecimal(s).Some? {
      ParsedIsTrimmed(s);
      assert false;
    }
  }

  /** An accepted optional rate reads as a value in [0, 1). */
  lemma OptionalRateRead(s: string, field: string)
    requires ValidateOptionalRateField(s, field).Pass?
    ensures 0.0 <= ParseOrZero(s) < 1.0
  {
    if Blank(s) {
      BlankReadsZero(s);
    } else {
      UntrimmedParse(s);
    }
  }

  /** The values a splitter reads from an accepted holding: a price, a value
      on the amount grid, minimums on their grids, a fee in [0, 1). */
  lemma HoldingRead(h: Models.Holding, amountPrec: nat, unitPrec: nat)
    requires ValidateHolding(h, amountPrec, unitPrec).Pass?
    ensures var d := Portfolio.DecodeHolding(h);
      && d.value >= 0.0 && Decimal.OnGrid(d.value, amountPrec)
      && d.units >= 0.0 && Decimal.OnGrid(d.units, unitPrec)
      && d.minRedemptionAmt >= 0.0 && d.minHoldingAmt >= 0.0
      && d.minRedemptionUnits >= 0.0 && d.minHoldingUnits >= 0.0
      && 0.0 <= d.transactionFee < 1.0
  {
    AcceptedAmountRead(h.value, Labelled("value", h.ticker), false, amountPrec);
    AcceptedAmountRead(h.units, Labelled("units", h.ticker), false, unitPrec);
    var am, um := HoldingAmountFields(h), HoldingUnitFields(h);
    OptionalAmountRead(am[2].0, am[2].1, amountPrec);
    OptionalAmountRead(am[3].0, am[3].1, amountPrec);
    OptionalAmountRead(um[2].0, um[2].1, unitPrec);
    OptionalAmountRead(um[3].0, um[3].1, unitPrec);
    OptionalRateRead(h.transactionFee, Labelled("transactionFee", h.ticker));
  }

  /** The values a splitter reads from an accepted model item: a weight in
      [0, 1] and a fee in [0, 1). */
  lemma ModelItemRead(mp: Models.ModelItem, amountPrec: int, unitPrec: int)
    requires ValidateModelItem(mp, amountPrec, unitPrec).Pass?
    ensures var d := Portfolio.DecodeModelItem(mp);
      0.0 <= d.weight <= 1.0 && 0.0 <= d.transactionFee < 1.0
  {
    OptionalRateRead(mp.transactionFee, Labelled("transactionFee", mp.ticker));
  }

  /** An accepted goal whose order amount is sent without surrounding space
      meets everything the investment splitter demands. */
  lemma ValidatedInvestment(g: Models.Goal, amountPrec: int, unitPrec: int)
    requires ValidateGoal(g, amountPrec, unitPrec).Pass?
    requires ParseDecimal(g.orderAmount).Some?
    ensures Investment.ValidInvestment(Portfolio.DecodeGoal(g))
  {
    ValidatedInRange(g, amountPrec, unitPrec);
    Investment.InRangeSplittable(Portfolio.DecodeGoal(g));
  }

  /** An accepted goal whose order amount is sent without surrounding space
      has a positive order, weights in [0, 1] and fees in [0, 1). */
  lemma ValidatedInRange(g: Models.Goal, amountPrec: int, unitPrec: int)
    requires ValidateGoal(g, amountPrec, unitPrec).Pass?
    requires ParseDecimal(g.orderAmount).Some?
    ensures Investment.InRange(Portfolio.DecodeGoal(g))
    ensures var mps := Portfolio.DecodeGoal(g).modelPortfolioDetails;
      forall i :: 0 <= i < |mps| ==> mps[i].weight <= 1.0 && mps[i].transactionFee >= 0.0
  {
    var d := Portfolio.DecodeGoal(g);
    AcceptedAmountRead(g.orderAmount, "orderAmount", true, amountPrec);
    forall i | 0 <= i < |d.modelPortfolioDetails|
      ensures 0.0 <= d.modelPortfolioDetails[i].weight <= 1.0
      ensures 0.0 <= d.modelPortfolioDetails[i].transactionFee < 1.0
    {
      ModelItemRead(g.modelPortfolioDetails[i], amountPrec, unitPrec);
    }
  }

  /** The validator trims the order amount but the splitters do not: an
      order amount accepted with a leading space is read as zero. */
  lemma PaddedOrderAmount(c: char, s: string, maxPrec: int)
    requires IsSpace(c)
    requires ValidateAmountField(s, "orderAmount", true, maxPrec).Pass?
    ensures ValidateAmountField([c] + s, "orderAmount", true, maxPrec).Pass?
    ensures ParseOrZero([c] + s) == 0.0
  {
    TrimSpaceLeading(c, s);
    SpacePrefixRejected(c, s);
  }

  /** Accepted holdings read as non-negative values on the amount grid. */
  lemma HoldingsRead(hs: seq<Models.Holding>, amountPrec: nat, unitPrec: nat)
    requires forall i :: 0 <= i < |hs| ==> ValidateHolding(hs[i], amountPrec, unitPrec).Pass?
    ensures forall i :: 0 <= i < |hs| ==>
      Portfolio.DecodeHolding(hs[i]).value >= 0.0 && Decimal.OnGrid(Portfolio.DecodeHolding(hs[i]).value, amountPrec)
  {
    forall i | 0 <= i < |hs|
      ensures Portfolio.DecodeHolding(hs[i]).value >= 0.0
      ensures Decimal.OnGrid(Portfolio.DecodeHolding(hs[i]).value, amountPrec)
    {
      HoldingRead(hs[i], amountPrec, unitPrec);
    }
  }

  /** The order amount and the holdings' values of an accepted goal, as the
      splitters read them, are non-negative and on the amount grid. */
  lemma DecodedGoalOnGrid(g: Models.Goal, amountPrec: nat, unitPrec: nat)
    requires ValidateGoal(g, amountPrec, unitPrec).Pass?
    ensures var d := Portfolio.DecodeGoal(g);
      && d.orderAmount >= 0.0 && Decimal.OnGrid(d.orderAmount, amountPrec)
      && forall i :: 0 <= i < |d.goalDetails| ==>
           d.goalDetails[i].value >= 0.0 && Decimal.OnGrid(d.goalDetails[i].value, amountPrec)
  {
    AcceptedAmountRead(g.orderAmount, "orderAmount", true, amountPrec);
    HoldingsRead(g.goalDetails, amountPrec, unitPrec);
  }

  /** An accepted redemption goal has its order amount and every phase-1
      queue's values on the amount grid, so phase 1 is exact
      (Redemption.RedeemZeroWeightFirst). */
  lemma ValidatedRedemptionOnGrid(g: Models.Goal, amountPrec: nat, unitPrec: nat, zs: seq<Redemption.ZwProduct>)
    requires ValidateGoal(g, amountPrec, unitPrec).Pass?
    requires Redemption.IsQueue(Portfolio.DecodeGoal(g), zs)
    ensures Portfolio.DecodeGoal(g).orderAmount >= 0.0
    ensures Decimal.OnGrid(Portfolio.DecodeGoal(g).orderAmount, amountPrec)
    ensures Redemption.ValuesOnGrid(zs, amountPrec)
  {
    DecodedGoalOnGrid(g, amountPrec, unitPrec);
    Redemption.QueueOnGrid(Portfolio.DecodeGoal(g), zs, amountPrec);
  }
}
