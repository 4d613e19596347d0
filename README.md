# smart-splitter allocation engine, in Dafny

smart-splitter splits a portfolio order for one goal into per-product
transactions. A goal consists of:

- the current holdings (ticker, units, price, value and the product's trading minimums);
- a model portfolio (ticker, target weight, price, minimums and transaction fee);
- an order amount and an order type.

Every amount arrives as a decimal string, and the request also carries the
amount and unit precisions.

This project models three parts of the engine and proves what each promises.

**The investment splitter** (`Investment`, splitter/investment.go). It gives
each model product of non-zero weight a target, using the first rule that
applies:

- its shortfall `max(0, w · (Σ holdings + order) − current)`;
- pro-rata by weight, when no product is short.

It then grosses each target up by `1 / (1 − fee)`, scales the gross targets to
the order amount and truncates them to the amount precision. Units are derived
from the market price. Minimum-investment and top-up breaches are flagged,
and the amount is kept.

**The redemption splitter** (`Redemption`, splitter/redemption.go). It
works in two phases:

- **Phase 1** sells the held products the model does not list or gives zero
  weight, in ascending order of value. Each is sold in full while the budget
  covers it; the one that does not fit receives the rest of the budget.
- **Phase 2** spreads what is left over the weighted model products, in
  proportion to how far each is above its target under
  `Σ positive holdings − order`.

A shared check (`CheckRedemptionMinimums`) flags minimum-redemption breaches,
and minimum-holding breaches on partial sales only.

**The request validator** (`Validate`, api/validate.go). It checks the
range and precision of every decimal string, stopping at the first failure.
The rules are:

- prices > 0;
- rates in [0, 1);
- weights in [0, 1], both ends included;
- amounts ≥ 0 or > 0, with at most the given number of decimal places;
- the precisions are non-negative integers;
- structural rules: at least one goal, at least one model item, and holdings
  for a redemption.

Lemmas at the end of `Validate` connect an accepted request to what the
splitters read from it.

The other modules hold the shared parts:

- `Decimal`: exact amounts as `real`, truncation toward zero to `p` places,
  the grid of multiples of `10^-p`, and left-to-right sums.
- `Text`: trimming, `strings.Index`, ASCII lower-casing, the decimal
  library's string parser and the integer parser.
- `Models`: the request and response records of models/types.go, with string
  fields.
- `Portfolio`: the same records with every decimal field parsed to a value,
  as the splitters read them.
- `Wrappers`: `Option`, `Result` and `Outcome`.

**Imperative splitters.** Both splitters are imperative methods whose loops
mirror the Go loops:

- in `ProcessInvestment`: the holdings pass, the shortfall pass, the in-place
  fallback, the fee pass over an `array` and the detail pass;
- in `ProcessRedemption`: the holdings, model and candidate passes, an in-place
  insertion sort on an `array`, the phase-1 loop with its early exit, the
  allocation pass and the phase-2 loop.

Each method is proved equal to a specification function: `Invest`, `Redeem`,
`Phase1`, `Phase2` and so on. The properties are then proved as lemmas about
those functions.

**The sort.** The Go sort (`sort.Slice`) is not stable. The redemption is
therefore specified against every phase-1 queue, meaning any ordering of the
candidates ascending by value (`IsQueue`). `ProcessRedemption` promises that
its result is `Redeem` of one such queue. The lemmas `RedeemOrder`,
`RedeemTotal`, `RedeemZeroWeightFirst` and `RedeemGuarantees` hold for every
queue.

**What the splitters demand.** The investment splitter demands only that it
never divides by zero (`Investment.Splittable`): the decimal library panics on
a zero divisor, and the Go code has no other failure. Its bounds need more,
namely a positive order, non-negative weights and fees below 1
(`Investment.InRange`). `InRangeSplittable` proves that these ranges rule out
every zero divisor. `Validate.ValidatedInvestment` proves that an accepted
goal is in range, provided its order amount is sent without surrounding
white space. The redemption splitter divides only after a zero test, so it
demands nothing.

**Where the code and the design description disagree, the model follows the
code:**

- The design describes a violation repair engine, with its sum-exact
  reconciliation, and a redemption-size classification. Neither exists in the
  code. `transactionType` is a copy of the order type.
- The investment sum is not conserved exactly. The truncated amounts add up to
  at most the order amount, and fall short of it by less than one
  `10^-amountPrec` step per product (`Investment.GrossBounds`).
- Minimum breaches are checked against the gross amount, not the net amount
  (`Investment.ViolationRule`).
- The phase-2 targets need not add up to the phase-1 leftover, whatever the
  comment at splitter/redemption.go:107-109 says. The `max(0, ·)` clamp can
  make their sum larger. For example: A is held for 100 with weight 0.5, B is
  not held with weight 0.5, and the order is 10; the targets are then 55 and
  0 (`Redemption.ClampedTargets`). The code scales by the actual total
  anyway, so the budget is still respected (`Redemption.Phase2Bounds`).
  - When the weights add up to more than 1, budget can be left with no
    product overweight. Phase 2 then sells nothing. For example, two
    products held for 100 each with weight 0.6 and an order of 10
    (`Redemption.NothingOverweight`).
- The request handler never calls the validator. It rejects a request in three
  cases. An order amount, taken as sent, does not parse or is not positive
  (api/handler.go:27-33). A precision is not an integer `Atoi` accepts
  (api/handler.go:35-44); a negative precision passes this check. An order
  type is anything other than "investment", ignoring case (api/handler.go:47-54).

**Trimming.** The validator trims white space before parsing, but the
splitters parse each field as sent and read a failed parse as zero.
`Validate.PaddedOrderAmount` shows the consequence: an order amount accepted
with a leading space is read as zero by the splitters.

## Model

| member | source | states |
|---|---|---|
| Text.TrimSpace | api/validate.go:151 | The result has no white space at either end, and it is empty exactly when the input is all white space. |
| Text.TrimSpaceIsTrim | api/validate.go:151 | The trimmed string is the contiguous part of the input that starts after its leading white space, with only white space after it. |
| Text.IndexOf | api/validate.go:215 | -1 exactly when the character is absent; otherwise the first position holding it. |
| Text.ToLowerAscii | api/validate.go:58 | Same length and no ASCII capital left. Each character is kept, or it is a capital and becomes its lower-case letter. |
| Text.DecimalPlaces | api/validate.go:214-219 | The number of characters after the first '.', and 0 when there is none. |
| Text.DecimalPlacesExamples | api/validate.go:214-219 | "12.500" has 3 places and "7" has 0. |
| Text.DecimalPlacesAfterSign | api/validate.go:162 | The places counted are the digits of the parsed fraction, so a sign does not move the point. |
| Text.ParsedOnGrid | api/validate.go:162 | A parsed amount with at most p places is a multiple of 10^-p. |
| Text.ParsedIsTrimmed | api/validate.go:151-152 | A string the parser accepts has no white space to trim. |
| Text.UntrimmedParse | splitter/investment.go:12 | Parsing a field untrimmed either fails or gives the same value as parsing it trimmed. |
| Text.SpacePrefixRejected | splitter/investment.go:18 | A field with a leading white-space character never parses untrimmed. |
| Text.TrimSpaceLeading | api/validate.go:151 | A leading white-space character does not change the trimmed string. |
| Text.ParseFraction | api/validate.go:152 | "0.97" parses to 0.97. |
| Text.ParseNegativeInteger | api/validate.go:159 | "-12" parses to -12. |
| Text.ParseRejects | api/validate.go:152-155 | "", " 1" and "1.2.3" do not parse. |
| Text.ParseDecimalAccepts | api/validate.go:152-155 | A string parses exactly when, after an optional sign, it holds only digits and points, at most one point, and at least one digit. |
| Text.ParsedValue | api/validate.go:152 | A parsed value is its whole digits plus its fraction digits over 10 to the number of fraction digits, negated after a leading '-'. |
| Text.ParseNegated | api/validate.go:159 | Putting '-' in front of an unsigned string keeps whether it parses and negates its value. |
| Text.ParseOrZero | splitter/investment.go:12 | The parsed value when the field parses, and 0 when it does not. |
| Text.ParseInt | api/validate.go:206 | An accepted integer lies in the 64-bit range. |
| Text.ParseIntAgrees | api/validate.go:206 | Every integer the integer parser accepts, the decimal parser accepts with the same value. |
| Decimal.TruncateBounds | splitter/investment.go:79 | A non-negative amount truncated to p places is between 0 and the amount, less than 10^-p below it, and on the p-place grid. |
| Decimal.TruncateOnGrid | splitter/redemption.go:77 | Truncating an amount already on the grid leaves it unchanged. |
| Decimal.TruncatedShareOf | splitter/redemption.go:145 | Truncating a non-negative share gives an on-grid amount within one step below it. |
| Decimal.SharesSum | splitter/investment.go:79 | Parts over their positive total, times an amount, are non-negative and add up to that amount. |
| Portfolio.UnitsBounds | splitter/investment.go:82-86 | The derived units are non-negative and on the unit grid, and they cost at most the amount they were derived from. |
| Portfolio.ActiveItemsOrdered | splitter/investment.go:37-41 | The active items are exactly the model items of non-zero weight, in model order. |
| Portfolio.ActiveItemsWeights | splitter/redemption.go:122-126 | Every active item is a model item with non-zero weight. |
| Investment.CollectHoldings | splitter/investment.go:15-21 | The holdings pass builds the ticker-to-value map (the last holding of a ticker wins) and the total value. |
| Investment.CollectShortfalls | splitter/investment.go:33-50 | The model pass yields one shortfall allocation per non-zero-weight item, in order, together with the exact totals of targets and weights. |
| Investment.SpreadByWeight | splitter/investment.go:54-60 | The in-place fallback turns every target into weight / total weight · order. |
| Investment.GrossUp | splitter/investment.go:65-73 | The fee pass fills a fresh array with each target over (1 − fee), and returns its exact total. |
| Investment.ScaleAndFlag | splitter/investment.go:76-121 | The detail pass emits, per allocation, the truncated scaled share with its units and flag. |
| Investment.ProcessInvestment | splitter/investment.go:11-128 | The result equals Invest. There is one BUY per non-zero-weight item, in model order, keeping the goal id and order type. For an in-range goal it adds non-negative values and units, and a total at most the order and short of it by less than one step per product. |
| Investment.ShortfallAllocsAt | splitter/investment.go:37-50 | The j-th allocation belongs to the j-th active item, with its current value and target max(0, w · postTotal − current). |
| Investment.ShortfallAllocsItems | splitter/investment.go:43-49 | The shortfall allocations follow the active items, with their current values and non-negative targets. |
| Investment.ShortfallWeightPositive | splitter/investment.go:42 | With non-negative weights, the total weight of a non-empty allocation list is positive. |
| Investment.TotalWeightPositive | splitter/investment.go:42 | Allocations following the active items of a model with non-negative weights have positive total weight. |
| Investment.TargetsShape | splitter/investment.go:33-60 | The targets are one per active item, with its current value, a non-negative target, a positive weight and a fee below 1. |
| Investment.TotalFeeAdjustedPositive | splitter/investment.go:65-73 | The fee-adjusted targets are non-negative, with a positive total whenever any product is emitted, so the scaling division is defined. |
| Investment.PositiveTarget | splitter/investment.go:44-59 | When some product is emitted, some target is positive. |
| Investment.InRangeSplittable | splitter/investment.go:70 | A positive order, non-negative weights and fees below 1 rule out each of the three divisions by zero. |
| Investment.TargetsAreShortfalls | splitter/investment.go:23-47 | While some product is short, each target is max(0, w · (Σ holdings + order) − current), with current 0 for a product not held. |
| Investment.TargetsAreWeightShares | splitter/investment.go:54-58 | When no product is short, each target is w / Σ w · order, and Σ w is positive. |
| Investment.FallbackSum | splitter/investment.go:57 | The pro-rata fallback over a positive total weight hands out exactly the amount. |
| Investment.FallbackSumsToOrder | splitter/investment.go:54-60 | In the fallback case the targets add up to exactly the order amount. |
| Investment.HoldingsMapKeys | splitter/investment.go:43 | A ticker is in the holdings map exactly when some holding has it, so a product not held reads 0. |
| Investment.HoldingsMapValue | splitter/investment.go:15-21 | With unique tickers, a holding's current value is its own value. |
| Investment.ShortfallNonIncreasing | splitter/investment.go:44-47 | Raising a product's current value, and the post-order total with it, never raises its shortfall when its weight is at most 1. |
| Investment.ShortfallMonotoneInCurrent | splitter/investment.go:15-47 | With unique tickers, raising one holding's value does not raise that product's shortfall. |
| Investment.FeeAdjustedBounds | splitter/investment.go:66-73 | With fees in [0, 1), each grossed-up target is at least its net target, which is at least 0. |
| Investment.SharesAt | splitter/investment.go:79 | The exact shares are non-negative and, when any product is emitted, add up to the order amount. |
| Investment.GrossOfShares | splitter/investment.go:75-79 | Each truncated gross is on the grid, between 0 and its share, and the total falls short of the shares' total by less than one step per share. |
| Investment.GrossBounds | splitter/investment.go:63-79 | Every gross is in [0, its exact share] and on the grid. The total is at most the order and short of it by less than one step per product. |
| Investment.InvestShape | splitter/investment.go:114-126 | There is one BUY per non-zero-weight item, in model order, and the goal id and order type are copied. |
| Investment.UnitsRule | splitter/investment.go:82-86 | Units are non-negative and on the unit grid, cost at most the gross, and are 0 without a positive price. |
| Investment.ViolationRule | splitter/investment.go:88-119 | For any splittable goal, the value is the truncated share whether or not a flag is raised, and a flag needs a positive gross. MIN_INVESTMENT is raised exactly when the product's current value is zero and the gross or units fall below the initial minimums. MIN_TOPUP is raised exactly when its current value is non-zero and they fall below the top-up minimums. |
| Investment.InvestBounds | splitter/investment.go:75-86 | For an in-range goal, values and units are non-negative. The total is at most the order and short of it by less than one step per product. |
| Redemption.CheckRedemptionMinimums | splitter/redemption.go:187-221 | MIN_REDEMPTION is raised exactly when the amount or units fall below the redemption minimums. MIN_HOLDING is raised exactly when they do not, the sale is partial and what remains falls below the holding minimums. A full sale never yields MIN_HOLDING. |
| Redemption.Phase1 | splitter/redemption.go:68-71 | At most one sale per queued product; none exactly when the queue is empty or the budget is zero. |
| Redemption.CollectPositiveHoldings | splitter/redemption.go:21-30 | The holdings pass keeps the holdings of positive value by ticker, and their total. |
| Redemption.CollectModelMap | splitter/redemption.go:32-36 | The model pass maps every ticker to its model item, the last one winning. |
| Redemption.CollectCandidates | splitter/redemption.go:45-59 | The candidates are the positive holdings that the model gives zero weight or does not list, in holdings order. |
| Redemption.SortByValue | splitter/redemption.go:60-63 | The in-place sort leaves the array ascending by value and a permutation of what it was. |
| Redemption.SortedQueue | splitter/redemption.go:60-63 | The queue is ascending by value and a permutation of the candidates. |
| Redemption.SellZeroWeight | splitter/redemption.go:72-100 | One phase-1 step: the sale and the amount by which the budget drops. |
| Redemption.RedeemZeroWeight | splitter/redemption.go:65-102 | The phase-1 loop, with its early exit, emits Phase1 of the queue and leaves Phase1Left of the budget. |
| Redemption.CollectOverweights | splitter/redemption.go:119-140 | The allocation pass yields one allocation per non-zero-weight item, with its overweight target and the exact total. |
| Redemption.RedeemOverweights | splitter/redemption.go:142-175 | The phase-2 loop emits each allocation's truncated part of the remaining budget. |
| Redemption.ProcessRedemption | splitter/redemption.go:18-182 | The result is Redeem of some ascending phase-1 queue of the goal. It keeps the goal id and order type and has a sale per weighted item. For a non-negative order it has only SELLs of non-negative amounts adding up to at most the order. |
| Redemption.PositiveHoldingsAt | splitter/redemption.go:21-30 | The map holds, under its own ticker, a positive-value holding of the goal, and every positive holding's ticker is in it. |
| Redemption.PositiveTotalBounds | splitter/redemption.go:23-29 | The positive total is non-negative and at least each positive holding's value. |
| Redemption.ModelMapAt | splitter/redemption.go:32-36 | The model map yields, under its own ticker, a model item; every model ticker is in it, and with unique tickers it finds each item. |
| Redemption.CandidatesAt | splitter/redemption.go:46-59 | Candidates are exactly the positive holdings whose ticker has zero model weight or is absent from the model. |
| Redemption.QueueAt | splitter/redemption.go:45-63 | A queue holds exactly the zero-weight positive holdings, ascending by value. |
| Redemption.QueueOnGrid | splitter/redemption.go:47-57 | With holding values on the amount grid, every queued value is positive and on the grid. |
| Redemption.OverweightAllocsAt | splitter/redemption.go:122-140 | The j-th allocation belongs to the j-th active item, with its positive holding (if any) and target max(0, V − w · postTotal). |
| Redemption.OverweightTargetOf | splitter/redemption.go:127-137 | The target is max(0, V − w · (vTotal − order)), with vTotal counting positive holdings only and V = 0 for a product not held. |
| Redemption.RedeemTargets | splitter/redemption.go:111-140 | There is one phase-2 allocation per active item in model order, each with that overweight target. |
| Redemption.ZeroWeightNotInPhase2 | splitter/redemption.go:122-126 | With unique model tickers, no queued product is also a phase-2 product. |
| Redemption.Phase1AmountBounds | splitter/redemption.go:72-77 | The amount is on the grid and within the budget and the value. On the grid, a product is sold in full exactly when its value fits the budget, and otherwise it receives the whole budget. |
| Redemption.Phase1DetailOk | splitter/redemption.go:72-100 | A phase-1 sale sells that product within its value and the budget, on the grid and with fitting units. When the value does not fit the budget, less than the value is sold. MIN_REDEMPTION is raised exactly when the amount or units fall below the holding's redemption minimums. MIN_HOLDING is raised exactly when they do not, the value does not fit the budget, and what remains falls below the holding's holding minimums. |
| Redemption.Phase1Shape | splitter/redemption.go:68-100 | The i-th phase-1 sale is the sale of the i-th queued product, checked against the budget left before it. That budget starts at the order amount and drops by each earlier sale. |
| Redemption.Phase1Budget | splitter/redemption.go:65-101 | The budget stays in [0, order], and the phase-1 amounts add up to the order less what is left. |
| Redemption.Phase1Greedy | splitter/redemption.go:65-101 | On the grid, every sale but the last is a full sale, and what is left is max(0, order − Σ queue). |
| Redemption.Phase1CoversQueue | splitter/redemption.go:68-77 | A budget covering the whole queue sells every queued product in full. |
| Redemption.Phase1Exhausts | splitter/redemption.go:68-101 | On the grid, a queue worth at least the budget uses all of it. |
| Redemption.Phase2UnitsFit | splitter/redemption.go:148-152 | Phase-2 units are non-negative and on the grid, cost at most the amount, and are 0 without a positive price. |
| Redemption.Phase2DetailAt | splitter/redemption.go:142-174 | A phase-2 sale is its share truncated. It sells that model product. Only a positive sale of a held product is checked, against the model item's minimums. MIN_REDEMPTION is raised exactly when the amount or units fall below the redemption minimums. MIN_HOLDING is raised exactly when they do not, less than the holding's value is sold, and what remains of the holding falls below the holding minimums. |
| Redemption.Phase2SharesAt | splitter/redemption.go:142-146 | The shares are non-negative. They are all zero when nothing is overweight or no budget is left, and otherwise they add up to the budget. |
| Redemption.Phase2OfShares | splitter/redemption.go:142-174 | Every phase-2 sale satisfies the sale rule and is its share truncated. |
| Redemption.Phase2Total | splitter/redemption.go:143-146 | The truncated sales total at most the shares and fall short by less than one step per allocation. |
| Redemption.Phase2Bounds | splitter/redemption.go:142-175 | Phase 2 sells nothing when nothing is overweight or no budget is left. Otherwise it sells at most the budget, and less than one step per product short of it. |
| Redemption.ClampedTargets | splitter/redemption.go:105-135 | A is held for 100 with weight 0.5, B is not held with weight 0.5, and the order is 10. Nothing is queued, so 10 is left for phase 2, yet the targets are 55 and 0 and do not add up to it. |
| Redemption.NothingOverweight | splitter/redemption.go:105-175 | Two products held for 100 each with weight 0.6, and an order of 10. Nothing is queued and 10 is left, yet no target is positive and every phase-2 sale is 0. |
| Redemption.Phase2NothingLeft | splitter/redemption.go:144 | With no budget left, every phase-2 sale is zero. |
| Redemption.RedeemSplit | splitter/redemption.go:66-175 | The sales are the phase-1 sales followed by the phase-2 sales. |
| Redemption.RedeemOrder | splitter/redemption.go:94-181 | Phase-1 sales come first, one per queued product until the budget runs out, then one phase-2 sale per weighted item in model order. All are SELLs of non-negative amounts. |
| Redemption.RedeemTotal | splitter/redemption.go:65-175 | The sales never exceed the order. When phase 2 runs, they fall short of it by less than one step per phase-2 product. |
| Redemption.RedeemZeroWeightFirst | splitter/redemption.go:65-146 | On the grid, a queue worth at least the order is sold down to exactly the order in phase 1, and phase 2 then sells nothing. |
| Redemption.RedeemGuarantees | splitter/redemption.go:18-182 | For every queue: the goal id and order type are kept and there is a sale per weighted item. For a non-negative order, all are SELLs of non-negative amounts adding up to at most the order. |
| Validate.ValidateAmountField | api/validate.go:150-166 | Accepts exactly when the trimmed string parses, is positive (or non-negative), and has at most maxPrec places. A string that does not parse is reported as such. A parsed value of the wrong sign is reported as not positive (or negative), whatever its places. A precision failure is reported only for a parsed value of the right sign with too many places. |
| Validate.IsRedemptionSpelled | api/validate.go:58 | An order type is a redemption exactly when it has ten characters, each the letter of "redemption" in lower or upper case. |
| Validate.ValidatePriceField | api/validate.go:169-175 | Accepts exactly when the trimmed string parses to a value > 0. |
| Validate.ValidateRateField | api/validate.go:178-184 | Accepts exactly when the trimmed string parses to a value in [0, 1). |
| Validate.ValidateOptionalAmountField | api/validate.go:188-193 | A blank string is accepted; otherwise it behaves as the non-negative amount check. |
| Validate.ValidateOptionalRateField | api/validate.go:197-202 | A blank string is accepted; otherwise it behaves as the rate check. |
| Validate.ParseNonNegInt | api/validate.go:205-211 | Succeeds exactly when the trimmed string is an integer ≥ 0, and returns it. |
| Validate.ParseIntToString | api/validate.go:206 | Every 64-bit integer, written in decimal, is read back as itself. |
| Validate.FirstFailure | api/validate.go:37-41 | Passes exactly when every check passes. Otherwise it reports the first failing check, all before it having passed. |
| Validate.FirstOptionalAmountError | api/validate.go:90-99 | Passes exactly when every optional field of the list passes. |
| Validate.ValidateHolding | api/validate.go:77-111 | Passes exactly when the ticker is not blank and the units, price, value, optional minimums and fee all pass, each at its own precision. A blank ticker is reported first. |
| Validate.ValidateModelItem | api/validate.go:113-145 | Passes exactly when the ticker is not blank, the untrimmed weight is in [0, 1] and the price, minimums and fee pass. A bad weight is reported after the ticker. |
| Validate.FirstHoldingError | api/validate.go:61-65 | Passes exactly when every holding passes. |
| Validate.FirstModelItemError | api/validate.go:69-73 | Passes exactly when every model item passes. |
| Validate.ValidateGoal | api/validate.go:45-75 | Passes exactly when the ids and order type are not blank, the order is positive on the grid, a redemption has holdings, every holding passes, and the model is non-empty with every item passing. |
| Validate.FirstGoalError | api/validate.go:37-41 | Passes exactly when every goal passes. |
| Validate.ValidateRequest | api/validate.go:19-43 | On success it returns both precisions, which parse as non-negative integers, and the buffer when sent is a rate, there is a goal, and every goal passes. |
| Validate.RequestAccepted | api/validate.go:19-43 | Conversely, a request meeting every rule is accepted. |
| Validate.AcceptedAmountOnGrid | api/validate.go:150-166 | An accepted amount is on the grid of its precision, which is non-negative. |
| Validate.AcceptedAmountRead | api/validate.go:151-152 | As the splitters read it, an accepted amount is its validated value or 0, non-negative and on the grid. |
| Validate.OptionalAmountRead | api/validate.go:188-193 | An accepted optional amount reads as a non-negative value on the grid. |
| Validate.BlankReadsZero | api/validate.go:189 | A blank field does not parse, so it reads as 0. |
| Validate.OptionalRateRead | api/validate.go:197-202 | An accepted optional rate reads as a value in [0, 1). |
| Validate.HoldingRead | api/validate.go:77-111 | An accepted holding reads with value and units on their grids, non-negative minimums and a fee in [0, 1). |
| Validate.ModelItemRead | api/validate.go:117-120 | An accepted model item reads with a weight in [0, 1] and a fee in [0, 1). |
| Validate.HoldingsRead | api/validate.go:87 | Accepted holdings read as non-negative values on the amount grid. |
| Validate.ValidatedInRange | api/validate.go:45-75 | An accepted goal with an unpadded order amount has a positive order, weights in [0, 1] and fees in [0, 1). |
| Validate.ValidatedInvestment | splitter/investment.go:70 | Such a goal meets everything the investment splitter demands, so no division is by zero. |
| Validate.PaddedOrderAmount | api/validate.go:151 | An order amount accepted with a leading space is still accepted, but is read as 0 by the splitters. |
| Validate.DecodedGoalOnGrid | api/validate.go:55-65 | The order and the holding values of an accepted goal read as non-negative amounts on the grid. |
| Validate.ValidatedRedemptionOnGrid | api/validate.go:55-65 | An accepted redemption has its order and every queue's values on the grid, as Redemption.RedeemZeroWeightFirst requires. |

## Left out

- The HTTP handler and the server start-up (api/handler.go, main.go) are left out: request decoding, response encoding and the method check have nothing to prove. The handler dispatches only the order type "investment", so redemptions are never processed. It never calls the validator, so the model states validity as preconditions and as the `Validate.Validated*` lemmas instead.
- Output formatting (`StringFixed`) is left out. Values and units are exact `real`s already truncated to their precision.
- The decimal library's division is modelled as exact. The library rounds quotients to a fixed number of digits (16 by default), so the model abstracts that rounding away.
- The decimal parser is modelled for plain notation only: an optional sign, then digits with at most one point. Exponent notation is left out.
- Text.ParseDecimal: the decimal library may also accept a sign right after the point (".-5"), and the model rejects such strings. The library's parser is not part of this model, so its treatment of these strings is left open.
- The precisions are `nat` in the splitters, and their `int32` casts are left out. A negative precision from the handler's `Atoi` is outside the model.
- `strings.ToLower` is modelled on ASCII letters only, because Unicode case mapping is not available.
- Error messages are reduced to the `ValidationError` and `Violation` datatypes with their codes or messages, and the labels of the fields are simplified. The text of `fmt.Errorf` is not modelled character for character.
- The order among candidates of equal value is left open, because the Go sort is unstable. The model fixes one insertion sort, and its contracts state only "ascending and a permutation".
- Duplicate tickers are modelled as in the code: the last entry of a map wins. The lemmas that relate a ticker to "its" holding or model item require unique tickers: `HoldingsMapValue`, `ShortfallMonotoneInCurrent`, `ModelMapAt` and `ZeroWeightNotInPhase2`.
- The volatility buffer is only validated. Nothing in the code uses it.
- The repair engine, the exact-sum reconciliation and the redemption classification are left out. They are not in the code.
- Investment.ProcessInvestment: the non-negativity and sum bounds are stated for in-range goals only (`InRange`: positive order, non-negative weights, fees below 1), whereas the method itself requires only `Splittable`.
- Redemption.ProcessRedemption: the result is stated as `Redeem` of some ascending queue, not of the particular order the Go sort produces.
- Redemption.RedeemTotal: the "short by less than one step per product" bound is stated only when phase 2 runs. Without on-grid amounts, phase 1 can leave a remainder below one step.
- Validate.ValidateRequest: only the success direction is stated. The converse is `Validate.RequestAccepted`, and which error a rejected request reports is not stated.
- Validate.FirstOptionalAmountError: states only when the list passes. That a failure is the first failing field follows from `FirstFailure`, which it calls. The same holds for `FirstHoldingError`, `FirstModelItemError` and `FirstGoalError`.
- Validate.ValidateHolding: besides the pass condition, only the blank-ticker error is stated. The error reported for a later failing field is not enumerated. The same holds for `ValidateModelItem`, whose stated error is the bad weight, and for `ValidateGoal`, whose stated error is the redemption without holdings.
