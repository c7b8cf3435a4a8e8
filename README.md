# bZx widget provider for Augur, modelled in Dafny

This project models the Augur widget provider of the bZx widget,
`packages/bzx-widget-provider-augur/src/BZXWidgetProviderAugur.js`. The
provider sits between the widget's forms and two clients: bZx.js, which
lends, borrows and trades through the bZx protocol, and augur.js, which
reads a prediction market's order book. The model covers the logic the
provider runs around those clients:

- the checks on the lend, borrow and quick-position forms, and the
  long/short dispatch;
- the terms of the loan orders it signs and pushes on chain: the margins
  of the leverage ratio, the interest over the duration, the conversion of
  an outcome-share amount to WETH, and the 20 fields of the order;
- the choice of liquidity: every fillable lend order of the Augur oracle,
  read page by page, filtered, sorted cheapest first and taken greedily;
  the same greedy walk over an Augur market's sell orders, outcome by
  outcome;
- the execution of a leveraged position: one take per chosen lend order
  for its share of the amount, then one trade per order;
- the read side: active loans, bid and ask lists, token names and the
  outcome number of a share token.

Modules, one per file:

- `Wrappers`: the `Option` type.
- `Addresses`: ASCII lower-casing, the WETH, bZx and vault addresses,
  `isWethToken` and `getTokenNameFromAddress`.
- `Entities`: loan orders, loans, Augur orders, assets and the two form
  values.
- `Greedy`: the walk shared by all greedy loops (`Fills`), the choice it
  makes (`Select`), and the Augur walk across outcomes (`SelectAcross`).
- `Sorting`: a stable insertion sort under a total preorder.
- `Seqs`: filtering.
- `OrderTerms`: ceiling division, margins, conversion, interest and the
  order record.
- `Validation`: the pre-validators and the quick-position plan.
- `Matching`: paging, lend candidates, the lend comparator and the two
  selections.
- `Listing`: `listLoansActive`, the bid and ask lists, and the outcome
  number.
- `Provider`: the provider class. Its fields are `account`,
  `bzxAugurOracleAddress`, `assets` and `defaultAsset`, and it keeps a
  ghost log `Calls` of the calls it makes into the clients.

What a client returns is a parameter of the operation:

- the fillable order book;
- the Augur sell-order book;
- the oracle's conversion rate;
- the current time and the order salt;
- the signature and the transaction hash;
- the WETH amount a long position borrows.

Every operation states which state-changing chain calls and which
order-book queries it makes. The reads of the listings (`getLoansForLender`,
`getLoansForTrader`, `getOrdersFillable`) and the oracle's conversion query
(`getConversionData`) are answers passed in as parameters, not entries in
the log. Each state-changing
method is proved against a specification function (`LendSelection`,
`AugurSelection`, `Fills`, `PositionEffect`, `OrderRecord`), and the
properties of those functions are proved as lemmas.

Amounts are natural numbers in base units (wei). Share quantities use the
same 10^18 scale. Arithmetic is exact. The source's BigNumber divisions
become exact rationals or ceiling divisions.

## Model

| member | source | states |
|---|---|---|
| Addresses.IsWethToken | packages/bzx-widget-provider-augur/src/BZXWidgetProviderAugur.js:258-260 | true exactly when the address equals the WETH address character by character after ASCII lower-casing |
| Addresses.GetTokenNameFromAddress | packages/bzx-widget-provider-augur/src/BZXWidgetProviderAugur.js:239-241 | "WETH" exactly for a (case-insensitive) WETH address, "Augur token" for any other |
| Addresses.ToLowerNormalises | packages/bzx-widget-provider-augur/src/BZXWidgetProviderAugur.js:258-260 | lower-casing gives a lower-case string and is idempotent, so comparing lower-cased addresses is an equivalence |
| Validation.PreValidateLoanOrderApprove | packages/bzx-widget-provider-augur/src/BZXWidgetProviderAugur.js:594-604 | valid exactly when an asset is selected and the order is pushed on chain; a missing asset is reported before the relay check, each with its message (the borrow validator at 735-745 is the same) |
| Validation.PreValidateQuickPositionApprove | packages/bzx-widget-provider-augur/src/BZXWidgetProviderAugur.js:894-908 | valid exactly when an asset is selected, it is not WETH (case-insensitive) and the order is pushed on chain; the three refusals come in that order with their messages |
| Validation.PlanQuickPosition | packages/bzx-widget-provider-augur/src/BZXWidgetProviderAugur.js:910-944 | opens a long position exactly for a valid "long" form with a ratio other than 1; opens a short position exactly for a valid "short" form; otherwise refuses with the validator's message, the 1x message for a long of ratio 1, or "something went wrong" for another position type |
| OrderTerms.CeilDiv | packages/bzx-widget-provider-augur/src/BZXWidgetProviderAugur.js:647-657 | the least q with q·b ≥ a, as BigNumber's integerValue(ROUND_CEIL) gives it |
| OrderTerms.CeilDivUnique | packages/bzx-widget-provider-augur/src/BZXWidgetProviderAugur.js:647-657 | any q that is a ceiling of a/b is CeilDiv(a, b) |
| OrderTerms.InitialMargin | packages/bzx-widget-provider-augur/src/BZXWidgetProviderAugur.js:647 | the least whole amount m with m·ratio ≥ 100·10^18 |
| OrderTerms.MaintenanceMargin | packages/bzx-widget-provider-augur/src/BZXWidgetProviderAugur.js:649 | the least whole amount m with 2·m ≥ the initial margin |
| OrderTerms.MarginsOrdered | packages/bzx-widget-provider-augur/src/BZXWidgetProviderAugur.js:647-649 | a larger ratio never asks for a larger margin, and the maintenance margin never exceeds the initial one |
| OrderTerms.MarginsOfOfferedRatios | packages/bzx-widget-provider-augur/src/BZXWidgetProviderAugur.js:788-790 | the margins of the ratios the form offers: 1x → 100 and 50 (·10^18), 2x → 50 and 25, 4x → 25 and 12.5 |
| OrderTerms.ConvertWithConversionData | packages/bzx-widget-provider-augur/src/BZXWidgetProviderAugur.js:876-892 | with a positive rate, an exact amount whose product with the rate is amount·10^18; an infinite amount for rate 0 and a positive amount; not a number for rate 0 and amount 0 |
| OrderTerms.ConvertedAmount | packages/bzx-widget-provider-augur/src/BZXWidgetProviderAugur.js:627-636 | the amount itself when the asset is exactly the WETH address (case-sensitive); otherwise the conversion at the oracle's rate |
| OrderTerms.NoLiquidityIffZero | packages/bzx-widget-provider-augur/src/BZXWidgetProviderAugur.js:638-643 | the "not enough liquidity" refusal happens exactly when the converted amount is zero or not a number |
| OrderTerms.Interest | packages/bzx-widget-provider-augur/src/BZXWidgetProviderAugur.js:653-657 | the least whole i with i·duration·100 ≥ converted·interestRate, the ceiling of converted·rate/duration/100 |
| OrderTerms.InterestMonotone | packages/bzx-widget-provider-augur/src/BZXWidgetProviderAugur.js:653-657 | a larger converted amount or a higher rate never lowers the interest, and a longer duration never raises it |
| OrderTerms.DefaultFormInterest | packages/bzx-widget-provider-augur/src/BZXWidgetProviderAugur.js:653-657 | one WETH at 30 for 10 days costs 3·10^16 |
| OrderTerms.MakerRoleCode | packages/bzx-widget-provider-augur/src/BZXWidgetProviderAugur.js:695 | lender is "0", trader is "1", and the two codes differ |
| OrderTerms.OrderRecordSpec | packages/bzx-widget-provider-augur/src/BZXWidgetProviderAugur.js:671-697 | every address lower-case; zero taker, trade-token and fee-recipient addresses; WETH interest token; no relay fees; the unconverted form amount as loan amount; the computed interest as interest amount; initial and maintenance margin exactly those of the ratio; a maximum duration of the form's days times 86400 seconds; expiry seven days after now |
| OrderTerms.OrderRecord | packages/bzx-widget-provider-augur/src/BZXWidgetProviderAugur.js:671-697 | the 20 fields of a lend or borrow order record, built from the form, the maker, the oracle, the interest, the time and the salt (stated by `OrderRecordSpec`) |
| OrderTerms.LendBorrowRecordsDiffer | packages/bzx-widget-provider-augur/src/BZXWidgetProviderAugur.js:812-838 | the borrow order is the lend order with maker role "1" and WETH as collateral, and no other field changed |
| OrderTerms.ConstantsLowerCase | packages/bzx-widget-provider-augur/src/BZXWidgetProviderAugur.js:20-24 | the WETH, bZx and zero addresses are already lower-case |
| Greedy.FillsSpec | packages/bzx-widget-provider-augur/src/BZXWidgetProviderAugur.js:1152-1174 | each fill is positive and at most its order; all but the last fill the whole order; the fills add up to the amount or to the orders walked over, whichever is less; the walk only stops short at the end of the list or at a zero-amount order |
| Greedy.Fills | packages/bzx-widget-provider-augur/src/BZXWidgetProviderAugur.js:1133-1141 | the walk makes at most one fill per order and never takes more than the amount in all |
| Greedy.Select | packages/bzx-widget-provider-augur/src/BZXWidgetProviderAugur.js:1130-1149 | the choice is always a leading part of the list walked over |
| Greedy.SelectAcross | packages/bzx-widget-provider-augur/src/BZXWidgetProviderAugur.js:1051-1070 | the Augur walk keeps what it took across the outcomes when it used up the amount, and otherwise nothing (stated by `SelectAcrossIsSelect`) |
| Greedy.SelectSpec | packages/bzx-widget-provider-augur/src/BZXWidgetProviderAugur.js:1130-1149 | the choice is a prefix of positive-amount orders, covers the target and would not without its last order, and is empty exactly when the target is 0 or no such prefix covers it |
| Greedy.FillsOfSelection | packages/bzx-widget-provider-augur/src/BZXWidgetProviderAugur.js:1152-1174 | splitting the target over the chosen orders takes from every one of them, the whole of each but the last, and exactly the target |
| Greedy.SelectAcrossIsSelect | packages/bzx-widget-provider-augur/src/BZXWidgetProviderAugur.js:1044-1070 | the Augur walk, whose zero fill ends only the current outcome, chooses what the lend walk chooses over each outcome's run of positive orders laid end to end |
| Greedy.FillsAt | packages/bzx-widget-provider-augur/src/BZXWidgetProviderAugur.js:1133-1140 | one turn of the greedy loop: the fills before order i take no more than the amount; order i is filled with min(its amount, what is left) while the walk goes on, and that minimum is zero where the walk stops |
| Greedy.FillsTurn | packages/bzx-widget-provider-augur/src/BZXWidgetProviderAugur.js:1133-1140 | at each order the loop's minimum is zero exactly where the walk stops, and otherwise it is the walk's next fill and adds to what the loop has taken |
| Greedy.FillsAppendPositive | packages/bzx-widget-provider-augur/src/BZXWidgetProviderAugur.js:1051-1067 | moving on to the next outcome after a run of positive orders continues the same walk |
| Sorting.Sort | packages/bzx-widget-provider-augur/src/BZXWidgetProviderAugur.js:1122-1127 | a permutation of its input |
| Sorting.SortSorted | packages/bzx-widget-provider-augur/src/BZXWidgetProviderAugur.js:1122-1127 | the result is in order under a total preorder |
| Sorting.SortTakeSpec | packages/bzx-widget-provider-augur/src/BZXWidgetProviderAugur.js:170-172 | sort then slice keeps min(n, length) elements of the input, in order, none of them after any element dropped |
| Seqs.FilterSpec | packages/bzx-widget-provider-augur/src/BZXWidgetProviderAugur.js:157-170 | an element is in the filtered list exactly when it is in the input and passes |
| Seqs.FilterCount | packages/bzx-widget-provider-augur/src/BZXWidgetProviderAugur.js:157-170 | each element occurs in the filtered list as often as in the input when it passes, and not at all otherwise |
| Seqs.FilterOrder | packages/bzx-widget-provider-augur/src/BZXWidgetProviderAugur.js:157-170 | the filtered list is the input at the strictly increasing positions of all the elements that pass, so filtering keeps the input order |
| Seqs.FilterMember | packages/bzx-widget-provider-augur/src/BZXWidgetProviderAugur.js:1110-1117 | whatever a filter keeps is an element of its input that passes |
| Seqs.FilterFilter | packages/bzx-widget-provider-augur/src/BZXWidgetProviderAugur.js:190-196 | two filters in a row are one filter by both conditions |
| Matching.OrdersFillable | packages/bzx-widget-provider-augur/src/BZXWidgetProviderAugur.js:1104-1109 | a page is the window of at most `count` orders from `start`, empty past the end |
| Matching.OrdersFillableExtends | packages/bzx-widget-provider-augur/src/BZXWidgetProviderAugur.js:1099-1117 | advancing by the page length reads the book without gap or overlap, and a page that is not full reaches the end of the book |
| Matching.LendCandidatesAppend | packages/bzx-widget-provider-augur/src/BZXWidgetProviderAugur.js:1110-1115 | filtering page by page keeps the same candidates as filtering the whole book |
| Matching.LendOrderPrecedesIsTotalPreorder | packages/bzx-widget-provider-augur/src/BZXWidgetProviderAugur.js:1122-1127 | the comparator (interest per unit lent ascending, then larger loan first) is total and transitive, so sorting by it is well defined |
| Matching.IsLendCandidate | packages/bzx-widget-provider-augur/src/BZXWidgetProviderAugur.js:1110-1117 | an order is a candidate exactly when its oracle and loan token match and its maker is not the user, each address compared lower-cased |
| Matching.LendOrderPrecedes | packages/bzx-widget-provider-augur/src/BZXWidgetProviderAugur.js:1122-1127 | a may come before b when its interest per unit lent is lower, or equal with a loan at least as large; an order lending nothing goes after every other |
| Matching.LendSelectionSpec | packages/bzx-widget-provider-augur/src/BZXWidgetProviderAugur.js:1097-1150 | the chosen lend orders are candidates of the book (matching oracle and token, another maker), a prefix of the candidates sorted cheapest first, none cheaper left out, all with a positive amount, a minimal cover of the amount, and none exactly when the amount is 0 or the candidates cannot cover it |
| Matching.LendSelection | packages/bzx-widget-provider-augur/src/BZXWidgetProviderAugur.js:1097-1150 | never more orders than the book holds; what it chooses is stated by `LendSelectionSpec` |
| Matching.AugurSelectionSpec | packages/bzx-widget-provider-augur/src/BZXWidgetProviderAugur.js:1018-1070 | no order for a market missing from the book; otherwise the orders chosen are the greedy choice over the outcomes' positive runs, a minimal cover of the amount, empty exactly when the amount is 0 or it cannot be covered |
| Matching.AugurSelection | packages/bzx-widget-provider-augur/src/BZXWidgetProviderAugur.js:1043-1070 | no order when the market is missing from the book, otherwise the Augur walk over its outcomes (stated by `AugurSelectionSpec`) |
| Listing.StartsNoEarlierIsTotalPreorder | packages/bzx-widget-provider-augur/src/BZXWidgetProviderAugur.js:171 | newest-first by start time is a total preorder |
| Listing.ListLoansActiveSpec | packages/bzx-widget-provider-augur/src/BZXWidgetProviderAugur.js:154-173 | min(maxCount, n) loans, n being the user's lender and trader loans in one of the widget's assets; a sub-multiset of those loans, so no loan is listed more often than it occurs among them; newest first; and no loan left out started later than one kept |
| Listing.ListLoansActive | packages/bzx-widget-provider-augur/src/BZXWidgetProviderAugur.js:154-173 | at most maxCount loans, and never more than the two loan lists hold together |
| Listing.BidsSpec | packages/bzx-widget-provider-augur/src/BZXWidgetProviderAugur.js:175-201 | bids are the orders of the first page that pass the caller's filter, have no collateral token and lend one of the widget's assets, in page order, at most maxCount |
| Listing.ListLoanOrdersBidsAvailable | packages/bzx-widget-provider-augur/src/BZXWidgetProviderAugur.js:175-201 | at most maxCount bids, and never more than the book holds |
| Listing.AsksSpec | packages/bzx-widget-provider-augur/src/BZXWidgetProviderAugur.js:203-229 | for a consistent comparator, asks are the orders of the first page that pass the caller's filter, have a collateral token and lend one of the widget's assets, as many times as there, sorted by the comparator |
| Listing.ListLoanOrdersAsksAvailable | packages/bzx-widget-provider-augur/src/BZXWidgetProviderAugur.js:203-229 | at most maxCount asks, and never more than the book holds |
| Listing.GetAugurMarketShareOutcomeNumber | packages/bzx-widget-provider-augur/src/BZXWidgetProviderAugur.js:382-388 | the outcome number of the first asset whose id matches the token case-insensitively, or none when no asset matches |
| Listing.WethEntryDoesNotShadow | packages/bzx-widget-provider-augur/src/BZXWidgetProviderAugur.js:440-461 | WETH at the head of the asset list never hides an outcome share: any other token finds the same outcome as in the outcomes alone |
| Provider.PageQueries | packages/bzx-widget-provider-augur/src/BZXWidgetProviderAugur.js:1102-1118 | over n fillable orders the loop sends one query per full page and one for the last page that is not full: n/100 + 1 queries |
| Provider.PageQueriesStep | packages/bzx-widget-provider-augur/src/BZXWidgetProviderAugur.js:1102-1118 | each query of the loop is the next one of those queries, and a page that is not full is the last |
| Provider.TakeCallsSpec | packages/bzx-widget-provider-augur/src/BZXWidgetProviderAugur.js:1161-1169 | the i-th take is for the i-th order and its fill, with WETH collateral, the zero trade token and the user as sender, all lower-cased |
| Provider.TakeCallsAppend | packages/bzx-widget-provider-augur/src/BZXWidgetProviderAugur.js:1153-1173 | one more turn of the loop appends the take of the next order for its fill |
| Provider.TradeCalls | packages/bzx-widget-provider-augur/src/BZXWidgetProviderAugur.js:1178-1185 | one trade per order, in order, into the given token, from the user |
| Provider.PositionEffectSpec | packages/bzx-widget-provider-augur/src/BZXWidgetProviderAugur.js:960-971 | a leveraged position goes ahead exactly when the amount is positive and the lend candidates cover it; it then takes every chosen order, the whole of each but the last, exactly the amount in all, and trades each; otherwise it refuses with no call |
| Provider.PositionEffect | packages/bzx-widget-provider-augur/src/BZXWidgetProviderAugur.js:962-971 | what a position does once its lend orders are chosen: a refusal with no call when none are chosen, otherwise the takes of the walk then the trades (stated by `PositionEffectSpec`; the short path is 985-998) |
| Provider.BzxWidgetProviderAugur.constructor | packages/bzx-widget-provider-augur/src/BZXWidgetProviderAugur.js:20-33 | a provider for the given account and Augur oracle, with no asset and no call made |
| Provider.BzxWidgetProviderAugur.RefreshAssets | packages/bzx-widget-provider-augur/src/BZXWidgetProviderAugur.js:440-461 | on a market page, WETH followed by the market's outcome shares, WETH selected; elsewhere no asset and none selected |
| Provider.BzxWidgetProviderAugur.FetchLendCandidates | packages/bzx-widget-provider-augur/src/BZXWidgetProviderAugur.js:1099-1118 | the candidates of the whole book, read through all its page queries |
| Provider.BzxWidgetProviderAugur.FindLendOrdersForCurrentMarket | packages/bzx-widget-provider-augur/src/BZXWidgetProviderAugur.js:1097-1150 | returns the lend selection of the book for the token and amount, after the book's page queries |
| Provider.BzxWidgetProviderAugur.FindAugurLowestAskSellOrders | packages/bzx-widget-provider-augur/src/BZXWidgetProviderAugur.js:1018-1070 | returns the Augur selection for the market and amount, after one sell-order query for the share's outcome |
| Provider.BzxWidgetProviderAugur.WalkAugurOutcomes | packages/bzx-widget-provider-augur/src/BZXWidgetProviderAugur.js:1051-1069 | the outer loop over outcomes computes the Augur walk |
| Provider.BzxWidgetProviderAugur.WalkSellOrders | packages/bzx-widget-provider-augur/src/BZXWidgetProviderAugur.js:1053-1066 | the inner loop takes the orders walked over and leaves the amount minus their fills |
| Provider.BzxWidgetProviderAugur.TakeLendOrders | packages/bzx-widget-provider-augur/src/BZXWidgetProviderAugur.js:1152-1174 | the calls are the take calls of the walk's fills, in order |
| Provider.BzxWidgetProviderAugur.TakeLoanOrderAsTrader | packages/bzx-widget-provider-augur/src/BZXWidgetProviderAugur.js:1161-1169 | appends exactly one take of the order for the fill to the calls |
| Provider.BzxWidgetProviderAugur.TakeAugurOrdersWithBzx | packages/bzx-widget-provider-augur/src/BZXWidgetProviderAugur.js:1176-1187 | the calls are one trade per order, in order |
| Provider.BzxWidgetProviderAugur.HandleLoanOrderApprove | packages/bzx-widget-provider-augur/src/BZXWidgetProviderAugur.js:606-733 | an invalid form or a zero converted amount refuses before any allowance, sign or push call; an infinite amount fails after the allowance; otherwise it sets the vault's allowance on the lent token (or WETH for a borrow order), then signs and pushes the order of the form's terms, and resolves with the transaction hash (the borrow path is 747-874) |
| Provider.BzxWidgetProviderAugur.HandleQuickPositionApprove | packages/bzx-widget-provider-augur/src/BZXWidgetProviderAugur.js:910-931 | a refused plan makes no call; otherwise the long or short position's calls and outcome |
| Provider.BzxWidgetProviderAugur.HandleLeverageLong | packages/bzx-widget-provider-augur/src/BZXWidgetProviderAugur.js:933-972 | asks Augur for sell orders and refuses when none cover the shares; otherwise reads the WETH lend orders and runs the position's effect with the borrowed WETH traded into the share token |
| Provider.BzxWidgetProviderAugur.HandleLeverageShort | packages/bzx-widget-provider-augur/src/BZXWidgetProviderAugur.js:974-999 | reads the share token's lend orders and runs the position's effect with the borrowed shares traded into WETH |

## Left out

- External clients are not modelled. The bZx.js and augur.js calls are
  not executed: a query's answer is a parameter, and a call that changes
  the chain is an entry in the `Calls` log. Every call is assumed to
  succeed, so the catch-all "error happened while processing your
  request" is not modelled, except on the infinite-conversion path.
- The order hash (`getLoanOrderHashHex`), the salt and the signature are
  not computed. The salt and signature are parameters.
- The provider's setup is not modelled: the constructor's web3 wiring,
  the oracle lookup, `augur.connect`, the event emitter and the URL
  listeners. It is I/O. The market id and the account are parameters.
- `./utils` (`parseUrlGetParams` and the value of `zeroAddress`) is not
  part of this model. The zero address is the 40-zero address.
- `_getAAugurMarketOutcomes` is not modelled, because its labels are
  number formatting of external data. The outcome assets are a parameter
  of `RefreshAssets`.
- `_getEthAmountToBorrow` and `toWei(x.toFixed(18))` are not modelled,
  because they depend on fetched prices and decimal rounding. A long
  position's WETH amount (`weiToBorrow`) is a parameter.
- BigNumber's 20-digit rounding of intermediate divisions is not modelled.
  The model uses exact rationals, and the ceilings are exact.
- Provider.BzxWidgetProviderAugur.HandleLoanOrderApprove does not compute
  an infinite conversion (oracle rate 0 with a positive amount). It
  assumes the foreign hash rejects an "Infinity" amount, giving the
  generic error after the allowance call.
- Matching.LendOrderPrecedes uses exact real keys, not JavaScript
  floating-point subtraction. An order lending 0 (key Infinity or NaN in
  the source) is ranked last, which is one of the orders the engine may
  produce.
- Sorting.Sort is stable. The source's `Array.prototype.sort` is stable
  in current engines, so equal keys keep book order.
- `moment().add(7, "day")` is taken as `now + 7·86400` seconds. Local-time
  and daylight-saving shifts are left out.
- `toWei` parsing of the form quantity is not modelled. `qty` is a whole
  number of base units.
- A fractional interest rate is not modelled. `interestRate` is a
  natural number.
- The form's ratio and duration are typed positive. The form only offers
  1, 2 and 4 for the ratio, and 1 to 28 days for the duration.
- Lower-casing covers ASCII letters only. Addresses are hexadecimal, so
  nothing else needs folding.
- `getOrdersFillable` is modelled as windows of one fixed list of orders.
  The book is assumed not to change while it is read.
- The order of Augur's market and outcome keys is the order of the
  `seq` given.
- The bids listing ignores its `sortComparator`, as the source does.
- The bid and ask loops are not modelled as loops. Their condition
  `length < 0` never holds, so each reads one page, and they are modelled
  as a function of that first page.
- The thin wrappers are not modelled, because they only forward to a
  client: `do*`, `get*`, `_handleLoanOrderTake`, cancel, close,
  withdraw-profit and `_handleLoanTradeWithCurrentAsset`.
- The dummy provider, the React entry point and the contract test are not
  part of this model.
- `wethAddress`, `bzxAddress` and `bzxVaultAddress` are never reassigned
  in the source. They are module constants here, not class fields.
