/**
 * The records the provider reads from its external clients and from its
 * forms. Only the fields the provider looks at are kept. Token amounts are
 * whole numbers of base units (10^-18 of a token); Augur share quantities,
 * which the provider handles as decimal strings, are written in the same
 * unit.
 */
module Entities {
  import opened Wrappers

  /** A loan order as the bZx client lists it among the fillable orders. */
  datatype LoanOrder = LoanOrder(
    loanOrderHash: string,
    makerAddress: string,
    loanTokenAddress: string,
    collateralTokenAddress: string,
    oracleAddress: string,
    loanTokenAmount: nat,
    interestAmount: nat)

  /** An active loan as the bZx client lists it for a lender or a trader. */
  datatype Loan = Loan(
    loanOrderHash: string,
    loanTokenAddress: string,
    loanStartUnixTimestampSec: int)

  /** An open sell order of the Augur order book. */
  datatype AugurOrder = AugurOrder(orderId: string, fullPrecisionAmount: nat)

  /**
   * An entry of the provider's asset list: an outcome share token of the
   * current market (with its outcome number), or WETH (with no number).
   */
  datatype Asset = Asset(num: Option<int>, id: string, text: string)

  type pos = n: nat | n > 0 witness 1

  /**
   * The lend and borrow forms. An asset that is not selected is the empty
   * address. qty is in base units; the form offers durations of 1 to 28 days
   * and ratios 1, 2 and 4, hence the positive types.
   */
  datatype LoanFormValue = LoanFormValue(
    asset: string,
    qty: nat,
    interestRate: nat,
    duration: pos,
    ratio: pos,
    pushOnChain: bool)

  /** The quick position form: a long or short position in one outcome share. */
  datatype PositionFormValue = PositionFormValue(
    asset: string,
    qty: nat,
    positionType: string,
    ratio: int,
    pushOnChain: bool)

  function LoanAmount(o: LoanOrder): nat {
    o.loanTokenAmount
  }

  function ShareAmount(o: AugurOrder): nat {
    o.fullPrecisionAmount
  }
}
