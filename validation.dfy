/**
 * The checks the provider runs on a form before it calls any external
 * client, and the choice between a long and a short quick position. Each
 * check has a fixed place in the order: the first failing one names the
 * message the user sees.
 */
module Validation {
  import opened Addresses
  import opened Entities

  datatype ValidationResult = ValidationResult(isValid: bool, message: string)

  const AssetNotSelected: string := "asset is not selected"
  const RelayNotSupported: string := "pushing to relay is not yet supported"
  const QuickPositionWithEth: string := "unable open quick position with ETH"
  const LongWithNoLeverage: string :=
    "unable to open long position with 1x leverage (your margin will be equal to leveraged funds)"
  const UnknownPositionType: string := "something went wrong"

  /**
   * `_preValidateLendOrderApprove`, and `_preValidateBorrowOrderApprove`,
   * which is the same check: an asset must be selected, then the order must
   * go on chain. A valid result carries the empty message, an invalid one
   * the message of the first failing check.
   */
  function PreValidateLoanOrderApprove(value: LoanFormValue): (r: ValidationResult)
    ensures r.isValid <==> value.asset != "" && value.pushOnChain
    ensures r.isValid ==> r.message == ""
    ensures value.asset == "" ==> r.message == AssetNotSelected
    ensures value.asset != "" && !value.pushOnChain ==> r.message == RelayNotSupported
  {
    if value.asset == "" then ValidationResult(false, AssetNotSelected)
    else if !value.pushOnChain then ValidationResult(false, RelayNotSupported)
    else ValidationResult(true, "")
  }

  /**
   * `_preValidateQuickPositionApprove`: an asset must be selected, it must
   * not be WETH (an outcome share is traded, not ETH), and the position must
   * go on chain. The WETH test lower-cases the asset only, against the
   * configured (lower-case) WETH address.
   */
  function PreValidateQuickPositionApprove(value: PositionFormValue): (r: ValidationResult)
    ensures r.isValid <==> value.asset != "" && !IsWethToken(value.asset) && value.pushOnChain
    ensures r.isValid ==> r.message == ""
    ensures value.asset == "" ==> r.message == AssetNotSelected
    ensures value.asset != "" && IsWethToken(value.asset) ==> r.message == QuickPositionWithEth
    ensures value.asset != "" && !IsWethToken(value.asset) && !value.pushOnChain ==>
              r.message == RelayNotSupported
  {
    if value.asset == "" then ValidationResult(false, AssetNotSelected)
    else if ToLower(value.asset) == WethAddress then ValidationResult(false, QuickPositionWithEth)
    else if !value.pushOnChain then ValidationResult(false, RelayNotSupported)
    else ValidationResult(true, "")
  }

  /** What a quick position comes to before any external call. */
  datatype QuickPlan = Refuse(message: string) | OpenLong | OpenShort

  /**
   * `_handleQuickPositionApprove` up to its first external call: validate,
   * dispatch on the position type, and (for a long position) refuse a 1x
   * ratio, with which the margin would equal the borrowed funds.
   */
  function PlanQuickPosition(value: PositionFormValue): (p: QuickPlan)
    ensures p.OpenLong? <==>
              PreValidateQuickPositionApprove(value).isValid && value.positionType == "long" && value.ratio != 1
    ensures p.OpenShort? <==>
              PreValidateQuickPositionApprove(value).isValid && value.positionType == "short"
    ensures !PreValidateQuickPositionApprove(value).isValid ==>
              p == Refuse(PreValidateQuickPositionApprove(value).message)
    ensures PreValidateQuickPositionApprove(value).isValid && value.positionType == "long" && value.ratio == 1 ==>
              p == Refuse(LongWithNoLeverage)
    ensures (PreValidateQuickPositionApprove(value).isValid && value.positionType != "long"
             && value.positionType != "short") ==> p == Refuse(UnknownPositionType)
  {
    var v := PreValidateQuickPositionApprove(value);
    if !v.isValid then Refuse(v.message)
    else if value.positionType == "long" then
      if value.ratio == 1 then Refuse(LongWithNoLeverage) else OpenLong
    else if value.positionType == "short" then OpenShort
    else Refuse(UnknownPositionType)
  }
}
