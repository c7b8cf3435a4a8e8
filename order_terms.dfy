/**
 * The terms of the loan orders the provider creates from the lend and
 * borrow forms: the amount converted to WETH, the interest, the margins,
 * and the order record that is hashed, signed and pushed on chain.
 *
 * BigNumber arithmetic is modelled exactly: a conversion yields a fraction
 * num/den, and each `integerValue(ROUND_CEIL)` is a ceiling division.
 */
module OrderTerms {
  import opened Addresses
  import opened Entities

  const WeiPerEther: nat := 1_000_000_000_000_000_000
  const SecondsPerDay: nat := 86400
  /** Orders expire seven days after they are created. */
  const ExpirationDays: nat := 7

  /** `(a / b).integerValue(ROUND_CEIL)`: the least whole q with q * b >= a. */
  function CeilDiv(a: nat, b: pos): (q: nat)
    ensures q * b >= a
    ensures q > 0 ==> (q - 1) * b < a
  {
    var q := (a + b - 1) / b;
    assert (a + b - 1) - b < q * b <= a + b - 1;
    q
  }

  /**
   * The least whole number at or above a/b is unique: any whole q meeting
   * the two bounds of CeilDiv is CeilDiv(a, b).
   */
  lemma CeilDivUnique(a: nat, b: pos, q: nat)
    requires q * b >= a
    requires q > 0 ==> (q - 1) * b < a
    ensures q == CeilDiv(a, b)
  {
    var c := CeilDiv(a, b);
    if q < c {
      assert q <= c - 1;
      MulMonotone(q, c - 1, b);
    } else if q > c {
      assert c <= q - 1;
      MulMonotone(c, q - 1, b);
    }
  }

  lemma MulMonotone(x: nat, y: nat, b: nat)
    requires x <= y
    ensures x * b <= y * b
  {
  }

  /**
   * The initial margin, in 10^18 units of one percent: 100% divided by the
   * leverage ratio, rounded up.
   */
  function InitialMargin(ratio: pos): (m: nat)
    ensures m * ratio >= 100 * WeiPerEther
    ensures m > 0 ==> (m - 1) * ratio < 100 * WeiPerEther
  {
    CeilDiv(100 * WeiPerEther, ratio)
  }

  /** The maintenance margin: half the initial margin, rounded up. */
  function MaintenanceMargin(ratio: pos): (m: nat)
    ensures 2 * m >= InitialMargin(ratio)
    ensures m > 0 ==> 2 * (m - 1) < InitialMargin(ratio)
  {
    CeilDiv(InitialMargin(ratio), 2)
  }

  /**
   * The maintenance margin is never above the initial margin, and both fall
   * as the leverage ratio grows.
   */
  lemma {:induction false} MarginsOrdered(r1: pos, r2: pos)
    requires r1 <= r2
    ensures MaintenanceMargin(r1) <= InitialMargin(r1)
    ensures InitialMargin(r2) <= InitialMargin(r1)
    ensures MaintenanceMargin(r2) <= MaintenanceMargin(r1)
  {
    var m1 := InitialMargin(r1);
    var m2 := InitialMargin(r2);
    if m2 > m1 {
      assert m1 <= m2 - 1;
      MulMonotone(m1, m2 - 1, r2);
      MulMonotone(r1, r2, m1);
    }
    CeilDivMonotone(m2, m1, 2);
  }

  lemma CeilDivMonotone(a1: nat, a2: nat, b: pos)
    requires a1 <= a2
    ensures CeilDiv(a1, b) <= CeilDiv(a2, b)
  {
    CeilingAntitone(a1, a2, b, b, CeilDiv(a1, b), CeilDiv(a2, b));
  }

  /** The margins of the ratios the forms offer: 1x, 2x and 4x. */
  lemma MarginsOfOfferedRatios()
    ensures InitialMargin(1) == 100 * WeiPerEther && MaintenanceMargin(1) == 50 * WeiPerEther
    ensures InitialMargin(2) == 50 * WeiPerEther && MaintenanceMargin(2) == 25 * WeiPerEther
    ensures InitialMargin(4) == 25 * WeiPerEther && MaintenanceMargin(4) == 125 * WeiPerEther / 10
  {
    CeilDivUnique(100 * WeiPerEther, 1, 100 * WeiPerEther);
    CeilDivUnique(100 * WeiPerEther, 2, 50 * WeiPerEther);
    CeilDivUnique(100 * WeiPerEther, 4, 25 * WeiPerEther);
    CeilDivUnique(100 * WeiPerEther, 2, 50 * WeiPerEther);
    CeilDivUnique(50 * WeiPerEther, 2, 25 * WeiPerEther);
    CeilDivUnique(25 * WeiPerEther, 2, 125 * WeiPerEther / 10);
  }

  /**
   * An amount in WETH base units as BigNumber holds it: an exact fraction,
   * or the Infinity and NaN a division by a zero rate gives.
   */
  datatype Converted = Exact(num: nat, den: pos) | Infinite | NotANumber

  /**
   * `_convertWithConversionData`: the amount divided by the rate the oracle
   * reports (a price in 10^18 units), so that converted * rate / 10^18 is
   * the amount again. A zero rate gives Infinity, or NaN for a zero amount.
   */
  function ConvertWithConversionData(amount: nat, rate: nat): (c: Converted)
    ensures c.Exact? <==> rate > 0
    ensures c.Exact? ==> c.num * rate == amount * WeiPerEther * c.den
    ensures c.NotANumber? <==> rate == 0 && amount == 0
  {
    if rate == 0 then
      if amount == 0 then NotANumber else Infinite
    else
      Exact(amount * WeiPerEther, rate)
  }

  /**
   * The loan amount in WETH: the amount itself when the form's asset is the
   * WETH address spelled exactly as configured (the comparison is
   * case-sensitive), otherwise its conversion at the oracle's rate.
   */
  function ConvertedAmount(asset: string, amount: nat, rate: nat): (c: Converted)
    ensures asset == WethAddress ==> c == Exact(amount, 1)
    ensures asset != WethAddress ==> c == ConvertWithConversionData(amount, rate)
  {
    if asset == WethAddress then Exact(amount, 1) else ConvertWithConversionData(amount, rate)
  }

  /** The "not enough liquidity" test: the converted amount is 0 or NaN. */
  predicate NoLiquidity(c: Converted) {
    c.NotANumber? || (c.Exact? && c.num == 0)
  }

  /** Liquidity is refused exactly when the form's amount is 0, whatever the rate. */
  lemma NoLiquidityIffZero(asset: string, amount: nat, rate: nat)
    ensures NoLiquidity(ConvertedAmount(asset, amount, rate)) <==> amount == 0
  {
  }

  /**
   * The interest amount of an order: the interest rate, a percentage of the
   * converted amount for the whole loan, divided by the duration in days
   * and rounded up. Paying it every day of the loan covers that percentage.
   */
  function Interest(num: nat, den: pos, interestRate: nat, duration: pos): (i: nat)
    ensures i * (100 * duration * den) >= num * interestRate
    ensures i > 0 ==> (i - 1) * (100 * duration * den) < num * interestRate
  {
    var b: pos := PositiveProduct(den, duration);
    CeilDiv(num * interestRate, b)
  }

  function PositiveProduct(den: pos, duration: pos): (b: pos)
    ensures b == 100 * duration * den
  {
    assert duration * den >= 1 by { MulMonotone(1, duration, den); }
    100 * duration * den
  }

  /**
   * A larger converted amount or a higher rate never lowers the interest;
   * a longer loan never raises it.
   */
  lemma {:induction false} InterestMonotone(num1: nat, num2: nat, den: pos, r1: nat, r2: nat, d1: pos, d2: pos)
    requires num1 <= num2 && r1 <= r2 && d1 >= d2
    ensures Interest(num1, den, r1, d1) <= Interest(num2, den, r2, d2)
  {
    var b1 := PositiveProduct(den, d1);
    var b2 := PositiveProduct(den, d2);
    MulMonotone(d2, d1, 100 * den);
    assert b2 <= b1;
    MulMonotone(num1, num2, r1);
    MulMonotone(r1, r2, num2);
    assert num1 * r1 <= num2 * r2;
    CeilingAntitone(num1 * r1, num2 * r2, b1, b2, Interest(num1, den, r1, d1), Interest(num2, den, r2, d2));
  }

  /**
   * A ceiling of a smaller quotient, a1 over a larger b1, is at most any
   * ceiling of a2 over b2.
   */
  lemma CeilingAntitone(a1: nat, a2: nat, b1: pos, b2: pos, i1: nat, i2: nat)
    requires a1 <= a2 && b2 <= b1
    requires i1 > 0 ==> (i1 - 1) * b1 < a1
    requires i2 * b2 >= a2
    ensures i1 <= i2
  {
    if i1 > i2 {
      MulMonotone(b2, b1, i2);
      MulMonotone(i2, i1 - 1, b1);
    }
  }

  /** The form's defaults: 30% over 10 days on one WETH is 0.03 WETH a day. */
  lemma DefaultFormInterest()
    ensures Interest(WeiPerEther, 1, 30, 10) == 3 * WeiPerEther / 100
  {
    CeilDivUnique(WeiPerEther * 30, 1000, 3 * WeiPerEther / 100);
  }

  datatype MakerRole = Lender | Trader

  /** The code the order carries for its maker's role: "0" lender, "1" trader. */
  function MakerRoleCode(role: MakerRole): (code: string)
    ensures code == "0" <==> role == Lender
    ensures code == "1" <==> role == Trader
  {
    assert "0"[0] != "1"[0];
    match role
    case Lender => "0"
    case Trader => "1"
  }

  /**
   * The loan order the provider signs and pushes. Amounts stand for their
   * decimal strings; withdrawOnOpen and makerRole stay strings as sent.
   */
  datatype LoanOrderRecord = LoanOrderRecord(
    bZxAddress: string,
    makerAddress: string,
    takerAddress: string,
    tradeTokenToFillAddress: string,
    withdrawOnOpen: string,
    loanTokenAddress: string,
    interestTokenAddress: string,
    collateralTokenAddress: string,
    feeRecipientAddress: string,
    oracleAddress: string,
    loanTokenAmount: nat,
    interestAmount: nat,
    initialMarginAmount: nat,
    maintenanceMarginAmount: nat,
    lenderRelayFee: nat,
    traderRelayFee: nat,
    maxDurationUnixTimestampSec: nat,
    expirationUnixTimestampSec: int,
    makerRole: string,
    salt: nat)

  /**
   * The order record of the lend form (role Lender) or the borrow form
   * (role Trader), made by `maker` for the oracle `oracle` at time `now`.
   */
  function OrderRecord(role: MakerRole, maker: string, oracle: string, value: LoanFormValue,
                       interest: nat, now: int, salt: nat): LoanOrderRecord
  {
    LoanOrderRecord(
      bZxAddress := ToLower(BzxAddress),
      makerAddress := ToLower(maker),
      takerAddress := ToLower(ZeroAddress),
      tradeTokenToFillAddress := ToLower(ZeroAddress),
      withdrawOnOpen := "0",
      loanTokenAddress := ToLower(value.asset),
      interestTokenAddress := ToLower(WethAddress),
      collateralTokenAddress := if role == Lender then ToLower(ZeroAddress) else ToLower(WethAddress),
      feeRecipientAddress := ToLower(ZeroAddress),
      oracleAddress := ToLower(oracle),
      loanTokenAmount := value.qty,
      interestAmount := interest,
      initialMarginAmount := InitialMargin(value.ratio),
      maintenanceMarginAmount := MaintenanceMargin(value.ratio),
      lenderRelayFee := 0,
      traderRelayFee := 0,
      maxDurationUnixTimestampSec := value.duration * SecondsPerDay,
      expirationUnixTimestampSec := now + ExpirationDays * SecondsPerDay,
      makerRole := MakerRoleCode(role),
      salt := salt)
  }

  predicate AddressesLowerCase(o: LoanOrderRecord) {
    && IsLowerCase(o.bZxAddress) && IsLowerCase(o.makerAddress)
    && IsLowerCase(o.takerAddress) && IsLowerCase(o.tradeTokenToFillAddress)
    && IsLowerCase(o.loanTokenAddress) && IsLowerCase(o.interestTokenAddress)
    && IsLowerCase(o.collateralTokenAddress) && IsLowerCase(o.feeRecipientAddress)
    && IsLowerCase(o.oracleAddress)
  }

  /**
   * What every order record promises: its addresses are lower-case, the
   * taker, trade token and fee recipient are open (zero), interest is paid
   * in WETH, there are no relay fees, the loan amount is the form's
   * unconverted amount, the interest is the one computed for the form, the
   * margins are the least ones of the form's ratio, the duration is the
   * form's days in seconds and the order expires seven days after it was
   * made.
   */
  lemma OrderRecordSpec(role: MakerRole, maker: string, oracle: string, value: LoanFormValue,
                        interest: nat, now: int, salt: nat)
    ensures var o := OrderRecord(role, maker, oracle, value, interest, now, salt);
      && AddressesLowerCase(o)
      && SameAddress(o.makerAddress, maker) && SameAddress(o.loanTokenAddress, value.asset)
      && SameAddress(o.oracleAddress, oracle)
      && o.takerAddress == o.tradeTokenToFillAddress == o.feeRecipientAddress == ZeroAddress
      && o.interestTokenAddress == WethAddress && o.bZxAddress == BzxAddress
      && o.lenderRelayFee == 0 && o.traderRelayFee == 0
      && o.loanTokenAmount == value.qty
      && o.interestAmount == interest
      && o.initialMarginAmount == InitialMargin(value.ratio)
      && o.maintenanceMarginAmount == MaintenanceMargin(value.ratio)
      && o.maxDurationUnixTimestampSec == value.duration * 24 * 60 * 60
      && o.expirationUnixTimestampSec - now == 7 * 24 * 60 * 60
  {
    ToLowerNormalises(maker);
    ToLowerNormalises(value.asset);
    ToLowerNormalises(oracle);
    ConstantsLowerCase();
  }

  lemma ConstantsLowerCase()
    ensures ToLower(WethAddress) == WethAddress
    ensures ToLower(BzxAddress) == BzxAddress
    ensures ToLower(ZeroAddress) == ZeroAddress
  {
    WethAddressLowerCase();
    BzxLowerCase();
    ZeroLowerCase();
    ToLowerNormalises(BzxAddress);
    ToLowerNormalises(ZeroAddress);
  }

  lemma BzxLowerCase()
    ensures IsLowerCase(BzxAddress)
  {
  }

  lemma ZeroLowerCase()
    ensures IsLowerCase(ZeroAddress)
  {
  }

  /**
   * The lend and borrow records differ only in the maker's role and the
   * collateral: a lend order asks for none (the zero address), a borrow
   * order puts up WETH.
   */
  lemma LendBorrowRecordsDiffer(maker: string, oracle: string, value: LoanFormValue,
                                interest: nat, now: int, salt: nat)
    ensures var lend := OrderRecord(Lender, maker, oracle, value, interest, now, salt);
            var borrow := OrderRecord(Trader, maker, oracle, value, interest, now, salt);
      && lend.makerRole == "0" && lend.collateralTokenAddress == ZeroAddress
      && borrow.makerRole == "1" && borrow.collateralTokenAddress == WethAddress
      && borrow == lend.(makerRole := "1", collateralTokenAddress := WethAddress)
  {
    ConstantsLowerCase();
  }
}
