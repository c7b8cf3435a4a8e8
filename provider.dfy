/**
 * The Augur widget provider: the state it keeps (the user's account, the
 * Augur oracle, the asset list of the current market) and the operations
 * that call the bZx and Augur clients. The calls that change the chain, and
 * the order-book queries whose arguments the provider computes, are
 * recorded in a ghost log; what a client returns is a parameter.
 */
module Provider {
  import opened Wrappers
  import opened Addresses
  import opened Entities
  import opened Greedy
  import opened OrderTerms
  import opened Validation
  import opened Matching
  import opened Listing

  /** A call into the bZx or Augur client, with the arguments the provider passes. */
  datatype ExternalCall =
    | QueryOrdersFillable(start: nat, count: nat, oracleFilter: string)
    | QueryAugurSellOrders(marketId: string, outcome: Option<int>)
    | SetAllowanceUnlimited(tokenAddress: string, ownerAddress: string, spenderAddress: string)
    | SignOrderHash(order: LoanOrderRecord, oracleData: string, signer: string)
    | PushLoanOrderOnChain(order: LoanOrderRecord, signature: string, oracleData: string, from: string)
    | TakeLoanOrderOnChainAsTrader(loanOrderHash: string, collateralTokenAddress: string,
                                   loanTokenAmountFilled: nat, tradeTokenToFillAddress: string, from: string)
    | TradePositionWithOracle(orderHash: string, tradeTokenAddress: string, from: string)

  /** How the promise an operation returns settles. */
  datatype Settlement = Resolved(transactionHash: Option<string>) | Rejected(message: string)

  const NotEnoughLiquidity: string := "not enough liquidity"
  const NoAugurLiquidity: string := "not enough liquidity (augur outcome)"
  const NoLendLiquidity: string := "not enough liquidity (bzx lend orders)"
  const GenericError: string := "error happened while processing your request"

  /**
   * The page queries of `_findLendOrdersForCurrentMarket` over n fillable
   * orders, from `start` on: a query per full page of a hundred, then one
   * for the first page that is not full (which may be empty).
   */
  function PageQueries(n: nat, start: nat, oracle: string): (q: seq<ExternalCall>)
    requires start <= n
    ensures |q| == (n - start) / PageSize + 1
    decreases n - start
  {
    if n - start < PageSize then [QueryOrdersFillable(start, PageSize, oracle)]
    else [QueryOrdersFillable(start, PageSize, oracle)] + PageQueries(n, start + PageSize, oracle)
  }

  /**
   * One read of the pagination loop: with `sent` the queries before the
   * one from `start`, that query and the page length it gets (a full page,
   * or what is left) keep `sent` a leading part of all the queries, and a
   * page that is not full is the last.
   */
  lemma PageQueriesStep(n: nat, start: nat, oracle: string, sent: seq<ExternalCall>)
    requires start <= n
    requires PageQueries(n, 0, oracle) == sent + PageQueries(n, start, oracle)
    ensures var len := Min(PageSize, n - start);
            var sent' := sent + [QueryOrdersFillable(start, PageSize, oracle)];
      && (len >= PageSize ==> PageQueries(n, 0, oracle) == sent' + PageQueries(n, start + len, oracle))
      && (len < PageSize ==> PageQueries(n, 0, oracle) == sent')
  {
    var q := [QueryOrdersFillable(start, PageSize, oracle)];
    if n - start < PageSize {
      assert PageQueries(n, start, oracle) == q;
    } else {
      assert PageQueries(n, start, oracle) == q + PageQueries(n, start + PageSize, oracle);
      assert sent + (q + PageQueries(n, start + PageSize, oracle)) == (sent + q) + PageQueries(n, start + PageSize, oracle);
    }
  }

  /** The take of one lend order as trader, for `fill`, with WETH as collateral. */
  function TakeCall(order: LoanOrder, fill: nat, account: string): ExternalCall {
    TakeLoanOrderOnChainAsTrader(ToLower(order.loanOrderHash), ToLower(WethAddress), fill,
                                 ToLower(ZeroAddress), ToLower(account))
  }

  /** The take calls of `_takeLendOrders`: one per fill, for the order it fills. */
  function TakeCalls(orders: seq<LoanOrder>, fills: seq<nat>, account: string): (c: seq<ExternalCall>)
    requires |fills| <= |orders|
    ensures |c| == |fills|
  {
    seq(|fills|, k requires 0 <= k < |fills| => TakeCall(orders[k], fills[k], account))
  }

  /** One more fill appends the take of the next order. */
  lemma TakeCallsAppend(orders: seq<LoanOrder>, fills: seq<nat>, m: nat, account: string)
    requires |fills| < |orders|
    ensures TakeCalls(orders, fills + [m], account)
         == TakeCalls(orders, fills, account) + [TakeCall(orders[|fills|], m, account)]
  {
    var c := TakeCalls(orders, fills + [m], account);
    assert c == TakeCalls(orders, fills, account) + [TakeCall(orders[|fills|], m, account)];
  }

  /**
   * The i-th take call is for the i-th order and its fill, with WETH as
   * collateral, no trade token and the user as sender, all lower-cased.
   */
  lemma TakeCallsSpec(orders: seq<LoanOrder>, fills: seq<nat>, account: string)
    requires |fills| <= |orders|
    ensures var c := TakeCalls(orders, fills, account);
      forall i :: 0 <= i < |fills| ==>
        c[i] == TakeLoanOrderOnChainAsTrader(ToLower(orders[i].loanOrderHash), WethAddress, fills[i],
                                             ZeroAddress, ToLower(account))
  {
    ConstantsLowerCase();
  }

  /** The trade calls of `_takeAugurOrdersWithBzx`: one per order, in order. */
  function TradeCalls(orders: seq<LoanOrder>, tokenAddress: string, account: string): (c: seq<ExternalCall>)
    ensures |c| == |orders|
    ensures forall i :: 0 <= i < |orders| ==>
      c[i] == TradePositionWithOracle(ToLower(orders[i].loanOrderHash), ToLower(tokenAddress), ToLower(account))
  {
    seq(|orders|, i requires 0 <= i < |orders| =>
      TradePositionWithOracle(ToLower(orders[i].loanOrderHash), ToLower(tokenAddress), ToLower(account)))
  }

  /**
   * The allowance an approve sets for the bZx vault before it signs: on the
   * lent token for a lend order, on WETH (the collateral) for a borrow order.
   */
  function AllowanceCall(role: MakerRole, value: LoanFormValue, account: string): ExternalCall {
    SetAllowanceUnlimited(if role == Lender then ToLower(value.asset) else ToLower(WethAddress),
                          ToLower(account), ToLower(BzxVaultAddress))
  }

  /**
   * What a leveraged position does once the lend orders are chosen: none
   * chosen rejects; otherwise each is taken for its fill of `amount` and
   * then traded into `tradeToken`.
   */
  function PositionEffect(chosen: seq<LoanOrder>, amount: nat, tradeToken: string, account: string)
    : (Settlement, seq<ExternalCall>)
  {
    if chosen == [] then (Rejected(NoLendLiquidity), [])
    else (Resolved(None), TakeCalls(chosen, Fills(chosen, LoanAmount, amount), account)
                          + TradeCalls(chosen, tradeToken, account))
  }

  /**
   * A position that goes ahead borrows exactly the amount asked: one take
   * per chosen order, each filling at most the order, all but the last
   * filling it whole, together exactly `amount`; then one trade per order.
   * It goes ahead exactly when the amount is positive and the candidate
   * lend orders cover it.
   */
  lemma PositionEffectSpec(book: seq<LoanOrder>, oracle: string, token: string, account: string,
                           amount: nat, tradeToken: string)
    ensures var sorted := Sorting.Sort(LendCandidates(book, oracle, token, account), LendOrderPrecedes);
            var chosen := LendSelection(book, oracle, token, account, amount);
            var f := Fills(chosen, LoanAmount, amount);
            var e := PositionEffect(chosen, amount, tradeToken, account);
      && (e.0.Resolved? <==> amount > 0 && Coverable(sorted, LoanAmount, amount))
      && (e.0.Resolved? ==>
            && |f| == |chosen| && Sum(f) == amount
            && (forall i :: 0 <= i < |chosen| ==> 0 < f[i] <= chosen[i].loanTokenAmount)
            && (forall i :: 0 <= i < |chosen| - 1 ==> f[i] == chosen[i].loanTokenAmount)
            && e.1 == TakeCalls(chosen, f, account) + TradeCalls(chosen, tradeToken, account))
      && (e.0.Rejected? ==> e == (Rejected(NoLendLiquidity), []))
  {
    var sorted := Sorting.Sort(LendCandidates(book, oracle, token, account), LendOrderPrecedes);
    LendSelectionSpec(book, oracle, token, account, amount);
    FillsOfSelection(sorted, LoanAmount, amount);
  }

  lemma AppendAssociative(a: seq<ExternalCall>, b: seq<ExternalCall>, c: seq<ExternalCall>)
    ensures (a + b) + c == a + (b + c)
  {
  }

  class BzxWidgetProviderAugur {
    var account: string
    var bzxAugurOracleAddress: string
    /** The assets the widget offers: WETH and the current market's outcome shares. */
    var assets: seq<Asset>
    var defaultAsset: string
    /** The external calls made so far, oldest first. */
    ghost var Calls: seq<ExternalCall>

    /**
     * The provider once web3 has given the user's account and the bZx
     * client has named the Augur oracle; no market has been loaded yet.
     */
    constructor(account: string, augurOracleAddress: string)
      ensures this.account == account && bzxAugurOracleAddress == augurOracleAddress
      ensures assets == [] && defaultAsset == "" && Calls == []
    {
      this.account := account;
      bzxAugurOracleAddress := augurOracleAddress;
      assets := [];
      defaultAsset := "";
      Calls := [];
    }

    /**
     * `_refreshAssets`: on a market page (the URL names a market), WETH
     * followed by the market's outcome shares, with WETH selected;
     * elsewhere no asset at all.
     */
    method RefreshAssets(marketId: string, outcomes: seq<Asset>)
      modifies this`assets, this`defaultAsset
      ensures marketId != "" ==> assets == [WethAsset] + outcomes && defaultAsset == WethAddress
      ensures marketId == "" ==> assets == [] && defaultAsset == ""
    {
      ConstantsLowerCase();
      if marketId != "" {
        var wethTokenContractAddress := ToLower(WethAddress);
        assets := [Asset(None, wethTokenContractAddress, "WETH")] + outcomes;
        defaultAsset := wethTokenContractAddress;
      } else {
        assets := [];
        defaultAsset := "";
      }
    }

    /**
     * `_findLendOrdersForCurrentMarket`: reads every fillable order of
     * the Augur oracle page by page, keeps the candidates, sorts them
     * cheapest first and takes them greedily until `amount` is covered.
     */
    method FindLendOrdersForCurrentMarket(tokenAddress: string, amount: nat, book: seq<LoanOrder>)
      returns (orders: seq<LoanOrder>)
      modifies this`Calls
      ensures orders == LendSelection(book, bzxAugurOracleAddress, tokenAddress, account, amount)
      ensures Calls == old(Calls) + PageQueries(|book|, 0, ToLower(bzxAugurOracleAddress))
    {
      var candidates := FetchLendCandidates(tokenAddress, book);
      var sorted := Sorting.Sort(candidates, LendOrderPrecedes);
      ghost var f := Fills(sorted, LoanAmount, amount);
      var amountToTake := amount;
      var i := 0;
      FillsAt(sorted, LoanAmount, amount, 0);
      while i < |sorted|
        invariant i <= |f| && Sum(f[..i]) <= amount && amountToTake == amount - Sum(f[..i])
        invariant Calls == old(Calls) + PageQueries(|book|, 0, ToLower(bzxAugurOracleAddress))
      {
        FillsTurn(sorted, LoanAmount, amount, f, i);
        var m := Min(sorted[i].loanTokenAmount, amountToTake);
        if m == 0 {
          break;
        }
        amountToTake := amountToTake - m;
        i := i + 1;
      }
      if i < |sorted| {
        FillsTurn(sorted, LoanAmount, amount, f, i);
      }
      assert f[..i] == f;
      if amountToTake != 0 {
        return [];
      }
      return sorted[..i];
    }

    /**
     * The do-while of `_findLendOrdersForCurrentMarket`: reads pages of a
     * hundred orders from `readCount` on, advancing by the page's length,
     * until a page is not full, and keeps the candidates of each page.
     */
    method FetchLendCandidates(tokenAddress: string, book: seq<LoanOrder>) returns (list: seq<LoanOrder>)
      modifies this`Calls
      ensures list == LendCandidates(book, bzxAugurOracleAddress, tokenAddress, account)
      ensures Calls == old(Calls) + PageQueries(|book|, 0, ToLower(bzxAugurOracleAddress))
    {
      var augurOracle, user := bzxAugurOracleAddress, account;
      var oracle := ToLower(augurOracle);
      ghost var all := PageQueries(|book|, 0, oracle);
      list := [];
      var readCount: nat := 0;
      var more := true;
      ghost var sent: seq<ExternalCall> := [];
      assert book[..0] == [];
      while more
        invariant readCount <= |book|
        invariant list == LendCandidates(book[..readCount], augurOracle, tokenAddress, user)
        invariant Calls == old(Calls) + sent
        invariant more ==> all == sent + PageQueries(|book|, readCount, oracle)
        invariant !more ==> sent == all && readCount == |book|
        decreases |book| - readCount + (if more then 1 else 0)
      {
        var pageContent := OrdersFillable(book, readCount, PageSize);
        Calls := Calls + [QueryOrdersFillable(readCount, PageSize, oracle)];
        OrdersFillableExtends(book, readCount, PageSize);
        PageQueriesStep(|book|, readCount, oracle, sent);
        sent := sent + [QueryOrdersFillable(readCount, PageSize, oracle)];
        LendCandidatesAppend(book[..readCount], pageContent, augurOracle, tokenAddress, user);
        list := list + LendCandidates(pageContent, augurOracle, tokenAddress, user);
        readCount := readCount + |pageContent|;
        more := |pageContent| >= PageSize;
      }
      assert book[..readCount] == book;
    }
  
    /**
     * `_findAugurLowestAskSellOrders`: asks Augur for the open sell orders
     * of the share's outcome, cheapest first, and walks the market's
     * outcomes taking orders until `amount` shares are covered; a zero fill
     * ends only the current outcome.
     */
    method FindAugurLowestAskSellOrders(marketId: string, shareTokenAddress: string, amount: nat,
                                        augurBook: map<string, seq<seq<AugurOrder>>>)
      returns (orders: seq<AugurOrder>)
      modifies this`Calls
      ensures orders == AugurSelection(augurBook, marketId, amount)
      ensures Calls == old(Calls)
        + [QueryAugurSellOrders(marketId, GetAugurMarketShareOutcomeNumber(assets, shareTokenAddress))]
    {
      var outcomeNumber := GetAugurMarketShareOutcomeNumber(assets, shareTokenAddress);
      Calls := Calls + [QueryAugurSellOrders(marketId, outcomeNumber)];
      var key := ToLower(marketId);
      if key !in augurBook {
        return [];
      }
      orders := WalkAugurOutcomes(augurBook[key], amount);
    }

    /**
     * The loops of `_findAugurLowestAskSellOrders` over the market's
     * outcomes (`for num`) and each outcome's sell orders (`for id`); the
     * `break` on a zero fill leaves only the inner loop.
     */
    static method WalkAugurOutcomes(outs: seq<seq<AugurOrder>>, amount: nat) returns (orders: seq<AugurOrder>)
      ensures orders == SelectAcross(outs, ShareAmount, amount)
    {
      var amountToTake := amount;
      var taken: seq<AugurOrder> := [];
      var k := 0;
      assert outs[0..] == outs;
      assert taken + WalkOutcomes(outs, ShareAmount, amount).taken == WalkOutcomes(outs, ShareAmount, amount).taken;
      while k < |outs|
        invariant k <= |outs|
        invariant WalkOutcomes(outs, ShareAmount, amount)
               == Walk(taken + WalkOutcomes(outs[k..], ShareAmount, amountToTake).taken,
                       WalkOutcomes(outs[k..], ShareAmount, amountToTake).left)
      {
        var before, left := taken, amountToTake;
        var takenHere;
        takenHere, amountToTake := WalkSellOrders(outs[k], amountToTake);
        taken := taken + takenHere;
        WalkOutcomesAdvance(outs, ShareAmount, amount, k, before, left, Fills(outs[k], ShareAmount, left), amountToTake);
        k := k + 1;
      }
      if amountToTake != 0 {
        return [];
      }
      return taken;
    }

    /**
     * The inner loop: takes the sell orders of one outcome in turn, each
     * for min(its amount, what is left), until a zero fill.
     */
    static method WalkSellOrders(sellOrders: seq<AugurOrder>, rem: nat) returns (taken: seq<AugurOrder>, left: nat)
      ensures var f := Fills(sellOrders, ShareAmount, rem);
        taken == sellOrders[..|f|] && Sum(f) + left == rem
    {
      left := rem;
      taken := [];
      ghost var f := Fills(sellOrders, ShareAmount, rem);
      var j := 0;
      FillsAt(sellOrders, ShareAmount, rem, 0);
      while j < |sellOrders|
        invariant j <= |f| && Sum(f[..j]) <= rem && left == rem - Sum(f[..j])
        invariant taken == sellOrders[..j]
      {
        FillsTurn(sellOrders, ShareAmount, rem, f, j);
        var m := Min(sellOrders[j].fullPrecisionAmount, left);
        if m == 0 {
          break;
        }
        assert sellOrders[..j + 1] == sellOrders[..j] + [sellOrders[j]];
        left := left - m;
        taken := taken + [sellOrders[j]];
        j := j + 1;
      }
      if j < |sellOrders| {
        FillsTurn(sellOrders, ShareAmount, rem, f, j);
      }
      assert f[..j] == f;
    }

    /**
     * `_takeLendOrders`: takes each lend order in turn as trader, with WETH
     * as collateral, for min(its amount, what is left to borrow), and stops
     * at the first zero fill.
     */
    method TakeLendOrders(orders: seq<LoanOrder>, amount: nat)
      modifies this`Calls
      ensures Calls == old(Calls) + TakeCalls(orders, Fills(orders, LoanAmount, amount), account)
    {
      var user := account;
      ghost var f := Fills(orders, LoanAmount, amount);
      var amountToTake := amount;
      var i := 0;
      FillsAt(orders, LoanAmount, amount, 0);
      while i < |orders|
        invariant i <= |f| && Sum(f[..i]) <= amount && amountToTake == amount - Sum(f[..i])
        invariant Calls == old(Calls) + TakeCalls(orders, f[..i], user)
      {
        FillsTurn(orders, LoanAmount, amount, f, i);
        var m := Min(orders[i].loanTokenAmount, amountToTake);
        if m == 0 {
          break;
        }
        TakeLoanOrderAsTrader(orders[i], m);
        TakePrefixStep(old(Calls), orders, f, i, user);
        amountToTake := amountToTake - m;
        i := i + 1;
      }
      if i < |orders| {
        FillsTurn(orders, LoanAmount, amount, f, i);
      }
      assert f[..i] == f;
    }

    /** Extending the taken prefix of the fills by one order. */
    static lemma TakePrefixStep(before: seq<ExternalCall>, orders: seq<LoanOrder>, f: seq<nat>, i: nat, user: string)
      requires i < |f| <= |orders|
      ensures before + TakeCalls(orders, f[..i + 1], user)
        == (before + TakeCalls(orders, f[..i], user)) + [TakeCall(orders[i], f[i], user)]
    {
      assert f[..i + 1] == f[..i] + [f[i]];
      TakeCallsAppend(orders, f[..i], f[i], user);
      AppendAssociative(before, TakeCalls(orders, f[..i], user), [TakeCall(orders[i], f[i], user)]);
    }

    /** One `takeLoanOrderOnChainAsTrader` call of `_takeLendOrders`. */
    method TakeLoanOrderAsTrader(order: LoanOrder, fill: nat)
      modifies this`Calls
      ensures Calls == old(Calls) + [TakeCall(order, fill, account)]
    {
      Calls := Calls + [TakeCall(order, fill, account)];
    }

    /**
     * `_takeAugurOrdersWithBzx`: trades the position of each taken lend
     * order into `tokenAddress` through the Augur oracle, in order.
     */
    method TakeAugurOrdersWithBzx(orders: seq<LoanOrder>, tokenAddress: string)
      modifies this`Calls
      ensures Calls == old(Calls) + TradeCalls(orders, tokenAddress, account)
    {
      var i := 0;
      while i < |orders|
        invariant i <= |orders|
        invariant Calls == old(Calls) + TradeCalls(orders[..i], tokenAddress, account)
      {
        Calls := Calls + [TradePositionWithOracle(ToLower(orders[i].loanOrderHash), ToLower(tokenAddress), ToLower(account))];
        assert TradeCalls(orders[..i + 1], tokenAddress, account)
            == TradeCalls(orders[..i], tokenAddress, account)
             + [TradePositionWithOracle(ToLower(orders[i].loanOrderHash), ToLower(tokenAddress), ToLower(account))];
        i := i + 1;
      }
      assert orders[..i] == orders;
    }
  
    /**
     * `_handleLendOrderApprove` (role Lender) and `_handleBorrowOrderApprove`
     * (role Trader): validate the form; convert the amount to WETH at the
     * oracle's rate and refuse a zero (or NaN) result before any call; set
     * the vault's allowance; build the order with the margins of the ratio
     * and the interest of the converted amount; sign it and push it on chain.
     * An infinite conversion (a zero rate) yields an order amount no hash
     * accepts, so that path ends in the generic error after the allowance.
     */
    method HandleLoanOrderApprove(role: MakerRole, value: LoanFormValue, marketId: string, conversionRate: nat,
                                  now: int, salt: nat, signature: string, transactionHash: string)
      returns (result: Settlement)
      modifies this`Calls
      ensures var v := PreValidateLoanOrderApprove(value);
              var c := ConvertedAmount(value.asset, value.qty, conversionRate);
        && (!v.isValid ==> result == Rejected(v.message) && Calls == old(Calls))
        && (v.isValid && NoLiquidity(c) ==> result == Rejected(NotEnoughLiquidity) && Calls == old(Calls))
        && (v.isValid && c.Infinite? ==>
              result == Rejected(GenericError) && Calls == old(Calls) + [AllowanceCall(role, value, account)])
        && (v.isValid && c.Exact? && c.num > 0 ==>
              var order := OrderRecord(role, account, bzxAugurOracleAddress, value,
                                       Interest(c.num, c.den, value.interestRate, value.duration), now, salt);
              && result == Resolved(Some(transactionHash))
              && Calls == old(Calls) + [AllowanceCall(role, value, account),
                                        SignOrderHash(order, ToLower(marketId), ToLower(account)),
                                        PushLoanOrderOnChain(order, signature, ToLower(marketId), ToLower(account))])
    {
      var validationResult := PreValidateLoanOrderApprove(value);
      if !validationResult.isValid {
        return Rejected(validationResult.message);
      }
      var makerAddress := ToLower(account);
      var orderOracleData := marketId;
      var convertedToWeiAmount := if value.asset == WethAddress then Exact(value.qty, 1)
                                  else ConvertWithConversionData(value.qty, conversionRate);
      if NoLiquidity(convertedToWeiAmount) {
        return Rejected(NotEnoughLiquidity);
      }
      Calls := Calls + [AllowanceCall(role, value, account)];
      if convertedToWeiAmount.Infinite? {
        return Rejected(GenericError);
      }
      var interestAmount := Interest(convertedToWeiAmount.num, convertedToWeiAmount.den,
                                     value.interestRate, value.duration);
      var order := OrderRecord(role, account, bzxAugurOracleAddress, value, interestAmount, now, salt);
      Calls := Calls + [SignOrderHash(order, ToLower(orderOracleData), makerAddress)];
      Calls := Calls + [PushLoanOrderOnChain(order, signature, ToLower(orderOracleData), makerAddress)];
      return Resolved(Some(transactionHash));
    }

    /**
     * `_handleQuickPositionApprove` with `_handleLeverageLong` and
     * `_handleLeverageShort`. A long position finds Augur sell orders for
     * the shares, borrows `weiToBorrow` (their price in WETH) from WETH lend
     * orders and buys the shares with it; a short position borrows the
     * shares themselves and sells them for WETH.
     */
    method HandleQuickPositionApprove(value: PositionFormValue, marketId: string,
                                      augurBook: map<string, seq<seq<AugurOrder>>>, weiToBorrow: nat,
                                      book: seq<LoanOrder>)
      returns (result: Settlement)
      modifies this`Calls
      ensures var plan := PlanQuickPosition(value);
              var pages := PageQueries(|book|, 0, ToLower(bzxAugurOracleAddress));
        && (plan.Refuse? ==> result == Rejected(plan.message) && Calls == old(Calls))
        && (plan.OpenShort? ==>
              var e := PositionEffect(LendSelection(book, bzxAugurOracleAddress, ToLower(value.asset), account, value.qty),
                                      value.qty, WethAddress, account);
              result == e.0 && Calls == old(Calls) + pages + e.1)
        && (plan.OpenLong? ==>
              var query := QueryAugurSellOrders(marketId, GetAugurMarketShareOutcomeNumber(assets, ToLower(value.asset)));
              if AugurSelection(augurBook, marketId, value.qty) == [] then
                result == Rejected(NoAugurLiquidity) && Calls == old(Calls) + [query]
              else
                var e := PositionEffect(LendSelection(book, bzxAugurOracleAddress, WethAddress, account, weiToBorrow),
                                        weiToBorrow, value.asset, account);
                result == e.0 && Calls == old(Calls) + [query] + pages + e.1)
    {
      var plan := PlanQuickPosition(value);
      match plan
      case Refuse(message) =>
        return Rejected(message);
      case OpenLong =>
        result := HandleLeverageLong(value, marketId, augurBook, weiToBorrow, book);
      case OpenShort =>
        result := HandleLeverageShort(value, book);
    }

    /**
     * `_handleLeverageLong` after its 1x check: buy the outcome shares on
     * Augur with WETH borrowed through bZx.
     */
    method HandleLeverageLong(value: PositionFormValue, marketId: string,
                              augurBook: map<string, seq<seq<AugurOrder>>>, weiToBorrow: nat,
                              book: seq<LoanOrder>)
      returns (result: Settlement)
      modifies this`Calls
      ensures var pages := PageQueries(|book|, 0, ToLower(bzxAugurOracleAddress));
              var query := QueryAugurSellOrders(marketId, GetAugurMarketShareOutcomeNumber(assets, ToLower(value.asset)));
        if AugurSelection(augurBook, marketId, value.qty) == [] then
          result == Rejected(NoAugurLiquidity) && Calls == old(Calls) + [query]
        else
          var e := PositionEffect(LendSelection(book, bzxAugurOracleAddress, WethAddress, account, weiToBorrow),
                                  weiToBorrow, value.asset, account);
          result == e.0 && Calls == old(Calls) + [query] + pages + e.1
    {
      var sellOrders := FindAugurLowestAskSellOrders(marketId, ToLower(value.asset), value.qty, augurBook);
      if sellOrders == [] {
        return Rejected(NoAugurLiquidity);
      }
      var ethLendOrders := FindLendOrdersForCurrentMarket(WethAddress, weiToBorrow, book);
      if ethLendOrders == [] {
        return Rejected(NoLendLiquidity);
      }
      ghost var afterPages := Calls;
      TakeLendOrders(ethLendOrders, weiToBorrow);
      ghost var afterTakes := Calls;
      TakeAugurOrdersWithBzx(ethLendOrders, value.asset);
      AppendAssociative(afterPages, afterTakes[|afterPages|..], Calls[|afterTakes|..]);
      return Resolved(None);
    }

    /**
     * `_handleLeverageShort`: borrow the outcome shares through bZx and
     * sell them on Augur for WETH.
     */
    method HandleLeverageShort(value: PositionFormValue, book: seq<LoanOrder>) returns (result: Settlement)
      modifies this`Calls
      ensures var pages := PageQueries(|book|, 0, ToLower(bzxAugurOracleAddress));
              var e := PositionEffect(LendSelection(book, bzxAugurOracleAddress, ToLower(value.asset), account, value.qty),
                                      value.qty, WethAddress, account);
        result == e.0 && Calls == old(Calls) + pages + e.1
    {
      var sharesLendOrders := FindLendOrdersForCurrentMarket(ToLower(value.asset), value.qty, book);
      if sharesLendOrders == [] {
        return Rejected(NoLendLiquidity);
      }
      ghost var afterPages := Calls;
      TakeLendOrders(sharesLendOrders, value.qty);
      ghost var afterTakes := Calls;
      TakeAugurOrdersWithBzx(sharesLendOrders, WethAddress);
      AppendAssociative(afterPages, afterTakes[|afterPages|..], Calls[|afterTakes|..]);
      return Resolved(None);
    }
  }
}
