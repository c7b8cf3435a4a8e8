/**
 * How the provider finds liquidity: the bZx lend orders a position can
 * borrow from, and the Augur sell orders a long position buys.
 */
module Matching {
  import opened Addresses
  import opened Entities
  import opened Greedy
  import opened Sorting
  import opened Seqs

  /** The provider reads the fillable bZx orders a hundred at a time. */
  const PageSize: nat := 100

  /**
   * `getOrdersFillable({start, count})`: the fillable orders of the bZx
   * client from position `start` on, at most `count` of them.
   */
  function OrdersFillable(book: seq<LoanOrder>, start: nat, count: nat): (page: seq<LoanOrder>)
    ensures |page| <= count
    ensures forall i :: 0 <= i < |page| ==> start + i < |book| && page[i] == book[start + i]
    ensures start + count <= |book| ==> |page| == count
    ensures start + count > |book| ==> |page| == if start <= |book| then |book| - start else 0
  {
    book[Min(start, |book|)..Min(start + count, |book|)]
  }

  /**
   * Reading a page from `start` on, for a `start` not past the end,
   * extends the orders read so far by the page; a page that is not full
   * reaches the end of the book.
   */
  lemma OrdersFillableExtends(book: seq<LoanOrder>, start: nat, count: nat)
    requires start <= |book|
    ensures var page := OrdersFillable(book, start, count);
      && |page| == Min(count, |book| - start)
      && book[..start + |page|] == book[..start] + page
      && (|page| < count ==> start + |page| == |book|)
  {
  }

  /**
   * An order a position may borrow from: it uses the provider's Augur
   * oracle, lends the wanted token and was not made by the user, with every
   * address compared lower-cased.
   */
  predicate IsLendCandidate(o: LoanOrder, oracle: string, token: string, account: string) {
    && SameAddress(o.oracleAddress, oracle)
    && SameAddress(o.loanTokenAddress, token)
    && !SameAddress(o.makerAddress, account)
  }

  /** The candidate test, as a filter condition. */
  function CandidateOf(oracle: string, token: string, account: string): LoanOrder -> bool {
    o => IsLendCandidate(o, oracle, token, account)
  }

  /** The candidates among the orders, in the order they were read. */
  function LendCandidates(s: seq<LoanOrder>, oracle: string, token: string, account: string): seq<LoanOrder> {
    Filter(s, CandidateOf(oracle, token, account))
  }

  /** Filtering page by page is filtering all the pages read. */
  lemma LendCandidatesAppend(a: seq<LoanOrder>, b: seq<LoanOrder>, oracle: string, token: string, account: string)
    ensures LendCandidates(a + b, oracle, token, account)
         == LendCandidates(a, oracle, token, account) + LendCandidates(b, oracle, token, account)
  {
    FilterAppend(a, b, CandidateOf(oracle, token, account));
  }

  /** The interest an order asks per unit lent. */
  function InterestPerUnit(o: LoanOrder): real
    requires o.loanTokenAmount > 0
  {
    o.interestAmount as real / o.loanTokenAmount as real
  }

  /**
   * The comparator of `_findLendOrdersForCurrentMarket`, as the relation
   * "a may stay before b": the lower interest per unit lent first, and for
   * equal interest the larger loan first. An order lending nothing has no
   * finite rate and goes after every other order.
   */
  predicate LendOrderPrecedes(a: LoanOrder, b: LoanOrder) {
    if a.loanTokenAmount == 0 then b.loanTokenAmount == 0
    else if b.loanTokenAmount == 0 then true
    else
      InterestPerUnit(a) < InterestPerUnit(b)
      || (InterestPerUnit(a) == InterestPerUnit(b) && a.loanTokenAmount >= b.loanTokenAmount)
  }

  /** The comparator is consistent: it orders any two orders, transitively. */
  lemma LendOrderPrecedesIsTotalPreorder()
    ensures TotalPreorder(LendOrderPrecedes)
  {
    forall a, b, c | LendOrderPrecedes(a, b) && LendOrderPrecedes(b, c)
      ensures LendOrderPrecedes(a, c)
    {
    }
  }

  /**
   * The lend orders `_findLendOrdersForCurrentMarket` returns for a book of
   * fillable orders: the candidates, cheapest first, walked greedily until
   * the amount is covered.
   */
  function LendSelection(book: seq<LoanOrder>, oracle: string, token: string, account: string,
                         amount: nat): (r: seq<LoanOrder>)
    ensures |r| <= |book|
  {
    Select(Sort(LendCandidates(book, oracle, token, account), LendOrderPrecedes), LoanAmount, amount)
  }

  /**
   * The selection holds candidates only, each lending a positive amount,
   * cheapest first, and is a leading part of all candidates in that order:
   * no cheaper candidate is passed over. A non-empty selection covers the
   * amount and would not without its last order. The selection is empty
   * exactly when the amount is zero or the candidates cannot cover it.
   */
  lemma LendSelectionSpec(book: seq<LoanOrder>, oracle: string, token: string, account: string,
                          amount: nat)
    ensures var sorted := Sort(LendCandidates(book, oracle, token, account), LendOrderPrecedes);
            var r := LendSelection(book, oracle, token, account, amount);
      && |r| <= |sorted| && r == sorted[..|r|]
      && (forall o :: o in r ==> o in book && IsLendCandidate(o, oracle, token, account))
      && SortedBy(r, LendOrderPrecedes)
      && (forall i, j :: 0 <= i < |r| <= j < |sorted| ==> LendOrderPrecedes(sorted[i], sorted[j]))
      && AllPositive(r, LoanAmount)
      && (r != [] ==> AmountSum(r, LoanAmount) >= amount > AmountSum(r[..|r| - 1], LoanAmount))
      && (r == [] <==> amount == 0 || !Coverable(sorted, LoanAmount, amount))
  {
    var cands := LendCandidates(book, oracle, token, account);
    var sorted := Sort(cands, LendOrderPrecedes);
    SelectSpec(sorted, LoanAmount, amount);
    LendOrderPrecedesIsTotalPreorder();
    SortSorted(cands, LendOrderPrecedes);
    var r := LendSelection(book, oracle, token, account, amount);
    SortedPrefixCandidates(book, cands, sorted, |r|, oracle, token, account);
  }

  /** A leading part of the sorted candidates holds candidates, in order. */
  lemma SortedPrefixCandidates(book: seq<LoanOrder>, cands: seq<LoanOrder>, sorted: seq<LoanOrder>, k: nat,
                               oracle: string, token: string, account: string)
    requires cands == LendCandidates(book, oracle, token, account)
    requires multiset(sorted) == multiset(cands) && k <= |sorted|
    requires SortedBy(sorted, LendOrderPrecedes)
    ensures forall o :: o in sorted[..k] ==> o in book && IsLendCandidate(o, oracle, token, account)
    ensures SortedBy(sorted[..k], LendOrderPrecedes)
  {
    forall o | o in sorted[..k] ensures o in book && IsLendCandidate(o, oracle, token, account) {
      assert o in multiset(sorted);
      assert o in multiset(cands);
      FilterMember(book, CandidateOf(oracle, token, account), o);
    }
  }

  /**
   * The Augur sell orders `_findAugurLowestAskSellOrders` returns: none when
   * the book has no entry for the market (its id lower-cased), otherwise
   * the walk over the market's outcomes.
   */
  function AugurSelection(book: map<string, seq<seq<AugurOrder>>>, marketId: string, amount: nat): seq<AugurOrder> {
    if ToLower(marketId) in book then SelectAcross(book[ToLower(marketId)], ShareAmount, amount) else []
  }

  /**
   * The Augur selection is the greedy selection over the orders of the
   * market that the walk can reach: for each outcome, the orders before its
   * first empty one. Hence it is such a leading part, covers the amount
   * when non-empty, is minimal, and is empty exactly when the market is
   * missing, the amount is zero or those orders cannot cover it.
   */
  lemma AugurSelectionSpec(book: map<string, seq<seq<AugurOrder>>>, marketId: string, amount: nat)
    ensures var r := AugurSelection(book, marketId, amount);
      && (ToLower(marketId) !in book ==> r == [])
      && (ToLower(marketId) in book ==>
            var reach := FlattenRuns(book[ToLower(marketId)], ShareAmount);
            && |r| <= |reach| && r == reach[..|r|]
            && AllPositive(r, ShareAmount)
            && (r != [] ==> AmountSum(r, ShareAmount) >= amount > AmountSum(r[..|r| - 1], ShareAmount))
            && (r == [] <==> amount == 0 || !Coverable(reach, ShareAmount, amount)))
  {
    if ToLower(marketId) in book {
      var outs := book[ToLower(marketId)];
      SelectAcrossIsSelect(outs, ShareAmount, amount);
      SelectSpec(FlattenRuns(outs, ShareAmount), ShareAmount, amount);
    }
  }
}
