/**
 * The lists the widget shows: the user's active loans and the open lend
 * and borrow orders of the current market, and the outcome number of a
 * share token. Each works on lists the bZx client has already returned.
 */
module Listing {
  import opened Wrappers
  import opened Addresses
  import opened Entities
  import opened Greedy
  import opened Sorting
  import opened Seqs
  import opened Matching

  /** The lower-cased addresses of the provider's assets. */
  function AssetAddresses(assets: seq<Asset>): (ids: seq<string>)
    ensures |ids| == |assets|
    ensures forall i :: 0 <= i < |assets| ==> ids[i] == ToLower(assets[i].id)
  {
    seq(|assets|, i requires 0 <= i < |assets| => ToLower(assets[i].id))
  }

  /** The token lent is one of the provider's assets, compared lower-cased. */
  predicate LoanOfAssets(ids: seq<string>, loanTokenAddress: string) {
    ToLower(loanTokenAddress) in ids
  }

  /** The loans of the provider's assets, as a filter condition. */
  function AssetLoanOf(ids: seq<string>): Loan -> bool {
    (l: Loan) => LoanOfAssets(ids, l.loanTokenAddress)
  }

  /** The comparator of `listLoansActive`: the later start first. */
  predicate StartsNoEarlier(a: Loan, b: Loan) {
    b.loanStartUnixTimestampSec - a.loanStartUnixTimestampSec <= 0
  }

  lemma StartsNoEarlierIsTotalPreorder()
    ensures TotalPreorder(StartsNoEarlier)
  {
  }

  /**
   * `listLoansActive`: the user's active loans as lender and as trader, of
   * the provider's assets, latest first, at most maxCount of them.
   */
  function ListLoansActive(assets: seq<Asset>, maxCount: nat, lenderLoans: seq<Loan>, traderLoans: seq<Loan>)
    : (r: seq<Loan>)
    ensures |r| <= maxCount && |r| <= |lenderLoans| + |traderLoans|
  {
    var ids := AssetAddresses(assets);
    SortTake(Filter(lenderLoans + traderLoans, AssetLoanOf(ids)),
             StartsNoEarlier, maxCount)
  }

  /**
   * The list holds min(maxCount, n) loans, n being the number of the user's
   * loans of an asset; no loan appears more often than among those loans,
   * so each is one of them; they are latest first; and every
   * such loan left out started no later than every loan listed.
   */
  lemma ListLoansActiveSpec(assets: seq<Asset>, maxCount: nat, lenderLoans: seq<Loan>, traderLoans: seq<Loan>)
    ensures var ids := AssetAddresses(assets);
            var mine := Filter(lenderLoans + traderLoans, AssetLoanOf(ids));
            var r := ListLoansActive(assets, maxCount, lenderLoans, traderLoans);
      && |r| == Min(maxCount, |mine|)
      && multiset(r) <= multiset(mine)
      && (forall l :: l in r ==> (l in lenderLoans || l in traderLoans) && LoanOfAssets(ids, l.loanTokenAddress))
      && SortedBy(r, StartsNoEarlier)
      && (forall l, i :: l in multiset(mine) - multiset(r) && 0 <= i < |r| ==>
            r[i].loanStartUnixTimestampSec >= l.loanStartUnixTimestampSec)
  {
    var ids := AssetAddresses(assets);
    var mine := Filter(lenderLoans + traderLoans, AssetLoanOf(ids));
    var r := ListLoansActive(assets, maxCount, lenderLoans, traderLoans);
    StartsNoEarlierIsTotalPreorder();
    SortTakeSpec(mine, StartsNoEarlier, maxCount);
    forall l | l in r ensures (l in lenderLoans || l in traderLoans) && LoanOfAssets(ids, l.loanTokenAddress) {
      assert l in multiset(mine);
      FilterMember(lenderLoans + traderLoans, AssetLoanOf(ids), l);
    }
  }

  /** The bids among the orders, as a filter condition. */
  function BidOf(ids: seq<string>): LoanOrder -> bool {
    o => IsBid(ids, o)
  }

  /** The asks among the orders, as a filter condition. */
  function AskOf(ids: seq<string>): LoanOrder -> bool {
    o => IsAsk(ids, o)
  }

  /** A bid is a lend offer: it asks no collateral. */
  predicate IsBid(ids: seq<string>, o: LoanOrder) {
    SameAddress(o.collateralTokenAddress, ZeroAddress) && LoanOfAssets(ids, o.loanTokenAddress)
  }

  /** An ask is a borrow request: it puts up collateral. */
  predicate IsAsk(ids: seq<string>, o: LoanOrder) {
    !SameAddress(o.collateralTokenAddress, ZeroAddress) && LoanOfAssets(ids, o.loanTokenAddress)
  }

  /**
   * The one page the listings read: `getOrdersFillable` from 0 for maxCount
   * orders. Their do-while loop tests `pageResults.length < 0`, which never
   * holds, so no second page is read.
   */
  function ListingPage(book: seq<LoanOrder>, maxCount: nat): seq<LoanOrder> {
    OrdersFillable(book, 0, maxCount)
  }

  /**
   * `listLoanOrdersBidsAvailable`: the orders of the first page that pass
   * the widget's filter and are bids of the provider's assets, in book
   * order, at most maxCount of them. The comparator is not applied.
   */
  function ListLoanOrdersBidsAvailable(assets: seq<Asset>, book: seq<LoanOrder>, filter: LoanOrder -> bool,
                                       maxCount: nat): (bids: seq<LoanOrder>)
    ensures |bids| <= maxCount && |bids| <= |book|
  {
    var ids := AssetAddresses(assets);
    var r := Filter(Filter(ListingPage(book, maxCount), filter), BidOf(ids));
    r[..Min(maxCount, |r|)]
  }

  /**
   * The bids are, in book order, exactly the orders among the first
   * maxCount of the book that pass the filter and are bids; the slice
   * never cuts any of them.
   */
  lemma {:induction false} BidsSpec(assets: seq<Asset>, book: seq<LoanOrder>, filter: LoanOrder -> bool, maxCount: nat)
    ensures var ids := AssetAddresses(assets);
            var r := ListLoanOrdersBidsAvailable(assets, book, filter, maxCount);
      && r == Filter(book[..Min(maxCount, |book|)], Both(filter, BidOf(ids)))
      && |r| <= maxCount
  {
    var ids := AssetAddresses(assets);
    var page := ListingPage(book, maxCount);
    assert page == book[..Min(maxCount, |book|)];
    FilterFilter(page, filter, BidOf(ids));
  }

  /**
   * `listLoanOrdersAsksAvailable`: the orders of the first page that pass
   * the widget's filter and are asks of the provider's assets, sorted with
   * the widget's comparator, at most maxCount of them.
   */
  function ListLoanOrdersAsksAvailable(assets: seq<Asset>, book: seq<LoanOrder>, filter: LoanOrder -> bool,
                                       sortComparator: (LoanOrder, LoanOrder) -> bool,
                                       maxCount: nat): (r: seq<LoanOrder>)
    ensures |r| <= maxCount && |r| <= |book|
  {
    var ids := AssetAddresses(assets);
    SortTake(Filter(Filter(ListingPage(book, maxCount), filter), AskOf(ids)), sortComparator, maxCount)
  }

  /**
   * For a consistent comparator the asks are all the asks among the first
   * maxCount of the book that pass the filter, and no others, in
   * comparator order.
   */
  lemma {:induction false} AsksSpec(assets: seq<Asset>, book: seq<LoanOrder>, filter: LoanOrder -> bool,
                                    sortComparator: (LoanOrder, LoanOrder) -> bool, maxCount: nat)
    requires TotalPreorder(sortComparator)
    ensures var ids := AssetAddresses(assets);
            var r := ListLoanOrdersAsksAvailable(assets, book, filter, sortComparator, maxCount);
      && multiset(r) == multiset(Filter(book[..Min(maxCount, |book|)], Both(filter, AskOf(ids))))
      && SortedBy(r, sortComparator)
  {
    var ids := AssetAddresses(assets);
    var page := ListingPage(book, maxCount);
    assert page == book[..Min(maxCount, |book|)];
    var asks := Filter(Filter(page, filter), AskOf(ids));
    FilterFilter(page, filter, AskOf(ids));
    assert |asks| <= maxCount;
    assert Sort(asks, sortComparator)[..|asks|] == Sort(asks, sortComparator);
    SortSorted(asks, sortComparator);
  }

  /**
   * `_getAugurMarketShareOutcomeNumber`: the outcome number of the first
   * asset whose address is the share token's, compared lower-cased; none
   * when no asset has it (or when that asset is WETH, which has none).
   */
  function GetAugurMarketShareOutcomeNumber(assets: seq<Asset>, shareTokenAddress: string): (r: Option<int>)
    ensures (forall i :: 0 <= i < |assets| ==> !SameAddress(assets[i].id, shareTokenAddress)) ==> r == None
    ensures forall i :: 0 <= i < |assets| && SameAddress(assets[i].id, shareTokenAddress)
                        && (forall j :: 0 <= j < i ==> !SameAddress(assets[j].id, shareTokenAddress))
                        ==> r == assets[i].num
  {
    if |assets| == 0 then None
    else if SameAddress(assets[0].id, shareTokenAddress) then assets[0].num
    else
      var r := GetAugurMarketShareOutcomeNumber(assets[1..], shareTokenAddress);
      assert forall i :: 1 <= i < |assets| ==> assets[i] == assets[1..][i - 1];
      r
  }

  /** The entry for WETH that the provider puts first in its asset list. */
  const WethAsset: Asset := Asset(None, WethAddress, "WETH")

  /**
   * The WETH entry at the head of the asset list hides no outcome share:
   * a share token other than WETH has the outcome number it has among the
   * market's outcomes, and WETH itself has none.
   */
  lemma {:induction false} WethEntryDoesNotShadow(outcomes: seq<Asset>, shareTokenAddress: string)
    ensures !IsWethToken(shareTokenAddress) ==>
      GetAugurMarketShareOutcomeNumber([WethAsset] + outcomes, shareTokenAddress)
        == GetAugurMarketShareOutcomeNumber(outcomes, shareTokenAddress)
    ensures IsWethToken(shareTokenAddress) ==>
      GetAugurMarketShareOutcomeNumber([WethAsset] + outcomes, shareTokenAddress) == None
  {
    assert ([WethAsset] + outcomes)[1..] == outcomes;
    assert ([WethAsset] + outcomes)[0] == WethAsset;
  }
}
