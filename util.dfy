/** The listing page's derived flags and default bid form. */
module Util {
  import opened Results
  import opened Models
  import Forms
  import Bidding

  /** What the listing page is given besides the stored auction. */
  datatype ListingPage = ListingPage(onWatchlist: bool, ownListing: bool, listingWon: bool, bidForm: Forms.BidForm)

  /** Each flag starts false and is set only by its own condition: the
      listing is on the user's watchlist; the user created the listing; a bid
      exists and the last one is the user's (whether the auction is still
      active is not consulted). Without a bid form, an unsubmitted one bound
      to the listing is used. */
  function RenderListing(listing: Auction, user: User, bidForm: Option<Forms.BidForm>): (page: ListingPage)
    reads listing, user
    ensures page.onWatchlist <==> listing in user.watchlist
    ensures page.ownListing <==> listing.creator == user
    ensures page.listingWon <==> listing.bids != [] && listing.bids[|listing.bids| - 1].creator == user
    ensures bidForm.None? ==> page.bidForm == Forms.BidForm(listing, None)
    ensures bidForm.Some? ==> page.bidForm == bidForm.value
  {
    var form := if bidForm.None? then Forms.BidForm(listing, None) else bidForm.value;
    var onWatchlist := listing in user.watchlist;
    var ownListing := listing.creator == user;
    var listingWon := match LastBid(listing.bids)
      case Some(last) => last.creator == user
      case None => false;
    ListingPage(onWatchlist, ownListing, listingWon, form)
  }

  /** On a consistent auction, the user the page reports as having won made
      the highest bid: it sets the current price and every other bid is lower. */
  lemma WinnerMadeHighestBid(listing: Auction, user: User)
    requires Bidding.Consistent(Bidding.LedgerOf(listing))
    requires RenderListing(listing, user, None).listingWon
    ensures listing.bids != []
    ensures var top := listing.bids[|listing.bids| - 1];
      && top.creator == user
      && listing.currentPrice == Some(top.amount)
      && forall i :: 0 <= i < |listing.bids| - 1 ==> listing.bids[i].amount < top.amount
  {
    Bidding.LastBidIsHighest(Bidding.LedgerOf(listing));
  }
}
