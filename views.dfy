/** The request handlers that change state: creating a listing, bidding,
    commenting, and adding a listing to or removing it from the requesting
    user's watchlist. The requesting user arrives already authenticated. */
module Views {
  import opened Results
  import opened Models
  import Forms
  import Bidding

  /** What creating listings and handling requests keep true of a stored
      auction: its ledger is consistent, its bids and comments point to it,
      and every comment passed the comment form. */
  predicate Sound(a: Auction)
    reads a
  {
    && Bidding.Consistent(Bidding.LedgerOf(a))
    && (forall i :: 0 <= i < |a.bids| ==> a.bids[i].auction == a)
    && (forall i :: 0 <= i < |a.comments| ==>
          a.comments[i].auction == a && 0 < |a.comments[i].content| <= Forms.CommentMaxLength)
  }

  /** Why a submitted new-listing form creates nothing: it is invalid, or its
      category key names no stored category. */
  datatype CreateError = InvalidForm(errors: seq<Forms.FieldError>) | UnknownCategory(key: string)

  /** Creates an auction from a valid form, priced at its starting bid, owned
      by the requesting user, with no bids. `categories` is the stored
      categories by primary key. */
  method CreateListing(user: User, input: Forms.ListingInput, categories: map<string, Category>)
    returns (r: Result<Auction, CreateError>)
    ensures Forms.CleanListing(input).Err? ==> r == Err(InvalidForm(Forms.CleanListing(input).error))
    ensures r.Ok? <==> Forms.CleanListing(input).Ok? && Forms.CleanListing(input).value.category in categories
    ensures r.Ok? ==>
      var data := Forms.CleanListing(input).value;
      && fresh(r.value)
      && Sound(r.value)
      && Bidding.LedgerOf(r.value) == Bidding.Open(input.startingBid)
      && r.value.creator == user
      && r.value.title == data.title && r.value.description == data.description
      && r.value.category == Some(categories[data.category]) && r.value.image == Some(data.image)
      && r.value.isActive && r.value.wonBy == None && r.value.comments == []
  {
    var form := Forms.CleanListing(input);
    if form.Err? {
      return Err(InvalidForm(form.error));
    }
    var data := form.value;
    assert data.startingBid == input.startingBid && IsMoney(data.startingBid);
    if data.category !in categories {
      return Err(UnknownCategory(data.category));
    }
    var auction := new Auction(data.title, data.description, data.startingBid, Some(data.startingBid),
                               user, Some(categories[data.category]), Some(data.image));
    assert Bidding.LedgerOf(auction) == Bidding.Open(data.startingBid);
    return Ok(auction);
  }

  /** The bid handler: validates the amount against the listing's bids and
      starting bid, then appends the bid and sets the current price, or
      changes nothing. It never looks at whether the auction is active. */
  method PlaceBid(listing: Auction, user: User, amount: Cents) returns (r: Result<Bid, Forms.BidError>)
    modifies listing`bids, listing`currentPrice
    ensures var p := Bidding.Place(old(Bidding.LedgerOf(listing)), listing, user, amount);
      Bidding.LedgerOf(listing) == p.ledger && r == p.result
    ensures old(Sound(listing)) ==> Sound(listing)
  {
    var form := Forms.ValidateBid(listing.bids, listing.startingBid, amount);
    if form.Ok? {
      var bid := Bid(form.value, user, listing);
      listing.bids := listing.bids + [bid];
      listing.currentPrice := Some(form.value);
      r := Ok(bid);
    } else {
      r := Err(form.error);
    }
  }

  /** The comment handler: a valid comment is appended, an invalid one changes nothing. */
  method PostComment(listing: Auction, user: User, content: string) returns (r: Result<Comment, Forms.FieldError>)
    modifies listing`comments
    ensures r.Ok? <==> Forms.CleanComment(content).Ok?
    ensures r.Ok? ==>
      && r.value == Comment(Forms.CleanComment(content).value, user, listing)
      && listing.comments == old(listing.comments) + [r.value]
    ensures r.Err? ==> r.error == Forms.CleanComment(content).error && listing.comments == old(listing.comments)
    ensures old(Sound(listing)) ==> Sound(listing)
  {
    var form := Forms.CleanComment(content);
    if form.Ok? {
      var comment := Comment(form.value, user, listing);
      listing.comments := listing.comments + [comment];
      r := Ok(comment);
    } else {
      r := Err(form.error);
    }
  }

  /** A request to the listing page: a plain view, or a posted form with the given keys. */
  datatype Request = View | Post(keys: set<string>)

  /** Whether a request asks to change the watchlist. */
  predicate ChangesWatchlist(request: Request) {
    request.Post? && ("add" in request.keys || "remove" in request.keys)
  }

  /** The watchlist after a listing-page request: "add" puts the listing in,
      otherwise "remove" takes it out (so "add" wins when both are posted);
      no other auction's membership changes. */
  function WatchlistAfter(watchlist: set<Auction>, listing: Auction, request: Request): (w: set<Auction>)
    ensures request.Post? && "add" in request.keys ==> listing in w
    ensures request.Post? && "add" !in request.keys && "remove" in request.keys ==> listing !in w
    ensures !ChangesWatchlist(request) ==> w == watchlist
    ensures w - {listing} == watchlist - {listing}
  {
    if request.Post? && "add" in request.keys then watchlist + {listing}
    else if request.Post? && "remove" in request.keys then watchlist - {listing}
    else watchlist
  }

  /** Adding twice is adding once; removing what is not there changes nothing. */
  lemma WatchlistIdempotent(watchlist: set<Auction>, listing: Auction)
    ensures var added := WatchlistAfter(watchlist, listing, Post({"add"}));
      WatchlistAfter(added, listing, Post({"add"})) == added
    ensures listing !in watchlist ==> WatchlistAfter(watchlist, listing, Post({"remove"})) == watchlist
  {
  }

  /** What the listing page handler answers. */
  datatype Response = Redirect | Page(onWatchlist: bool)

  /** The listing page handler: a posted "add" or "remove" updates the
      requesting user's watchlist and redirects; otherwise the page shows
      whether the listing is on that watchlist. */
  method ViewListing(listing: Auction, user: User, request: Request) returns (resp: Response)
    modifies user`watchlist
    ensures user.watchlist == WatchlistAfter(old(user.watchlist), listing, request)
    ensures ChangesWatchlist(request) ==> resp == Redirect
    ensures !ChangesWatchlist(request) ==> resp == Page(listing in user.watchlist)
  {
    if request.Post? {
      if "add" in request.keys {
        user.watchlist := user.watchlist + {listing};
        return Redirect;
      } else if "remove" in request.keys {
        user.watchlist := user.watchlist - {listing};
        return Redirect;
      }
    }
    var onWatchlist := listing in user.watchlist;
    return Page(onWatchlist);
  }
}
