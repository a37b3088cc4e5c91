/** The auction app's database models: users with their watchlist,
    categories, auctions, and the bids and comments that point to an auction.
    Money is kept as a whole number of cents. */
module Models {
  import opened Results

  /** A decimal money amount with two places, counted in cents. */
  type Cents = int

  /** Money columns hold at most ten digits, two of them after the point,
      so an amount is below 10^8 units, that is 10^10 cents, in magnitude. */
  const MoneyLimit: int := 10_000_000_000

  predicate IsMoney(c: Cents) {
    -MoneyLimit < c < MoneyLimit
  }

  /** A registered user; the watchlist is a many-to-many relation to
      auctions, so it holds each auction at most once. */
  class User {
    const username: string
    var watchlist: set<Auction>

    /** A user is shown by its username. */
    function ToString(): (s: string)
      ensures s == username
    {
      username
    }
  }

  datatype Category = Category(id: nat, name: string) {
    /** A category is shown by its name. */
    function ToString(): (s: string)
      ensures s == name
    {
      name
    }
  }

  /** An auction listing. `bids` and `comments` are the rows that point to
      this auction, in insertion order (the order `.last()` relies on). */
  class Auction {
    const title: string
    const description: string
    const startingBid: Cents
    var currentPrice: Option<Cents>
    const creator: User
    var category: Option<Category>
    var image: Option<string>
    var isActive: bool
    var wonBy: Option<User>
    var bids: seq<Bid>
    var comments: seq<Comment>

    /** A new auction: active, not won, with no bids and no comments yet. */
    constructor (title: string, description: string, startingBid: Cents, currentPrice: Option<Cents>,
                 creator: User, category: Option<Category>, image: Option<string>)
      ensures this.title == title && this.description == description
      ensures this.startingBid == startingBid && this.currentPrice == currentPrice
      ensures this.creator == creator && this.category == category && this.image == image
      ensures isActive && wonBy == None
      ensures bids == [] && comments == []
    {
      this.title := title;
      this.description := description;
      this.startingBid := startingBid;
      this.currentPrice := currentPrice;
      this.creator := creator;
      this.category := category;
      this.image := image;
      isActive := true;
      wonBy := None;
      bids := [];
      comments := [];
    }

    /** An auction is shown by its title. */
    function ToString(): (s: string)
      ensures s == title
    {
      title
    }
  }

  /** A bid belongs to exactly one auction and was made by exactly one user. */
  datatype Bid = Bid(amount: Cents, creator: User, auction: Auction) {
    /** "Bid made by <username> on <title>": the three parts can be read back. */
    function ToString(): (s: string)
      ensures |s| == 16 + |creator.username| + |auction.title|
      ensures s[..12] == "Bid made by "
      ensures s[12..12 + |creator.username|] == creator.username
      ensures s[12 + |creator.username|..|s| - |auction.title|] == " on "
      ensures s[|s| - |auction.title|..] == auction.title
    {
      "Bid made by " + creator.username + " on " + auction.title
    }
  }

  /** A comment belongs to exactly one auction and was written by exactly one user. */
  datatype Comment = Comment(content: string, creator: User, auction: Auction) {
    /** "Comment made by <username> on <title>": the three parts can be read back. */
    function ToString(): (s: string)
      ensures |s| == 20 + |creator.username| + |auction.title|
      ensures s[..16] == "Comment made by "
      ensures s[16..16 + |creator.username|] == creator.username
      ensures s[16 + |creator.username|..|s| - |auction.title|] == " on "
      ensures s[|s| - |auction.title|..] == auction.title
    {
      "Comment made by " + creator.username + " on " + auction.title
    }
  }

  /** `.last()` on the bids of an auction: the newest bid, or nothing. */
  function LastBid(bids: seq<Bid>): (r: Option<Bid>)
    ensures r.None? <==> bids == []
    ensures r.Some? ==> r.value == bids[|bids| - 1]
  {
    if bids == [] then None else Some(bids[|bids| - 1])
  }
}
