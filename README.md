# Auction ledger of the commerce app, in Dafny

This project models the core of a small auction web app: listings (auctions), the bids placed on them, comments, and each user's watchlist. The part with real rules is the ledger. A new listing is priced at its starting bid. A bid is admissible only by the app's asymmetric rule:

- with no bids yet, the amount must be at least the starting bid;
- once a bid exists, the amount must be strictly above the last bid.

An accepted bid is appended and becomes the current price.

Money is a whole number of cents. A money column has at most ten digits, two of them after the point, so an amount is below 10^10 cents in magnitude.

The model has six modules:

- `Results`: option and result types.
- `Models`: the database models. `User` and `Auction` are classes, because the handlers update them in place. `Category`, `Bid` and `Comment` are values. A stored row's identity is the object reference.
- `Forms`: the three forms. A text field is stripped of whitespace as Python's `str.strip` does, then checked for presence, then for length. The bid form checks the digit limit first and then the bid rule.
- `Bidding`: the ledger as a value. It holds the invariant that creating a listing sets up and every bid keeps: amounts increase strictly, none is below the starting bid, and the current price is the last bid (or the starting bid while there are none). It also proves that the last bid is therefore the highest.
- `Views`: the handlers that change state: create a listing, bid, comment, and add or remove a listing on the watchlist. Each is proved against the `Forms` and `Bidding` functions or, for the watchlist, against `Views.WatchlistAfter`.
- `Util`: the listing page's three flags and its default bid form.

`is_active` and `won_by` are declared (auctions/models.py:25-26), but no code writes them, and the bid handler never reads `is_active`. There is no close operation and no "auction closed" rejection, and the model adds neither. No handler's frame includes `isActive` or `wonBy`, and the bid rule does not mention them.

## Model

| member | source | states |
|---|---|---|
| `Models.User.ToString` | auctions/models.py:8-9 | A user is shown as its username. |
| `Models.Category.ToString` | auctions/models.py:14-15 | A category is shown as its name. |
| `Models.Auction.ToString` | auctions/models.py:28-29 | An auction is shown as its title. |
| `Models.Auction.constructor` | auctions/models.py:17-26 | A new auction stores the given fields. It is active, not won (`won_by` absent), and has no bids or comments. |
| `Models.Bid.ToString` | auctions/models.py:36-37 | A bid's label has three parts that can be read back: the prefix "Bid made by ", the creator's username, then " on " and the auction's title. |
| `Models.Comment.ToString` | auctions/models.py:44-45 | A comment's label has the same shape, with the prefix "Comment made by ". |
| `Models.LastBid` | auctions/forms.py:42 | `.last()` gives nothing exactly when there are no bids. Otherwise it gives the newest bid. |
| `Forms.TrimStart` | auctions/forms.py:13 | Leading whitespace is dropped. The rest is a suffix of the input, and everything dropped was whitespace. |
| `Forms.TrimEnd` | auctions/forms.py:13 | Trailing whitespace is dropped. The rest is a prefix of the input, and everything dropped was whitespace. |
| `Forms.Strip` | auctions/forms.py:13-14 | A stripped field is the input with only surrounding whitespace removed: a contiguous part of the input, with only whitespace before and after it. It neither starts nor ends with whitespace, and it is empty exactly when the input is all whitespace. |
| `Forms.StripIdempotent` | auctions/forms.py:13-14 | Stripping twice is the same as stripping once. |
| `Forms.CleanText` | auctions/forms.py:13-14 | A text field is accepted exactly when it is present (if required) and within its limit after stripping. An accepted value is the stripped text. A blank required field is rejected as required. A present value over the limit is rejected as too long, naming the limit. |
| `Forms.CleanListing` | auctions/forms.py:13-19 | The listing form is valid exactly when these all hold: the title is non-blank and at most 100 chars; the description is non-blank and at most 1000; the starting bid is within the money limit; the category is non-blank. A valid form yields the stripped values. An invalid one lists at least one error, including a digit error for an out-of-range starting bid. |
| `Forms.CleanComment` | auctions/forms.py:56 | A comment is accepted exactly when, stripped, it is non-blank and at most 500 chars. The error says which of the two failed. |
| `Forms.CleanAmount` | auctions/forms.py:35-49 | With no bids, an amount is accepted iff it is at least the starting bid. With bids, an amount is accepted iff it is above the last bid. An accepted amount is returned unchanged. A rejection carries the "lower than the starting bid" message with no bids and the "higher than the previous bids" message otherwise. |
| `Forms.ValidateBid` | auctions/forms.py:28-49 | An amount outside the ten-digit limit is rejected before the bid rule runs. Otherwise the outcome is the bid rule's. An accepted amount is returned unchanged. |
| `Forms.DecidedByLastBidOnly` | auctions/forms.py:45-47 | Once bids exist, two auctions whose last bids are equal decide every amount alike. Their starting bids and earlier bids play no part. |
| `Bidding.Open` | auctions/views.py:140-149 | A created listing's ledger has the starting bid as its current price and no bids. It is consistent whenever the starting bid is valid money. |
| `Bidding.Place` | auctions/views.py:164-177 | A bid is accepted iff the bid form accepts the amount. Acceptance appends exactly one bid (amount, bidder, auction) and sets the current price to that amount. Rejection leaves the ledger unchanged and returns the form's error. The ledger invariant is preserved. |
| `Bidding.ReplayKeepsConsistent` | auctions/views.py:168-177 | Any sequence of bid submissions keeps the invariant and the starting bid, and only appends to the bids. |
| `Bidding.IncreasingPairwise` | auctions/views.py:57-62 | Any earlier bid is strictly below any later bid, not just the adjacent one. |
| `Bidding.LastBidIsHighest` | auctions/views.py:57-62 | In a consistent ledger the current price is at least the starting bid and at least every bid. It is strictly above every earlier bid. With bids, it is the last bid's amount. So `.last()` is the maximum. |
| `Bidding.CreatedThenBidOn` | auctions/views.py:140-177 | After a listing is created and any bids are submitted: every bid is at least the starting bid; amounts increase strictly in submission order; the current price is the last bid, or the starting bid when there are none. |
| `Bidding.TieAcceptedOnlyAsFirstBid` | auctions/forms.py:42-47 | On a new listing, a first bid equal to the starting bid is accepted. The same amount again is then rejected as not higher than the previous bids. |
| `Views.CreateListing` | auctions/views.py:132-154 | An invalid form creates nothing and returns its errors. A valid form whose category exists creates a fresh, sound, active auction. It is owned by the requesting user, carries the cleaned title, description, category and image, has no bids or comments, and has the ledger of a new listing. |
| `Views.PlaceBid` | auctions/views.py:156-188 | The auction's ledger and the result are exactly those of `Bidding.Place`. Only the bids and the current price may change, so `is_active` is neither read nor written. Soundness is preserved. |
| `Views.PostComment` | auctions/views.py:190-218 | A valid comment appends exactly one comment (cleaned text, author, auction). An invalid one leaves the comments unchanged and returns the form's error. Soundness is preserved. |
| `Views.WatchlistAfter` | auctions/views.py:222-228 | A posted "add" puts the listing on the watchlist. Otherwise a posted "remove" takes it off, so "add" wins when both are posted. Any other request changes nothing. No other auction's membership changes. |
| `Views.WatchlistIdempotent` | auctions/views.py:223-228 | Adding twice is the same as adding once. Removing a listing that is not there changes nothing. |
| `Views.ViewListing` | auctions/views.py:220-245 | The user's watchlist becomes `WatchlistAfter` of the old one, and nothing else changes. An add or remove request redirects. Any other request shows whether the listing is on the watchlist. |
| `Util.RenderListing` | auctions/util.py:7-27 | `on_watchlist` holds iff the listing is on the user's watchlist. `own_listing` holds iff the user created it. `listing_won` holds iff a bid exists and the last bid is the user's; it does not consult `is_active`. Without a bid form, an unsubmitted form bound to the listing is used. |
| `Util.WinnerMadeHighestBid` | auctions/util.py:25-27 | On a consistent auction, a user the page reports as having won made the last bid. That bid is the current price, and every other bid is strictly lower. |

## Left out

- Login, logout and registration (auctions/views.py:81-130). These are the framework's authentication. The requesting user is a parameter.
- The `index`, `categories`, `category` and `watchlist` views (auctions/views.py:72-79, 247-257), the URL table and the migrations. They only query, route or describe the schema.
- Template rendering. This covers the empty form shown by a non-POST `create_listing` and the page re-rendered after an invalid bid or comment. The `on_watchlist` value that the bid and comment handlers compute only feeds that page.
- Closing an auction and choosing a winner. No code writes `is_active` or `won_by`.
- The race between the bid rule's read of the last bid and the save of the new bid. Handlers here run one at a time.
- Parsing the submitted decimal. Amounts arrive as cents, so input that is not a number or has more than two decimal places is not represented. The framework's digit-limit messages are not modelled; only the error kind is.
- URL validation and normalisation of `image`.
- The framework's rejection of null characters in text fields.
- Loading the category choices when the module is imported. The category key is a free string. It is resolved through a map from primary key to category, and a key that is not in the map becomes an error result with no state change. In the app that failed lookup is an uncaught exception.
- A global table of bids. Bids are stored with their auction, and every stored bid points to that auction. Only the bid handler creates bids, but the model does not otherwise state that an auction's bids are exactly the bids that point to it.
- Numeric primary keys. Object identity stands in for them.
- The duplicate form classes in auctions/views.py:23-70. They repeat auctions/forms.py with only different labels. One shared definition models both: the bid rule at auctions/views.py:50-64 is `Forms.CleanAmount`.
- The comment model's 1000-character column limit. The comment form's tighter 500-character limit is what the handler enforces, and it is what the model keeps.
