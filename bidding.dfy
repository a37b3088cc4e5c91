/** The auction ledger: the part of an auction that bidding reads and
    writes, the invariant that creating a listing establishes and that every
    bid keeps, and what follows from it (the last bid is the highest). */
module Bidding {
  import opened Results
  import opened Models
  import Forms

  /** Starting bid, current price and the bids in insertion order. */
  datatype Ledger = Ledger(startingBid: Cents, currentPrice: Option<Cents>, bids: seq<Bid>)

  /** The ledger part of a stored auction. */
  function LedgerOf(a: Auction): Ledger
    reads a
  {
    Ledger(a.startingBid, a.currentPrice, a.bids)
  }

  /** Each bid is above the one placed just before it. */
  predicate Increasing(bids: seq<Bid>) {
    forall i :: 0 < i < |bids| ==> bids[i - 1].amount < bids[i].amount
  }

  /** The ledger invariant: amounts are money, increase strictly, are never
      below the starting bid, and the current price is the last bid, or the
      starting bid while there are none. */
  predicate Consistent(l: Ledger) {
    && IsMoney(l.startingBid)
    && Increasing(l.bids)
    && (forall i :: 0 <= i < |l.bids| ==> l.startingBid <= l.bids[i].amount && IsMoney(l.bids[i].amount))
    && l.currentPrice == Some(if l.bids == [] then l.startingBid else l.bids[|l.bids| - 1].amount)
  }

  /** The ledger of a freshly created listing: priced at its starting bid, no bids. */
  function Open(startingBid: Cents): (l: Ledger)
    ensures l.startingBid == startingBid && l.bids == []
    ensures IsMoney(startingBid) ==> Consistent(l)
  {
    Ledger(startingBid, Some(startingBid), [])
  }

  /** The new ledger and the outcome of one bid submission. */
  datatype Placement = Placement(ledger: Ledger, result: Result<Bid, Forms.BidError>)

  /** One bid submission by `bidder` on `listing`: an admissible amount
      appends exactly one bid and becomes the current price; anything else
      leaves the ledger as it was. Whether the auction is active plays no part. */
  function Place(l: Ledger, listing: Auction, bidder: User, amount: Cents): (p: Placement)
    ensures p.result.Ok? <==> Forms.ValidateBid(l.bids, l.startingBid, amount).Ok?
    ensures p.result.Ok? ==>
      && p.result.value == Bid(amount, bidder, listing)
      && p.ledger == Ledger(l.startingBid, Some(amount), l.bids + [p.result.value])
    ensures p.result.Err? ==>
      && p.ledger == l
      && p.result.error == Forms.ValidateBid(l.bids, l.startingBid, amount).error
    ensures Consistent(l) ==> Consistent(p.ledger)
  {
    match Forms.ValidateBid(l.bids, l.startingBid, amount)
    case Ok(value) =>
      var bid := Bid(value, bidder, listing);
      Placement(Ledger(l.startingBid, Some(value), l.bids + [bid]), Ok(bid))
    case Err(e) =>
      Placement(l, Err(e))
  }

  /** One submitted bid: who made it and for how much. */
  datatype Offer = Offer(bidder: User, amount: Cents)

  /** Submitting the offers one after another. */
  function Replay(l: Ledger, listing: Auction, offers: seq<Offer>): Ledger
    decreases |offers|
  {
    if offers == [] then l
    else Replay(Place(l, listing, offers[0].bidder, offers[0].amount).ledger, listing, offers[1..])
  }

  /** Any run of submissions keeps the invariant, keeps the starting bid, and
      only ever appends to the bids. */
  lemma {:induction false} ReplayKeepsConsistent(l: Ledger, listing: Auction, offers: seq<Offer>)
    requires Consistent(l)
    ensures Consistent(Replay(l, listing, offers))
    ensures Replay(l, listing, offers).startingBid == l.startingBid
    ensures l.bids <= Replay(l, listing, offers).bids
    decreases |offers|
  {
    if offers != [] {
      var next := Place(l, listing, offers[0].bidder, offers[0].amount).ledger;
      ReplayKeepsConsistent(next, listing, offers[1..]);
    }
  }

  /** Any two bids, not just neighbours, are in increasing order. */
  lemma {:induction false} IncreasingPairwise(bids: seq<Bid>, i: nat, j: nat)
    requires Increasing(bids) && i < j < |bids|
    ensures bids[i].amount < bids[j].amount
    decreases j - i
  {
    if i + 1 < j {
      IncreasingPairwise(bids, i, j - 1);
    }
  }

  /** In a consistent ledger the current price is the highest amount offered:
      it is at least the starting bid and every bid, every earlier bid is
      strictly below it, and with bids it is the last bid's amount. */
  lemma LastBidIsHighest(l: Ledger)
    requires Consistent(l)
    ensures l.currentPrice.Some? && l.startingBid <= l.currentPrice.value
    ensures forall i :: 0 <= i < |l.bids| ==> l.bids[i].amount <= l.currentPrice.value
    ensures forall i :: 0 <= i < |l.bids| - 1 ==> l.bids[i].amount < l.currentPrice.value
    ensures l.bids != [] ==> l.currentPrice.value == l.bids[|l.bids| - 1].amount
  {
    forall i | 0 <= i < |l.bids| - 1
      ensures l.bids[i].amount < l.currentPrice.value
    {
      IncreasingPairwise(l.bids, i, |l.bids| - 1);
    }
  }

  /** After a listing is created and any bids are submitted, every bid is at
      least the starting bid, amounts increase strictly in submission order,
      and the current price is the last (and highest) bid, or the starting bid. */
  lemma {:induction false} CreatedThenBidOn(startingBid: Cents, listing: Auction, offers: seq<Offer>)
    requires IsMoney(startingBid)
    ensures var l := Replay(Open(startingBid), listing, offers);
      && l.startingBid == startingBid
      && (forall i :: 0 <= i < |l.bids| ==> startingBid <= l.bids[i].amount)
      && (forall i, j :: 0 <= i < j < |l.bids| ==> l.bids[i].amount < l.bids[j].amount)
      && l.currentPrice == Some(if l.bids == [] then startingBid else l.bids[|l.bids| - 1].amount)
  {
    var l := Replay(Open(startingBid), listing, offers);
    ReplayKeepsConsistent(Open(startingBid), listing, offers);
    forall i, j | 0 <= i < j < |l.bids|
      ensures l.bids[i].amount < l.bids[j].amount
    {
      IncreasingPairwise(l.bids, i, j);
    }
  }

  /** The first bid may equal the starting bid; once it is placed, the same
      amount again is turned down as not higher than the previous bids. */
  lemma TieAcceptedOnlyAsFirstBid(startingBid: Cents, listing: Auction, first: User, second: User)
    requires IsMoney(startingBid)
    ensures var p := Place(Open(startingBid), listing, first, startingBid);
      && p.result.Ok?
      && p.ledger.currentPrice == Some(startingBid)
      && Place(p.ledger, listing, second, startingBid).result == Err(Forms.Rejected(Forms.NotAboveLastBid))
  {
  }
}
