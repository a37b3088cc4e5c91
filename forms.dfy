/** The app's forms: the new-listing form, the bid form with its
    admissibility rule, and the comment form. A text field is stripped of
    surrounding whitespace, then checked for presence, then for length. */
module Forms {
  import opened Results
  import opened Models

  const TitleMaxLength: nat := 100
  const DescriptionMaxLength: nat := 1000
  const CommentMaxLength: nat := 500

  datatype Field = TitleField | DescriptionField | StartingBidField | CategoryField | ImageField | ContentField

  datatype FieldError =
    | Required(field: Field)
    | TooLong(field: Field, limit: nat)
    | TooManyDigits(field: Field)

  /** The two ways the bid rule turns an amount down. */
  datatype Rejection = BelowStartingBid | NotAboveLastBid {
    function Message(): string {
      match this
      case BelowStartingBid => "Error: Bid is lower than the starting bid."
      case NotAboveLastBid => "Error: Bid must be higher than the previous bids."
    }
  }

  /** Why a submitted bid amount is not accepted: the amount field itself is
      out of range, or the bid rule rejects it. */
  datatype BidError = AmountTooManyDigits | Rejected(reason: Rejection)

  /** A bid form bound to a listing; `amount` is absent on an unsubmitted form. */
  datatype BidForm = BidForm(listing: Auction, amount: Option<Cents>)

  /** Whitespace as Python's `str.isspace` defines it. */
  predicate IsSpace(c: char) {
    || '\t' <= c <= '\r'
    || '\U{1c}' <= c <= ' '
    || c == '\U{85}' || c == '\U{a0}' || c == '\U{1680}'
    || '\U{2000}' <= c <= '\U{200a}'
    || c == '\U{2028}' || c == '\U{2029}' || c == '\U{202f}' || c == '\U{205f}' || c == '\U{3000}'
  }

  /** Drops leading whitespace: what remains is a suffix, and everything dropped was whitespace. */
  function TrimStart(s: string): (r: string)
    ensures |r| <= |s| && r == s[|s| - |r|..]
    ensures r == [] || !IsSpace(r[0])
    ensures forall k :: 0 <= k < |s| - |r| ==> IsSpace(s[k])
  {
    if s != [] && IsSpace(s[0]) then TrimStart(s[1..]) else s
  }

  /** Drops trailing whitespace: what remains is a prefix, and everything dropped was whitespace. */
  function TrimEnd(s: string): (r: string)
    ensures |r| <= |s| && r == s[..|r|]
    ensures r == [] || !IsSpace(r[|r| - 1])
    ensures forall k :: |r| <= k < |s| ==> IsSpace(s[k])
  {
    if s != [] && IsSpace(s[|s| - 1]) then TrimEnd(s[..|s| - 1]) else s
  }

  /** `r` is `s` with whitespace, and only whitespace, removed from before
      position `i` and from after the part `r` occupies. */
  predicate Unpadded(s: string, r: string, i: int) {
    && 0 <= i <= |s| - |r|
    && r == s[i..i + |r|]
    && (forall k :: 0 <= k < i ==> IsSpace(s[k]))
    && (forall k :: i + |r| <= k < |s| ==> IsSpace(s[k]))
  }

  /** A prefix `r` of a suffix `t` of `s`, where what precedes `t` and what
      follows `r` inside `t` is whitespace, is `s` with only surrounding
      whitespace removed. */
  lemma PrefixOfSuffixUnpadded(s: string, t: string, r: string)
    requires |t| <= |s| && t == s[|s| - |t|..]
    requires |r| <= |t| && r == t[..|r|]
    requires forall k :: 0 <= k < |s| - |t| ==> IsSpace(s[k])
    requires forall k :: |r| <= k < |t| ==> IsSpace(t[k])
    ensures Unpadded(s, r, |s| - |t|)
  {
    var i := |s| - |t|;
    assert r == s[i..i + |r|] by {
      forall k | 0 <= k < |r|
        ensures r[k] == s[i + k]
      {
        assert r[k] == t[k];
      }
    }
    forall k | i + |r| <= k < |s|
      ensures IsSpace(s[k])
    {
      assert s[k] == t[k - i];
    }
  }

  /** Python's `str.strip()`: the result is the input with only surrounding
      whitespace removed; it neither starts nor ends with whitespace, and it
      is empty exactly when the input is all whitespace. */
  function Strip(s: string): (r: string)
    ensures |r| <= |s|
    ensures exists i :: Unpadded(s, r, i)
    ensures r != [] ==> !IsSpace(r[0]) && !IsSpace(r[|r| - 1])
    ensures r == [] <==> forall k :: 0 <= k < |s| ==> IsSpace(s[k])
  {
    var t := TrimStart(s);
    var r := TrimEnd(t);
    assert r != [] ==> r[0] == t[0];
    PrefixOfSuffixUnpadded(s, t, r);
    r
  }

  /** Stripping twice is stripping once. */
  lemma StripIdempotent(s: string)
    ensures Strip(Strip(s)) == Strip(s)
  {
    var r := Strip(s);
    assert TrimStart(r) == r;
    assert TrimEnd(r) == r;
  }

  /** A text field: strip, then reject an empty required value, then reject
      a value longer than the limit. */
  function CleanText(field: Field, raw: string, maxLength: Option<nat>, required: bool): (r: Result<string, FieldError>)
    ensures r.Ok? <==> (!required || Strip(raw) != []) && (maxLength.None? || |Strip(raw)| <= maxLength.value)
    ensures r.Ok? ==> r.value == Strip(raw)
    ensures r.Err? ==> r.error.field == field
    ensures required && Strip(raw) == [] ==> r == Err(Required(field))
    ensures (!required || Strip(raw) != []) && maxLength.Some? && |Strip(raw)| > maxLength.value ==>
      r == Err(TooLong(field, maxLength.value))
  {
    var value := Strip(raw);
    if required && value == [] then Err(Required(field))
    else if maxLength.Some? && |value| > maxLength.value then Err(TooLong(field, maxLength.value))
    else Ok(value)
  }

  /** What the new-listing form submits; the starting bid arrives already parsed. */
  datatype ListingInput = ListingInput(title: string, description: string, startingBid: Cents, category: string, image: string)

  function ErrorsOf(r: Result<string, FieldError>): seq<FieldError> {
    if r.Ok? then [] else [r.error]
  }

  /** The new-listing form: every field is checked and the errors are listed
      in field order; a valid form yields the stripped values. */
  function CleanListing(input: ListingInput): (r: Result<ListingInput, seq<FieldError>>)
    ensures r.Ok? <==>
      && Strip(input.title) != [] && |Strip(input.title)| <= TitleMaxLength
      && Strip(input.description) != [] && |Strip(input.description)| <= DescriptionMaxLength
      && IsMoney(input.startingBid)
      && Strip(input.category) != []
    ensures r.Ok? ==> r.value == ListingInput(Strip(input.title), Strip(input.description), input.startingBid,
                                              Strip(input.category), Strip(input.image))
    ensures r.Err? ==> r.error != []
    ensures !IsMoney(input.startingBid) ==> r.Err? && TooManyDigits(StartingBidField) in r.error
  {
    var title := CleanText(TitleField, input.title, Some(TitleMaxLength), true);
    var description := CleanText(DescriptionField, input.description, Some(DescriptionMaxLength), true);
    var startingBid := if IsMoney(input.startingBid) then [] else [TooManyDigits(StartingBidField)];
    var category := CleanText(CategoryField, input.category, None, true);
    var image := CleanText(ImageField, input.image, None, false);
    var errors := ErrorsOf(title) + ErrorsOf(description) + startingBid + ErrorsOf(category) + ErrorsOf(image);
    if errors == [] then
      Ok(ListingInput(title.value, description.value, input.startingBid, category.value, image.value))
    else
      Err(errors)
  }

  /** The comment form: a non-blank comment of at most 500 characters. */
  function CleanComment(content: string): (r: Result<string, FieldError>)
    ensures r.Ok? <==> Strip(content) != [] && |Strip(content)| <= CommentMaxLength
    ensures r.Ok? ==> r.value == Strip(content) && 0 < |r.value| <= CommentMaxLength
    ensures r.Err? ==> r.error == (if Strip(content) == [] then Required(ContentField) else TooLong(ContentField, CommentMaxLength))
  {
    CleanText(ContentField, content, Some(CommentMaxLength), true)
  }

  /** The bid rule. With no bids yet, an amount equal to the starting bid is
      accepted; once a bid exists, only an amount above the last bid is, and
      the starting bid no longer matters. An accepted amount comes back
      unchanged; a rejection carries the message chosen by whether a bid exists. */
  function CleanAmount(bids: seq<Bid>, startingBid: Cents, amount: Cents): (r: Result<Cents, Rejection>)
    ensures bids == [] ==> (r.Ok? <==> startingBid <= amount)
    ensures bids != [] ==> (r.Ok? <==> bids[|bids| - 1].amount < amount)
    ensures r.Ok? ==> r.value == amount
    ensures r.Err? && bids == [] ==> r.error.Message() == "Error: Bid is lower than the starting bid."
    ensures r.Err? && bids != [] ==> r.error.Message() == "Error: Bid must be higher than the previous bids."
  {
    match LastBid(bids)
    case None =>
      if amount < startingBid then Err(BelowStartingBid) else Ok(amount)
    case Some(last) =>
      if amount <= last.amount then Err(NotAboveLastBid) else Ok(amount)
  }

  /** The whole bid form: the amount field's digit limit first, then the bid rule. */
  function ValidateBid(bids: seq<Bid>, startingBid: Cents, amount: Cents): (r: Result<Cents, BidError>)
    ensures !IsMoney(amount) ==> r == Err(AmountTooManyDigits)
    ensures r.Ok? <==> IsMoney(amount) && CleanAmount(bids, startingBid, amount).Ok?
    ensures r.Ok? ==> r.value == amount
    ensures IsMoney(amount) && r.Err? ==> r.error == Rejected(CleanAmount(bids, startingBid, amount).error)
  {
    if !IsMoney(amount) then Err(AmountTooManyDigits)
    else
      match CleanAmount(bids, startingBid, amount)
      case Ok(value) => Ok(value)
      case Err(reason) => Err(Rejected(reason))
  }

  /** Once a bid exists, two auctions whose last bids have the same amount
      decide every amount alike, whatever their starting bids and earlier bids. */
  lemma DecidedByLastBidOnly(bids1: seq<Bid>, start1: Cents, bids2: seq<Bid>, start2: Cents, amount: Cents)
    requires bids1 != [] && bids2 != []
    requires bids1[|bids1| - 1].amount == bids2[|bids2| - 1].amount
    ensures CleanAmount(bids1, start1, amount) == CleanAmount(bids2, start2, amount)
  {
  }
}
