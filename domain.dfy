/** The records of the auction core (auctions, bids, payments, artists,
    artworks), the shared constants and the queries over the bid ledger
    that several controllers repeat. */
module Domain {

  /** Money is counted in cents; the source's decimal(10,2) columns are
      currency units with two decimals. */
  const CENTS_PER_UNIT: int := 100

  /** Every bid must exceed the current highest bid (or the starting bid)
      by ten currency units. */
  const MIN_INCREMENT: int := 10 * CENTS_PER_UNIT

  /** Time is counted in seconds. */
  const HOUR: int := 3600

  /** Bounds of the `hours` parameter of an extension. */
  const MIN_EXTEND_HOURS: int := 1
  const MAX_EXTEND_HOURS: int := 72

  /** Length limit of a `string|max:255` validation rule. */
  const MAX_STRING: int := 255

  datatype Option<T> = None | Some(value: T)

  /** The four auction states; Pending is also what the expiry sweep writes
      for "pending payment". */
  datatype Status = Pending | Active | Ended | Closed

  datatype Auction = Auction(
    artworkId: int,
    startDate: int,
    endDate: int,
    startingBid: int,
    highestBid: Option<int>,
    status: Status)

  datatype Bid = Bid(auctionId: int, userId: int, amount: int, bidTime: int)

  datatype PaymentStatus = PaymentPending | PaymentPaid

  datatype Payment = Payment(
    auctionId: int,
    userId: int,
    paymentMethod: string,
    status: PaymentStatus,
    amount: int)

  /** The authenticated caller, reduced to its id and the buyer role. */
  datatype User = User(userId: int, isBuyer: bool)

  /** An artist profile; `approved` is verification_status == 'approved'. */
  datatype Artist = Artist(artistId: int, userId: int, approved: bool)

  datatype ArtworkStatus = ArtworkPending | ArtworkApproved | ArtworkRejected

  datatype Artwork = Artwork(
    artistId: int,
    title: string,
    startingPrice: int,
    status: ArtworkStatus)

  /** The failure kinds the controllers return, with the HTTP status each is
      answered with. */
  datatype Error =
    | Invalid       // 422: request validation failed
    | Forbidden     // 403: role or approval check failed
    | NotFound      // 404: findOrFail / firstOrFail found nothing
    | NotActive     // 400: bid outside the bidding window
    | BidTooLow     // 400: bid below the minimum increment
    | StillActive   // 400: payment while the auction is active
    | NoBids        // 400: payment on an auction without bids
    | NotWinner     // 403: payment by someone other than the top bidder
    | AlreadyPaid   // 409: a payment for the auction exists
    | AlreadyEnded  // 400: extension at or after the end date
    | NotEnded      // 400: artist asked for the winner before the end date
    | NoWinner      // 404: artist asked for the winner of an auction without bids

  datatype Result<T> = Ok(value: T) | Err(error: Error)

  datatype Outcome = Pass | Fail(error: Error)

  /** What the public winner endpoint answers: a "not ended yet" message,
      an empty answer when nobody bid, or the top bid. */
  datatype WinnerReply = NotEndedYet | NoBid | Top(bid: Bid)

  /** The bids of one auction, in ledger (insertion) order. */
  function BidsOf(bids: seq<Bid>, auctionId: int): (r: seq<Bid>)
    ensures |r| <= |bids|
    ensures forall i :: 0 <= i < |r| ==> r[i].auctionId == auctionId
  {
    if bids == [] then []
    else
      var rest := BidsOf(bids[..|bids| - 1], auctionId);
      var last := bids[|bids| - 1];
      assert bids == bids[..|bids| - 1] + [last];
      if last.auctionId == auctionId then rest + [last] else rest
  }

  /** The bids of one auction are exactly the ledger's bids naming it. */
  lemma {:induction false} BidsOfMembers(bids: seq<Bid>, auctionId: int)
    ensures forall b :: b in BidsOf(bids, auctionId) <==> b in bids && b.auctionId == auctionId
  {
    if bids != [] {
      var init, last := bids[..|bids| - 1], bids[|bids| - 1];
      BidsOfMembers(init, auctionId);
      assert bids == init + [last];
    }
  }

  /** An auction no bid names has no bids. */
  lemma {:induction false} BidsOfAbsent(bids: seq<Bid>, auctionId: int)
    requires forall i :: 0 <= i < |bids| ==> bids[i].auctionId != auctionId
    ensures BidsOf(bids, auctionId) == []
  {
    if bids != [] {
      BidsOfAbsent(bids[..|bids| - 1], auctionId);
    }
  }

  /** Appending one bid to the ledger extends exactly its own auction's list. */
  lemma BidsOfAppend(bids: seq<Bid>, b: Bid, auctionId: int)
    ensures BidsOf(bids + [b], auctionId)
         == BidsOf(bids, auctionId) + (if b.auctionId == auctionId then [b] else [])
  {
    assert (bids + [b])[..|bids|] == bids;
  }

  /** The index of the first bid of maximum amount, computed the way a
      left-to-right scan with a strict `>` comparison finds it. */
  function HighestIndex(bids: seq<Bid>): (i: nat)
    requires |bids| > 0
    ensures i < |bids|
    ensures forall j :: 0 <= j < |bids| ==> bids[j].amount <= bids[i].amount
    ensures forall j :: 0 <= j < i ==> bids[j].amount < bids[i].amount
  {
    if |bids| == 1 then 0
    else
      var k := HighestIndex(bids[..|bids| - 1]);
      if bids[|bids| - 1].amount > bids[k].amount then |bids| - 1 else k
  }

  /** The bid a query ordered by amount, descending, returns first; among
      equal amounts the earliest is taken. */
  function TopBid(bids: seq<Bid>): (r: Option<Bid>)
    ensures r.None? <==> bids == []
    ensures r.Some? ==> r.value in bids
    ensures r.Some? ==> forall b :: b in bids ==> b.amount <= r.value.amount
  {
    if bids == [] then None else Some(bids[HighestIndex(bids)])
  }

  function MaxAmount(bids: seq<Bid>): Option<int>
  {
    match TopBid(bids)
    case None => None
    case Some(b) => Some(b.amount)
  }

  /** A bid that beats every bid before it is the new top bid. */
  lemma TopBidOfRaise(bids: seq<Bid>, b: Bid)
    requires forall c :: c in bids ==> c.amount < b.amount
    ensures TopBid(bids + [b]) == Some(b)
  {
    var s := bids + [b];
    if bids != [] {
      assert s[..|s| - 1] == bids;
      var k := HighestIndex(bids);
      assert bids[k] in bids;
      assert HighestIndex(s) == |s| - 1;
    }
  }

  predicate Increasing(bids: seq<Bid>)
  {
    forall i, j :: 0 <= i < j < |bids| ==> bids[i].amount < bids[j].amount
  }

  /** In a strictly increasing ledger the top bid is the latest one. */
  lemma TopOfIncreasing(bids: seq<Bid>)
    requires bids != [] && Increasing(bids)
    ensures TopBid(bids) == Some(bids[|bids| - 1])
  {
    var i := HighestIndex(bids);
    assert !(i < |bids| - 1) by {
      assert forall i', j' :: 0 <= i' < j' < |bids| ==> bids[i'].amount < bids[j'].amount;
    }
  }

  /** The ledger agrees with the auctions: every bid belongs to a known
      auction, each auction's cached highest bid is the maximum amount of
      its bids (none exactly when it has no bids), and each auction's bids
      strictly increase in amount. */
  predicate Consistent(auctions: map<int, Auction>, bids: seq<Bid>)
  {
    && (forall i :: 0 <= i < |bids| ==> bids[i].auctionId in auctions)
    && (forall id {:trigger BidsOf(bids, id)} :: id in auctions ==> Cached(auctions[id], BidsOf(bids, id)))
  }

  /** One auction agrees with its own bids. */
  predicate Cached(a: Auction, ledger: seq<Bid>)
  {
    a.highestBid == MaxAmount(ledger) && Increasing(ledger)
  }
}
