/** The auction tables and the controller operations that update them in
    place: bid admission and listing, auction creation, lazy expiry,
    end-date changes, the winner endpoints, the expiry sweep, payment
    settlement, the artist's extension and artwork creation. */
module Marketplace {
  import opened Domain
  import opened Bidding
  import opened Lifecycle
  import opened Settlement

  /** The first artist profile belonging to a user (`firstOrFail`). */
  function FindArtist(artists: seq<Artist>, userId: int): (r: Option<Artist>)
    ensures r.None? <==> forall i :: 0 <= i < |artists| ==> artists[i].userId != userId
    ensures r.Some? ==> r.value in artists && r.value.userId == userId
    ensures r.Some? ==> exists i :: 0 <= i < |artists| && artists[i] == r.value
                          && forall j :: 0 <= j < i ==> artists[j].userId != userId
  {
    if artists == [] then None
    else if artists[0].userId == userId then Some(artists[0])
    else FindArtist(artists[1..], userId)
  }

  /** The caller's artist profile and an auction whose artwork that artist
      owns; anything else is "not found". */
  function OwnedAuction(auctions: map<int, Auction>, artworks: map<int, Artwork>, artists: seq<Artist>,
                        auctionId: int, userId: int): (r: Option<Auction>)
    ensures r.Some? ==> auctionId in auctions && r.value == auctions[auctionId]
    ensures r.Some? ==> auctions[auctionId].artworkId in artworks && FindArtist(artists, userId).Some?
                        && artworks[auctions[auctionId].artworkId].artistId == FindArtist(artists, userId).value.artistId
    ensures FindArtist(artists, userId).Some? && auctionId in auctions && auctions[auctionId].artworkId in artworks
            && artworks[auctions[auctionId].artworkId].artistId == FindArtist(artists, userId).value.artistId
            ==> r == Some(auctions[auctionId])
  {
    match FindArtist(artists, userId)
    case None => None
    case Some(artist) =>
      if auctionId in auctions && auctions[auctionId].artworkId in artworks
         && artworks[auctions[auctionId].artworkId].artistId == artist.artistId
      then Some(auctions[auctionId])
      else None
  }

  /** Every payment names a known auction, and that auction is closed. */
  predicate PaidAreClosed(auctions: map<int, Auction>, payments: seq<Payment>)
  {
    forall i :: 0 <= i < |payments| ==>
      payments[i].auctionId in auctions && auctions[payments[i].auctionId].status == Closed
  }

  /** A change that keeps every cached highest bid and never reopens a
      closed auction keeps the ledger consistent and paid auctions closed. */
  lemma KeepsInvariant(auctions: map<int, Auction>, auctions': map<int, Auction>, bids: seq<Bid>, payments: seq<Payment>)
    requires Consistent(auctions, bids) && PaidAreClosed(auctions, payments)
    requires auctions'.Keys == auctions.Keys
    requires forall id :: id in auctions ==>
      auctions'[id].highestBid == auctions[id].highestBid
      && (auctions[id].status == Closed ==> auctions'[id].status == Closed)
    ensures Consistent(auctions', bids) && PaidAreClosed(auctions', payments)
  {
    forall id | id in auctions' ensures Cached(auctions'[id], BidsOf(bids, id)) {
      assert Cached(auctions[id], BidsOf(bids, id));
    }
  }

  /** An auction under a new id has no bids, so adding it with no highest
      bid keeps the ledger consistent. */
  lemma ConsistentAfterCreate(auctions: map<int, Auction>, bids: seq<Bid>, payments: seq<Payment>, id: int, a: Auction)
    requires Consistent(auctions, bids) && PaidAreClosed(auctions, payments)
    requires id !in auctions && a.highestBid.None?
    ensures Consistent(auctions[id := a], bids) && PaidAreClosed(auctions[id := a], payments)
  {
    BidsOfAbsent(bids, id);
    assert Cached(a, BidsOf(bids, id));
    var m := auctions[id := a];
    forall k | k in m ensures Cached(m[k], BidsOf(bids, k)) {
      if k != id {
        assert Cached(auctions[k], BidsOf(bids, k));
      }
    }
  }

  /** The loop of AuctionController.index over the table in id order
      (ids run from 1 up to `next`): every active auction whose end date has
      passed is marked ended. */
  method ExpireEach(auctions: map<int, Auction>, next: int, now: int) returns (r: map<int, Auction>)
    requires forall id :: id in auctions ==> 0 < id < next
    ensures r == ExpireAll(auctions, now)
  {
    r := auctions;
    var id := 1;
    while id < next
      invariant 1 <= id && r.Keys == auctions.Keys
      invariant forall k :: k in auctions && id <= k ==> r[k] == auctions[k]
      invariant forall k :: k in auctions && k < id ==> r[k] == Expire(auctions[k], now)
    {
      if id in r && r[id].status == Active && now > r[id].endDate {
        r := r[id := r[id].(status := Ended)];
      }
      id := id + 1;
    }
  }

  /** CloseExpiredAuctions.handle on the table: it selects the active
      auctions whose end date has passed, then visits them in id order; each
      gets the top amount of its bids and awaits payment, or is closed when
      nobody bid. `closed` is the selection. */
  method SweepEach(auctions: map<int, Auction>, next: int, bids: seq<Bid>, now: int)
    returns (r: map<int, Auction>, closed: set<int>)
    requires forall id :: id in auctions ==> 0 < id < next
    ensures closed == ExpiredIds(auctions, now)
    ensures r == Sweep(auctions, bids, now)
  {
    closed := set id | id in auctions && auctions[id].status == Active && auctions[id].endDate < now;
    r := auctions;
    var id := 1;
    while id < next
      invariant 1 <= id && r.Keys == auctions.Keys
      invariant forall k :: k in auctions && id <= k ==> r[k] == auctions[k]
      invariant forall k :: k in auctions && k < id ==> r[k] == SweepOne(auctions[k], BidsOf(bids, k), now)
    {
      if id in closed {
        var highest := TopBid(BidsOf(bids, id));
        var auction := r[id];
        if highest.Some? {
          auction := auction.(status := Pending, highestBid := Some(highest.value.amount));
        } else {
          auction := auction.(status := Closed);
        }
        r := r[id := auction];
      }
      id := id + 1;
    }
  }

  /** The "already paid" lookup of PaymentController.store. */
  method FindPayment(payments: seq<Payment>, auctionId: int) returns (found: bool)
    ensures found <==> HasPayment(payments, auctionId)
  {
    var i := 0;
    while i < |payments|
      invariant 0 <= i <= |payments|
      invariant forall j :: 0 <= j < i ==> payments[j].auctionId != auctionId
    {
      if payments[i].auctionId == auctionId {
        return true;
      }
      i := i + 1;
    }
    return false;
  }

  class Market {
    var auctions: map<int, Auction>
    var bids: seq<Bid>
    var payments: seq<Payment>
    var artists: seq<Artist>
    var artworks: map<int, Artwork>
    var nextAuctionId: int
    var nextArtworkId: int

    /** The tables agree with each other: cached highest bids match the
        ledger, each auction has at most one payment, and paid auctions are
        closed; new ids are above every id in use. */
    predicate Valid()
      reads this
    {
      && Consistent(auctions, bids)
      && OnePaymentEach(payments)
      && PaidAreClosed(auctions, payments)
      && 0 < nextAuctionId && 0 < nextArtworkId
      && (forall id :: id in auctions ==> 0 < id < nextAuctionId)
      && (forall id :: id in artworks ==> id < nextArtworkId)
    }

    /** Empty tables over the given (externally registered) artists. */
    constructor (artists: seq<Artist>)
      ensures Valid()
      ensures this.artists == artists
      ensures auctions == map[] && bids == [] && payments == [] && artworks == map[]
    {
      this.artists := artists;
      auctions, bids, payments, artworks := map[], [], [], map[];
      nextAuctionId, nextArtworkId := 1, 1;
    }

    /** BidController.store. */
    method PlaceBid(auctionId: int, caller: User, amount: int, now: int) returns (r: Result<Bid>)
      requires Valid()
      modifies this`auctions, this`bids
      ensures Valid()
      ensures auctionId !in old(auctions) ==> r == Err(Invalid)
      ensures auctionId in old(auctions) ==>
        var check := Admit(old(auctions)[auctionId], caller.isBuyer, amount, now);
        (check.Fail? <==> r.Err?) && (check.Fail? ==> r.error == check.error)
      ensures r.Err? ==> auctions == old(auctions) && bids == old(bids)
      ensures r.Ok? ==>
        && r.value == Bid(auctionId, caller.userId, amount, now)
        && bids == old(bids) + [r.value]
        && auctions == old(auctions)[auctionId := Accept(old(auctions)[auctionId], amount)]
      ensures r.Ok? && old(auctions)[auctionId].highestBid.Some? ==>
        old(auctions)[auctionId].highestBid.value + MIN_INCREMENT <= amount
    {
      if auctionId !in auctions || amount < 0 {
        return Err(Invalid);
      }
      if !caller.isBuyer {
        return Err(Forbidden);
      }
      var auction := auctions[auctionId];
      if now < auction.startDate || now >= auction.endDate {
        return Err(NotActive);
      }
      var minBid := match auction.highestBid case None => auction.startingBid case Some(h) => h;
      if amount < minBid + MIN_INCREMENT {
        return Err(BidTooLow);
      }
      var bid := Bid(auctionId, caller.userId, amount, now);
      ConsistentAfterBid(auctions, bids, bid);
      bids := bids + [bid];
      auctions := auctions[auctionId := auction.(highestBid := Some(amount))];
      r := Ok(bid);
    }

    /** BidController.index. */
    method IndexBids(auctionId: int) returns (r: seq<Bid>)
      ensures r == ListBids(bids, auctionId)
    {
      r := ListBids(bids, auctionId);
    }

    /** AuctionController.store. */
    method CreateAuction(artworkId: int, startDate: int, endDate: int, startingBid: int, now: int)
      returns (r: Result<int>)
      requires Valid()
      modifies this`auctions, this`nextAuctionId
      ensures Valid()
      ensures r.Err? <==> !(startDate < endDate && startingBid >= 0 && artworkId in artworks)
      ensures r.Err? ==> r.error == Invalid && auctions == old(auctions)
      ensures r.Ok? ==>
        && r.value !in old(auctions)
        && auctions == old(auctions)[r.value := Auction(artworkId, startDate, endDate, startingBid, None,
                                                        InitialStatus(endDate, now))]
    {
      if !(startDate < endDate && startingBid >= 0 && artworkId in artworks) {
        return Err(Invalid);
      }
      var id := nextAuctionId;
      var status := if now > endDate then Ended else Active;
      var created := Auction(artworkId, startDate, endDate, startingBid, None, status);
      ConsistentAfterCreate(auctions, bids, payments, id, created);
      auctions := auctions[id := created];
      nextAuctionId := nextAuctionId + 1;
      r := Ok(id);
    }

    /** AuctionController.index: the lazy expiry applied to every auction. */
    method ListAuctions(now: int) returns (r: map<int, Auction>)
      requires Valid()
      modifies this`auctions
      ensures Valid()
      ensures auctions == ExpireAll(old(auctions), now) && r == auctions
    {
      var expired := ExpireEach(auctions, nextAuctionId, now);
      KeepsInvariant(auctions, expired, bids, payments);
      auctions := expired;
      r := auctions;
    }

    /** AuctionController.show: the lazy expiry applied to one auction. */
    method ShowAuction(auctionId: int, now: int) returns (r: Result<Auction>)
      requires Valid()
      modifies this`auctions
      ensures Valid()
      ensures auctionId !in old(auctions) ==> r == Err(NotFound) && auctions == old(auctions)
      ensures auctionId in old(auctions) ==>
        auctions == old(auctions)[auctionId := Expire(old(auctions)[auctionId], now)]
        && r == Ok(auctions[auctionId])
    {
      if auctionId !in auctions {
        return Err(NotFound);
      }
      var auction := auctions[auctionId];
      if auction.status == Active && now > auction.endDate {
        auctions := auctions[auctionId := auction.(status := Ended)];
      }
      KeepsInvariant(old(auctions), auctions, bids, payments);
      r := Ok(auctions[auctionId]);
    }

    /** AuctionController.update; `endDate` is None when the request has none. */
    method UpdateAuction(auctionId: int, endDate: Option<int>, now: int) returns (r: Result<Auction>)
      requires Valid()
      modifies this`auctions
      ensures Valid()
      ensures auctionId !in old(auctions) ==> r == Err(NotFound) && auctions == old(auctions)
      ensures auctionId in old(auctions) && endDate.None? ==>
        r == Ok(old(auctions)[auctionId]) && auctions == old(auctions)
      ensures auctionId in old(auctions) && endDate.Some? ==>
        auctions == old(auctions)[auctionId := Reschedule(old(auctions)[auctionId], endDate.value, now)]
        && r == Ok(auctions[auctionId])
    {
      if auctionId !in auctions {
        return Err(NotFound);
      }
      if endDate.Some? {
        var auction := auctions[auctionId].(endDate := endDate.value);
        auctions := auctions[auctionId := auction];
        if now < endDate.value && auction.status == Ended {
          auctions := auctions[auctionId := auction.(status := Active)];
        }
      }
      KeepsInvariant(old(auctions), auctions, bids, payments);
      r := Ok(auctions[auctionId]);
    }

    /** AuctionController.winner. */
    method AuctionWinner(auctionId: int, now: int) returns (r: Result<WinnerReply>)
      ensures auctionId !in auctions ==> r == Err(NotFound)
      ensures auctionId in auctions ==> r == Ok(PublicWinner(auctions[auctionId], BidsOf(bids, auctionId), now))
    {
      if auctionId !in auctions {
        return Err(NotFound);
      }
      var auction := auctions[auctionId];
      if now < auction.endDate {
        return Ok(NotEndedYet);
      }
      var top := TopBid(BidsOf(bids, auctionId));
      r := Ok(if top.Some? then Top(top.value) else NoBid);
    }

    /** CloseExpiredAuctions.handle; returns the ids of the auctions it closed. */
    method CloseExpired(now: int) returns (closed: set<int>)
      requires Valid()
      modifies this`auctions
      ensures Valid()
      ensures closed == ExpiredIds(old(auctions), now)
      ensures auctions == Sweep(old(auctions), bids, now)
      ensures bids == old(bids) && payments == old(payments)
    {
      var swept;
      swept, closed := SweepEach(auctions, nextAuctionId, bids, now);
      SweepKeepsConsistent(auctions, bids, now);
      KeepsInvariant(auctions, swept, bids, payments);
      auctions := swept;
    }

    /** PaymentController.store. */
    method Pay(auctionId: int, userId: int, paymentMethod: string) returns (r: Result<Payment>)
      requires Valid()
      modifies this`auctions, this`payments
      ensures Valid()
      ensures auctionId !in old(auctions) || !ValidMethod(paymentMethod) ==> r == Err(Invalid)
      ensures auctionId in old(auctions) && ValidMethod(paymentMethod) ==>
        var check := SettleCheck(old(auctions)[auctionId], BidsOf(bids, auctionId), old(payments), auctionId, userId);
        (check.Fail? <==> r.Err?) && (check.Fail? ==> r.error == check.error)
      ensures r.Err? ==> auctions == old(auctions) && payments == old(payments)
      ensures r.Ok? ==>
        && old(auctions)[auctionId].highestBid.Some?
        && r.value == Receipt(old(auctions)[auctionId], auctionId, userId, paymentMethod)
        && payments == old(payments) + [r.value]
        && auctions == old(auctions)[auctionId := old(auctions)[auctionId].(status := Closed)]
    {
      if auctionId !in auctions || !(0 < |paymentMethod| <= MAX_STRING) {
        return Err(Invalid);
      }
      var auction := auctions[auctionId];
      if auction.status == Active {
        return Err(StillActive);
      }
      var winning := TopBid(BidsOf(bids, auctionId));
      if winning.None? {
        return Err(NoBids);
      }
      if winning.value.userId != userId {
        return Err(NotWinner);
      }
      var paid := FindPayment(payments, auctionId);
      if paid {
        return Err(AlreadyPaid);
      }
      assert Cached(auction, BidsOf(bids, auctionId));
      var payment := Payment(auctionId, userId, paymentMethod, PaymentPaid, auction.highestBid.value);
      SettleKeepsOnePayment(payments, payment);
      payments := payments + [payment];
      auctions := auctions[auctionId := auction.(status := Closed)];
      KeepsInvariant(old(auctions), auctions, bids, old(payments));
      assert payments[|payments| - 1] == payment;
      r := Ok(payment);
    }

    /** ArtistController.extendAuction. */
    method ExtendAuction(auctionId: int, userId: int, hours: int, now: int) returns (r: Result<Auction>)
      requires Valid()
      modifies this`auctions
      ensures Valid()
      ensures OwnedAuction(old(auctions), artworks, artists, auctionId, userId).None? ==>
        r == Err(NotFound) && auctions == old(auctions)
      ensures OwnedAuction(old(auctions), artworks, artists, auctionId, userId).Some? ==>
        var a := old(auctions)[auctionId];
        var check := ExtendCheck(a, hours, now);
        && (check.Fail? ==> r == Err(check.error) && auctions == old(auctions))
        && (check == Pass ==> auctions == old(auctions)[auctionId := Extend(a, hours)] && r == Ok(Extend(a, hours)))
    {
      var artist := FindArtist(artists, userId);
      if artist.None? {
        return Err(NotFound);
      }
      if !(auctionId in auctions && auctions[auctionId].artworkId in artworks
           && artworks[auctions[auctionId].artworkId].artistId == artist.value.artistId) {
        return Err(NotFound);
      }
      var auction := auctions[auctionId];
      if now >= auction.endDate {
        return Err(AlreadyEnded);
      }
      if hours < MIN_EXTEND_HOURS || hours > MAX_EXTEND_HOURS {
        return Err(Invalid);
      }
      auction := auction.(endDate := auction.endDate + hours * HOUR);
      auctions := auctions[auctionId := auction];
      KeepsInvariant(old(auctions), auctions, bids, payments);
      r := Ok(auction);
    }

    /** ArtistController.getWinner. */
    method GetWinner(auctionId: int, userId: int, now: int) returns (r: Result<Bid>)
      ensures OwnedAuction(auctions, artworks, artists, auctionId, userId).None? ==> r == Err(NotFound)
      ensures OwnedAuction(auctions, artworks, artists, auctionId, userId).Some? ==>
        r == ArtistWinner(auctions[auctionId], BidsOf(bids, auctionId), now)
    {
      var owned := OwnedAuction(auctions, artworks, artists, auctionId, userId);
      if owned.None? {
        return Err(NotFound);
      }
      if now < owned.value.endDate {
        return Err(NotEnded);
      }
      var winner := TopBid(BidsOf(bids, auctionId));
      if winner.None? {
        return Err(NoWinner);
      }
      r := Ok(winner.value);
    }

    /** ArtistController.createArtwork; returns the new artwork's id. */
    method CreateArtwork(userId: int, title: string, startingPrice: int) returns (r: Result<int>)
      requires Valid()
      modifies this`artworks, this`nextArtworkId
      ensures Valid()
      ensures FindArtist(artists, userId).None? ==> r == Err(NotFound)
      ensures FindArtist(artists, userId).Some? && !FindArtist(artists, userId).value.approved ==> r == Err(Forbidden)
      ensures FindArtist(artists, userId).Some? && FindArtist(artists, userId).value.approved ==>
        (r.Err? <==> !(0 < |title| <= MAX_STRING && startingPrice >= 0)) && (r.Err? ==> r.error == Invalid)
      ensures r.Err? ==> artworks == old(artworks)
      ensures r.Ok? ==>
        && r.value !in old(artworks)
        && artworks == old(artworks)[r.value := Artwork(FindArtist(artists, userId).value.artistId, title,
                                                        startingPrice, ArtworkPending)]
    {
      var artist := FindArtist(artists, userId);
      if artist.None? {
        return Err(NotFound);
      }
      if !artist.value.approved {
        return Err(Forbidden);
      }
      if !(0 < |title| <= MAX_STRING && startingPrice >= 0) {
        return Err(Invalid);
      }
      var id := nextArtworkId;
      artworks := artworks[id := Artwork(artist.value.artistId, title, startingPrice, ArtworkPending)];
      nextArtworkId := nextArtworkId + 1;
      r := Ok(id);
    }
  }
}
