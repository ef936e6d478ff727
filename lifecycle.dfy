/** Status transitions of an auction: the status given at creation, the
    lazy expiry done when auctions are read, an end-date change, an
    artist's extension and the expiry sweep. */
module Lifecycle {
  import opened Domain

  /** AuctionController.store: an auction created after its end date starts
      out ended, any other starts out active. */
  function InitialStatus(endDate: int, now: int): (s: Status)
    ensures s == Ended || s == Active
    ensures s == Ended <==> endDate < now
  {
    if now > endDate then Ended else Active
  }

  /** The lazy expiry applied on read: an active auction whose end date has
      passed (strictly) becomes ended. */
  function Expire(a: Auction, now: int): (r: Auction)
    ensures a.status == Active && a.endDate < now ==> r.status == Ended
    ensures !(a.status == Active && a.endDate < now) ==> r == a
    ensures r.(status := a.status) == a
  {
    if a.status == Active && now > a.endDate then a.(status := Ended) else a
  }

  /** Expiry at a fixed time is idempotent. */
  lemma ExpireIdempotent(a: Auction, now: int)
    ensures Expire(Expire(a, now), now) == Expire(a, now)
  {
  }

  /** The lazy expiry over every auction (AuctionController.index). */
  function ExpireAll(auctions: map<int, Auction>, now: int): (r: map<int, Auction>)
    ensures r.Keys == auctions.Keys
    ensures forall id :: id in auctions ==> r[id] == Expire(auctions[id], now)
  {
    map id | id in auctions :: Expire(auctions[id], now)
  }

  /** Expiring every auction twice at the same time is expiring it once. */
  lemma ExpireAllIdempotent(auctions: map<int, Auction>, now: int)
    ensures ExpireAll(ExpireAll(auctions, now), now) == ExpireAll(auctions, now)
  {
    var once := ExpireAll(auctions, now);
    forall id | id in once ensures ExpireAll(once, now)[id] == once[id] {
      ExpireIdempotent(auctions[id], now);
    }
  }

  /** AuctionController.update with an end date: the date is replaced, and an
      ended auction whose new end date lies in the future is reopened. */
  function Reschedule(a: Auction, endDate: int, now: int): (r: Auction)
    ensures r.endDate == endDate
    ensures r.(endDate := a.endDate, status := a.status) == a
    ensures r.status != a.status ==> a.status == Ended && r.status == Active && now < endDate
    ensures a.status == Ended && now < endDate ==> r.status == Active
  {
    var moved := a.(endDate := endDate);
    if now < endDate && a.status == Ended then moved.(status := Active) else moved
  }

  /** ArtistController.extendAuction's checks on a found auction, in order:
      not yet at the end date, then 1 to 72 hours. */
  function ExtendCheck(a: Auction, hours: int, now: int): (r: Outcome)
    ensures r == Fail(AlreadyEnded) <==> now >= a.endDate
    ensures r == Fail(Invalid) <==> now < a.endDate && !(MIN_EXTEND_HOURS <= hours <= MAX_EXTEND_HOURS)
    ensures r == Pass <==> now < a.endDate && MIN_EXTEND_HOURS <= hours <= MAX_EXTEND_HOURS
  {
    if now >= a.endDate then Fail(AlreadyEnded)
    else if hours < MIN_EXTEND_HOURS || hours > MAX_EXTEND_HOURS then Fail(Invalid)
    else Pass
  }

  function Extend(a: Auction, hours: int): (r: Auction)
    ensures r.endDate == a.endDate + hours * HOUR
    ensures r.(endDate := a.endDate) == a
  {
    a.(endDate := a.endDate + hours * HOUR)
  }

  /** A permitted extension moves the end date later by one to seventy-two
      hours, so the auction is still open at the time of the request. */
  lemma ExtensionBounds(a: Auction, hours: int, now: int)
    requires ExtendCheck(a, hours, now) == Pass
    ensures a.endDate + MIN_EXTEND_HOURS * HOUR <= Extend(a, hours).endDate <= a.endDate + MAX_EXTEND_HOURS * HOUR
    ensures now < Extend(a, hours).endDate
    ensures Extend(a, hours).status == a.status
  {
  }

  /** An auction the sweep selects: active, with its end date strictly past. */
  predicate Expired(a: Auction, now: int)
  {
    a.status == Active && a.endDate < now
  }

  /** CloseExpiredAuctions on one auction: an expired auction with bids
      awaits payment with the top amount as its highest bid, one without
      bids is closed. */
  function SweepOne(a: Auction, ledger: seq<Bid>, now: int): (r: Auction)
    ensures !Expired(a, now) ==> r == a
    ensures Expired(a, now) && ledger == [] ==> r == a.(status := Closed)
    ensures Expired(a, now) && ledger != [] ==>
      && r.status == Pending && r.highestBid == MaxAmount(ledger) && r.highestBid.Some?
      && r.(status := a.status, highestBid := a.highestBid) == a
      && forall b :: b in ledger ==> b.amount <= r.highestBid.value
  {
    if !Expired(a, now) then a
    else
      match TopBid(ledger)
      case Some(top) => a.(status := Pending, highestBid := Some(top.amount))
      case None => a.(status := Closed)
  }

  function Sweep(auctions: map<int, Auction>, bids: seq<Bid>, now: int): (r: map<int, Auction>)
    ensures r.Keys == auctions.Keys
  {
    map id | id in auctions :: SweepOne(auctions[id], BidsOf(bids, id), now)
  }

  /** The auctions the sweep selects. */
  function ExpiredIds(auctions: map<int, Auction>, now: int): (r: set<int>)
    ensures forall id :: id in r <==> id in auctions && Expired(auctions[id], now)
  {
    set id | id in auctions && Expired(auctions[id], now)
  }

  /** The sweep leaves every auction it does not select as it was; it
      closes the selected ones without bids, keeping their highest bid, and
      moves those with bids to pending payment with the maximum amount. */
  lemma SweepEffect(auctions: map<int, Auction>, bids: seq<Bid>, now: int, id: int)
    requires id in auctions
    ensures var a, r := auctions[id], Sweep(auctions, bids, now)[id];
      && (!Expired(a, now) ==> r == a)
      && (Expired(a, now) && BidsOf(bids, id) == [] ==> r == a.(status := Closed))
      && (Expired(a, now) && BidsOf(bids, id) != [] ==>
            r == a.(status := Pending, highestBid := MaxAmount(BidsOf(bids, id)))
            && forall b :: b in bids && b.auctionId == id ==> b.amount <= r.highestBid.value)
  {
    BidsOfMembers(bids, id);
  }

  /** After a sweep at `now` no auction is still active past its end date. */
  lemma SweepLeavesNoneExpired(auctions: map<int, Auction>, bids: seq<Bid>, now: int)
    ensures forall id :: id in Sweep(auctions, bids, now) ==> !Expired(Sweep(auctions, bids, now)[id], now)
  {
  }

  /** A second sweep at the same time changes nothing. */
  lemma SweepIdempotent(auctions: map<int, Auction>, bids: seq<Bid>, now: int)
    ensures Sweep(Sweep(auctions, bids, now), bids, now) == Sweep(auctions, bids, now)
  {
    var once := Sweep(auctions, bids, now);
    forall id | id in once ensures Sweep(once, bids, now)[id] == once[id] {
      SweepEffect(auctions, bids, now, id);
    }
  }

  /** Against a consistent ledger the sweep's write of the highest bid
      rewrites the value already cached, so the ledger stays consistent. */
  lemma SweepKeepsConsistent(auctions: map<int, Auction>, bids: seq<Bid>, now: int)
    requires Consistent(auctions, bids)
    ensures Consistent(Sweep(auctions, bids, now), bids)
    ensures forall id :: id in auctions ==> Sweep(auctions, bids, now)[id].highestBid == auctions[id].highestBid
  {
    var r := Sweep(auctions, bids, now);
    forall id | id in auctions
      ensures Cached(r[id], BidsOf(bids, id)) && r[id].highestBid == auctions[id].highestBid
    {
      SweepEffect(auctions, bids, now, id);
    }
  }
}
