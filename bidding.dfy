/** Bid admission (BidController.store) and the bid listing
    (BidController.index), as functions over one auction and the ledger. */
module Bidding {
  import opened Domain
  import opened Ordering

  /** The smallest acceptable bid: ten units over the cached highest bid,
      or over the starting bid while nobody has bid. */
  function MinimumBid(a: Auction): (m: int)
    ensures a.highestBid.None? ==> m == a.startingBid + MIN_INCREMENT
    ensures a.highestBid.Some? ==> m == a.highestBid.value + MIN_INCREMENT
  {
    (match a.highestBid
     case None => a.startingBid
     case Some(h) => h) + MIN_INCREMENT
  }

  /** The half-open bidding window [start, end). */
  predicate InWindow(a: Auction, now: int)
  {
    a.startDate <= now < a.endDate
  }

  /** The window includes its start (when it is not empty) and excludes its
      end: a bid at the very end date is too late. */
  lemma WindowIsHalfOpen(a: Auction, now: int)
    ensures InWindow(a, a.startDate) <==> a.startDate < a.endDate
    ensures !InWindow(a, a.endDate)
    ensures InWindow(a, now) ==> a.startDate <= now && now + 1 <= a.endDate
  {
  }

  /** The checks of a bid on an existing auction, in the source's order:
      amount validation, buyer role, time window, minimum increment. */
  function Admit(a: Auction, isBuyer: bool, amount: int, now: int): (r: Outcome)
    ensures r == Fail(Invalid) <==> amount < 0
    ensures r == Fail(Forbidden) <==> amount >= 0 && !isBuyer
    ensures r == Fail(NotActive) <==> amount >= 0 && isBuyer && !InWindow(a, now)
    ensures r == Fail(BidTooLow) <==> amount >= 0 && isBuyer && InWindow(a, now) && amount < MinimumBid(a)
    ensures r == Pass <==> amount >= 0 && isBuyer && InWindow(a, now) && amount >= MinimumBid(a)
  {
    if amount < 0 then Fail(Invalid)
    else if !isBuyer then Fail(Forbidden)
    else if !InWindow(a, now) then Fail(NotActive)
    else if amount < MinimumBid(a) then Fail(BidTooLow)
    else Pass
  }

  /** The write of an accepted bid: the cached highest bid becomes the amount. */
  function Accept(a: Auction, amount: int): (r: Auction)
    ensures r.highestBid == Some(amount)
    ensures r.(highestBid := a.highestBid) == a
  {
    a.(highestBid := Some(amount))
  }

  /** Admission never looks at the auction's status: an auction that is
      ended, closed or pending payment accepts the same bids as an active one. */
  lemma AdmitIgnoresStatus(a: Auction, s: Status, isBuyer: bool, amount: int, now: int)
    ensures Admit(a.(status := s), isBuyer, amount, now) == Admit(a, isBuyer, amount, now)
  {
  }

  /** An admitted bid is at least ten units above the previous highest bid,
      or above the starting bid when there was none. */
  lemma AdmittedBidRaises(a: Auction, isBuyer: bool, amount: int, now: int)
    requires Admit(a, isBuyer, amount, now) == Pass
    ensures isBuyer && InWindow(a, now) && amount >= 0
    ensures a.highestBid.None? ==> amount >= a.startingBid + MIN_INCREMENT
    ensures a.highestBid.Some? ==> amount >= a.highestBid.value + MIN_INCREMENT
  {
  }

  /** A bid above the current maximum of an increasing ledger is the new
      maximum, and the ledger stays increasing. */
  lemma RaiseLedger(ledger: seq<Bid>, b: Bid)
    requires Increasing(ledger)
    requires MaxAmount(ledger).Some? ==> MaxAmount(ledger).value < b.amount
    ensures MaxAmount(ledger + [b]) == Some(b.amount)
    ensures Increasing(ledger + [b])
  {
    forall c | c in ledger ensures c.amount < b.amount {
      assert TopBid(ledger).Some?;
    }
    TopBidOfRaise(ledger, b);
    var s := ledger + [b];
    forall i, j | 0 <= i < j < |s| ensures s[i].amount < s[j].amount {
      if j == |s| - 1 {
        assert s[i] in ledger;
      } else {
        assert s[i] == ledger[i] && s[j] == ledger[j];
      }
    }
  }

  /** Accepting a bid keeps the ledger and the cached highest bids in
      agreement. */
  lemma ConsistentAfterBid(auctions: map<int, Auction>, bids: seq<Bid>, b: Bid)
    requires Consistent(auctions, bids)
    requires b.auctionId in auctions
    requires b.amount >= MinimumBid(auctions[b.auctionId])
    ensures Consistent(auctions[b.auctionId := Accept(auctions[b.auctionId], b.amount)], bids + [b])
  {
    var id := b.auctionId;
    var auctions' := auctions[id := Accept(auctions[id], b.amount)];
    var bids' := bids + [b];
    forall k | k in auctions'
      ensures Cached(auctions'[k], BidsOf(bids', k))
    {
      LedgerAfterBid(auctions, bids, b, k);
    }
    OwnersAfterBid(auctions, bids, b, auctions');
  }

  lemma OwnersAfterBid(auctions: map<int, Auction>, bids: seq<Bid>, b: Bid, auctions': map<int, Auction>)
    requires forall i :: 0 <= i < |bids| ==> bids[i].auctionId in auctions
    requires auctions'.Keys == auctions.Keys && b.auctionId in auctions
    ensures forall i :: 0 <= i < |bids + [b]| ==> (bids + [b])[i].auctionId in auctions'
  {
    var bids' := bids + [b];
    forall i | 0 <= i < |bids'| ensures bids'[i].auctionId in auctions' {
      if i < |bids| { assert bids'[i] == bids[i]; }
    }
  }

  lemma LedgerAfterBid(auctions: map<int, Auction>, bids: seq<Bid>, b: Bid, k: int)
    requires Consistent(auctions, bids)
    requires b.auctionId in auctions && k in auctions
    requires b.amount >= MinimumBid(auctions[b.auctionId])
    ensures Cached(if k == b.auctionId then Accept(auctions[k], b.amount) else auctions[k],
                   BidsOf(bids + [b], k))
  {
    BidsOfAppend(bids, b, k);
    if k == b.auctionId {
      RaiseLedger(BidsOf(bids, k), b);
    }
  }

  /** One bid request against one auction, for reasoning about sequences
      of requests. */
  datatype BidRequest = BidRequest(isBuyer: bool, amount: int, now: int)

  /** The auction after a sequence of bid requests, and the amounts that
      were accepted, in order. */
  function Run(a: Auction, reqs: seq<BidRequest>): (Auction, seq<int>)
    decreases |reqs|
  {
    if reqs == [] then (a, [])
    else
      var r := reqs[0];
      if Admit(a, r.isBuyer, r.amount, r.now) == Pass then
        var (fin, acc) := Run(Accept(a, r.amount), reqs[1..]);
        (fin, [r.amount] + acc)
      else
        Run(a, reqs[1..])
  }

  /** Over any sequence of requests, the accepted amounts rise by at least
      the increment each time, all clear the first minimum, and the cached
      highest bid ends up as the largest (the last) accepted amount; nothing
      else about the auction changes. */
  lemma {:induction false} RunKeepsMaximum(a: Auction, reqs: seq<BidRequest>)
    ensures var (fin, acc) := Run(a, reqs);
      && fin == (if acc == [] then a else Accept(a, acc[|acc| - 1]))
      && (forall i, j :: 0 <= i < j < |acc| ==> acc[i] + MIN_INCREMENT <= acc[j])
      && (forall k :: 0 <= k < |acc| ==> MinimumBid(a) <= acc[k] <= acc[|acc| - 1])
    decreases |reqs|
  {
    if reqs != [] {
      var r := reqs[0];
      if Admit(a, r.isBuyer, r.amount, r.now) == Pass {
        var a' := Accept(a, r.amount);
        RunKeepsMaximum(a', reqs[1..]);
        var (fin, acc) := Run(a', reqs[1..]);
        assert Run(a, reqs) == (fin, [r.amount] + acc);
        assert MinimumBid(a') == r.amount + MIN_INCREMENT;
        var acc' := [r.amount] + acc;
        forall i, j | 0 <= i < j < |acc'| ensures acc'[i] + MIN_INCREMENT <= acc'[j] {
          if i > 0 {
            assert acc'[i] == acc[i - 1] && acc'[j] == acc[j - 1];
          }
        }
      } else {
        RunKeepsMaximum(a, reqs[1..]);
      }
    }
  }

  function AmountKey(b: Bid): int
  {
    b.amount
  }

  /** BidController.index: exactly the bids of the auction, highest amount first. */
  function ListBids(bids: seq<Bid>, auctionId: int): (r: seq<Bid>)
    ensures SortedDesc(r, AmountKey)
    ensures multiset(r) == multiset(BidsOf(bids, auctionId))
    ensures forall b :: b in r <==> b in bids && b.auctionId == auctionId
  {
    var r := SortDesc(BidsOf(bids, auctionId), AmountKey);
    BidsOfMembers(bids, auctionId);
    assert forall b :: b in r <==> b in multiset(r);
    r
  }
}
