/** Winner determination (AuctionController.winner, ArtistController.getWinner,
    and the winner check inside PaymentController.store) and the guard chain
    of payment settlement. */
module Settlement {
  import opened Domain

  /** AuctionController.winner: a "not ended yet" answer before the end date,
      afterwards the top bid, or nothing when nobody bid. */
  function PublicWinner(a: Auction, ledger: seq<Bid>, now: int): (r: WinnerReply)
    ensures r == NotEndedYet <==> now < a.endDate
    ensures r == NoBid <==> a.endDate <= now && ledger == []
    ensures r.Top? ==> r.bid in ledger && forall b :: b in ledger ==> b.amount <= r.bid.amount
  {
    if now < a.endDate then NotEndedYet
    else
      match TopBid(ledger)
      case None => NoBid
      case Some(b) => Top(b)
  }

  /** ArtistController.getWinner on the artist's own auction: refused before
      the end date, not found without bids, otherwise the top bid. */
  function ArtistWinner(a: Auction, ledger: seq<Bid>, now: int): (r: Result<Bid>)
    ensures r == Err(NotEnded) <==> now < a.endDate
    ensures r == Err(NoWinner) <==> a.endDate <= now && ledger == []
    ensures a.endDate <= now && ledger != [] ==> r.Ok?
    ensures r.Ok? ==> r.value in ledger && forall b :: b in ledger ==> b.amount <= r.value.amount
  {
    if now < a.endDate then Err(NotEnded)
    else
      match TopBid(ledger)
      case None => Err(NoWinner)
      case Some(b) => Ok(b)
  }

  /** The two winner endpoints name the same bid, which is also the bid
      whose bidder settlement accepts as payer. */
  lemma WinnersAgree(a: Auction, ledger: seq<Bid>, now: int)
    requires a.endDate <= now && ledger != []
    ensures PublicWinner(a, ledger, now) == Top(ArtistWinner(a, ledger, now).value)
    ensures ArtistWinner(a, ledger, now) == Ok(TopBid(ledger).value)
  {
  }

  predicate HasPayment(payments: seq<Payment>, auctionId: int)
  {
    exists i :: 0 <= i < |payments| && payments[i].auctionId == auctionId
  }

  /** `payment_method` is `required|string|max:255`. */
  predicate ValidMethod(paymentMethod: string)
  {
    0 < |paymentMethod| <= MAX_STRING
  }

  /** PaymentController.store's checks on a found auction, in the source's
      order: still active, no bids, payer is not the top bidder, already paid. */
  function SettleCheck(a: Auction, ledger: seq<Bid>, payments: seq<Payment>, auctionId: int, userId: int): (r: Outcome)
    ensures r.Fail? ==> r.error == StillActive || r.error == NoBids || r.error == NotWinner || r.error == AlreadyPaid
    ensures r == Pass ==> a.status != Active && TopBid(ledger).Some? && TopBid(ledger).value.userId == userId
                          && !HasPayment(payments, auctionId)
  {
    if a.status == Active then Fail(StillActive)
    else
      match TopBid(ledger)
      case None => Fail(NoBids)
      case Some(w) =>
        if w.userId != userId then Fail(NotWinner)
        else if HasPayment(payments, auctionId) then Fail(AlreadyPaid)
        else Pass
  }

  /** Each check fails exactly when the earlier ones pass and its own
      condition holds, and settlement passes only when all four pass. */
  lemma SettleCheckOrder(a: Auction, ledger: seq<Bid>, payments: seq<Payment>, auctionId: int, userId: int)
    ensures var r := SettleCheck(a, ledger, payments, auctionId, userId);
      && (r == Fail(StillActive) <==> a.status == Active)
      && (r == Fail(NoBids) <==> a.status != Active && ledger == [])
      && (r == Fail(NotWinner) <==>
            a.status != Active && ledger != [] && TopBid(ledger).value.userId != userId)
      && (r == Fail(AlreadyPaid) <==>
            a.status != Active && ledger != [] && TopBid(ledger).value.userId == userId
            && HasPayment(payments, auctionId))
      && (r == Pass <==>
            a.status != Active && ledger != [] && TopBid(ledger).value.userId == userId
            && !HasPayment(payments, auctionId))
  {
  }

  /** The payment row written on success; the amount is the auction's
      highest bid, never a value from the request. */
  function Receipt(a: Auction, auctionId: int, userId: int, paymentMethod: string): (p: Payment)
    requires a.highestBid.Some?
    ensures p.auctionId == auctionId && p.userId == userId && p.status == PaymentPaid
    ensures Some(p.amount) == a.highestBid
  {
    Payment(auctionId, userId, paymentMethod, PaymentPaid, a.highestBid.value)
  }

  /** When the auction agrees with its ledger, a settled payment charges the
      amount of the winning bid, which is the latest bid, and the payer is
      that bid's bidder. */
  lemma SettledAmountIsWinningBid(a: Auction, ledger: seq<Bid>, payments: seq<Payment>, auctionId: int, userId: int)
    requires Cached(a, ledger)
    requires SettleCheck(a, ledger, payments, auctionId, userId) == Pass
    ensures ledger != [] && a.highestBid == Some(ledger[|ledger| - 1].amount)
    ensures ledger[|ledger| - 1].userId == userId
    ensures forall b :: b in ledger ==> b.amount <= a.highestBid.value
  {
    TopOfIncreasing(ledger);
  }

  /** The settlement checks as PaymentController.store writes them, on a
      schema whose auctions table has no `id` column: the existing-payment
      lookup then filters on the null `$auction->id` and matches no payment,
      so the 409 branch is never taken. */
  function SettleCheckAsWritten(a: Auction, ledger: seq<Bid>, userId: int): (r: Outcome)
    ensures r != Fail(AlreadyPaid)
    ensures r == Pass <==> a.status != Active && TopBid(ledger).Some? && TopBid(ledger).value.userId == userId
  {
    if a.status == Active then Fail(StillActive)
    else
      match TopBid(ledger)
      case None => Fail(NoBids)
      case Some(w) => if w.userId != userId then Fail(NotWinner) else Pass
  }

  /** As written, the winner of an ended auction is charged twice: the first
      settlement closes the auction, and the second passes too because the
      lookup finds no payment, so two payments name the same auction. The
      checks as intended (SettleCheck) refuse the second call as already
      paid. */
  lemma SettlesTwiceAsWritten()
    ensures var a := Auction(1, 0, 10, 0, Some(1000), Ended);
      var ledger := [Bid(1, 7, 1000, 5)];
      var first := Receipt(a, 1, 7, "card");
      var second := Receipt(a.(status := Closed), 1, 7, "card");
      && SettleCheckAsWritten(a, ledger, 7) == Pass
      && SettleCheckAsWritten(a.(status := Closed), ledger, 7) == Pass
      && !OnePaymentEach([first, second])
      && SettleCheck(a.(status := Closed), ledger, [first], 1, 7) == Fail(AlreadyPaid)
  {
    var ledger := [Bid(1, 7, 1000, 5)];
    assert HighestIndex(ledger) == 0;
    var a := Auction(1, 0, 10, 0, Some(1000), Ended);
    var first := Receipt(a, 1, 7, "card");
    var second := Receipt(a.(status := Closed), 1, 7, "card");
    assert [first][0].auctionId == 1;
    assert [first, second][0].auctionId == [first, second][1].auctionId;
  }

  /** No two payments name the same auction. */
  predicate OnePaymentEach(payments: seq<Payment>)
  {
    forall i, j :: 0 <= i < j < |payments| ==> payments[i].auctionId != payments[j].auctionId
  }

  /** A payment admitted by the checks keeps the payments one per auction. */
  lemma SettleKeepsOnePayment(payments: seq<Payment>, p: Payment)
    requires OnePaymentEach(payments)
    requires !HasPayment(payments, p.auctionId)
    ensures OnePaymentEach(payments + [p])
  {
    var s := payments + [p];
    forall i, j | 0 <= i < j < |s| ensures s[i].auctionId != s[j].auctionId {
      if j == |s| - 1 {
        assert s[i] == payments[i];
      } else {
        assert s[i] == payments[i] && s[j] == payments[j];
      }
    }
  }

  /** Once an auction has been settled, every later settlement attempt on
      it fails, whoever the payer: the winner is told it is already paid and
      anybody else that they are not the winner. */
  lemma NoSecondSettlement(a: Auction, ledger: seq<Bid>, payments: seq<Payment>, auctionId: int,
                           userId: int, paymentMethod: string, payer: int)
    requires a.highestBid.Some?
    requires SettleCheck(a, ledger, payments, auctionId, userId) == Pass
    ensures var paid := payments + [Receipt(a, auctionId, userId, paymentMethod)];
      SettleCheck(a.(status := Closed), ledger, paid, auctionId, payer)
        == if payer == userId then Fail(AlreadyPaid) else Fail(NotWinner)
  {
    var paid := payments + [Receipt(a, auctionId, userId, paymentMethod)];
    assert paid[|payments|].auctionId == auctionId;
  }
}
