/** The list of won auctions that the buyer's "You won an artwork" page
    computes from the auction listing (`loadWins` in Artworkwon.jsx): it
    keeps each ended or closed auction whose first highest bid is the
    current user's, puts the auction named in the query string in front
    when it is not already listed, and orders the list by end date, newest
    first. */
module WonAuctions {
  import opened Domain
  import opened Ordering
  import opened Settlement

  /** An auction as the listing response carries it; `bids` is the
      response's `bids` array, empty when the field is absent. */
  datatype AuctionView = AuctionView(id: int, status: Status, endDate: int, bids: seq<Bid>)

  /** The winner the page shows: the highest bid it found itself, or the
      winner endpoint's answer for the auction named in the query string. */
  datatype Winner = Highest(bid: Bid) | Reported(reply: WinnerReply)

  datatype Candidate = Candidate(auction: AuctionView, winner: Winner)

  /** The statuses the page accepts as finished: "ended" and "closed". */
  predicate Finished(s: Status)
  {
    s == Ended || s == Closed
  }

  /** The page's test on one listed auction. The current user's id is None
      when it converts to NaN, which equals nothing. */
  predicate IsWin(auc: AuctionView, curId: Option<int>)
  {
    && Finished(auc.status)
    && auc.bids != []
    && curId.Some?
    && auc.bids[HighestIndex(auc.bids)].userId == curId.value
  }

  /** The entry the page records for a won auction. */
  function Entry(auc: AuctionView): Candidate
    requires auc.bids != []
  {
    Candidate(auc, Highest(auc.bids[HighestIndex(auc.bids)]))
  }

  /** The candidates of the listing, in listing order. */
  function Collected(data: seq<AuctionView>, curId: Option<int>): (r: seq<Candidate>)
    ensures |r| <= |data|
    ensures forall i :: 0 <= i < |r| ==> IsWin(r[i].auction, curId) && r[i] == Entry(r[i].auction)
  {
    if data == [] then []
    else
      var auc := data[|data| - 1];
      Collected(data[..|data| - 1], curId) + (if IsWin(auc, curId) then [Entry(auc)] else [])
  }

  /** One more listed auction adds its entry exactly when it passes the
      test. */
  lemma CollectedStep(data: seq<AuctionView>, k: int, curId: Option<int>)
    requires 0 <= k < |data|
    ensures Collected(data[..k + 1], curId)
         == Collected(data[..k], curId) + (if IsWin(data[k], curId) then [Entry(data[k])] else [])
  {
    assert data[..k + 1][..k] == data[..k];
  }

  /** A candidate is exactly the entry of a listed auction that passes the
      test: finished, with bids, and won by the current user. */
  lemma {:induction false} CollectedMembers(data: seq<AuctionView>, curId: Option<int>)
    ensures forall c :: c in Collected(data, curId) <==>
      c.auction in data && IsWin(c.auction, curId) && c == Entry(c.auction)
  {
    if data != [] {
      var init, auc := data[..|data| - 1], data[|data| - 1];
      CollectedMembers(init, curId);
      assert data == init + [auc];
    }
  }

  /** Every candidate's auction is ended or closed, has bids, and shows as
      winner the first bid of maximum amount, which the current user placed. */
  lemma CandidatesAreWins(data: seq<AuctionView>, curId: Option<int>, c: Candidate)
    requires c in Collected(data, curId)
    ensures c.auction in data
    ensures c.auction.status == Ended || c.auction.status == Closed
    ensures c.auction.bids != [] && c.winner.Highest? && curId.Some?
    ensures c.winner.bid.userId == curId.value
    ensures exists i :: (0 <= i < |c.auction.bids| && c.auction.bids[i] == c.winner.bid
      && (forall j :: 0 <= j < |c.auction.bids| ==> c.auction.bids[j].amount <= c.winner.bid.amount)
      && (forall j :: 0 <= j < i ==> c.auction.bids[j].amount < c.winner.bid.amount))
  {
    CollectedMembers(data, curId);
    var i := HighestIndex(c.auction.bids);
    assert c.auction.bids[i] == c.winner.bid;
  }

  /** An auction left pending payment (what the expiry sweep writes for an
      auction with bids) never appears among the candidates. */
  lemma PendingIsNeverWon(data: seq<AuctionView>, curId: Option<int>, c: Candidate)
    requires c.auction.status == Pending
    ensures c !in Collected(data, curId)
  {
    CollectedMembers(data, curId);
  }

  /** A listing whose auctions carry no bids yields no candidates at all. */
  lemma {:induction false} NoBidsNoCandidates(data: seq<AuctionView>, curId: Option<int>)
    requires forall i :: 0 <= i < |data| ==> data[i].bids == []
    ensures Collected(data, curId) == []
  {
    if data != [] {
      NoBidsNoCandidates(data[..|data| - 1], curId);
    }
  }

  /** `candidates.some(c => c.auction.id === id)` */
  predicate Lists(cands: seq<Candidate>, auctionId: int)
  {
    exists i :: 0 <= i < |cands| && cands[i].auction.id == auctionId
  }

  /** The candidates after the query-string auction, when there is one, has
      been put in front unless an entry for its id is already there. */
  function WithQueried(cands: seq<Candidate>, queried: Option<Candidate>): (r: seq<Candidate>)
    ensures |r| == |cands| + (if queried.Some? && !Lists(cands, queried.value.auction.id) then 1 else 0)
    ensures r[|r| - |cands|..] == cands
  {
    match queried
    case None => cands
    case Some(q) => if Lists(cands, q.auction.id) then cands else [q] + cands
  }

  /** The queried auction is added exactly when no candidate has its id, and
      then in front; nothing else is added or removed. */
  lemma WithQueriedMembers(cands: seq<Candidate>, queried: Option<Candidate>)
    ensures forall c :: c in WithQueried(cands, queried) <==>
      c in cands || (queried == Some(c) && !Lists(cands, c.auction.id))
    ensures queried.Some? && !Lists(cands, queried.value.auction.id) ==>
      WithQueried(cands, queried)[0] == queried.value
    ensures queried.Some? && Lists(cands, queried.value.auction.id) ==>
      WithQueried(cands, queried) == cands
  {
    if queried.Some? && Lists(cands, queried.value.auction.id) {
      var i :| 0 <= i < |cands| && cands[i].auction.id == queried.value.auction.id;
      assert cands[i] in cands;
    }
  }

  /** The front insertion as the page writes it. The test compares
      `Number(c.auction.id)` with `Number(auctionData.id)`, but an auction's
      JSON carries its key as `auction_id` and has no `id` member, so both
      sides are NaN and never equal: the queried auction is put in front
      whether or not it is already listed. */
  function WithQueriedAsWritten(cands: seq<Candidate>, queried: Option<Candidate>): (r: seq<Candidate>)
    ensures |r| == |cands| + (if queried.Some? then 1 else 0)
    ensures queried.Some? ==> r[0] == queried.value && r[1..] == cands
    ensures queried.None? ==> r == cands
  {
    match queried
    case None => cands
    case Some(q) => [q] + cands
  }

  /** As written, an auction the user won that is also named in the query
      string is listed twice; with the intended id test (WithQueried) it is
      listed once. */
  lemma ListedTwiceAsWritten()
    ensures var v := AuctionView(5, Ended, 10, [Bid(5, 7, 1000, 1)]);
      var q := Some(Candidate(v, Reported(Top(Bid(5, 7, 1000, 1)))));
      var cands := Collected([v], Some(7));
      && |cands| == 1
      && !OneEntryEach(WithQueriedAsWritten(cands, q))
      && OneEntryEach(WithQueried(cands, q))
  {
    var v := AuctionView(5, Ended, 10, [Bid(5, 7, 1000, 1)]);
    assert [v][..0] == [];
    assert HighestIndex(v.bids) == 0;
    var cands := Collected([v], Some(7));
    assert cands == [Entry(v)];
    assert Lists(cands, 5) by { assert cands[0].auction.id == 5; }
    var q := Candidate(v, Reported(Top(Bid(5, 7, 1000, 1))));
    var twice := WithQueriedAsWritten(cands, Some(q));
    assert twice == [q, Entry(v)];
    assert twice[0].auction.id == twice[1].auction.id;
  }

  /** No two entries are for the same auction. */
  predicate OneEntryEach(cands: seq<Candidate>)
  {
    forall i, j :: 0 <= i < j < |cands| ==> cands[i].auction.id != cands[j].auction.id
  }

  /** A listing with distinct ids gives candidates with distinct ids. */
  lemma {:induction false} CollectedOncePerAuction(data: seq<AuctionView>, curId: Option<int>)
    requires forall i, j :: 0 <= i < j < |data| ==> data[i].id != data[j].id
    ensures OneEntryEach(Collected(data, curId))
  {
    if data != [] {
      var init, auc := data[..|data| - 1], data[|data| - 1];
      CollectedOncePerAuction(init, curId);
      CollectedMembers(init, curId);
      var prev := Collected(init, curId);
      forall i | 0 <= i < |prev| ensures prev[i].auction.id != auc.id {
        assert prev[i] in prev;
        var k :| 0 <= k < |init| && init[k] == prev[i].auction;
        assert data[k] == init[k];
      }
    }
  }

  /** Putting in front an entry whose auction is not listed keeps one entry
      per auction. */
  lemma PrependOnce(cands: seq<Candidate>, q: Candidate)
    requires OneEntryEach(cands) && !Lists(cands, q.auction.id)
    ensures OneEntryEach([q] + cands)
  {
    var s := [q] + cands;
    forall i, j | 0 <= i < j < |s| ensures s[i].auction.id != s[j].auction.id {
      if i == 0 {
        assert s[j] == cands[j - 1];
      } else {
        assert s[i] == cands[i - 1] && s[j] == cands[j - 1];
      }
    }
  }

  /** A listing with distinct ids gives candidates with distinct ids, and
      the query-string auction never duplicates one. */
  lemma CandidatesOncePerAuction(data: seq<AuctionView>, curId: Option<int>, queried: Option<Candidate>)
    requires forall i, j :: 0 <= i < j < |data| ==> data[i].id != data[j].id
    ensures OneEntryEach(Collected(data, curId))
    ensures OneEntryEach(WithQueried(Collected(data, curId), queried))
  {
    CollectedOncePerAuction(data, curId);
    var cands := Collected(data, curId);
    if queried.Some? && !Lists(cands, queried.value.auction.id) {
      PrependOnce(cands, queried.value);
    }
  }

  /** The sort key: `new Date(end_date)`, compared newest first. */
  function EndKey(c: Candidate): int
  {
    c.auction.endDate
  }

  /** The page's final list. */
  function Wins(data: seq<AuctionView>, curId: Option<int>, queried: Option<Candidate>): (r: seq<Candidate>)
    ensures SortedDesc(r, EndKey)
    ensures multiset(r) == multiset(WithQueried(Collected(data, curId), queried))
  {
    SortDesc(WithQueried(Collected(data, curId), queried), EndKey)
  }

  /** The final list is ordered newest end date first, is a rearrangement
      of the candidates and the added query-string auction, and holds
      exactly the user's won auctions of the listing plus that auction when
      it was not among them. */
  lemma WinsContents(data: seq<AuctionView>, curId: Option<int>, queried: Option<Candidate>)
    ensures SortedDesc(Wins(data, curId, queried), EndKey)
    ensures multiset(Wins(data, curId, queried)) == multiset(WithQueried(Collected(data, curId), queried))
    ensures forall c :: c in Wins(data, curId, queried) <==>
      (c.auction in data && IsWin(c.auction, curId) && c == Entry(c.auction))
      || (queried == Some(c) && !Lists(Collected(data, curId), c.auction.id))
  {
    var wins := Wins(data, curId, queried);
    CollectedMembers(data, curId);
    WithQueriedMembers(Collected(data, curId), queried);
    assert forall c :: c in wins <==> c in multiset(wins);
  }

  /** The inner loop: a left-to-right scan that replaces the running highest
      bid only by a strictly larger amount. */
  method HighestOf(bids: seq<Bid>) returns (highest: Bid)
    requires bids != []
    ensures highest == bids[HighestIndex(bids)]
  {
    highest := bids[0];
    ghost var hi := 0;
    for j := 0 to |bids|
      invariant hi < |bids| && highest == bids[hi]
      invariant j == 0 ==> hi == 0
      invariant j > 0 ==> hi == HighestIndex(bids[..j])
    {
      assert bids[..j + 1][..j] == bids[..j];
      if bids[j].amount > highest.amount {
        highest, hi := bids[j], j;
      }
    }
    assert bids[..|bids|] == bids;
  }

  /** The page's loop over the listing: the candidates it collects. */
  method CollectWins(data: seq<AuctionView>, curId: Option<int>) returns (candidates: seq<Candidate>)
    ensures candidates == Collected(data, curId)
  {
    candidates := [];
    for k := 0 to |data|
      invariant candidates == Collected(data[..k], curId)
    {
      var auc := data[k];
      CollectedStep(data, k, curId);
      if !Finished(auc.status) {
        continue;
      }
      if |auc.bids| == 0 {
        continue;
      }
      var highest := HighestOf(auc.bids);
      if curId.Some? && highest.userId == curId.value {
        candidates := candidates + [Candidate(auc, Highest(highest))];
      }
    }
    assert data[..|data|] == data;
  }

  /** The candidate computation of `loadWins` on the fetched listing, the
      current user's id and the authoritative data for the query-string
      auction (None when there is no `auctionId` or a fetch failed): the
      loop, the front insertion of the queried auction, and the sort. */
  method LoadWins(data: seq<AuctionView>, curId: Option<int>, queried: Option<Candidate>)
    returns (wins: seq<Candidate>)
    ensures wins == Wins(data, curId, queried)
  {
    var candidates := CollectWins(data, curId);
    if queried.Some? {
      if !Lists(candidates, queried.value.auction.id) {
        candidates := [queried.value] + candidates;
      }
    }
    wins := SortDesc(candidates, EndKey);
  }

  /** The page and settlement agree on the winner: when the listed bids are
      the auction's ledger and its status, a candidate of the current user
      passes settlement's status, bid and winner checks, so paying can only
      fail as already paid. */
  lemma WonMeansPayable(view: AuctionView, a: Auction, payments: seq<Payment>, userId: int)
    requires view.status == a.status
    requires IsWin(view, Some(userId))
    ensures SettleCheck(a, view.bids, payments, view.id, userId) == Pass
         || SettleCheck(a, view.bids, payments, view.id, userId) == Fail(AlreadyPaid)
  {
    assert TopBid(view.bids) == Some(view.bids[HighestIndex(view.bids)]);
  }
}
