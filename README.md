# ArtScape auction core in Dafny

ArtScape is an online art marketplace. Artists put artworks up for
auction, buyers bid, and the winner pays. This project models the part of
the system that decides who wins and what gets paid, and proves properties
of that model:

- bid admission and the cached highest bid (`BidController`);
- auction creation, lazy expiry on read, end-date changes and the public
  winner endpoint (`AuctionController`);
- the scheduled expiry sweep (`CloseExpiredAuctions`);
- payment settlement with its ordered guard chain (`PaymentController`);
- the artist's extension, the artist's winner view and the approved-artist
  gate on artwork creation (`ArtistController`);
- the buyer page's computation of "auctions you won" (`loadWins` in
  `Artworkwon.jsx`).

Modules, in dependency order:

- `Domain` (`domain.dfy`): records, constants and error kinds (with their
  HTTP codes). It also holds the ledger queries that several controllers
  repeat: the bids of one auction, and the top bid. SQL leaves the order
  among equal amounts open; the model chooses the earliest bid of maximum
  amount, which is also what the buyer page's strict `>` scan picks.
- `Ordering` (`ordering.dfy`): a descending insertion sort by an integer
  key, used for "order by amount desc" and for "newest end date first".
- `Bidding` (`bidding.dfy`): the admission checks, the write of an accepted
  bid, sequences of bid requests, and the bid listing.
- `Lifecycle` (`lifecycle.dfy`): initial status, lazy expiry, rescheduling,
  extension and the sweep, as functions on auction records.
- `Settlement` (`settlement.dfy`): the two winner endpoints, the
  settlement check chain, the payment record and one-payment-per-auction.
- `Marketplace` (`marketplace.dfy`): the tables as a class `Market`. Its
  fields are the auctions, bids, payments, artists and artworks, plus the
  next free ids. Each controller action is a method that updates those
  fields in place and keeps the class invariant `Valid()`. `Valid()`
  requires:
  - each auction's cached highest bid is the maximum of its bids;
  - each auction's bids strictly increase;
  - each auction has at most one payment;
  - paid auctions are closed.

  The loops over the auction table (`ExpireEach`, `SweepEach`), and the
  lookup of an existing payment (`FindPayment`), are methods proved against
  the `Lifecycle` and `Settlement` functions.
- `WonAuctions` (`artworkwon.dfy`): the client-side candidate loop, the
  insertion of the queried auction, and the final ordering.

Units: money is in integer cents, so the "+10" increment is 1000 cents.
Time is in integer seconds, so an hour is 3600. The current time, the
caller and the request fields are parameters of each operation.

Where the code and the intended design differ, the model follows the code, except for the cases named under "## Findings" and the extension under "## Left out":

- Bids are admitted whatever the auction's status.
- `update` can reopen an ended auction.
- An extension is allowed whenever the end date is still in the future.
- The sweep writes `pending`, not `ended`, for an auction with bids.
- The sweep's `Auction::STATUS_ACTIVE`, `STATUS_PENDING` and `STATUS_CLOSED`
  are not declared in `backend/app/Models/Auction.php`. The model reads them
  as the statuses their names spell.
- `getWinner` orders by `bid_amount` and the other queries by `amount`. The
  model has one amount field.
- `AuctionController.index` loads each auction's artwork but not its bids.
  Against that listing the page finds no candidates; `NoBidsNoCandidates`
  states this. An auction the sweep leaves pending payment is never a
  candidate.

## Model

| member | source | states |
|---|---|---|
| Domain.BidsOf | backend/app/Http/Controllers/BidController.php:15 | the bids of one auction: every element names that auction, and there are no more of them than in the ledger |
| Domain.BidsOfMembers | backend/app/Http/Controllers/BidController.php:15 | a bid is among an auction's bids exactly when it is in the ledger and names that auction |
| Domain.BidsOfAbsent | backend/app/Http/Controllers/AuctionController.php:45-53 | an auction no ledger entry names has no bids, as for a newly created auction |
| Domain.BidsOfAppend | backend/app/Http/Controllers/BidController.php:43-48 | appending a bid extends its own auction's bid list by that bid and leaves every other auction's list unchanged |
| Domain.HighestIndex | frontend/src/Pages/Artworkwon.jsx:86-87 | the position of a bid of maximum amount, with every earlier bid strictly lower, so ties go to the earliest |
| Domain.TopBid | backend/app/Http/Controllers/PaymentController.php:33-38 | there is no top bid exactly when there are no bids; otherwise it is one of the bids and no bid is higher |
| Domain.TopBidOfRaise | backend/app/Http/Controllers/BidController.php:43-50 | a bid higher than every earlier bid becomes the top bid |
| Domain.TopOfIncreasing | backend/app/Http/Controllers/BidController.php:38-50 | when the bids strictly increase, the top bid is the latest one |
| Ordering.Insert | backend/app/Http/Controllers/BidController.php:16 | inserting into a list sorted by descending key gives a sorted list holding the same elements plus the new one |
| Ordering.SortDesc | frontend/src/Pages/Artworkwon.jsx:114 | the result is sorted by descending key and is a permutation of the input |
| Bidding.MinimumBid | backend/app/Http/Controllers/BidController.php:38-39 | the least admissible amount is ten units above the cached highest bid, or above the starting bid when there is none |
| Bidding.WindowIsHalfOpen | backend/app/Http/Controllers/BidController.php:34 | the bidding window `InWindow` opens at the start date (when it is before the end date) and is closed at the end date itself |
| Bidding.Admit | backend/app/Http/Controllers/BidController.php:23-41 | the checks run in the source's order: invalid exactly for a negative amount; forbidden exactly for a non-buyer's valid bid; not active exactly when those pass and now is outside the window; too low exactly when all that passes and the amount is below the minimum; admitted exactly when every check passes |
| Bidding.Accept | backend/app/Http/Controllers/BidController.php:50 | an accepted bid sets the cached highest bid to its amount and changes nothing else |
| Bidding.AdmitIgnoresStatus | backend/app/Http/Controllers/BidController.php:28-41 | the admission outcome is the same for every auction status |
| Bidding.AdmittedBidRaises | backend/app/Http/Controllers/BidController.php:25-41 | an admitted bid comes from a buyer inside the half-open window [start, end), is non-negative, and is at least ten units above the highest bid, or above the starting bid when there is none |
| Bidding.RaiseLedger | backend/app/Http/Controllers/BidController.php:38-50 | a bid above the maximum of a strictly increasing bid list is the new maximum, and the list stays strictly increasing |
| Bidding.ConsistentAfterBid | backend/app/Http/Controllers/BidController.php:38-50 | accepting a bid of at least the minimum keeps every auction's cached highest bid equal to the maximum of its bids |
| Bidding.LedgerAfterBid | backend/app/Http/Controllers/BidController.php:43-50 | after a bid, each auction agrees with its own updated bid list |
| Bidding.OwnersAfterBid | backend/app/Http/Controllers/BidController.php:24 | after a bid on a known auction, every bid still names a known auction |
| Bidding.RunKeepsMaximum | backend/app/Http/Controllers/BidController.php:38-50 | over any sequence of bid requests, each accepted amount is at least ten units above the previous one and all clear the first minimum; the cached highest bid ends as the last (largest) accepted amount, and nothing else about the auction changes |
| Bidding.ListBids | backend/app/Http/Controllers/BidController.php:12-19 | the listing holds exactly the auction's bids (same multiset), sorted by non-increasing amount |
| Lifecycle.InitialStatus | backend/app/Http/Controllers/AuctionController.php:52 | a new auction is ended exactly when the current time is past its end date, and active otherwise |
| Lifecycle.Expire | backend/app/Http/Controllers/AuctionController.php:29-31 | an active auction past its end date becomes ended; any other auction is returned unchanged; only the status can change |
| Lifecycle.ExpireIdempotent | backend/app/Http/Controllers/AuctionController.php:15-19 | expiring twice at the same time equals expiring once |
| Lifecycle.ExpireAll | backend/app/Http/Controllers/AuctionController.php:15-19 | every auction is expired individually and the ids stay the same |
| Lifecycle.ExpireAllIdempotent | backend/app/Http/Controllers/AuctionController.php:15-19 | expiring the whole table twice at the same time equals expiring it once |
| Lifecycle.Reschedule | backend/app/Http/Controllers/AuctionController.php:62-69 | the end date is replaced; the status changes only from ended to active, and only when the new end date is in the future; nothing else changes |
| Lifecycle.ExtendCheck | backend/app/Http/Controllers/ArtistController.php:114-120 | refused as already ended exactly when now is at or after the end date; otherwise invalid exactly for hours outside 1..72; permitted exactly when neither holds |
| Lifecycle.Extend | backend/app/Http/Controllers/ArtistController.php:122-123 | the end date moves later by exactly `hours` hours and nothing else changes |
| Lifecycle.ExtensionBounds | backend/app/Http/Controllers/ArtistController.php:114-123 | a permitted extension moves the end date later by 1 to 72 hours, keeps the status, and leaves the auction open at the time of the request |
| Lifecycle.Sweep | backend/app/Console/Commands/CloseExpiredAuctions.php:21-40 | the sweep keeps the set of auction ids |
| Lifecycle.SweepOne | backend/app/Console/Commands/CloseExpiredAuctions.php:25-38 | an auction that is not expired is unchanged; an expired one without bids becomes closed and nothing else changes; an expired one with bids becomes pending with the maximum bid amount as highest bid, which no bid exceeds, and nothing else changes |
| Lifecycle.ExpiredIds | backend/app/Console/Commands/CloseExpiredAuctions.php:21-23 | the selection is exactly the active auctions whose end date is strictly before now |
| Lifecycle.SweepEffect | backend/app/Console/Commands/CloseExpiredAuctions.php:25-40 | an unselected auction is unchanged; a selected auction without bids is closed and keeps its highest bid; a selected auction with bids becomes pending, with the maximum amount as highest bid, and no bid exceeds it |
| Lifecycle.SweepLeavesNoneExpired | backend/app/Console/Commands/CloseExpiredAuctions.php:21-40 | after a sweep at time now, no auction is active with its end date before now |
| Lifecycle.SweepIdempotent | backend/app/Console/Commands/CloseExpiredAuctions.php:21-40 | a second sweep at the same time changes nothing |
| Lifecycle.SweepKeepsConsistent | backend/app/Console/Commands/CloseExpiredAuctions.php:30-33 | against a consistent ledger, the sweep's write of the highest bid rewrites the value already cached, so the ledger stays consistent |
| Settlement.PublicWinner | backend/app/Http/Controllers/AuctionController.php:84-90 | "not ended yet" exactly while now is before the end date; afterwards nothing exactly when there are no bids, otherwise a bid of the auction that no bid exceeds |
| Settlement.ArtistWinner | backend/app/Http/Controllers/ArtistController.php:144-152 | refused exactly while now is before the end date; afterwards "not found" exactly when there are no bids, otherwise a winner, which is a bid of the auction that no bid exceeds |
| Settlement.WinnersAgree | backend/app/Http/Controllers/ArtistController.php:148 | after the end, with bids, the public and the artist winner endpoints name the same bid, the top bid |
| Settlement.SettleCheck | backend/app/Http/Controllers/PaymentController.php:25-49 | a rejection is one of still active, no bids, not the winner, already paid; a pass means the auction is not active, has a top bid placed by the payer, and has no payment yet |
| Settlement.SettleCheckOrder | backend/app/Http/Controllers/PaymentController.php:25-49 | each rejection (still active, no bids, not the winner, already paid) happens exactly when the earlier checks pass and its own condition holds; success exactly when all four pass |
| Settlement.Receipt | backend/app/Http/Controllers/PaymentController.php:53-59 | the payment names the auction and the payer, is marked paid, and its amount is the auction's highest bid, never a request value |
| Settlement.SettleCheckAsWritten | backend/app/Http/Controllers/PaymentController.php:25-49 | with the existing-payment lookup keyed on a null `$auction->id`, the check never answers "already paid", and it passes exactly when the auction is not active and its top bid is the payer's |
| Settlement.SettlesTwiceAsWritten | backend/app/Http/Controllers/PaymentController.php:46-59 | concrete case: as written, the winner of an ended auction settles once, and again after the auction is closed, leaving two payments for one auction; the intended check refuses the second as already paid |
| Settlement.SettledAmountIsWinningBid | backend/app/Http/Controllers/PaymentController.php:33-58 | on a consistent auction, a settlement that passes the checks charges the amount of the latest bid, which is the maximum; that bid's bidder is the payer |
| Settlement.SettleKeepsOnePayment | backend/app/Http/Controllers/PaymentController.php:46-59 | when no payment names the auction, adding one keeps at most one payment per auction |
| Settlement.NoSecondSettlement | backend/app/Http/Controllers/PaymentController.php:41-62 | once an auction is settled and closed, a later attempt fails: "already paid" for the winner, "not the winner" for anyone else |
| Marketplace.FindArtist | backend/app/Http/Controllers/ArtistController.php:17 | the first artist profile of the user, or none exactly when the user has no profile |
| Marketplace.OwnedAuction | backend/app/Http/Controllers/ArtistController.php:105-112 | an auction is found exactly when the caller has an artist profile, the auction exists, its artwork exists, and that artwork belongs to the caller's (first) profile; the auction found is the stored one |
| Marketplace.KeepsInvariant | backend/app/Http/Controllers/AuctionController.php:15-19 | a table change that keeps every cached highest bid and never reopens a closed auction keeps the ledger consistent and paid auctions closed |
| Marketplace.ConsistentAfterCreate | backend/app/Http/Controllers/AuctionController.php:45-53 | adding an auction under a fresh id with no highest bid keeps the ledger consistent and paid auctions closed |
| Marketplace.ExpireEach | backend/app/Http/Controllers/AuctionController.php:12-19 | the loop over the table in id order yields exactly the lazily expired table |
| Marketplace.SweepEach | backend/app/Console/Commands/CloseExpiredAuctions.php:21-43 | the selection is the set of expired ids, and the loop over it yields exactly the swept table |
| Marketplace.FindPayment | backend/app/Http/Controllers/PaymentController.php:46 | the lookup reports true exactly when some payment names the auction |
| Marketplace.Market.PlaceBid | backend/app/Http/Controllers/BidController.php:21-53 | an unknown auction or a negative amount is rejected as invalid; otherwise the outcome is the admission check's; a rejection changes nothing; an acceptance appends exactly the caller's bid at now and sets only that auction's highest bid; the invariant is kept |
| Marketplace.Market.IndexBids | backend/app/Http/Controllers/BidController.php:12-19 | the listing of the auction's bids, highest first |
| Marketplace.Market.CreateAuction | backend/app/Http/Controllers/AuctionController.php:36-56 | rejected exactly when the end date is not after the start date, the starting bid is negative, or the artwork is unknown; otherwise adds under a fresh id an auction with no highest bid and the initial status; the invariant is kept |
| Marketplace.Market.ListAuctions | backend/app/Http/Controllers/AuctionController.php:10-22 | the table becomes the lazily expired table, which is returned; the invariant is kept |
| Marketplace.Market.ShowAuction | backend/app/Http/Controllers/AuctionController.php:24-34 | an unknown id is not found and changes nothing; otherwise only that auction is expired, and it is returned |
| Marketplace.Market.UpdateAuction | backend/app/Http/Controllers/AuctionController.php:58-72 | an unknown id is not found; without an end date nothing changes; with one, only that auction is rescheduled, and it is returned |
| Marketplace.Market.AuctionWinner | backend/app/Http/Controllers/AuctionController.php:80-91 | not found for an unknown id, otherwise the public winner answer over the auction's bids |
| Marketplace.Market.CloseExpired | backend/app/Console/Commands/CloseExpiredAuctions.php:16-46 | the table becomes the swept table and the selection is reported; bids and payments are untouched; the invariant is kept |
| Marketplace.Market.Pay | backend/app/Http/Controllers/PaymentController.php:11-68 | invalid for an unknown auction or a bad payment method; otherwise the outcome is the settlement check's; a rejection changes nothing; a success appends exactly the receipt for the highest bid and closes only that auction; at most one payment per auction is kept |
| Marketplace.Market.ExtendAuction | backend/app/Http/Controllers/ArtistController.php:102-129 | not found unless the caller's artist owns the auction; refused at or after the end date, then for hours outside 1..72, with nothing changed; otherwise only that auction's end date moves, by the given hours |
| Marketplace.Market.GetWinner | backend/app/Http/Controllers/ArtistController.php:132-152 | not found unless the caller's artist owns the auction, otherwise the artist winner answer over the auction's bids |
| Marketplace.Market.CreateArtwork | backend/app/Http/Controllers/ArtistController.php:14-45 | not found without an artist profile; forbidden for an unapproved artist; then invalid for a bad title or a negative price; otherwise adds, under a fresh id, an artwork of that artist that starts pending |
| WonAuctions.HighestOf | frontend/src/Pages/Artworkwon.jsx:86-87 | the scan returns the first bid of maximum amount |
| WonAuctions.Collected | frontend/src/Pages/Artworkwon.jsx:81-92 | the loop collects at most one candidate per listed auction; each passes the win test (finished, with bids, won by the current user) and pairs the auction with its first highest bid |
| WonAuctions.CollectedMembers | frontend/src/Pages/Artworkwon.jsx:81-92 | a candidate is exactly a listed auction that is ended or closed, has bids, and whose first highest bid was placed by the current user, paired with that bid |
| WonAuctions.CandidatesAreWins | frontend/src/Pages/Artworkwon.jsx:83-91 | each candidate's auction is listed, ended or closed, and has bids; its winner is the current user's bid, which no bid of the auction exceeds and every earlier bid is strictly below |
| WonAuctions.PendingIsNeverWon | frontend/src/Pages/Artworkwon.jsx:83 | an auction pending payment is never a candidate |
| WonAuctions.NoBidsNoCandidates | frontend/src/Pages/Artworkwon.jsx:84-85 | a listing whose auctions carry no bids gives no candidates |
| WonAuctions.WithQueried | frontend/src/Pages/Artworkwon.jsx:103-107 | the list grows by one exactly when a queried auction is given and no candidate has its id, and the candidates follow, in their order, after the added entry |
| WonAuctions.WithQueriedAsWritten | frontend/src/Pages/Artworkwon.jsx:104-105 | with the id test comparing two NaN values, a given queried auction is always put in front, with every candidate after it in order; without one the list is unchanged |
| WonAuctions.ListedTwiceAsWritten | frontend/src/Pages/Artworkwon.jsx:81-105 | concrete case: as written, a won auction that is also the queried one is listed twice; with the intended id test it is listed once |
| WonAuctions.WithQueriedMembers | frontend/src/Pages/Artworkwon.jsx:104-105 | the queried auction is added exactly when no candidate has its id, and then in front; nothing else is added or removed |
| WonAuctions.CandidatesOncePerAuction | frontend/src/Pages/Artworkwon.jsx:81-105 | when the listing has distinct ids, the candidates, and the candidates with the queried auction, hold at most one entry per auction |
| WonAuctions.Wins | frontend/src/Pages/Artworkwon.jsx:80-114 | the final list is sorted by end date, newest first, and is a rearrangement of the candidates with the queried auction |
| WonAuctions.WinsContents | frontend/src/Pages/Artworkwon.jsx:81-114 | the final list is sorted by end date, newest first; it is a permutation of the candidates with the queried auction; it holds exactly the user's won auctions plus the queried auction when that was not already among them |
| WonAuctions.CollectWins | frontend/src/Pages/Artworkwon.jsx:81-92 | the loop over the listing, with its early `continue`s and the highest-bid scan, collects exactly the candidates |
| WonAuctions.LoadWins | frontend/src/Pages/Artworkwon.jsx:80-114 | the collecting loop, the front insertion and the sort compute exactly that final list |
| WonAuctions.WonMeansPayable | frontend/src/Pages/Artworkwon.jsx:86-90 | when the listed bids and status are the auction's own, an auction the page shows as won by a user passes settlement's status, bid and winner checks for that user |

## Findings

| source | as written | input that shows it | evidently intended | confidence | as-written member | corrected member |
|---|---|---|---|---|---|---|
| backend/app/Http/Controllers/PaymentController.php:46 | the existing-payment lookup filters on `$auction->id`. The claim reads the schema as the auctions migration (`create_auctions_table.php:12`) declares it: the only key column is `auction_id`, which is also the `Auction` model's key (`Auction.php:11`). Then `$auction->id` is null and the query matches no payment. On that reading the request also stumbles earlier, and the model reads those lines by key: `exists:auctions,id` at PaymentController.php:17 names a missing column, and `$auction->bids()` at :33 uses Eloquent's default foreign key `auction_auction_id` (`Auction.php:31-34`). Contrary evidence: if the deployed table has an `id` column (the comment at `Bid.php:11` hints that deployed tables differ from the migrations), `findOrFail` loads it and the lookup works | an ended auction with one bid by user 7, settled by user 7; after it is closed, user 7 pays again | the lookup filters on the auction's key, so the second payment is refused with 409 | not executed | Settlement.SettlesTwiceAsWritten | Settlement.NoSecondSettlement |
| frontend/src/Pages/Artworkwon.jsx:104 | the duplicate test compares `Number(c.auction.id)` with `Number(auctionData.id)`. The claim reads the auction JSON as the migration's columns: it carries `auction_id` and no `id`. Then both sides are NaN and never equal. The duplicate also needs a listing that carries bids, which `index` as written does not load (see above); the model takes the listing's bids as given. Contrary evidence: `Payment.jsx:90` and `:100`, `Artist.jsx:127` and `Artworkwon.jsx:177` read `auction.id` from the same JSON, which suggests the deployed rows do carry an `id` | auction 5, ended, won by user 7, listed and also named by `?auctionId=5` | the test compares auction keys, so an auction already listed is not added again | not executed | WonAuctions.ListedTwiceAsWritten | WonAuctions.CandidatesOncePerAuction |

The rest of the model uses the corrected members: `Settlement.SettleCheck`
and `Marketplace.Market.Pay` look payments up by the auction's key, and
`WonAuctions.WithQueried` (with `LoadWins`) compares auction keys.

## Left out

- Concurrency, locking and transactions are not modelled; each operation is one atomic step. One payment per auction is proved only for sequential calls. The check-then-insert race in `store` is not modelled.
- Time source and date parsing (Carbon, `now()`, `addHours`) are not modelled: times are integer seconds passed in, and an hour is 3600.
- Decimal money columns are not modelled: amounts are integer cents, and `numeric` request values are assumed to be whole cents.
- Request validation plumbing is not modelled. Each validation failure is the single error `Invalid` (422). The model keeps only the rules that decide outcomes, not the fields that are only stored: an artwork's description, image URL and category, the `user_id` integer rule of payments, and the date format rules.
- Authentication, tokens and user roles are not modelled beyond an `isBuyer` flag and the caller's id.
- The JSON bodies and messages of the responses are not modelled, nor the winner user's name and email in `getWinner`. Only the outcome kind and its HTTP code are kept.
- Auction ids are handed out from 1 upwards, and tables are visited in id order. Bids and payments have no ids of their own: a bid or a payment is its position in the ledger.
- Column and key names: beyond the two findings above, the model reads each field by what it means, not by the name the code uses, and so does not capture the following drifts between the controllers, the models and the migrations. Every property about bids rests on this reading: admission, `ListBids`, `TopBid`, `Consistent`, and the cached highest bid, which the code reads and writes as `current_highest_bid` while the migration declares `current_bid`. All of them assume one amount field, but the code writes `amount` while the migration declares `bid_amount`. The `exists:auctions,id` rules (BidController.php:24, PaymentController.php:17) and `exists:artworks,id` (AuctionController.php:42) name an `id` column, but the tables key on `auction_id` and `artwork_id`; the model checks membership of the table's key. The payment status is written as `payment_status`, but the migration declares `status`. `OnePaymentEach` and the candidate id comparison depend on the corrected keys described under Findings.
- Lifecycle.Extend and Marketplace.Market.ExtendAuction: the model gives the evident intent of ArtistController.php:122, moving the end date by `hours` hours. As written, `Auction.php` declares no `$casts`, so `$auction->end_date` is the string the database returns, and calling `addHours` on it throws before `save()`. Every permitted extension would then answer 500 and leave the end date unchanged, which the model does not capture.
- Settlement.ValidMethod and Marketplace.Market.CreateArtwork: Laravel's `required` rule trims first, so a payment method or title made only of spaces is rejected by the source but accepted by the model.
- Domain.TopBid: SQL gives no order among equal amounts. The model takes the earliest bid. Under `Valid()` the amounts of one auction strictly increase, so ties cannot occur.
- `destroy`, other artwork CRUD, admin moderation, buyer browsing, notifications and the `info` log lines of the sweep are not modelled.
- Artists are fixed when the tables are created, because no core operation changes them.
- An `update` request carrying `end_date` with a null value is modelled as a request without an end date.
- WonAuctions.LoadWins: the fetches, localStorage, the user lookup and the `data.value` / `data.data` unwrapping are not modelled. The listing, the current user id and the queried auction's data are inputs. A current user id that converts to NaN is None. Bid amounts are numbers, so NaN amounts are not modelled. The bidder id is the bid's user id.
- WonAuctions.LoadWins: the in-place `Array.prototype.sort` is modelled by its result, a descending insertion sort on a sequence. The model states nothing about the order of entries with equal end dates.
