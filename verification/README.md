# Auction platform: verified model

A Dafny model of the auction life cycle of the server and of the money attached to it, with machine-checked proofs of
what it keeps over whole runs.

- **Bidding** (`Bidding`, `AutoBids`, `BidLock`, `BidLockAtomic`, `BidLockClosing`, `BidLockRows`, `BidLockRuns`,
  `BidLockWinners`): one bid request and the automatic bids that answer it, then any number of requests and answers
  interleaved at every `await` around the per-auction lock, together with standing orders coming and going and the use
  cases that take no lock and store the whole record they loaded; the interleaved system against the atomic one; which
  request every stored row records; what closing makes final; and what several closings at once leave behind.
- **Winner selection** (`Ranking`, `WinnerSelection`): the fold of open auctions, the decrypting loop of sealed ones and
  the fallback re-election, all tied to one leaderboard.
- **Life cycle** (`Auctions`, `Payments`, `PublicOffers`, `Lifecycle`, `LifecycleInvariant`, `LifecycleReachable`,
  `LifecycleBids`, `LifecycleWinners`, `LifecycleSteps`, `LifecycleJobs`, `LifecycleOutcome`, `LifecyclePaid`,
  `LifecycleDeadEnd`, `LifecycleLiveness`, `LifecycleOrders`): draft to sale as a transition system with one step per use
  case; jobs are never removed from the queue, so any job may arrive late, twice or out of order. `LifecycleSteps` says
  what each step comes to in every reachable state, `LifecycleBids` that bids and winner rows are what was asked, and
  `LifecyclePaid` that a winner who has paid keeps the auction. Automatic bids are further bids, so what holds over all
  runs holds with them.
- **Use cases** (`UseCases`): the same steps as the server performs them, on mutable records, each proved to be its
  transition.
- **Wallets** (`Wallets`, `WalletBooks`, `WalletSteps`): deposits held and released across all auctions, and what each
  operation leaves in each wallet.
- **Subscriptions** (`Subscriptions`, `SubscriptionSteps`, `SubscriptionRuns`): gateway webhooks by name, superseding and
  pro-rated refunds.
- **Two algorithms** (`HomeFeed`, `PlanFeatures`): cutting before sorting, and change detection by length and look-up.

`dafny verify dfyconfig.toml` checks the project.

## Reading the model

State is one auction's record, bids, participants, winner rows, payments, jobs, public offer and replies. Users are
integers, money is `real`, times are milliseconds. A stored sealed bid holds an ideal cipher: decrypting what was
encrypted gives it back, anything else fails. The following hold throughout and are hypotheses, not results.

- A use case reads the clock once, and the clock never goes back. In the `BidLock` modules a bid request may be
  interrupted at every `await` and reads the clock at each decision, and a use case that takes no lock may be
  interrupted between loading the record and storing all of it; everywhere else a use case runs to completion.
- Repositories fail only where a stored constraint makes them: unique keys (prisma/payments.prisma:31,
  prisma/auction.prisma:78, prisma/publicFallbackAuction.prisma:14 and 35), integer money columns
  (prisma/payments.prisma:20, prisma/wallet.prisma:5-6), and rows an entity refuses to load again.
- The bid lock does not expire inside a section; every request has its own token.
- Configuration, plans and the payment ratios do not change during a run.
- Request validation holds at the edge: bid amounts are positive; start prices, increments and anti-snipe windows are
  not negative; wallet credits are at least 1.
- Order of creation is order of `createdAt`.

## Where the code does less than one might expect

The code is modelled as it is. Each point below is a proved statement with its exact condition.

- The decline loop reaches FALLBACK_ENDED only through the rank cap. When the bidders run out first the auction stays
  ENDED with the decliner as winner for good (`DeclineOutcome`, `LastDeclineIsForever`, `LoneDeclinerIsStuck`). A winning
  amount whose deposit share is below 1 creates no payments, and then nothing can move the auction either
  (`UnchargedForever`, `SmallWinIsUncharged`). `DeadIffCannotMove` says exactly which reachable ended auctions are dead.
- An amount that is not whole gets a deposit without a balance (`PairCreatedExactly`, `PairsExactlyWhenPayable`,
  `FractionalWinHasNoBalance`).
- Ending, pausing and failing take no bid lock. A request already validated can append its bid afterwards, and the
  standing orders that answer it more bids (`FrozenIffDisarmed`). A pending extension, one that such an answer still
  makes, or a pause or resume in flight writes an open record back (`ShutIffNobodyExtends`, `ClosedForGoodIff`,
  `EndedAuctionComesBack`, `StandingOrderReopens`).
- Two closings that both loaded the open record each save a rank-1 winner row (`TwoRowsIffLeadersDiffer`), and the record
  names whoever is stored last (`TwoFirstWinners`).
- The same saves of a whole record can move the end time back, under bids already accepted (`EndMovesBackIff`,
  `EndAdvancesIffFresh`, `PauseMovesEndBack`); they never take it before the published end (`EndStaysInRange`).
- The public sale ignores the result of creating the remaining payment (`PurchaseOutcome`, `FormerWinnerBuysUnbilled`).
- Bids are listed newest first, so a tie between sealed bids goes to the later bid (`SealedWinnerIsNewestMax`). In a LIVE
  auction without an increment a tie goes by the listing (`LastWinsIffUntied`).
- Joining twice holds the deposit twice, and releasing twice, which a redelivered end job does, can drive a held balance
  below zero; the row can then never be read again (`StepBalancedIff`, `ReleaseLosesARowIff`).
- The look-up before an activation misses an active subscription past its end date, and each effective expiry webhook
  adds a default subscription (`StepKeepsOneActiveIff`, `ExpiredTwice`).
- A plan update that names a feature twice always counts as a change and can never be stored (`StoredIffDistinct`).
- The messages "Min increment must be greater than 1" and "Win amount must be greater than start price" are stricter
  than their guards, which accept equality (src/domain/entities/auction/auction.entity.ts:110-112 and 167-169). The
  guards are modelled.

## Model

| member | source | states |
|---|---|---|
| Bidding.HighestBid | src/infrastructure/repositories/auction/bid.repo.ts:30-40 | the bid the lookup returns is stored and no stored bid has a higher amount |
| Bidding.NewestBidOf | src/infrastructure/repositories/auction/bid.repo.ts:42-57 | the bid the lookup returns is the user's own; there is none exactly when the user never bid |
| Bidding.AcceptedIffFits | src/domain/policies/auction/place-bid-policy.service.ts:24-74 | a request is accepted if and only if the auction is active and the bid relates as required to EVERY stored bid (tops each by the increment, keeps the cooldown, repeats no sealed bidder, paid, not the seller, in the window), although the policy looks at two stored bids only |
| Bidding.PlaceBidKeepsSound | src/application/usecases/auction/placeBid.usecase.ts:146-224 | one whole request keeps the history sound: paid bidders other than the seller, in order, inside the window, rising, spaced, one sealed bid each |
| Bidding.AcceptedBidIsRecorded | src/application/strategies/auction/sealedAuction.placeBid.startegy.ts:36-57 | an accepted request appends one row of that user and time that is, or for a sealed auction opens as, exactly the amount asked, with nothing in the open; earlier rows and participants stay, and any other request changes nothing |
| LifecycleBids.BidsAreTheLog | src/application/usecases/auction/placeBid.usecase.ts:146-224 | after any run the bid list is, row for row, the log of the accepted requests: users, times and amounts asked |
| LifecycleBids.WinnersAsked | src/application/usecases/auction/endAuction.usecase.ts:65-96 | over any run every winner row has the user and exactly the amount of an accepted request |
| Bidding.ExtensionKeepsDeadline | src/domain/policies/auction/should-extend-auction.policy.ts:4-22 | an extension keeps base end time and hard deadline, happens only inside the anti-snipe window of a LONG auction and leaves more than the window; after an accepted LONG bid more than the window is left or the extensions are used up |
| Bidding.NthBidAtLeast | src/domain/policies/auction/place-bid-policy.service.ts:53-66 | the n-th accepted open bid is worth at least n increments |
| Bidding.CooldownBoundsBids | src/domain/policies/auction/place-bid-policy.service.ts:40-51 | n bids of one user satisfy (n-1) * cooldown < hard deadline - start |
| BidLock.RunKeepsSafe | src/application/usecases/auction/placeBid.usecase.ts:75-291 | every interleaving of any number of requests, the automatic bids that answer them inside the section, standing orders being set and withdrawn, and writers that load the record and later store all of it back keeps mutual exclusion, up-to-date bids in every snapshot, orders of paid participants only, and a history that is sound up to the hard deadline |
| BidLock.BiddingIsExclusiveAndRising | src/application/usecases/auction/placeBid.usecase.ts:75-291 | from an opened auction, after any interleaving, automatic bids included: at most one request inside, bids rise by the increment and the n-th is worth n increments, one user's bids are a cooldown apart, one sealed bid per user |
| BidLock.HolderFinishes | src/application/usecases/auction/placeBid.usecase.ts:285-291 | no deadlock: whoever holds the lock frees it within a bounded number of steps of its own, at most 11 and four more for each order standing or already listed |
| BidLock.RunKeepsDeadline | src/application/usecases/auction/placeBid.usecase.ts:178-218 | no interleaving, extensions by automatic bids and writers included, changes rules, base end time or hard deadline, or takes the end past that deadline or the extensions over their cap |
| BidLock.EndStaysInRange | src/application/usecases/auction/placeBid.usecase.ts:178-218 | from an opened auction, whatever stale versions are stored, the end stays between the published end and the hard deadline |
| BidLock.EndMovesBackIff | src/infrastructure/repositories/auction/auction.repo.ts:74-92 | a step moves the end back if and only if it stores a version with fewer extensions than the stored one, be it a writer's, a request's or that of an automatic bid |
| BidLock.EndAdvancesIffFresh | src/application/usecases/auction/pauseAuction.usecase.ts:42-71 | over any interleaving the end never moves back if and only if no store is stale in its extensions |
| BidLockRuns.PauseMovesEndBack | src/application/usecases/auction/pauseAuction.usecase.ts:42-71 | a run from an opened auction in which a pause straddles two extensions: the end moves back and an accepted bid lies after it |
| BidLockRuns.RequestIsPlaceBid | src/application/usecases/auction/placeBid.usecase.ts:49-292 | a request nobody disturbs, with any standing orders, is exactly one atomic bid followed by its atomic answer, is refused exactly while the user has an active order or the policy says so, and leaves the lock free |
| BidLock.BidsPerUserAreBounded | src/domain/policies/auction/place-bid-policy.service.ts:40-51 | the cooldown bound on bids per user, over every interleaving and in terms of the published times |
| BidLock.DecideFits | src/application/usecases/auction/placeBid.usecase.ts:146-176 | a bid by hand decided on any version of the record leaves the call with knowledge that is still current: the bid fits the stored history, up to the hard deadline |
| BidLock.DecideReplyFits | src/infrastructure/services/auction/autoBid.service.ts:49-92 | so does an automatic bid, decided on the version its request has read and for whichever order it has come to |
| BidLockRows.EveryRowIsExplained | src/application/usecases/auction/placeBid.usecase.ts:146-262 | after any interleaving from an opened auction every stored bid records a request, for exactly its amount, or is an automatic bid exactly one increment above the bid stored right before it |
| BidLockRows.OwnRowIsRecorded | src/application/usecases/auction/placeBid.usecase.ts:220-224 | under every interleaving the row a request creates has its user, and its amount in the open or under the cipher |
| BidLockRows.OrderBidsIff | src/infrastructure/services/auction/autoBid.service.ts:64-86 | inside the section an order bids if and only if its maximum is not below the next minimum and its owner could bid that by hand, and then for exactly that amount |
| BidLock.OrdersStayOk | src/socket/handler/auction.handler.ts:259-313 | every step keeps all orders, stored or being stored, with paid participants, one each |
| BidLockAtomic.StepRefinesIff | src/application/usecases/auction/placeBid.usecase.ts:220-224 | an interleaved step is matched by one atomic step or none, a bid, automatic or by hand, taking effect when its row is created and as of the time it was validated, if and only if it does not store a changed record over a snapshot or an extension |
| BidLockAtomic.MatchedIffDisciplined | src/infrastructure/services/lock/bid.lock.service.ts:22-38 | an interleaved run is matched step by step if and only if every store along it keeps that discipline |
| BidLockAtomic.RunRefines | src/infrastructure/services/lock/bid.lock.service.ts:22-38 | linearizability: a disciplined interleaved run is a run of whole bids, those of the standing orders included, and whole status changes |
| BidLockClosing.FrozenIffDisarmed | src/application/usecases/auction/placeBid.usecase.ts:100-262 | bids of a closed or paused auction are final in every continuation in which no writer stores ACTIVE if and only if no request inside the section could still pass validation or still answer a bid for an order that stands |
| BidLockClosing.ArmedCallFinishes | src/application/usecases/auction/placeBid.usecase.ts:146-262 | any request that could still do so has a continuation, with orders stored or withdrawn as needed, that appends a bid to the closed auction |
| BidLockClosing.ClosingUnlockedIsFinal | src/application/usecases/auction/endAuction.usecase.ts:58-63 | closing while the lock is free is always final for the bids |
| BidLockClosing.ShutIffNobodyExtends | src/application/usecases/auction/placeBid.usecase.ts:178-262 | a closed or paused record stays so in every continuation in which no writer stores ACTIVE if and only if no request inside the section could still extend it, with its own bid or with an automatic one |
| BidLockClosing.AppendingLeavesRecordShutIff | src/application/usecases/auction/placeBid.usecase.ts:220-265 | while a validated bid waits to be appended the bids are not final, and the record is final exactly unless an order stands that could answer the bid inside the anti-snipe window |
| BidLockClosing.FrozenMeansShut | src/application/usecases/auction/placeBid.usecase.ts:178-224 | final bids mean a final record |
| BidLockClosing.ClosedForGoodIff | src/application/usecases/auction/endAuction.usecase.ts:41-124 | whatever anybody does next, a closed auction stays closed if and only if no request inside could still extend it and no pause or resume whose guard held is in flight; other use cases in flight, a second closing among them, do no harm |
| BidLockRuns.EndedAuctionComesBack | src/application/usecases/auction/placeBid.usecase.ts:178-224 | a run from an opened auction in which it is ended under a pending extension: the ACTIVE record is written back, the winner erased and a bid appended |
| BidLockRuns.StandingOrderReopens | src/infrastructure/services/auction/autoBid.service.ts:183-201 | a run from an opened auction in which it is ended while a bid that extends nothing waits to be appended: the standing order that answers that bid writes the ACTIVE record back and adds a second bid |
| BidLockWinners.LeaderIsLastBidder | src/application/usecases/auction/endAuction.usecase.ts:65-79 | under every interleaving, whoever closes an open auction with a positive increment elects the last bidder at that moment |
| BidLockWinners.RowsAlwaysClimb | src/application/usecases/auction/endAuction.usecase.ts:81-96 | however many use cases close an open auction at once, the rank-1 rows they leave are bids that were placed, one a user, in rising order |
| BidLockWinners.TwoRowsIffLeadersDiffer | prisma/auction.prisma:66-79 | an auction gets two rank-1 rows if and only if two of its closings elect different users |
| BidLockWinners.TwoFirstWinners | src/application/usecases/auction/expireOverdueAuctions.usecase.ts:98-147 | a run from an opened auction that ends with two rank-1 rows and a record that names the lower bidder |
| AutoBids.AnswerKeepsSound | src/infrastructure/services/auction/autoBid.service.ts:151-250 | orders being those of paid participants, the automatic bids that answer a bid always keep the whole history sound |
| AutoBids.AcceptedIffCanAnswer | src/infrastructure/services/auction/autoBid.service.ts:64-84 | an order bids if and only if the next minimum does not exceed its maximum, the auction is active and the bid fits every stored one; the row then holds exactly the next minimum |
| AutoBids.AnsweredIff | src/infrastructure/services/auction/autoBid.service.ts:162-249 | exactly when a bid is answered: in a LONG auction, if an active order allows the next minimum and could bid it; outside the window any but the bidder's own, inside it the one of highest priority |
| AutoBids.OrdersEndIff | src/infrastructure/services/auction/autoBid.service.ts:203-209 | all orders of a LONG auction end when it is answered inside the anti-snipe window, and none otherwise |
| AutoBids.AutoBidDesk.SetOrder | src/socket/handler/auction.handler.ts:259-313 | an order is set exactly by a paid participant of an active LONG auction with a positive maximum; it replaces the user's earlier one, and all orders stay with paid participants, one each |
| AutoBids.ListedByPriority | src/infrastructure/repositories/auction/autoBidConfig.repo.ts:53-69 | the active orders are listed highest maximum first and, among equals, oldest first |
| AutoBids.AnswerIsBids | src/infrastructure/services/auction/autoBid.service.ts:151-250 | the whole answer is a sequence of bids by hand, each covered by an active order of its bidder |
| AutoBids.ChainKeepsSound | src/infrastructure/services/auction/autoBid.service.ts:214-249 | however many orders answer, the history stays ordered, spaced, rising, paid for and inside the window |
| AutoBids.ChainClimbs | src/infrastructure/services/auction/autoBid.service.ts:64-70 | each automatic bid tops the one before by exactly the increment, at most one per order |
| AutoBids.AutoIsPlaceBid | src/infrastructure/services/auction/autoBid.service.ts:72-84 | an automatic bid of a paid participant is exactly a bid by hand of the next minimum |
| AutoBids.AutoBidDesk.HandlePlaced | src/infrastructure/services/auction/autoBid.service.ts:151-250 | the loop over the orders, and the single bid inside the window after which all orders end, compute the answer |
| Ranking.BeatsIsStrictOrder | src/application/strategies/auction/getFallBackAuctionWinnerStartegy.ts:120-128 | the leaderboard is a strict total order of the bidders: best amount first, earlier listing first on ties |
| Ranking.PodiumIsUnique | src/application/strategies/auction/getFallBackAuctionWinnerStartegy.ts:57-136 | the first n places of the leaderboard are unique |
| Ranking.LeaderBeatsEligible | src/application/strategies/auction/getFallBackAuctionWinnerStartegy.ts:87-136 | the fold over the bids of users not yet elected finds the user who beats every other such user, at that user's best amount |
| Ranking.ElectionExtendsPodium | src/application/strategies/auction/getFallBackAuctionWinnerStartegy.ts:87-136 | electing that leader extends the podium by exactly the next place |
| Ranking.OrderIrrelevantIffSingleMax | src/application/strategies/auction/long-auction-winner.strategy.ts:34-36 | the fold gives the same winner for every order of the listing if and only if the maximum has a single holder |
| WinnerSelection.ResolveSealed | src/application/strategies/auction/sealed-auction-winner.strategy.ts:36-58 | the decrypting loop, with its early failure, computes the sealed selection |
| WinnerSelection.SealedPickMeaning | src/application/strategies/auction/getFallBackAuctionWinnerStartegy.ts:138-180 | the loop fails exactly on a bid that cannot be opened, finds nobody exactly when no opened amount is positive, and else the leader of the opened amounts |
| WinnerSelection.FirstPickIsLeader | src/application/usecases/auction/endAuction.usecase.ts:65-79 | both selections elect the top of the leaderboard, and elect somebody exactly when somebody bid |
| WinnerSelection.LastWinsIffUntied | src/application/strategies/auction/long-auction-winner.strategy.ts:34-36 | LONG and LIVE: the last bidder wins for every permutation of the listing if and only if nobody else has offered as much |
| WinnerSelection.OpenWinnerIsLastBid | src/application/strategies/auction/long-auction-winner.strategy.ts:34-36 | with a positive increment the winner of an open auction is its last accepted bid for every permutation of the listing |
| WinnerSelection.SealedWinnerIsNewestMax | src/application/strategies/auction/sealed-auction-winner.strategy.ts:36-58 | a sealed auction has a winner exactly when it has a bid, with the true maximum; the newest-first listing gives ties to the bid placed last |
| WinnerSelection.NextWinnerIsNextPlace | src/application/strategies/auction/getFallBackAuctionWinnerStartegy.ts:57-136 | with ranks left, the fallback elects the next place of the leaderboard, and nobody exactly when every bidder has been elected |
| Payments.PairCreatedExactly | src/application/strategies/payments/auctionPaymentAmountSplit.strategy.ts:25-28 | a winner without rows gets the full pair exactly when the amount is whole and its deposit share at least 1; nothing at all exactly when the share is below 1; a deposit row holds the floored share; other rows are untouched |
| Payments.DepositBounds | src/application/strategies/payments/auctionPaymentAmountSplit.strategy.ts:25-28 | for a ratio strictly between 0 and 1 the deposit is the largest whole amount within the share, below the win, and positive exactly when the share is at least 1 |
| Payments.RemainderBounds | src/application/usecases/payments/verifyPublicAuctionPayment.usecase.ts:125-126 | the instalment is the price times the ratio: strictly between nothing and the price exactly for a ratio strictly between 0 and 1, the price for 1, and growing with the ratio |
| Payments.DeclineAllSettles | src/infrastructure/repositories/payments/payments.repo.ts:99-119 | the cleanup declines exactly one user's pending payments, leaves every amount and every other row alone, and repeating it changes nothing |
| Payments.CreationIsIdempotent | src/application/usecases/payments/createPendingPaymentForAuction.usecase.ts:33-89 | running the creation again changes nothing |
| Payments.PaymentEntity.MarkAsCompleted | src/domain/entities/payments/payments.entity.ts:75-82 | only a pending payment completes; otherwise nothing changes |
| Payments.PaymentEntity.MarkAsDeclined | src/domain/entities/payments/payments.entity.ts:84-94 | a pending payment is declined, a declined one stays, any other is refused |
| Auctions.AuctionEntity.SetStatus | src/domain/entities/auction/auction.entity.ts:140-160 | the status changes exactly when the ended and fallback-ended guards allow it, and nothing else changes |
| Auctions.AuctionEntity.SetWinner | src/domain/entities/auction/auction.entity.ts:162-174 | winner and amount change exactly when the auction is not sold and the amount reaches the start price |
| PublicOffers.PublicOfferEntity.SetPaymentStatus | src/domain/entities/auction/public-fallback-auction.entity.ts:51-64 | one shot: a pending offer changes, paying accepts it, any other is refused |
| PublicOffers.OfferReplyEntity.SetPaymentStatus | src/domain/entities/auction/public-auction-fallback-participants.entity.ts:51-63 | one shot: only a pending reply changes |
| LifecycleInvariant.StepKeepsInv | src/application/usecases/auction/processAuctionWinnerFallback.usecase.ts:69-207 | every use case, from any state satisfying it, keeps the invariant over bids, status, winners, payments, jobs, offer and replies |
| LifecycleInvariant.RunKeepsInv | src/application/usecases/auction/processAuctionWinnerFallback.usecase.ts:69-207 | the invariant holds after every run |
| LifecycleInvariant.UnsettledIsCurrent | src/application/usecases/auction/processAuctionWinnerFallback.usecase.ts:69-76 | a job that passes both guards was queued in the current reign: no earlier winner comes back as the current one |
| LifecycleSteps.UpdateOutcome | src/application/usecases/auction/updateAuction.usecase.ts:59-134 | an edit replaces the whole editable part of the seller's own draft when the entity accepts it, and otherwise nothing |
| LifecycleSteps.PublishOutcome | src/application/usecases/auction/publishAuction.usecase.ts:47-104 | the seller publishes a draft before its end time; only the status changes, and otherwise nothing |
| LifecycleSteps.PauseOutcome | src/application/usecases/auction/pauseAuction.usecase.ts:39-75 | seller or administrator pause an active auction and resume a paused one; only the status changes, and otherwise nothing |
| LifecycleSteps.ResumeUndoesPause | src/application/usecases/auction/resumeAuction.usecase.ts:39-75 | pausing and resuming lead back to the same state |
| LifecycleSteps.EndOutcome | src/application/usecases/auction/endAuction.usecase.ts:54-124 | an active or paused auction is ended by hand if and only if the caller may and somebody has bid, for the top of the leaderboard with one row of rank 1 and its end job; otherwise nothing changes |
| LifecycleSteps.ExpireOutcome | src/application/usecases/auction/expireOverdueAuctions.usecase.ts:84-148 | from its end time on an active or paused auction always ends, with a winner if and only if somebody has bid; before that nothing changes |
| LifecycleSteps.EndJobOutcome | src/application/usecases/auction/processAuctionEnd.usecase.ts:41-126 | the end job charges the first winner unless there is a row of theirs: in full exactly if the win is payable, not at all below a deposit of 1 |
| LifecycleSteps.VerifyOutcome | src/application/usecases/payments/verifyPayment.usecase.ts:31-59 | a pending payment verified by its owner is completed for the same amount; no other row or field moves, and no other call does anything |
| LifecycleSteps.DeclinePaymentOutcome | src/application/usecases/payments/declinePayment.usecase.ts:57-105 | a pending payment declined by its owner is declined, and while the auction is ended that queues the owner's job; nothing else moves |
| LifecycleSteps.FallbackOutcome | src/application/usecases/auction/processAuctionWinnerFallback.usecase.ts:69-207 | a delivery for the sitting winner declines what that winner owed and then, exactly, ends the fallback at the cap, seats the next place of the leaderboard while a bidder is left, or leaves the record; any other delivery changes nothing |
| LifecycleSteps.FailOutcome | src/application/usecases/auction/failAuction.usecase.ts:36-49 | failing sets FAILED exactly unless the auction is ENDED |
| LifecycleSteps.OfferOutcome | src/application/usecases/auction/processFallbackPublicNotification.usecase.ts:57-102 | the public offer is made exactly in FALLBACK_ENDED, pending, unpaid and at the start price |
| LifecycleSteps.OrderOutcome | src/application/usecases/payments/createPaymentOrderForPublicFallbackAuction.ts:59-162 | while the offer is open a user never elected and without a reply gets a pending, unpaid reply; nobody else does |
| LifecycleSteps.RejectOutcome | src/application/usecases/auction/declinePublicfallbackAuction.usecase.ts:43-65 | while the auction is offered a user without a reply can turn it down; otherwise nothing changes |
| LifecycleWinners.WinnersArePodium | src/application/usecases/auction/processAuctionWinnerFallback.usecase.ts:143-197 | in every reachable state the winner rows are a prefix of the leaderboard: ranks 1..n, distinct users, each at their own best bid, never rising, at most max(1, cap), each user a paid participant other than the seller with a bid of that amount |
| LifecycleWinners.RecordAgreesWithLastRow | src/application/usecases/auction/processAuctionWinnerFallback.usecase.ts:156-185 | in every reachable ENDED state with a winner, winner and amount are those of the last row |
| LifecycleWinners.FirstWinnerIsLastBidder | src/application/strategies/auction/long-auction-winner.strategy.ts:34-45 | in every reachable open auction with a positive increment and a winner, the first winner is the last bidder, at the last bid |
| LifecycleWinners.PendingBelongsToWinner | src/application/usecases/auction/processAuctionWinnerFallback.usecase.ts:78-86 | in every reachable state each pending payment belongs to the current winner |
| LifecycleWinners.NewWinnerGetsPair | src/application/usecases/payments/createPendingPaymentForAuction.usecase.ts:55-57 | a fallback winner never finds rows already there, so the existing-payment check never suppresses the pair, which is created exactly when the amount is payable |
| LifecycleWinners.PairsExactlyWhenPayable | src/application/usecases/payments/createPendingPaymentForAuction.usecase.ts:59-89 | in every reachable state a winner has one positive deposit and one positive balance adding up to the win if and only if the winner has any payment row and the win is payable: whole, with a deposit share of at least 1 |
| LifecycleJobs.StaleJobIsHarmless | src/application/usecases/auction/processAuctionWinnerFallback.usecase.ts:74-76 | a decline job of an earlier reign never unseats a later winner |
| LifecycleJobs.DeclineOutcome | src/application/strategies/auction/getFallBackAuctionWinnerStartegy.ts:59-103 | delivering the sitting winner's decline, exactly: FALLBACK_ENDED if and only if the cap is reached, a new winner if and only if below it with a bidder left, otherwise nothing but the cleanup |
| LifecycleJobs.RedeliveryChangesNothing | src/application/usecases/auction/processAuctionWinnerFallback.usecase.ts:69-76 | redelivery of a decline job, at any later time and after anything at all, is a no-op |
| LifecycleJobs.EndJobRedeliveryChangesNothing | src/application/usecases/auction/processAuctionEnd.usecase.ts:114-124 | redelivery of the end job, at any later time and after anything at all, is a no-op |
| LifecycleJobs.LateEndJobIsHarmless | src/application/usecases/payments/createPendingPaymentForAuction.usecase.ts:33-57 | an end job delivered after its winner was passed over or charged touches nothing |
| LifecycleJobs.DeclineLoopEnds | src/application/strategies/auction/getFallBackAuctionWinnerStartegy.ts:59-66 | over any run, however jobs repeat, at most max(1, cap) winners are unseated |
| LifecycleJobs.LastDeclineGetsStuck | src/application/strategies/auction/getFallBackAuctionWinnerStartegy.ts:96-103 | a decline leads into the dead end exactly when ranks are left and every bidder has been elected |
| LifecycleJobs.StuckForever | src/application/usecases/auction/processAuctionWinnerFallback.usecase.ts:139-141 | from the dead end no event whatsoever changes record, winners or payments |
| LifecycleJobs.LastDeclineIsForever | src/application/usecases/auction/processAuctionWinnerFallback.usecase.ts:139-141 | after the last bidder's decline below the cap the decliner stays winner of the ENDED auction in every continuation |
| LifecycleDeadEnd.LoneDeclinerIsStuck | src/application/strategies/auction/getFallBackAuctionWinnerStartegy.ts:96-103 | a concrete run into it: one bidder, cap three |
| LifecycleDeadEnd.UnchargedForever | src/application/usecases/payments/createPendingPaymentForAuction.usecase.ts:59-65 | an ended auction whose winner has no payment and a deposit share of nothing keeps its record in every continuation |
| LifecycleDeadEnd.SmallWinIsUncharged | src/application/usecases/payments/createPendingPaymentForAuction.usecase.ts:59-65 | a concrete run into it: one bid of 1, half of it as deposit |
| LifecycleDeadEnd.FractionalWinHasNoBalance | src/application/strategies/payments/auctionPaymentAmountSplit.strategy.ts:25-28 | a reachable win of 10.5 at a ratio of one half: a deposit of 5 and no balance |
| LifecycleDeadEnd.FormerWinnerBuysUnbilled | src/application/usecases/payments/verifyPublicAuctionPayment.usecase.ts:79-149 | a reachable sale without its instalment: a former winner turns the public offer down and then buys, and the old balance row takes the place of the new one |
| LifecycleLiveness.DeadIffCannotMove | src/application/usecases/auction/processAuctionWinnerFallback.usecase.ts:69-207 | a reachable ENDED auction, with any number of winners, never changes its record again if and only if the fallback has nowhere to go or nothing can set it going: no job of the sitting winner, no pending payment, no first payment to create |
| LifecyclePaid.SettledPaymentIsFinal | src/domain/entities/payments/payments.entity.ts:75-94 | over any run, from any state, a completed or declined payment never changes again |
| LifecyclePaid.PaidUpForever | src/application/usecases/auction/processAuctionWinnerFallback.usecase.ts:69-86 | once the winner of an ended auction has payments, all completed, and no decline queued, record, winners and payments never change again |
| LifecyclePaid.PayingSettlesIff | src/application/usecases/payments/verifyPayment.usecase.ts:31-59 | verifying both parts brings that about if and only if the winner has a row, none was declined and no decline is queued |
| LifecycleOutcome.PublishedTermsStand | src/domain/entities/auction/auction.entity.ts:104-108 | from publication on, over any run of whole use cases: rules fixed, base end and hard deadline constant, end never earlier, extension count within its cap |
| LifecycleOutcome.ClosedIsFinal | src/domain/entities/auction/auction.entity.ts:140-160 | with use cases run to completion a closed auction never returns to draft, active or paused; bids, start price and end time are frozen |
| LifecycleOutcome.PurchaseOutcome | src/application/usecases/payments/verifyPublicAuctionPayment.usecase.ts:79-149 | verifying a purchase of an unpaid offer is never rejected by the reply, setWinner or setStatus guards; reply and offer are paid, it sells at the start price if and only if the start price times the ratio is positive, and the row of exactly that amount is written if and only if that is whole and the buyer has no balance row; nothing else changes |
| LifecycleOutcome.NoPurchase | src/application/usecases/payments/verifyPublicAuctionPayment.usecase.ts:47-78 | without an unpaid offer and a reply row of the user a purchase changes nothing |
| LifecycleOutcome.BalanceRowBlocksOnlyFormerWinners | src/application/usecases/payments/verifyPublicAuctionPayment.usecase.ts:122-147 | only a user elected before can have the balance row that blocks the instalment |
| LifecycleOutcome.SoldAtMostOnce | src/application/usecases/auction/processFallbackPublicNotification.usecase.ts:57-102 | over any run at most one sale, at most one payment of the offer and at most one public offer |
| LifecycleOutcome.SaleIsAtStartPrice | src/application/usecases/payments/verifyPublicAuctionPayment.usecase.ts:95-106 | in every reachable sold auction the amount is the start price and the buyer has a reply row |
| UseCases.AuctionHouse.PlaceBid | src/application/usecases/auction/placeBid.usecase.ts:49-292 | quota, try-lock, own-order check, validate, extend, append, answer, release: the transition of one bid and of its answer when all are passed, nothing otherwise; success exactly then; orders end exactly after an answer inside the anti-snipe window; the lock of somebody else is never touched |
| LifecycleOrders.AnswerIsRun | src/infrastructure/services/auction/autoBid.service.ts:151-250 | from any reachable state the answer is a run of bids by hand, so it leads to reachable states only |
| UseCases.CarryingOutStaysReachable | src/application/usecases/auction/placeBid.usecase.ts:49-292 | whatever a use case does to an auction in a reachable state, with any orders of paid participants, leaves it in a reachable state |
| UseCases.AuctionHouse.Release | src/infrastructure/services/lock/bid.lock.service.ts:32-38 | only a matching token frees the lock |
| UseCases.AuctionHouse.UpdateDraft | src/application/usecases/auction/updateAuction.usecase.ts:59-134 | the edit of a draft by its seller within the configured limits; the win amount is dropped; success exactly then |
| UseCases.AuctionHouse.Publish | src/application/usecases/auction/publishAuction.usecase.ts:47-104 | DRAFT to ACTIVE by the seller before the end time and within the configured limits; success exactly then |
| UseCases.AuctionHouse.Pause | src/application/usecases/auction/pauseAuction.usecase.ts:39-75 | ACTIVE to PAUSED by the seller or an administrator; success exactly then |
| UseCases.AuctionHouse.Resume | src/application/usecases/auction/resumeAuction.usecase.ts:39-75 | PAUSED to ACTIVE by the seller or an administrator; success exactly then |
| UseCases.AuctionHouse.FailAuction | src/application/usecases/auction/failAuction.usecase.ts:36-49 | FAILED exactly when setStatus allows it |
| UseCases.AuctionHouse.EndAuction | src/application/usecases/auction/endAuction.usecase.ts:41-143 | elects rank 1 and closes; with no bids succeeds and leaves the auction running; success in exactly the stated cases |
| UseCases.AuctionHouse.EndOverdue | src/application/usecases/auction/expireOverdueAuctions.usecase.ts:84-174 | closes an overdue auction with its winner, or without one when nobody bid |
| UseCases.ExpireOverdue | src/application/usecases/auction/expireOverdueAuctions.usecase.ts:65-81 | the sweep closes each auction it was handed independently of the others and its two counters are exact |
| UseCases.AuctionHouse.CreatePendingPayments | src/application/usecases/payments/createPendingPaymentForAuction.usecase.ts:33-89 | the stored rows become those of the pair creation; success exactly for a winner with rows already or with the full pair now |
| UseCases.AuctionHouse.ProcessAuctionEnd | src/application/usecases/auction/processAuctionEnd.usecase.ts:41-126 | the end job creates the first winner's pair unless there are no participants, with an exact result |
| UseCases.AuctionHouse.VerifyPayment | src/application/usecases/payments/verifyPayment.usecase.ts:31-59 | PENDING to COMPLETED for the owner when the gateway confirms; success exactly when it is then completed |
| UseCases.AuctionHouse.DeclinePayment | src/application/usecases/payments/declinePayment.usecase.ts:57-105 | PENDING to DECLINED for the owner, and a job while that owner is the sitting winner, whatever becomes of the fraud report; success exactly when it is then declined and a new report was filed |
| UseCases.AuctionHouse.GetFallbackWinner | src/application/strategies/auction/getFallBackAuctionWinnerStartegy.ts:57-118 | cap, filter and resolution compute the election |
| UseCases.AuctionHouse.ProcessWinnerFallback | src/application/usecases/auction/processAuctionWinnerFallback.usecase.ts:69-209 | guards, cleanup, re-election, closing or seating and payments, in order, are the fallback transition, with an exact result |
| UseCases.AuctionHouse.OfferToPublic | src/application/usecases/auction/processFallbackPublicNotification.usecase.ts:57-102 | FALLBACK_ENDED to FALLBACK_PUBLIC_NOTIFICATION with an offer at the start price, once |
| UseCases.AuctionHouse.OrderOffer | src/application/usecases/payments/createPaymentOrderForPublicFallbackAuction.ts:59-162 | a reply row for a user never elected, once, while the offer is open; success exactly when the reply is still pending and the gateway created the order |
| UseCases.AuctionHouse.RejectOffer | src/application/usecases/auction/declinePublicfallbackAuction.usecase.ts:43-65 | a refusal is stored unless the user already has a row; the caller is told of success either way |
| UseCases.AuctionHouse.VerifyPublicPurchase | src/application/usecases/payments/verifyPublicAuctionPayment.usecase.ts:72-151 | reply and offer saved first, then winner, instalment and status: the purchase transition, with success exactly when the sale completes |
| UseCases.AuctionHouse.Handle | src/application/usecases/auction/processAuctionWinnerFallback.usecase.ts:48-242 | every event of the transition system is carried out by the corresponding use case, a bid together with its answer |
| Wallets.WalletEntity.Hold | src/domain/entities/wallet/wallet.entity.ts:77-84 | moves the amount from main to held exactly when main covers it |
| Wallets.WalletEntity.ReleaseHeld | src/domain/entities/wallet/wallet.entity.ts:86-90 | moves the amount back, unguarded |
| Wallets.WalletDesk.AddParticipant | src/application/usecases/auction/addAuctionParticipant.usecase.ts:86-129 | hold, save, then the participant row whose own save result is ignored |
| Wallets.WalletDesk.ReleaseParticipants | src/application/usecases/auction/releaseParticipantsWallet.usecase.ts:63-113 | the release loop, skipping winner and unreadable wallets and stopping at a failed save, is the release pass; success exactly when the pass reaches its end |
| Wallets.WalletDesk.CreditWallet | src/application/usecases/wallet/creditWallet.usecase.ts:29-56 | adds to main and saves; success exactly when the row was readable and the new one is stored and readable |
| Wallets.WalletDesk.DebitWallet | src/application/usecases/wallet/debitWallet.usecase.ts:29-63 | debits a positive amount main covers; main stays non-negative; success exactly then |
| WalletSteps.CreditOutcome | src/application/usecases/wallet/creditWallet.usecase.ts:29-56 | a credit of at least 1 is added to the main balance of a readable wallet if the sum is whole; nothing else ever changes |
| WalletSteps.DebitOutcome | src/application/usecases/wallet/debitWallet.usecase.ts:29-63 | a positive debit is taken from a main balance that covers it if what is left is whole; nothing else ever changes |
| WalletSteps.DebitUndoesCredit | src/domain/entities/wallet/wallet.entity.ts:67-75 | a whole credit takes effect, and a debit of the same amount undoes it |
| WalletSteps.JoinOutcome | src/application/usecases/auction/addAuctionParticipant.usecase.ts:86-129 | joining moves exactly the deposit from main to held and seats the user once, if main covers it and the balances stay whole; otherwise nothing changes |
| WalletSteps.ReleaseOutcome | src/application/usecases/auction/releaseParticipantsWallet.usecase.ts:63-113 | the first release of a whole deposit, from balanced books, moves it back exactly once for everybody who joined except the winner; all other balances stay |
| WalletSteps.CompletedPassOutcome | src/application/usecases/auction/releaseParticipantsWallet.usecase.ts:63-113 | any pass that reaches its end, repeated or not, has moved one deposit back for everybody but the winner and changed nothing else |
| WalletBooks.StepBalancedIff | src/application/usecases/auction/releaseParticipantsWallet.usecase.ts:63-111 | from books in which every held balance equals the user's outstanding deposits over all auctions, a step keeps them so if and only if it is not a second join, a second refund, or a new price for a taken seat |
| WalletBooks.OrderlyRunsBalance | src/application/usecases/auction/addAuctionParticipant.usecase.ts:86-129 | over any run that joins once, after publication, and releases once per auction, held balances equal outstanding deposits, no balance is negative, every wallet is readable |
| WalletBooks.RunConserves | src/domain/entities/wallet/wallet.entity.ts:67-90 | in any run whatsoever only credits and debits move the total of all wallets |
| WalletBooks.MainNeverNegative | src/domain/entities/wallet/wallet.entity.ts:77-84 | in any run main balances stay non-negative |
| WalletBooks.UnreadableForever | src/domain/entities/wallet/wallet.entity.ts:30-36 | a wallet row gone negative is never changed again |
| WalletBooks.ReleaseLosesARowIff | src/application/usecases/auction/releaseParticipantsWallet.usecase.ts:63-111 | from balanced books a release pass leaves an unreadable row if and only if some user it refunds a second time has less outstanding over all auctions than the whole deposit |
| WalletBooks.ReleaseSucceedsIff | src/application/usecases/auction/releaseParticipantsWallet.usecase.ts:88-113 | from balanced books the pass reports success exactly when no such user exists, or, for a deposit that is not whole, when there is nobody but the winner to refund |
| WalletBooks.SecondReleaseLosesWallet | src/infrastructure/workers/auctionEnd.worker.ts:40-43 | join once and release twice: unless other deposits cover it, the row is negative and lost in every continuation |
| Subscriptions.ByGateway | src/infrastructure/repositories/subscription/user-subscription.repo.ts:93-107 | the lookup returns the newest row with the gateway id |
| Subscriptions.WebhookHandler.Handle | src/application/usecases/webhook/razorpaySubscriptionWebhookHandler.usecase.ts:99-311 | lookups, status map, superseding, activation, expiry and the saves are the webhook transition; the reported result is exact, and a failure changed nothing |
| Subscriptions.WebhookHandler.ExpireOld | src/application/usecases/webhook/razorpaySubscriptionWebhookHandler.usecase.ts:172-235 | superseding succeeds exactly when the plan is known and the wallet is there if a refund is due |
| SubscriptionSteps.ActivationOutcome | src/application/usecases/webhook/razorpaySubscriptionWebhookHandler.usecase.ts:154-251 | the four activating names, for a pending, unpaid or active row of a known plan: the row is active from now for durationDays times 86400000 ms and the current active row, if another, expires now with its refund credited, exactly if that row can make way; otherwise nothing changes and it fails |
| SubscriptionSteps.EndingOutcome | src/application/usecases/webhook/razorpaySubscriptionWebhookHandler.usecase.ts:252-304 | the four ending names: with a default plan the row expires now and an active default row without end is added, otherwise nothing changes; success exactly if the row's plan is known |
| SubscriptionSteps.PendingOutcome | src/application/usecases/webhook/razorpaySubscriptionWebhookHandler.usecase.ts:339-361 | the pending name never changes anything and succeeds exactly for a known plan |
| SubscriptionSteps.UnknownIsRefused | src/application/usecases/webhook/razorpaySubscriptionWebhookHandler.usecase.ts:99-121 | an unknown name or gateway id fails and changes nothing |
| SubscriptionSteps.ExpiredIsNotRevived | src/application/usecases/webhook/razorpaySubscriptionWebhookHandler.usecase.ts:123-136 | an activating name for an expired or cancelled row is reported as a success and changes nothing |
| SubscriptionSteps.UnknownPlanIsRefused | src/application/usecases/webhook/razorpaySubscriptionWebhookHandler.usecase.ts:138-150 | an activating name for a row of an unknown plan fails and changes nothing |
| SubscriptionSteps.CheckoutOutcome | src/application/usecases/subscription/checkoutUserSubscription.usecase.ts:50-175 | a checkout adds one pending row for the plan's days exactly if the plan is for sale and the user has it neither pending nor active |
| SubscriptionRuns.RefundIsBounded | src/application/usecases/webhook/razorpaySubscriptionWebhookHandler.usecase.ts:318-337 | for a period that has begun the refund lies between 0 and the price |
| SubscriptionRuns.RefundIsProRata | src/application/usecases/webhook/razorpaySubscriptionWebhookHandler.usecase.ts:335-336 | more than 15 days before the end the refund is the price's share of the remaining time, rounded down |
| SubscriptionRuns.RefundNeverGrows | src/application/usecases/webhook/razorpaySubscriptionWebhookHandler.usecase.ts:327-336 | the refund never grows as time passes |
| SubscriptionRuns.RefundIsZeroIff | src/application/usecases/webhook/razorpaySubscriptionWebhookHandler.usecase.ts:324-336 | the refund is 0 exactly within 15 days of the end or when the share is worth less than 1 |
| SubscriptionRuns.FreshPeriodRefund | src/application/usecases/webhook/razorpaySubscriptionWebhookHandler.usecase.ts:238-251 | superseded in the moment of its activation, a plan longer than 15 days is refunded its whole price rounded down, a shorter one nothing |
| SubscriptionRuns.ExpiredStaysExpired | src/application/usecases/webhook/razorpaySubscriptionWebhookHandler.usecase.ts:123-136 | over any sequence of webhooks an expired or cancelled subscription never becomes active again |
| SubscriptionRuns.RefundedAtMostOnce | src/application/usecases/webhook/razorpaySubscriptionWebhookHandler.usecase.ts:193-236 | over any run each subscription is credited at most once, only when superseded, and never more than its plan's price |
| SubscriptionRuns.ActivationLeavesOne | src/application/usecases/webhook/razorpaySubscriptionWebhookHandler.usecase.ts:154-251 | an activation from at most one active row ends with exactly the activated row active if and only if no other active row of the user has lapsed |
| SubscriptionRuns.StepKeepsOneActiveIff | src/application/usecases/webhook/razorpaySubscriptionWebhookHandler.usecase.ts:252-298 | exactly which webhooks give a user two active rows |
| SubscriptionRuns.ExpiredTwice | src/application/usecases/webhook/razorpaySubscriptionWebhookHandler.usecase.ts:252-298 | two expiry webhooks in a row for one subscription always leave two active default rows |
| SubscriptionRuns.ExpiryNeedsDefault | src/application/usecases/webhook/razorpaySubscriptionWebhookHandler.usecase.ts:258-268 | an expiry webhook takes effect if and only if there is a default plan |
| HomeFeed.StableSortIsUnique | src/application/usecases/auction/getUserHomeAuctionFeed.usecase.ts:56-57 | a stable sort by end time has one result |
| HomeFeed.FeedIsFirstOfEverything | src/application/usecases/auction/getUserHomeAuctionFeed.usecase.ts:34-58 | the feed from k of each source is, item for item, the first k of the two full sources sorted together |
| PlanFeatures.UnchangedIffSameMapping | src/application/usecases/admin/updateSubscriptionPlan.usecase.ts:53-63 | with one stored row per feature the length-and-lookup test says unchanged exactly when incoming ids are distinct and both lists are the same mapping |
| PlanFeatures.Rebuild | src/application/usecases/admin/updateSubscriptionPlan.usecase.ts:102-161 | succeeds exactly when every value is accepted; rows follow the incoming list, existing features keep their keys, new ones get distinct new keys |
| PlanFeatures.StoredIffDistinct | src/infrastructure/repositories/subscription/subscription-plan.repo.ts:54-67 | rebuilt rows can be stored exactly when no feature is named twice; stored, the same update is recognised as no change; otherwise it always counts as a change and is always refused |

## Left out

- BidLockAtomic.RunRefines: covers disciplined runs; `MatchedIffDisciplined` says no other run is matched step by step.
- UseCases.AuctionHouse.PlaceBid: how the plan's quota reaches its answer is not modelled; the answer is a parameter.
- UseCases.AuctionHouse.PlaceBidLocked: the response object (next minimum, participants, placed bids) is not built.
- UseCases.AuctionHouse.Publish: the limits from system configuration enter as one answer; the same holds for UpdateDraft, with its category look-up.
- UseCases.AuctionHouse.DeclinePayment: the fraud report enters as one answer; payments for anything but an auction are not modelled.
- UseCases.AuctionHouse.VerifyPayment: the gateway's signature check enters as one answer, and in OrderOffer the created order; order amounts are left out.
- UseCases.ExpireOverdue: receives the overdue auctions; the query and its batch size are not modelled.
- WalletBooks.OrderlyRunsBalance: assumes joins after publication, one join per user and one release pass per auction; `StepBalancedIff` says exactly which steps break the books without that assumption.
- PlanFeatures.Rebuild: which features exist and which text values their types accept is a parameter; the price, duration and in-use checks around it are not modelled.
- Subscriptions.WebhookHandler.Handle: signature verification is taken to have succeeded, and the current active row is given as the look-up's answer because ties in the end date leave it open.
- HomeFeed.FeedIsFirstOfEverything: the two sources are the sorted lists the repository's query walks; filtering inside the query is not modelled.
- BidLock.OrdersStayOk: asking for an order checks status and payment in one step and storing it follows in another; of two first orders of one user stored at once the second is refused by the unique key in the code and replaces the first in the model.
- BidLockClosing.FrozenIffDisarmed: a failed read ends or skips a step of a request in the model; a failed write does not occur.
- BidLockWinners.RowsAlwaysClimb: open auctions with a positive increment, interleaved with bidding; rows of later ranks belong to the life cycle.
- The strategy a standing order names, which no rule of the bidding service reads.
- Category approval, titles, descriptions, assets and due dates, which no modelled rule reads.
- The wallet side of a join and the participant side are proved separately (`Wallets` and `Lifecycle`); no proof spans both.
- Cancelling an auction: nothing in the modelled use cases sets that status.
- Wallet transaction rows and wallet top-ups, which only record what the balances show.
- Notifications, chat, events and queues as transports, schedulers, sockets, HTTP, storage, e-mail and logging.
- Floating-point rounding of money and ratios; amounts are real numbers.
- Local-time day arithmetic at checkout, taken as whole days of 24 hours.
- Expiry of the bid lock inside a section, changes of configuration during a run, and infrastructure failures in the middle of a use case.
