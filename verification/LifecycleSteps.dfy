/**
 What each step of an auction's life comes to, in every reachable state: the condition under which it takes effect, all
 it changes, and that otherwise it changes nothing.
 */
module LifecycleSteps {
  import opened Basics
  import opened Auctions
  import opened Bidding
  import opened Ranking
  import opened WinnerSelection
  import opened Payments
  import opened PublicOffers
  import opened Lifecycle
  import opened LifecycleInvariant
  import opened LifecycleReachable
  import opened LifecycleWinners
  import opened LifecycleJobs

  // ----- before the end -----

  /** Before anybody is elected no amount is on record, so dropping it with the status loses nothing. */
  lemma NoWinnerYet(cfg: Config, s: State)
    requires Reachable(cfg, s) && s.auction.status in {Draft, Active, Paused}
    ensures s.auction.winnerId == None && s.auction.winAmount == None && s.winners == [] && s.endJob == None
    ensures s.payments == map[] && s.offer == None && s.replies == map[] && s.fallbackJobs == {}
    ensures s.auction.extensionCount <= s.auction.maxExtensionCount
  {
    ReachableShape(cfg, s);
    ReachableRows(cfg, s);
  }

  /** An edit replaces the whole editable part of the seller's own draft, or nothing. */
  lemma UpdateOutcome(cfg: Config, s: State, who: UserId, d: Edit)
    requires Reachable(cfg, s)
    ensures var t := Step(cfg, s, UpdateDraft(who, d)); var a := t.auction;
      if && s.auction.status == Draft && who == s.auction.seller && s.auction.extensionCount <= d.maxExtensionCount
         && (d.kind == Long ==> d.minIncrement >= 1.0)
      then
        && Edit(a.kind, a.startPrice, a.minIncrement, a.startAt, a.endAt, a.antiSnipSeconds, a.maxExtensionCount,
                a.bidCooldownSeconds) == d
        && a.status == Draft && a.seller == s.auction.seller && a.extensionCount == s.auction.extensionCount
        && a.winnerId == None && a.winAmount == None && t == s.(auction := a)
      else t == s
  {
    if s.auction.status == Draft {
      NoWinnerYet(cfg, s);
    }
  }

  /** Only its seller publishes a draft, and only before its end; nothing but the status changes. */
  lemma PublishOutcome(cfg: Config, s: State, who: UserId)
    requires Reachable(cfg, s)
    ensures Step(cfg, s, Publish(who))
         == if s.auction.status == Draft && who == s.auction.seller && s.now < s.auction.endAt
            then s.(auction := s.auction.(status := Active))
            else s
  {
    if s.auction.status == Draft {
      NoWinnerYet(cfg, s);
      ReachableRows(cfg, s);
    }
  }

  /** The seller or an administrator pauses an active auction and resumes a paused one; only the status changes. */
  lemma PauseOutcome(cfg: Config, s: State, who: UserId, isAdmin: bool)
    requires Reachable(cfg, s)
    ensures Step(cfg, s, Pause(who, isAdmin))
         == if s.auction.status == Active && (isAdmin || who == s.auction.seller)
            then s.(auction := s.auction.(status := Paused))
            else s
    ensures Step(cfg, s, Resume(who, isAdmin))
         == if s.auction.status == Paused && (isAdmin || who == s.auction.seller)
            then s.(auction := s.auction.(status := Active))
            else s
  {
    if s.auction.status in {Active, Paused} {
      NoWinnerYet(cfg, s);
      ReachableRows(cfg, s);
    }
  }

  /** Resuming undoes pausing, whoever of those allowed does either. */
  lemma ResumeUndoesPause(cfg: Config, s: State, who: UserId, isAdmin: bool, other: UserId, otherAdmin: bool)
    requires Reachable(cfg, s) && s.auction.status == Active
    requires (isAdmin || who == s.auction.seller) && (otherAdmin || other == s.auction.seller)
    ensures Step(cfg, Step(cfg, s, Pause(who, isAdmin)), Resume(other, otherAdmin)) == s
  {
    PauseOutcome(cfg, s, who, isAdmin);
    StepIsReachable(cfg, s, Pause(who, isAdmin));
    PauseOutcome(cfg, Step(cfg, s, Pause(who, isAdmin)), other, otherAdmin);
  }

  // ----- closing -----

  /** In a reachable auction every stored bid can be opened, so the election finds somebody exactly if somebody bid. */
  lemma ElectionNeverFails(cfg: Config, s: State)
    requires Reachable(cfg, s)
    ensures !FirstPick(s.auction.kind, Listing(s.bids)).Failure?
    ensures FirstPick(s.auction.kind, Listing(s.bids)).Winner? <==> s.bids != []
  {
    ReachableRows(cfg, s);
    FirstElection(s);
  }

  /** The auction has ended for its first winner: one row of rank 1, the record names it, and its end job is queued. */
  predicate EndedFor(s: State, t: State, row: WinnerRow) {
    && row.rank == 1
    && t == s.(auction := s.auction.(status := Ended, winnerId := Some(row.user), winAmount := Some(row.amount)),
               winners := [row], endJob := Some(EndJob(row.user, row.amount)))
  }

  /**
   Ending by hand: an active or paused auction ends if and only if the caller may end it and somebody has bid; then the
   top of the leaderboard is the winner, and otherwise nothing changes at all.
   */
  lemma EndOutcome(cfg: Config, s: State, who: UserId, isAdmin: bool)
    requires Reachable(cfg, s)
    ensures var t := Step(cfg, s, End(who, isAdmin));
      if s.auction.status in {Active, Paused} && (isAdmin || who == s.auction.seller) && s.bids != [] then
        |t.winners| == 1 && EndedFor(s, t, t.winners[0]) && IsPodium(Board(s), Ranked(t.winners))
      else
        t == s
  {
    ElectionNeverFails(cfg, s);
    var t := Step(cfg, s, End(who, isAdmin));
    if s.auction.status in {Active, Paused} {
      NoWinnerYet(cfg, s);
      ReachableRows(cfg, s);
      StepIsReachable(cfg, s, End(who, isAdmin));
      ReachableRows(cfg, t);
    }
  }

  /**
   Expiry: from its end time on an active or paused auction always ends, for the top of the leaderboard if somebody has
   bid and without a winner if nobody has; before that nothing changes.
   */
  lemma ExpireOutcome(cfg: Config, s: State)
    requires Reachable(cfg, s)
    ensures var t := Step(cfg, s, Expire);
      if s.auction.status in {Active, Paused} && s.auction.endAt <= s.now then
        && t.auction.status == Ended && (t.auction.winnerId.Some? <==> s.bids != [])
        && (s.bids != [] ==> |t.winners| == 1 && EndedFor(s, t, t.winners[0]) && IsPodium(Board(s), Ranked(t.winners)))
        && (s.bids == [] ==> t == s.(auction := s.auction.(status := Ended)) && t.winners == [])
      else
        t == s
  {
    ElectionNeverFails(cfg, s);
    var t := Step(cfg, s, Expire);
    if s.auction.status in {Active, Paused} {
      NoWinnerYet(cfg, s);
      ReachableRows(cfg, s);
      StepIsReachable(cfg, s, Expire);
      ReachableRows(cfg, t);
    }
  }

  // ----- payments -----

  /** `after` adds rows of `u` only, all pending, and changes no other. */
  predicate AddsPendingOf(before: Ledger, after: Ledger, u: UserId) {
    && (forall k <- before :: k in after && after[k] == before[k])
    && (forall k <- after :: k !in before ==> k.user == u && after[k].status == Pending)
  }

  /**
   The end job charges the first winner unless there is a row of theirs already: in full exactly if the win is payable,
   and not at all below a deposit of 1. Without a job nothing happens.
   */
  lemma EndJobOutcome(cfg: Config, s: State)
    requires Reachable(cfg, s) && 0.0 < cfg.depositRatio < 1.0
    ensures var t := Step(cfg, s, DeliverEnd);
      && t == s.(payments := t.payments)
      && (s.winners == [] || HasSlot(s.payments, s.winners[0].user) ==> t == s)
      && (s.winners != [] ==> AddsPendingOf(s.payments, t.payments, s.winners[0].user))
      && (s.winners != [] && !HasSlot(s.payments, s.winners[0].user) ==>
            ChargedIffPayable(t.payments, s.winners[0].user, s.winners[0].amount, cfg.depositRatio))
  {
    assert Untouched(s) && EndJobFits(s) by { ReachableShape(cfg, s); }
    if s.winners != [] {
      var row := s.winners[0];
      assert row.user in s.paid && row.amount > 0.0 by {
        WinnersArePodium(cfg, s);
        assert Earned(s, s.winners[0]);
      }
      assert Step(cfg, s, DeliverEnd) == s.(payments := CreatePair(s.payments, row.user, row.amount, cfg.depositRatio));
      if !HasSlot(s.payments, row.user) {
        PairCreatedExactly(s.payments, row.user, row.amount, cfg.depositRatio);
      }
    }
  }

  /** Of the payments, only the status of `slot` differs. */
  predicate OnlyStatus(before: Ledger, after: Ledger, slot: Slot, status: PaymentStatus) {
    && after.Keys == before.Keys && slot in before
    && after[slot] == Payment(before[slot].amount, status)
    && (forall k <- before :: k != slot ==> after[k] == before[k])
  }

  /** A pending payment verified by its owner is completed, for the same amount; nothing else moves, and no other call does. */
  lemma VerifyOutcome(cfg: Config, s: State, slot: Slot, who: UserId)
    ensures var t := Step(cfg, s, VerifyPayment(slot, who));
      if slot in s.payments && slot.user == who && s.payments[slot].status == Pending
      then t == s.(payments := t.payments) && OnlyStatus(s.payments, t.payments, slot, Completed)
      else t == s
  {
  }

  /**
   A pending payment declined by its owner is declined, and while the auction is ended that queues the owner's job; the
   owner is the winner of every auction with anything pending. No other call changes anything.
   */
  lemma DeclinePaymentOutcome(cfg: Config, s: State, slot: Slot, who: UserId)
    requires Reachable(cfg, s)
    ensures var t := Step(cfg, s, DeclinePayment(slot, who));
      if slot in s.payments && slot.user == who && s.payments[slot].status == Pending then
        && OnlyStatus(s.payments, t.payments, slot, Declined)
        && t == s.(payments := t.payments,
                   fallbackJobs := s.fallbackJobs + (if s.auction.status == Ended then {FallbackJob(who, |s.winners|)} else {}))
      else t == s
  {
    if slot in s.payments && s.payments[slot].status == Pending {
      PendingBelongsToWinner(cfg, s, slot);
      assert s.fallbackJobs + {} == s.fallbackJobs;
    }
  }

  /** Everything of `u` that was pending is declined, nothing else changes. */
  predicate Cleaned(before: Ledger, after: Ledger, u: UserId) {
    && after.Keys == before.Keys
    && (forall k <- before ::
          after[k] == if k.user == u && before[k].status == Pending then Payment(before[k].amount, Declined) else before[k])
  }

  /** The same, with pending rows of `newcomer` added. */
  predicate CleanedAndAdded(before: Ledger, after: Ledger, u: UserId, newcomer: UserId) {
    && (forall k <- before :: k in after
          && after[k] == if k.user == u && before[k].status == Pending then Payment(before[k].amount, Declined) else before[k])
    && (forall k <- after :: k !in before ==> k.user == newcomer && after[k].status == Pending)
  }

  lemma SeatingAdds(cleaned: Ledger, before: Ledger, u: UserId, r: Fallback, ratio: real)
    requires r.Next? && Cleaned(before, cleaned, u)
    ensures CleanedAndAdded(before, CreatePair(cleaned, r.user, r.amount, ratio), u, r.user)
  {
    CreatePairEffect(cleaned, r.user, r.amount, ratio);
  }

  lemma CleanupCleans(ps: Ledger, u: UserId)
    ensures Cleaned(ps, DeclineAll(ps, u), u)
  {
  }

  /** A new last row of the next rank; the record names it, and of the rest only payments may differ. */
  predicate SeatedNext(s: State, t: State, row: WinnerRow) {
    && row.rank == |s.winners| + 1
    && t == s.(auction := s.auction.(winnerId := Some(row.user), winAmount := Some(row.amount)),
               winners := s.winners + [row], payments := t.payments)
  }

  /** What becomes of an auction whose sitting winner `u` has declined. */
  predicate FallsBack(cfg: Config, s: State, t: State, u: UserId) {
    if |s.winners| >= cfg.maxRank then
      && Cleaned(s.payments, t.payments, u)
      && t == s.(payments := t.payments,
                 auction := s.auction.(status := FallbackEnded, winnerId := None, winAmount := None))
    else if BidderLeft(s) then
      && |t.winners| == |s.winners| + 1
      && SeatedNext(s, t, Last(t.winners))
      && CleanedAndAdded(s.payments, t.payments, u, Last(t.winners).user)
    else
      Cleaned(s.payments, t.payments, u) && t == s.(payments := t.payments)
  }

  lemma UnsettledFallsBack(cfg: Config, s: State, job: FallbackJob)
    requires Unsettled(s, job) && Creatable(s.auction)
    requires Elect(cfg, s) == Exhausted <==> |s.winners| >= cfg.maxRank
    requires Elect(cfg, s).Next? <==> |s.winners| < cfg.maxRank && BidderLeft(s)
    requires Elect(cfg, s) == Nobody <==> |s.winners| < cfg.maxRank && !BidderLeft(s)
    requires Elect(cfg, s).Next? ==> Elect(cfg, s).amount > 0.0 && Elect(cfg, s).rank == |s.winners| + 1
    ensures FallsBack(cfg, s, DoFallback(cfg, s, job), job.declinedUser)
  {
    CleanupCleans(s.payments, job.declinedUser);
    if Elect(cfg, s).Next? {
      SeatingAdds(DeclineAll(s.payments, job.declinedUser), s.payments, job.declinedUser, Elect(cfg, s), cfg.depositRatio);
    }
  }

  /**
   Delivering a decline job. Unless its owner is the sitting winner of an ended auction nothing happens. Otherwise the
   owner's pending payments are declined, and then: at the cap the auction is FALLBACK_ENDED without a winner; below it
   with a bidder left the next place of the leaderboard is seated; with nobody left the record stays.
   */
  lemma FallbackOutcome(cfg: Config, s: State, job: FallbackJob)
    requires Reachable(cfg, s)
    ensures var t := Step(cfg, s, DeliverFallback(job));
      if job in s.fallbackJobs && s.auction.status == Ended && s.auction.winnerId == Some(job.declinedUser)
      then FallsBack(cfg, s, t, job.declinedUser)
      else t == s
    ensures IsPodium(Board(s), Ranked(Step(cfg, s, DeliverFallback(job)).winners))
  {
    var t := Step(cfg, s, DeliverFallback(job));
    if Unsettled(s, job) {
      assert s.winners != [] by { ReachableUnsettled(cfg, s, job); }
      ReachableElection(cfg, s);
      UnsettledFallsBack(cfg, s, job);
    }
    assert IsPodium(Board(s), Ranked(t.winners)) by {
      StepIsReachable(cfg, s, DeliverFallback(job));
      ReachableRows(cfg, t);
      FallbackDrifts(cfg, s, job);
      TermsAgree(s.auction, t.auction);
    }
  }

  // ----- failing and the public offer -----

  /** An auction that has ended can only be failed after the fallback; any other can be at any time. */
  lemma FailOutcome(s: State, cfg: Config)
    ensures Step(cfg, s, Fail) == if s.auction.status == Ended then s else s.(auction := s.auction.(status := Failed))
  {
  }

  /** The public offer is made exactly when the fallback has ended, once, and at the start price. */
  lemma OfferOutcome(cfg: Config, s: State)
    requires Reachable(cfg, s)
    ensures Step(cfg, s, OfferPublicly)
         == if s.auction.status == FallbackEnded
            then s.(auction := s.auction.(status := FallbackPublicNotification),
                    offer := Some(PublicOffer(s.auction.startPrice, OfferPending, Unpaid)))
            else s
  {
    ReachableShape(cfg, s);
  }

  /** While the offer is open a user never elected gets a pending reply row, once; nobody else does. */
  lemma OrderOutcome(cfg: Config, s: State, u: UserId)
    requires Reachable(cfg, s)
    ensures var open := s.auction.status == FallbackPublicNotification && s.offer.Some? && s.offer.value.payment == Unpaid;
      Step(cfg, s, OrderOffer(u))
         == if open && !WasElected(s.winners, u) && u !in s.replies
            then s.(replies := s.replies[u := OfferReply(OfferPending, Unpaid)])
            else s
  {
    ReachableShape(cfg, s);
  }

  /** While the auction is offered anybody without a reply can turn it down. */
  lemma RejectOutcome(cfg: Config, s: State, u: UserId)
    ensures Step(cfg, s, RejectOffer(u))
         == if s.auction.status == FallbackPublicNotification && u !in s.replies
            then s.(replies := s.replies[u := OfferReply(Rejected, Unpaid)])
            else s
  {
  }
}
