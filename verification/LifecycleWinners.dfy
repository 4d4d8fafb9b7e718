/** Winners and payments in every reachable state of an auction. */
module LifecycleWinners {
  import opened Basics
  import opened Auctions
  import opened Bidding
  import opened Ranking
  import opened WinnerSelection
  import opened Payments
  import opened PublicOffers
  import opened Lifecycle
  import opened LifecycleInvariant
  import opened LifecycleReachable

  // ----- the winner rows -----

  /** The row's user is a paid participant other than the seller who placed a bid worth exactly the row's amount. */
  predicate Earned(s: State, w: WinnerRow) {
    && w.user in s.paid && w.user != s.auction.seller && w.amount > 0.0
    && exists j :: 0 <= j < |s.bids| && s.bids[j].user == w.user && Worth(s.auction.kind, s.bids[j]) == w.amount
  }

  lemma RowIsEarned(cfg: Config, s: State, i: nat)
    requires Sound(BookOf(s), s.now) && RowsFit(cfg, s) && i < |s.winners|
    ensures Earned(s, s.winners[i])
  {
    SoundMeansWellFormed(BookOf(s), s.now);
    ListingEntries(s.auction.kind, s.bids);
    var es := Board(s);
    var u := Ranked(s.winners)[i].user;
    var j := |s.bids| - 1 - Top(es, u);
    assert s.bids[j].user == s.winners[i].user && Worth(s.auction.kind, s.bids[j]) == s.winners[i].amount;
    assert BookOf(s).bids[j] == s.bids[j];
  }

  /**
   In every reachable state the winner rows are exactly the first places of the leaderboard: ranks 1..n, distinct users,
   each at their own best worth, never rising, never more than the cap, and every row earned by a real bid.
   */
  lemma WinnersArePodium(cfg: Config, s: State)
    requires Reachable(cfg, s)
    ensures IsPodium(Board(s), Ranked(s.winners))
    ensures forall i :: 0 <= i < |s.winners| ==> s.winners[i].rank == i + 1 && Earned(s, s.winners[i])
    ensures forall i, j :: 0 <= i < j < |s.winners| ==>
              s.winners[i].user != s.winners[j].user && s.winners[i].amount >= s.winners[j].amount
    ensures |s.winners| <= Max(1, cfg.maxRank)
  {
    ReachableRows(cfg, s);
    forall i | 0 <= i < |s.winners| ensures Earned(s, s.winners[i]) {
      RowIsEarned(cfg, s, i);
    }
    PodiumDescends(Board(s), Ranked(s.winners));
    forall i, j | 0 <= i < j < |s.winners|
      ensures s.winners[i].user != s.winners[j].user && s.winners[i].amount >= s.winners[j].amount
    {
      assert Ranked(s.winners)[i].amount >= Ranked(s.winners)[j].amount;
    }
  }

  /** In every reachable ended auction with a winner, the record and the last winner row agree. */
  lemma RecordAgreesWithLastRow(cfg: Config, s: State)
    requires Reachable(cfg, s) && s.auction.status == Ended && s.auction.winnerId.Some?
    ensures s.winners != []
    ensures s.auction.winnerId == Some(Last(s.winners).user) && s.auction.winAmount == Some(Last(s.winners).amount)
  {
    ReachableShape(cfg, s);
  }

  lemma {:induction false} BoardIsNoLonger(kind: Kind, bids: seq<Bidding.Bid>)
    ensures |Entries(kind, bids)| <= |bids|
  {
    if bids != [] {
      BoardIsNoLonger(kind, Init(bids));
    }
  }

  lemma FirstRowTopsBoard(s: State)
    requires Sound(BookOf(s), s.now) && IsPodium(Board(s), Ranked(s.winners)) && s.winners != []
    ensures s.bids != []
    ensures FirstPick(s.auction.kind, Listing(s.bids)) == Winner(s.winners[0].user, s.winners[0].amount)
  {
    var ranked := Ranked(s.winners);
    assert ranked[0].user in Users(Board(s));
    assert |Board(s)| <= |Listing(s.bids)| by { BoardIsNoLonger(s.auction.kind, Listing(s.bids)); }
    FirstPickTopsBoard(s);
    LeaderIsPodium(Board(s));
    PodiumIsUnique(Board(s), ranked, [Leader(Board(s))], 1);
    assert ranked[0] == ranked[..1][0] == [Leader(Board(s))][..1][0];
  }

  /** In every reachable open auction with a winner, the first winner is the last bidder, at the last bid. */
  lemma FirstWinnerIsLastBidder(cfg: Config, s: State)
    requires Reachable(cfg, s) && s.auction.kind != Sealed && s.auction.minIncrement > 0.0 && s.winners != []
    ensures s.bids != [] && s.winners[0].user == Last(s.bids).user && s.winners[0].amount == Last(s.bids).amount
  {
    ReachableRows(cfg, s);
    FirstRowTopsBoard(s);
    ListingIsPermutation(s.bids);
    OpenWinnerIsLastBid(BookOf(s), s.now, Listing(s.bids));
  }

  // ----- who owes -----

  /** In every reachable state a pending payment belongs to the auction's current winner. */
  lemma PendingBelongsToWinner(cfg: Config, s: State, slot: Slot)
    requires Reachable(cfg, s) && slot in s.payments && s.payments[slot].status == Pending
    ensures s.auction.winnerId == Some(slot.user)
  {
    ReachableShape(cfg, s);
  }

  /** A whole amount with a deposit share of at least 1 is payable in two whole positive parts. */
  predicate Payable(win: real, ratio: real) {
    Whole(win) && win * ratio >= 1.0
  }

  lemma NewcomerOwesNothing(s: State, u: UserId)
    requires Owing(s) && s.auction.status == Ended && !WasElected(s.winners, u)
    ensures !HasSlot(s.payments, u)
  {
  }

  lemma ElectedAmountIsPositive(cfg: Config, s: State)
    requires Sound(BookOf(s), s.now) && RowsFit(cfg, s)
    ensures Elect(cfg, s).Next? ==> Elect(cfg, s).amount > 0.0
  {
    if Elect(cfg, s).Next? {
      ElectsSomebodyNew(cfg, s);
      SoundMeansWellFormed(BookOf(s), s.now);
      NextWinnerIsNextPlace(cfg.maxRank, s.auction.kind, Listing(s.bids), Ranked(s.winners));
    }
  }

  /** Whom a reachable auction elects next: a positive amount, somebody new, without any payment row yet. */
  lemma NewcomerFacts(cfg: Config, s: State)
    requires Reachable(cfg, s) && s.auction.status == Ended && Elect(cfg, s).Next?
    ensures Elect(cfg, s).amount > 0.0 && !HasSlot(s.payments, Elect(cfg, s).user) && Creatable(s.auction)
  {
    assert Elect(cfg, s).amount > 0.0 && Creatable(s.auction) by {
      ReachableRows(cfg, s);
      ElectedAmountIsPositive(cfg, s);
    }
    assert !HasSlot(s.payments, Elect(cfg, s).user) by {
      ElectsSomebodyNew(cfg, s);
      ReachableShape(cfg, s);
      NewcomerOwesNothing(s, Elect(cfg, s).user);
    }
  }

  lemma DeliverySeats(cfg: Config, s: State, job: FallbackJob)
    requires Unsettled(s, job) && Elect(cfg, s).Next? && Elect(cfg, s).amount > 0.0 && Creatable(s.auction)
    ensures var r := Elect(cfg, s); var t := DoFallback(cfg, s, job);
      && t.winners == s.winners + [WinnerRow(r.user, r.amount, r.rank)]
      && t.payments == CreatePair(DeclineAll(s.payments, job.declinedUser), r.user, r.amount, cfg.depositRatio)
  {
  }

  lemma NewcomersPair(ps: Ledger, declined: UserId, u: UserId, win: real, ratio: real)
    requires !HasSlot(ps, u) && win > 0.0 && 0.0 < ratio < 1.0
    ensures ChargedIffPayable(CreatePair(DeclineAll(ps, declined), u, win, ratio), u, win, ratio)
  {
    assert !HasSlot(DeclineAll(ps, declined), u);
    PairCreatedExactly(DeclineAll(ps, declined), u, win, ratio);
  }

  /** Charged exactly when payable: the full pair for a payable amount, nothing at all below a deposit of 1. */
  predicate ChargedIffPayable(ps: Ledger, u: UserId, win: real, ratio: real) {
    && (FullPair(ps, u, win) <==> Payable(win, ratio))
    && (HasSlot(ps, u) <==> win * ratio >= 1.0)
  }

  /**
   A newly elected winner never finds payments already there, so the creation is never suppressed: the full pair is
   created exactly when the amount is payable.
   */
  lemma NewWinnerGetsPair(cfg: Config, s: State, job: FallbackJob)
    requires Reachable(cfg, s) && Unsettled(s, job) && Elect(cfg, s).Next? && 0.0 < cfg.depositRatio < 1.0
    ensures var r := Elect(cfg, s); var t := DoFallback(cfg, s, job);
      && !HasSlot(s.payments, r.user) && t.winners == s.winners + [WinnerRow(r.user, r.amount, r.rank)]
      && ChargedIffPayable(t.payments, r.user, r.amount, cfg.depositRatio)
  {
    NewcomerFacts(cfg, s);
    var r := Elect(cfg, s);
    var t := DoFallback(cfg, s, job);
    DeliverySeats(cfg, s, job);
    assert ChargedIffPayable(t.payments, r.user, r.amount, cfg.depositRatio) by {
      NewcomersPair(s.payments, job.declinedUser, r.user, r.amount, cfg.depositRatio);
    }
  }

  // ----- what the rows are worth -----

  /** Stored amounts are whole, and the deposit of an elected user is the floored share of that user's win. */
  predicate AmountsFit(cfg: Config, s: State) {
    && (forall k <- s.payments :: Whole(s.payments[k].amount))
    && (forall i :: 0 <= i < |s.winners| && Slot(s.winners[i].user, Deposit) in s.payments ==>
          s.payments[Slot(s.winners[i].user, Deposit)].amount == DepositOf(s.winners[i].amount, cfg.depositRatio))
  }

  /** A pair created for `u` adds whole amounts only, and one deposit at most. */
  lemma PairAmounts(ps: Ledger, u: UserId, win: real, ratio: real)
    requires forall k <- ps :: Whole(ps[k].amount)
    ensures var after := CreatePair(ps, u, win, ratio);
      && (forall k <- after :: Whole(after[k].amount))
      && (forall k <- ps :: k in after && after[k] == ps[k])
      && (forall k <- after :: k !in ps ==> k.user == u)
      && (Slot(u, Deposit) in after && Slot(u, Deposit) !in ps ==> after[Slot(u, Deposit)].amount == DepositOf(win, ratio))
  {
  }

  lemma SeatingKeepsAmounts(cfg: Config, s: State, job: FallbackJob)
    requires Owing(s) && AmountsFit(cfg, s)
    ensures AmountsFit(cfg, DoFallback(cfg, s, job))
  {
    var t := DoFallback(cfg, s, job);
    var r := Elect(cfg, s);
    if Unsettled(s, job) {
      var declined := s.(payments := DeclineAll(s.payments, job.declinedUser));
      SameWinnersSameAmounts(cfg, s, declined);
      if t.winners != s.winners {
        ElectsSomebodyNew(cfg, s);
        NewcomerOwesNothing(s, r.user);
        SeatKeepsAmounts(cfg, declined, r.user, r.amount, r.rank);
      } else {
        assert t.payments == declined.payments;
      }
    }
  }

  lemma SeatKeepsAmounts(cfg: Config, s: State, u: UserId, amount: real, rank: int)
    requires AmountsFit(cfg, s) && !HasSlot(s.payments, u) && !WasElected(s.winners, u)
    ensures AmountsFit(cfg, Seat(cfg, s, u, amount, rank))
  {
    var t := Seat(cfg, s, u, amount, rank);
    PairAmounts(s.payments, u, amount, cfg.depositRatio);
    forall i | 0 <= i < |t.winners| && Slot(t.winners[i].user, Deposit) in t.payments
      ensures t.payments[Slot(t.winners[i].user, Deposit)].amount == DepositOf(t.winners[i].amount, cfg.depositRatio)
    {
      if i < |s.winners| {
        assert t.winners[i] == s.winners[i] && WasElected(s.winners, s.winners[i].user);
      }
    }
  }

  lemma DeliveryKeepsAmounts(cfg: Config, s: State)
    requires Untouched(s) && EndJobFits(s) && Distinct(s.winners) && AmountsFit(cfg, s)
    ensures AmountsFit(cfg, DoDeliverEnd(cfg, s))
  {
    if s.endJob.Some? {
      var j := s.endJob.value;
      PairAmounts(s.payments, j.winner, j.amount, cfg.depositRatio);
    }
  }

  lemma StepKeepsAmounts(cfg: Config, s: State, e: Event)
    requires Shape(s) && Distinct(s.winners) && Owing(s) && AmountsFit(cfg, s)
    ensures AmountsFit(cfg, Step(cfg, s, e))
  {
    if e.DeliverFallback? {
      SeatingKeepsAmounts(cfg, s, e.job);
    } else if e.DeliverEnd? {
      DeliveryKeepsAmounts(cfg, s);
    } else {
      OtherStepsKeepAmounts(cfg, s, e);
    }
  }

  lemma OtherStepsKeepAmounts(cfg: Config, s: State, e: Event)
    requires StatusFits(s) && Untouched(s) && AmountsFit(cfg, s) && !e.DeliverFallback? && !e.DeliverEnd?
    ensures AmountsFit(cfg, Step(cfg, s, e))
  {
    var t := Step(cfg, s, e);
    if Closing(e) && t.winners != s.winners {
      assert s.payments == map[] && t.payments == map[];
    } else {
      OthersAddOnlyBalances(cfg, s, e);
      assert t.winners == s.winners;
      SameWinnersSameAmounts(cfg, s, t);
    }
  }

  /** Amounts never change, and the only other row ever added is the balance of a public sale. */
  predicate AddsOnlyBalances(ps: Ledger, qs: Ledger) {
    forall k <- qs :: if k in ps then qs[k].amount == ps[k].amount else k.phase == Balance && Whole(qs[k].amount)
  }

  lemma OthersAddOnlyBalances(cfg: Config, s: State, e: Event)
    requires !e.DeliverFallback? && !e.DeliverEnd?
    ensures AddsOnlyBalances(s.payments, Step(cfg, s, e).payments)
  {
  }

  lemma SameWinnersSameAmounts(cfg: Config, s: State, t: State)
    requires AmountsFit(cfg, s) && AddsOnlyBalances(s.payments, t.payments) && t.winners == s.winners
    ensures AmountsFit(cfg, t)
  {
  }

  lemma {:induction false} RunKeepsAmounts(cfg: Config, s: State, es: seq<Event>)
    requires Inv(cfg, s) && AmountsFit(cfg, s)
    ensures AmountsFit(cfg, Run(cfg, s, es))
    decreases |es|
  {
    if es != [] {
      StepKeepsAmounts(cfg, s, es[0]);
      StepKeepsInv(cfg, s, es[0]);
      RunKeepsAmounts(cfg, Step(cfg, s, es[0]), es[1..]);
    }
  }

  lemma ReachableAmounts(cfg: Config, s: State)
    requires Reachable(cfg, s)
    ensures AmountsFit(cfg, s)
  {
    var draft, es: seq<Event> :| Fresh(draft) && s == Run(cfg, draft, es);
    FreshIsInv(cfg, draft);
    RunKeepsAmounts(cfg, draft, es);
  }

  lemma WholeSum(x: real, y: real)
    requires Whole(x) && Whole(y)
    ensures Whole(x + y)
  {
    assert (x + y).Floor == x.Floor + y.Floor;
  }

  lemma PayableIsSplittable(win: real, ratio: real)
    requires win > 0.0 && 0.0 < ratio < 1.0
    ensures Payable(win, ratio) <==> Splittable(win, ratio)
  {
    DepositBounds(win, ratio);
  }

  predicate PairedIffPayable(ps: Ledger, u: UserId, win: real, ratio: real) {
    FullPair(ps, u, win) <==> HasSlot(ps, u) && Payable(win, ratio)
  }

  predicate PairsExact(cfg: Config, s: State) {
    forall i :: 0 <= i < |s.winners| ==> PairedIffPayable(s.payments, s.winners[i].user, s.winners[i].amount, cfg.depositRatio)
  }

  lemma FullPairIsPayable(cfg: Config, s: State, i: nat)
    requires AmountsFit(cfg, s) && i < |s.winners| && s.winners[i].amount > 0.0 && 0.0 < cfg.depositRatio < 1.0
    requires FullPair(s.payments, s.winners[i].user, s.winners[i].amount)
    ensures Payable(s.winners[i].amount, cfg.depositRatio)
  {
    var u, win := s.winners[i].user, s.winners[i].amount;
    WholeSum(s.payments[Slot(u, Deposit)].amount, s.payments[Slot(u, Balance)].amount);
    DepositBounds(win, cfg.depositRatio);
  }

  /**
   In every reachable state a winner has one deposit and one balance that add up to the win exactly when there is any
   payment row of theirs at all and the win is payable.
   */
  lemma PairsExactlyWhenPayable(cfg: Config, s: State)
    requires Reachable(cfg, s) && 0.0 < cfg.depositRatio < 1.0
    ensures PairsExact(cfg, s)
  {
    WinnersArePodium(cfg, s);
    ReachableShape(cfg, s);
    ReachableAmounts(cfg, s);
    forall i | 0 <= i < |s.winners|
      ensures PairedIffPayable(s.payments, s.winners[i].user, s.winners[i].amount, cfg.depositRatio)
    {
      assert Earned(s, s.winners[i]);
      PayableIsSplittable(s.winners[i].amount, cfg.depositRatio);
      if FullPair(s.payments, s.winners[i].user, s.winners[i].amount) {
        FullPairIsPayable(cfg, s, i);
      }
    }
  }
}
