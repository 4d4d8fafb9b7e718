/** Stale, late and repeated jobs, and the end of the decline loop. */
module LifecycleJobs {
  import opened Basics
  import opened Auctions
  import opened Bidding
  import opened Ranking
  import opened WinnerSelection
  import opened Payments
  import opened PublicOffers
  import opened Lifecycle
  import opened LifecycleInvariant
  import opened LifecycleReachable
  import opened LifecycleWinners

  /** Delivering the job now would change nothing. */
  predicate Ineffective(cfg: Config, s: State, job: FallbackJob) {
    DoFallback(cfg, s, job) == s
  }

  /** A decline job from an earlier reign never unseats a later winner, even though it names a user, not a reign. */
  lemma StaleJobIsHarmless(cfg: Config, s: State, job: FallbackJob)
    requires Reachable(cfg, s) && job in s.fallbackJobs && job.reign < |s.winners|
    ensures Ineffective(cfg, s, job)
  {
    ReachableShape(cfg, s);
    if Unsettled(s, job) {
      UnsettledIsCurrent(cfg, s, job);
    }
  }

  // ----- what a delivery does, exactly -----

  /** Somebody bid who has not been elected. */
  predicate BidderLeft(s: State) {
    exists b <- s.bids :: !WasElected(s.winners, b.user)
  }

  lemma BiddersAreOnBoard(s: State, u: UserId)
    requires Sound(BookOf(s), s.now)
    ensures u in Users(Board(s)) <==> exists b <- s.bids :: b.user == u
  {
    SoundMeansWellFormed(BookOf(s), s.now);
    ListingEntries(s.auction.kind, s.bids);
    var n := |s.bids|;
    InUsers(Board(s), u);
    if b :| b in s.bids && b.user == u {
      var j :| 0 <= j < n && s.bids[j] == b;
      assert Board(s)[n - 1 - j].user == u;
    }
    if u in Users(Board(s)) {
      var k :| 0 <= k < n && Board(s)[k].user == u;
      assert s.bids[n - 1 - k] in s.bids;
    }
  }

  lemma BidderLeftOnBoard(s: State)
    requires Sound(BookOf(s), s.now)
    ensures BidderLeft(s) <==> !(Users(Board(s)) <= Users(Ranked(s.winners)))
  {
    if BidderLeft(s) {
      var b :| b in s.bids && !WasElected(s.winners, b.user);
      BiddersAreOnBoard(s, b.user);
      ElectedAreRanked(s.winners, b.user);
    }
    if u :| u in Users(Board(s)) && u !in Users(Ranked(s.winners)) {
      BiddersAreOnBoard(s, u);
      ElectedAreRanked(s.winners, u);
    }
  }

  /** The election, exactly: the cap is reached, or the next place exists, or every bidder has been elected. */
  lemma ElectionOutcome(cfg: Config, s: State)
    requires Sound(BookOf(s), s.now) && RowsFit(cfg, s) && s.winners != []
    ensures Elect(cfg, s) == Exhausted <==> |s.winners| >= cfg.maxRank
    ensures Elect(cfg, s).Next? <==> |s.winners| < cfg.maxRank && BidderLeft(s)
    ensures Elect(cfg, s) == Nobody <==> |s.winners| < cfg.maxRank && !BidderLeft(s)
    ensures Elect(cfg, s).Next? ==> Elect(cfg, s).amount > 0.0 && Elect(cfg, s).rank == |s.winners| + 1
  {
    if |s.winners| < cfg.maxRank {
      BidderLeftOnBoard(s);
      SoundMeansWellFormed(BookOf(s), s.now);
      NextWinnerIsNextPlace(cfg.maxRank, s.auction.kind, Listing(s.bids), Ranked(s.winners));
    }
  }

  lemma ReachableElection(cfg: Config, s: State)
    requires Reachable(cfg, s) && s.winners != []
    ensures Elect(cfg, s) == Exhausted <==> |s.winners| >= cfg.maxRank
    ensures Elect(cfg, s).Next? <==> |s.winners| < cfg.maxRank && BidderLeft(s)
    ensures Elect(cfg, s) == Nobody <==> |s.winners| < cfg.maxRank && !BidderLeft(s)
    ensures Elect(cfg, s).Next? ==> Elect(cfg, s).amount > 0.0 && Elect(cfg, s).rank == |s.winners| + 1
    ensures Creatable(s.auction)
  {
    ReachableRows(cfg, s);
    ElectionOutcome(cfg, s);
  }

  lemma ReachableUnsettled(cfg: Config, s: State, job: FallbackJob)
    requires Reachable(cfg, s) && Unsettled(s, job)
    ensures s.winners != [] && Last(s.winners).user == job.declinedUser && job.reign == |s.winners|
    ensures HasSlot(s.payments, job.declinedUser)
    ensures NothingPending(DeclineAll(s.payments, job.declinedUser))
  {
    ReachableShape(cfg, s);
    UnsettledIsCurrent(cfg, s, job);
    CleanupKeepsMoney(cfg, s, job.declinedUser);
  }

  /**
   Delivering the sitting winner's decline, exactly. The intended end, FALLBACK_ENDED, is reached if and only if the
   cap is; when the bidders run out first the record does not change at all and the declined winner stays.
   */
  lemma DeclineOutcome(cfg: Config, s: State, job: FallbackJob)
    requires Reachable(cfg, s) && Unsettled(s, job)
    ensures var t := DoFallback(cfg, s, job);
      && t.fallbackJobs == s.fallbackJobs && t.bids == s.bids
      && (t.auction.status == FallbackEnded <==> |s.winners| >= cfg.maxRank)
      && (|t.winners| == |s.winners| + 1 <==> |s.winners| < cfg.maxRank && BidderLeft(s))
      && (t == s.(payments := DeclineAll(s.payments, job.declinedUser)) <==> |s.winners| < cfg.maxRank && !BidderLeft(s))
  {
    ReachableUnsettled(cfg, s, job);
    ReachableElection(cfg, s);
  }

  // ----- the dead end -----

  /** Nobody is left to elect, below the cap, and nothing is owed. */
  predicate Stuck(cfg: Config, s: State) {
    && s.auction.status == Ended && s.winners != [] && Elect(cfg, s) == Nobody && NothingPending(s.payments)
    && HasSlot(s.payments, Last(s.winners).user)
  }

  lemma DeclineNothing(ps: Ledger, user: UserId)
    requires NothingPending(ps)
    ensures DeclineAll(ps, user) == ps
  {
  }

  /** Only the clock and the list of participants differ. */
  predicate Idles(s: State, t: State) {
    t == s.(now := t.now, paid := t.paid)
  }

  /** With the auction ended and nothing owed, only the two jobs could do anything. */
  lemma OnlyJobsAct(cfg: Config, s: State, e: Event)
    requires s.auction.status == Ended && NothingPending(s.payments) && s.offer == None
    requires !e.DeliverFallback? && !e.DeliverEnd?
    ensures Idles(s, Step(cfg, s, e))
  {
  }

  /** In a stuck auction nothing moves but the clock and the list of participants. */
  lemma StuckStepIsIdle(cfg: Config, s: State, e: Event)
    requires Shape(s) && Settled(s) && Stuck(cfg, s)
    ensures Idles(s, Step(cfg, s, e))
  {
    if e.DeliverFallback? {
      DeclineNothing(s.payments, e.job.declinedUser);
    } else if e.DeliverEnd? {
      assert HasSlot(s.payments, s.winners[0].user);
    } else {
      OnlyJobsAct(cfg, s, e);
    }
  }

  lemma StuckStays(cfg: Config, s: State, e: Event)
    requires Reachable(cfg, s) && Stuck(cfg, s)
    ensures var t := Step(cfg, s, e);
      Stuck(cfg, t) && t.auction == s.auction && t.winners == s.winners && t.payments == s.payments
  {
    ReachableShape(cfg, s);
    StuckStepIsIdle(cfg, s, e);
    assert Elect(cfg, Step(cfg, s, e)) == Elect(cfg, s);
  }

  /** From the dead end no event whatsoever leads out: not failing, not a public offer, not another decline. */
  lemma {:induction false} StuckForever(cfg: Config, s: State, es: seq<Event>)
    requires Reachable(cfg, s) && Stuck(cfg, s)
    ensures var t := Run(cfg, s, es); t.auction == s.auction && t.winners == s.winners && t.payments == s.payments
    decreases |es|
  {
    if es != [] {
      StuckStays(cfg, s, es[0]);
      StepIsReachable(cfg, s, es[0]);
      StuckForever(cfg, Step(cfg, s, es[0]), es[1..]);
    }
  }

  /** A decline by the last bidder below the cap is what leads there. */
  lemma LastDeclineGetsStuck(cfg: Config, s: State, job: FallbackJob)
    requires Reachable(cfg, s) && Unsettled(s, job)
    ensures Stuck(cfg, DoFallback(cfg, s, job)) <==> |s.winners| < cfg.maxRank && !BidderLeft(s)
  {
    DeclineOutcome(cfg, s, job);
    ReachableUnsettled(cfg, s, job);
    var t := DoFallback(cfg, s, job);
    if |s.winners| < cfg.maxRank && !BidderLeft(s) {
      ReachableElection(cfg, s);
      assert Elect(cfg, t) == Elect(cfg, s);
    } else if Stuck(cfg, t) {
      StepIsReachable(cfg, s, DeliverFallback(job));
      NewWinnerIsPendingOrUnpaid(cfg, s, job);
    }
  }

  /** A freshly seated winner either owes the new pair or has no payment at all. */
  lemma NewWinnerIsPendingOrUnpaid(cfg: Config, s: State, job: FallbackJob)
    requires Reachable(cfg, s) && Unsettled(s, job) && !(|s.winners| < cfg.maxRank && !BidderLeft(s))
    ensures !Stuck(cfg, DoFallback(cfg, s, job))
  {
    ReachableUnsettled(cfg, s, job);
    ReachableElection(cfg, s);
    var t := DoFallback(cfg, s, job);
    var ps := DeclineAll(s.payments, job.declinedUser);
    if Elect(cfg, s).Next? {
      var r := Elect(cfg, s);
      CreatePairEffect(ps, r.user, r.amount, cfg.depositRatio);
      assert Last(t.winners).user == r.user;
      ElectsSomebodyNew(cfg, s);
      ReachableShape(cfg, s);
      assert !HasSlot(s.payments, r.user);
      assert !HasSlot(ps, r.user);
    }
  }

  /**
   Once the last bidder below the cap has declined and the job is delivered, nothing that ever happens changes the
   record: the decliner stays its winner.
   */
  lemma LastDeclineIsForever(cfg: Config, s: State, job: FallbackJob, es: seq<Event>)
    requires Reachable(cfg, s) && Unsettled(s, job) && |s.winners| < cfg.maxRank && !BidderLeft(s)
    ensures Run(cfg, Step(cfg, s, DeliverFallback(job)), es).auction == s.auction
  {
    LastDeclineGetsStuck(cfg, s, job);
    DeclineOutcome(cfg, s, job);
    StepIsReachable(cfg, s, DeliverFallback(job));
    StuckForever(cfg, Step(cfg, s, DeliverFallback(job)), es);
  }

  // ----- repeated delivery -----

  /** A job that can have no further effect. */
  predicate Spent(cfg: Config, s: State, job: FallbackJob) {
    && job in s.fallbackJobs
    && ((Closed(s.auction.status) && s.auction.status != Ended) || job.reign < |s.winners| || Stuck(cfg, s))
  }

  lemma SpentIsIneffective(cfg: Config, s: State, job: FallbackJob)
    requires Reachable(cfg, s) && Spent(cfg, s, job)
    ensures Ineffective(cfg, s, job)
  {
    if Stuck(cfg, s) {
      DeclineNothing(s.payments, job.declinedUser);
    } else if job.reign < |s.winners| {
      StaleJobIsHarmless(cfg, s, job);
    }
  }

  /** Jobs and rows are only added, and a closed auction stays closed. */
  lemma StepIsMonotone(cfg: Config, s: State, e: Event)
    requires Shape(s)
    ensures var t := Step(cfg, s, e);
      && (forall j <- s.fallbackJobs :: j in t.fallbackJobs)
      && |s.winners| <= |t.winners|
      && (Closed(s.auction.status) ==> Closed(t.auction.status))
      && (Closed(s.auction.status) && s.auction.status != Ended ==> t.auction.status != Ended)
  {
    OnlyElectionsTouchRows(cfg, s, e);
  }

  lemma SpentStays(cfg: Config, s: State, e: Event, job: FallbackJob)
    requires Reachable(cfg, s) && Spent(cfg, s, job)
    ensures Spent(cfg, Step(cfg, s, e), job)
  {
    ReachableShape(cfg, s);
    StepIsMonotone(cfg, s, e);
    if Stuck(cfg, s) {
      StuckStays(cfg, s, e);
    }
  }

  /** While the auction is ended in the reign of the job, its owner is the sitting winner. */
  lemma JobOwnerSits(cfg: Config, s: State, job: FallbackJob)
    requires Reachable(cfg, s) && job in s.fallbackJobs && !Unsettled(s, job)
    ensures job.reign < |s.winners| || (Closed(s.auction.status) && s.auction.status != Ended)
  {
    ReachableShape(cfg, s);
    assert 1 <= job.reign <= |s.winners| && s.winners[job.reign - 1].user == job.declinedUser;
  }

  /** Once delivered, a job is spent. */
  lemma DeliveredJobIsSpent(cfg: Config, s: State, job: FallbackJob)
    requires Reachable(cfg, s) && job in s.fallbackJobs
    ensures Spent(cfg, DoFallback(cfg, s, job), job)
  {
    if Unsettled(s, job) {
      ReachableUnsettled(cfg, s, job);
      DeclineOutcome(cfg, s, job);
      LastDeclineGetsStuck(cfg, s, job);
    } else {
      JobOwnerSits(cfg, s, job);
    }
  }

  lemma {:induction false} SpentForever(cfg: Config, s: State, es: seq<Event>, job: FallbackJob)
    requires Reachable(cfg, s) && Spent(cfg, s, job)
    ensures Ineffective(cfg, Run(cfg, s, es), job)
    decreases |es|
  {
    if es == [] {
      SpentIsIneffective(cfg, s, job);
    } else {
      SpentStays(cfg, s, es[0], job);
      StepIsReachable(cfg, s, es[0]);
      SpentForever(cfg, Step(cfg, s, es[0]), es[1..], job);
    }
  }

  /** Redelivery of a decline job, at any later time and after anything at all, is a no-op. */
  lemma RedeliveryChangesNothing(cfg: Config, s: State, job: FallbackJob, between: seq<Event>)
    requires Reachable(cfg, s) && job in s.fallbackJobs
    ensures Ineffective(cfg, Run(cfg, Step(cfg, s, DeliverFallback(job)), between), job)
  {
    DeliveredJobIsSpent(cfg, s, job);
    StepIsReachable(cfg, s, DeliverFallback(job));
    SpentForever(cfg, Step(cfg, s, DeliverFallback(job)), between, job);
  }

  /** The end job, late or repeated, touches nothing once its winner has payments or has been passed over. */
  lemma LateEndJobIsHarmless(cfg: Config, s: State)
    requires Reachable(cfg, s) && s.winners != []
    requires |s.winners| > 1 || s.auction.status != Ended || HasSlot(s.payments, s.winners[0].user)
    ensures DoDeliverEnd(cfg, s) == s
  {
    ReachableShape(cfg, s);
    assert HasSlot(s.payments, s.winners[0].user);
  }

  /** The end job has nothing left to do: its winner has payments, or an amount no deposit can be taken from. */
  predicate EndJobSpent(cfg: Config, s: State) {
    && s.winners != [] && s.endJob == Some(EndJob(s.winners[0].user, s.winners[0].amount))
    && (HasSlot(s.payments, s.winners[0].user) || DepositOf(s.winners[0].amount, cfg.depositRatio) <= 0.0)
  }

  /** Payment rows are never removed. */
  lemma RowsOfPaymentsStay(cfg: Config, s: State, e: Event)
    ensures forall k <- s.payments :: k in Step(cfg, s, e).payments
  {
  }

  lemma EndJobSpentStays(cfg: Config, s: State, e: Event)
    requires Reachable(cfg, s) && EndJobSpent(cfg, s)
    ensures EndJobSpent(cfg, Step(cfg, s, e))
  {
    var t := Step(cfg, s, e);
    RowsOfPaymentsStay(cfg, s, e);
    assert t.winners != [] && t.winners[0] == s.winners[0] by {
      ReachableShape(cfg, s);
      OnlyElectionsTouchRows(cfg, s, e);
    }
    StepIsReachable(cfg, s, e);
    assert EndJobFits(t) by { ReachableShape(cfg, t); }
  }

  lemma DeliveredEndJobIsSpent(cfg: Config, s: State)
    requires Reachable(cfg, s) && s.endJob.Some?
    ensures EndJobSpent(cfg, DoDeliverEnd(cfg, s))
  {
    assert s.winners != [] && EndJobFits(s) by { ReachableShape(cfg, s); }
    assert s.winners[0].user in s.paid by {
      ReachableRows(cfg, s);
      RowIsEarned(cfg, s, 0);
    }
    CreatedOrUncharged(s.payments, s.winners[0].user, s.winners[0].amount, cfg.depositRatio);
  }

  lemma CreatedOrUncharged(ps: Ledger, u: UserId, win: real, ratio: real)
    ensures HasSlot(CreatePair(ps, u, win, ratio), u) || DepositOf(win, ratio) <= 0.0
  {
    if !HasSlot(ps, u) && Insertable(ps, Slot(u, Deposit), DepositOf(win, ratio)) {
      assert Slot(u, Deposit) in CreatePair(ps, u, win, ratio);
    }
  }

  lemma {:induction false} EndJobSpentForever(cfg: Config, s: State, es: seq<Event>)
    requires Reachable(cfg, s) && EndJobSpent(cfg, s)
    ensures DoDeliverEnd(cfg, Run(cfg, s, es)) == Run(cfg, s, es)
    decreases |es|
  {
    if es != [] {
      EndJobSpentStays(cfg, s, es[0]);
      StepIsReachable(cfg, s, es[0]);
      EndJobSpentForever(cfg, Step(cfg, s, es[0]), es[1..]);
    }
  }

  /** Redelivery of the end job, at any later time and after anything at all, is a no-op. */
  lemma EndJobRedeliveryChangesNothing(cfg: Config, s: State, between: seq<Event>)
    requires Reachable(cfg, s) && s.endJob.Some?
    ensures var t := Run(cfg, Step(cfg, s, DeliverEnd), between); DoDeliverEnd(cfg, t) == t
  {
    DeliveredEndJobIsSpent(cfg, s);
    StepIsReachable(cfg, s, DeliverEnd);
    EndJobSpentForever(cfg, Step(cfg, s, DeliverEnd), between);
  }

  // ----- termination of the decline loop -----

  /** The event is a fallback delivery that takes the auction away from its winner. */
  predicate Unseats(cfg: Config, s: State, e: Event) {
    e.DeliverFallback? && Step(cfg, s, e).auction.winnerId != s.auction.winnerId
  }

  function Unseatings(cfg: Config, s: State, es: seq<Event>): nat
    decreases |es|
  {
    if es == [] then 0
    else (if Unseats(cfg, s, es[0]) then 1 else 0) + Unseatings(cfg, Step(cfg, s, es[0]), es[1..])
  }

  /** How many winners may still be unseated. */
  function Budget(cfg: Config, s: State): int {
    if !Closed(s.auction.status) then Max(1, cfg.maxRank)
    else if s.auction.status == Ended && s.winners != [] then Max(1, cfg.maxRank) - |s.winners| + 1
    else 0
  }

  lemma StepSpendsBudget(cfg: Config, s: State, e: Event)
    requires Reachable(cfg, s)
    ensures Budget(cfg, Step(cfg, s, e)) + (if Unseats(cfg, s, e) then 1 else 0) <= Budget(cfg, s)
    ensures Budget(cfg, s) >= 0
  {
    ReachableShape(cfg, s);
    StepIsMonotone(cfg, s, e);
    if e.DeliverFallback? && Unsettled(s, e.job) {
      ReachableUnsettled(cfg, s, e.job);
      ReachableElection(cfg, s);
    }
    ReachableRowCount(cfg, s);
  }

  lemma ReachableRowCount(cfg: Config, s: State)
    requires Reachable(cfg, s)
    ensures |s.winners| <= Max(1, cfg.maxRank)
  {
    ReachableRows(cfg, s);
  }

  /** The decline loop terminates: over any run, however jobs are repeated, at most max(1, cap) winners are unseated. */
  lemma {:induction false} DeclineLoopEnds(cfg: Config, s: State, es: seq<Event>)
    requires Reachable(cfg, s)
    ensures Unseatings(cfg, s, es) <= Budget(cfg, s) <= Max(1, cfg.maxRank)
    decreases |es|
  {
    StepSpendsBudget(cfg, s, Tick(0));
    if es != [] {
      StepSpendsBudget(cfg, s, es[0]);
      StepIsReachable(cfg, s, es[0]);
      DeclineLoopEnds(cfg, Step(cfg, s, es[0]), es[1..]);
    }
  }
}
