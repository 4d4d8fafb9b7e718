/** Exactly which ended auctions can still move, and that the dead ones are reached. */
module LifecycleLiveness {
  import opened Basics
  import opened Auctions
  import opened Bidding
  import opened Ranking
  import opened WinnerSelection
  import opened Payments
  import opened Lifecycle
  import opened LifecycleInvariant
  import opened LifecycleReachable
  import opened LifecycleJobs

  // ----- who has been charged -----

  /** Everybody seated by the fallback was charged in the same step, unless the amount yields no deposit. */
  predicate SeatedCharged(cfg: Config, s: State) {
    forall i :: 1 <= i < |s.winners| ==>
      HasSlot(s.payments, s.winners[i].user) || DepositOf(s.winners[i].amount, cfg.depositRatio) <= 0.0
  }

  lemma SeatKeepsCharged(cfg: Config, s: State, u: UserId, m: real, rank: int)
    requires SeatedCharged(cfg, s)
    ensures SeatedCharged(cfg, Seat(cfg, s, u, m, rank))
  {
    var t := Seat(cfg, s, u, m, rank);
    CreatedOrUncharged(s.payments, u, m, cfg.depositRatio);
    CreatePairEffect(s.payments, u, m, cfg.depositRatio);
    forall i | 1 <= i < |t.winners|
      ensures HasSlot(t.payments, t.winners[i].user) || DepositOf(t.winners[i].amount, cfg.depositRatio) <= 0.0
    {
      if i < |s.winners| {
        assert t.winners[i] == s.winners[i];
      }
    }
  }

  lemma SameRowsKeepCharged(cfg: Config, s: State, t: State)
    requires SeatedCharged(cfg, s) && t.winners == s.winners && forall k <- s.payments :: k in t.payments
    ensures SeatedCharged(cfg, t)
  {
    forall i | 1 <= i < |t.winners|
      ensures HasSlot(t.payments, t.winners[i].user) || DepositOf(t.winners[i].amount, cfg.depositRatio) <= 0.0
    {
      assert t.winners[i] == s.winners[i];
    }
  }

  lemma StepKeepsCharged(cfg: Config, s: State, e: Event)
    requires Reachable(cfg, s) && SeatedCharged(cfg, s)
    ensures SeatedCharged(cfg, Step(cfg, s, e))
  {
    var t := Step(cfg, s, e);
    RowsOfPaymentsStay(cfg, s, e);
    assert Shape(s) by { ReachableShape(cfg, s); }
    OnlyElectionsTouchRows(cfg, s, e);
    if t.winners == s.winners {
      SameRowsKeepCharged(cfg, s, t);
    } else if e.DeliverFallback? {
      var cleaned := s.(payments := DeclineAll(s.payments, e.job.declinedUser));
      SameRowsKeepCharged(cfg, s, cleaned);
      SeatKeepsCharged(cfg, cleaned, Elect(cfg, s).user, Elect(cfg, s).amount, Elect(cfg, s).rank);
    }
  }

  lemma {:induction false} RunKeepsCharged(cfg: Config, s: State, es: seq<Event>)
    requires Reachable(cfg, s) && SeatedCharged(cfg, s)
    ensures SeatedCharged(cfg, Run(cfg, s, es))
    decreases |es|
  {
    if es != [] {
      StepKeepsCharged(cfg, s, es[0]);
      StepIsReachable(cfg, s, es[0]);
      RunKeepsCharged(cfg, Step(cfg, s, es[0]), es[1..]);
    }
  }

  lemma ReachableCharged(cfg: Config, s: State)
    requires Reachable(cfg, s)
    ensures SeatedCharged(cfg, s)
  {
    var draft, es: seq<Event> :| Fresh(draft) && s == Run(cfg, draft, es);
    RunIsReachable(cfg, draft, []);
    assert Run(cfg, draft, []) == draft;
    RunKeepsCharged(cfg, draft, es);
  }

  // ----- the exact condition -----

  predicate Queued(s: State) {
    exists job <- s.fallbackJobs :: Unsettled(s, job)
  }

  /** The sitting winner has no payment yet, and a deposit can be taken from the amount. */
  predicate Chargeable(cfg: Config, s: State) {
    s.winners != [] && !HasSlot(s.payments, Last(s.winners).user) && DepositOf(Last(s.winners).amount, cfg.depositRatio) > 0.0
  }

  /** The fallback has somewhere to go, and something can still set it going. */
  predicate CanMove(cfg: Config, s: State) {
    && s.winners != []
    && (|s.winners| >= cfg.maxRank || BidderLeft(s))
    && (Queued(s) || !NothingPending(s.payments) || Chargeable(cfg, s))
  }

  ghost predicate Dead(cfg: Config, s: State) {
    forall es: seq<Event> :: Run(cfg, s, es).auction == s.auction
  }

  // ----- what cannot move stays -----

  /** No job, nothing owed, nothing to charge. */
  predicate Quiet(cfg: Config, s: State) {
    && !Queued(s) && NothingPending(s.payments) && !Chargeable(cfg, s)
  }

  lemma EndJobIsIdle(cfg: Config, s: State)
    requires Shape(s) && Settled(s) && s.auction.status == Ended && !Chargeable(cfg, s)
    ensures DoDeliverEnd(cfg, s) == s
  {
    if s.winners != [] {
      assert |s.winners| > 1 ==> HasSlot(s.payments, s.winners[0].user);
    }
  }

  lemma QuietStepIsIdle(cfg: Config, s: State, e: Event)
    requires Shape(s) && Settled(s) && s.auction.status == Ended && Quiet(cfg, s)
    ensures Idles(s, Step(cfg, s, e))
  {
    if e.DeliverFallback? {
      assert !Unsettled(s, e.job);
    } else if e.DeliverEnd? {
      EndJobIsIdle(cfg, s);
    } else {
      assert s.offer == None;
      OnlyJobsAct(cfg, s, e);
    }
  }

  /** While ranks are left and everybody who bid has been elected, a delivery elects nobody. */
  lemma NowhereToGo(cfg: Config, s: State, e: Event)
    requires Reachable(cfg, s) && s.auction.status == Ended && s.winners != [] && |s.winners| < cfg.maxRank && !BidderLeft(s)
    ensures var t := Step(cfg, s, e);
      t.auction == s.auction && t.winners == s.winners && t.bids == s.bids
  {
    ReachableElection(cfg, s);
    assert Shape(s) by { ReachableShape(cfg, s); }
    EndedRecordMovesByFallback(cfg, s, e);
  }

  lemma EndedRecordMovesByFallback(cfg: Config, s: State, e: Event)
    requires s.auction.status == Ended && s.offer == None
    ensures var t := Step(cfg, s, e);
      && t.bids == s.bids
      && (!e.DeliverFallback? || Elect(cfg, s) == Nobody ==> t.auction == s.auction && t.winners == s.winners)
  {
  }

  predicate Doomed(cfg: Config, s: State) {
    s.auction.status == Ended && !CanMove(cfg, s)
  }

  lemma DoomedStays(cfg: Config, s: State, e: Event)
    requires Reachable(cfg, s) && Doomed(cfg, s)
    ensures Step(cfg, s, e).auction == s.auction && Doomed(cfg, Step(cfg, s, e))
  {
    var t := Step(cfg, s, e);
    if s.winners == [] {
      assert t.auction == s.auction && t.winners == [] by {
        ReachableShape(cfg, s);
        NobodyElectedStays(cfg, s, e);
      }
    } else if |s.winners| < cfg.maxRank && !BidderLeft(s) {
      NowhereToGo(cfg, s, e);
      assert !BidderLeft(t);
    } else {
      assert Idles(s, t) by {
        ReachableShape(cfg, s);
        QuietStepIsIdle(cfg, s, e);
      }
      IdleStaysDoomed(cfg, s, t);
    }
  }

  lemma NobodyElectedStays(cfg: Config, s: State, e: Event)
    requires Shape(s) && s.auction.status == Ended && s.winners == []
    ensures Idles(s, Step(cfg, s, e))
  {
    if e.DeliverFallback? {
      assert !Unsettled(s, e.job);
    } else if !e.DeliverEnd? {
      OnlyJobsAct(cfg, s, e);
    }
  }

  lemma IdleStaysDoomed(cfg: Config, s: State, t: State)
    requires Idles(s, t) && Doomed(cfg, s)
    ensures Doomed(cfg, t)
  {
    assert forall job :: Unsettled(t, job) <==> Unsettled(s, job);
    assert BidderLeft(t) <==> BidderLeft(s);
  }

  lemma {:induction false} DoomedIsDead(cfg: Config, s: State, es: seq<Event>)
    requires Reachable(cfg, s) && Doomed(cfg, s)
    ensures Run(cfg, s, es).auction == s.auction
    decreases |es|
  {
    if es != [] {
      DoomedStays(cfg, s, es[0]);
      StepIsReachable(cfg, s, es[0]);
      DoomedIsDead(cfg, Step(cfg, s, es[0]), es[1..]);
    }
  }

  // ----- what can move does -----

  /** Delivering the sitting winner's job changes the record whenever the fallback has somewhere to go. */
  lemma DeliveryMoves(cfg: Config, s: State, job: FallbackJob)
    requires Reachable(cfg, s) && Unsettled(s, job) && s.winners != [] && (|s.winners| >= cfg.maxRank || BidderLeft(s))
    ensures Step(cfg, s, DeliverFallback(job)).auction != s.auction
  {
    ReachableElection(cfg, s);
    ElectsSomebodyNew(cfg, s);
    ReachableUnsettled(cfg, s, job);
    var r := Elect(cfg, s);
    if r.Next? {
      assert Step(cfg, s, DeliverFallback(job)).auction.winnerId == Some(r.user);
      assert s.winners[|s.winners| - 1].user == job.declinedUser;
      assert r.user != job.declinedUser;
    }
  }

  lemma DeliveryReaches(cfg: Config, s: State, job: FallbackJob) returns (es: seq<Event>)
    requires Reachable(cfg, s) && Unsettled(s, job) && s.winners != [] && (|s.winners| >= cfg.maxRank || BidderLeft(s))
    ensures Run(cfg, s, es).auction != s.auction
  {
    DeliveryMoves(cfg, s, job);
    es := [DeliverFallback(job)];
    RunOfOne(cfg, s, DeliverFallback(job));
  }

  /** A pending payment can be declined, which queues the job. */
  lemma DeclineQueues(cfg: Config, s: State, slot: Slot)
    requires Reachable(cfg, s) && s.auction.status == Ended && slot in s.payments && s.payments[slot].status == Pending
    ensures var t := Step(cfg, s, DeclinePayment(slot, slot.user));
      && t.auction == s.auction && t.winners == s.winners && t.bids == s.bids
      && Unsettled(t, FallbackJob(slot.user, |s.winners|))
  {
    assert s.auction.winnerId == Some(slot.user) by { ReachableShape(cfg, s); }
  }

  lemma PendingReaches(cfg: Config, s: State, slot: Slot) returns (es: seq<Event>)
    requires Reachable(cfg, s) && s.auction.status == Ended && slot in s.payments && s.payments[slot].status == Pending
    requires s.winners != [] && (|s.winners| >= cfg.maxRank || BidderLeft(s))
    ensures Run(cfg, s, es).auction != s.auction
  {
    var e := DeclinePayment(slot, slot.user);
    var t := Step(cfg, s, e);
    DeclineQueues(cfg, s, slot);
    StepIsReachable(cfg, s, e);
    assert BidderLeft(t) <==> BidderLeft(s);
    var rest := DeliveryReaches(cfg, t, FallbackJob(slot.user, |s.winners|));
    es := [e] + rest;
    assert es[1..] == rest;
  }

  /** Only the first winner can be uncharged and chargeable; the end job creates the deposit. */
  lemma EndJobCharges(cfg: Config, s: State)
    requires Reachable(cfg, s) && s.auction.status == Ended && Chargeable(cfg, s)
    ensures var t := Step(cfg, s, DeliverEnd); var slot := Slot(Last(s.winners).user, Deposit);
      && t.auction == s.auction && t.winners == s.winners && t.bids == s.bids
      && slot in t.payments && t.payments[slot].status == Pending
  {
    ReachableCharged(cfg, s);
    assert |s.winners| == 1;
    assert EndJobFits(s) by { ReachableShape(cfg, s); }
    DeliveredEndJobIsSpent(cfg, s);
    var w := s.winners[0];
    CreatePairEffect(s.payments, w.user, w.amount, cfg.depositRatio);
    assert Whole(DepositOf(w.amount, cfg.depositRatio));
    FirstDepositIsPending(s.payments, w.user, w.amount, cfg.depositRatio);
    assert s.paid != {} by {
      ReachableRows(cfg, s);
      SomebodyPaid(cfg, s);
    }
  }

  lemma SomebodyPaid(cfg: Config, s: State)
    requires Sound(BookOf(s), s.now) && RowsFit(cfg, s) && s.winners != []
    ensures s.paid != {}
  {
    var u := Ranked(s.winners)[0].user;
    assert u in Users(Board(s));
    BiddersAreOnBoard(s, u);
    var b :| b in s.bids && b.user == u;
    var i :| 0 <= i < |s.bids| && s.bids[i] == b;
    assert BookOf(s).bids[i].user in BookOf(s).paid;
  }

  lemma FirstDepositIsPending(ps: Ledger, u: UserId, win: real, ratio: real)
    requires !HasSlot(ps, u) && DepositOf(win, ratio) > 0.0
    ensures var after := CreatePair(ps, u, win, ratio); var slot := Slot(u, Deposit);
      slot in after && after[slot].status == Pending
  {
    assert Whole(DepositOf(win, ratio));
  }

  lemma ChargeableReaches(cfg: Config, s: State) returns (es: seq<Event>)
    requires Reachable(cfg, s) && s.auction.status == Ended && Chargeable(cfg, s)
    requires |s.winners| >= cfg.maxRank || BidderLeft(s)
    ensures Run(cfg, s, es).auction != s.auction
  {
    var t := Step(cfg, s, DeliverEnd);
    EndJobCharges(cfg, s);
    StepIsReachable(cfg, s, DeliverEnd);
    assert BidderLeft(t) <==> BidderLeft(s);
    var rest := PendingReaches(cfg, t, Slot(Last(s.winners).user, Deposit));
    es := [DeliverEnd] + rest;
    assert es[1..] == rest;
  }

  /**
   Exactly which ended auctions are dead, of all reachable ones and with any number of winners: the record never changes
   again unless the fallback has somewhere to go (the cap, or a bidder not yet elected) and something can set it going (a
   job of the sitting winner, a pending payment, or a first payment still to be created).
   */
  lemma DeadIffCannotMove(cfg: Config, s: State)
    requires Reachable(cfg, s) && s.auction.status == Ended
    ensures Dead(cfg, s) <==> !CanMove(cfg, s)
  {
    if CanMove(cfg, s) {
      var es: seq<Event>;
      if job :| job in s.fallbackJobs && Unsettled(s, job) {
        es := DeliveryReaches(cfg, s, job);
      } else if slot :| slot in s.payments && s.payments[slot].status == Pending {
        es := PendingReaches(cfg, s, slot);
      } else {
        es := ChargeableReaches(cfg, s);
      }
      assert Run(cfg, s, es).auction != s.auction;
    } else {
      forall es: seq<Event> ensures Run(cfg, s, es).auction == s.auction {
        DoomedIsDead(cfg, s, es);
      }
    }
  }
}
