/**
 Two dead ends: a winner whose payments can never be created, and (as a concrete run) a lone bidder who declines. And two
 runs that leave money uncollected: a win that is not whole, and a former winner who buys after all.
 */
module LifecycleDeadEnd {
  import opened Basics
  import opened Auctions
  import opened Bidding
  import opened Ranking
  import opened WinnerSelection
  import opened Payments
  import opened Lifecycle
  import opened LifecycleInvariant
  import opened LifecycleReachable
  import opened LifecycleJobs
  import opened LifecycleOutcome
  import opened PublicOffers

  // ----- a winner nobody can charge -----

  /** The sitting winner has no payment, and the deposit share of the win rounds to nothing. */
  predicate Uncharged(cfg: Config, s: State) {
    && s.auction.status == Ended && s.winners != [] && !HasSlot(s.payments, Last(s.winners).user)
    && DepositOf(Last(s.winners).amount, cfg.depositRatio) <= 0.0
  }

  lemma UnchargedStays(cfg: Config, s: State, e: Event)
    requires Shape(s) && Money(cfg, s) && Uncharged(cfg, s)
    ensures Idles(s, Step(cfg, s, e))
  {
    if e.DeliverFallback? {
      if Unsettled(s, e.job) { UnsettledIsCurrent(cfg, s, e.job); }
    } else if e.DeliverEnd? {
      if |s.winners| > 1 { assert HasSlot(s.payments, s.winners[0].user); }
    } else {
      forall k | k in s.payments ensures s.payments[k].status != Pending {
        assert k.phase == Deposit || k.phase == Balance;
      }
      OnlyJobsAct(cfg, s, e);
    }
  }

  /** Without a payment to decline there is no fallback: such an auction keeps its record for good. */
  lemma {:induction false} UnchargedForever(cfg: Config, s: State, es: seq<Event>)
    requires Reachable(cfg, s) && Uncharged(cfg, s)
    ensures Run(cfg, s, es).auction == s.auction && Run(cfg, s, es).payments == s.payments
    decreases |es|
  {
    if es != [] {
      ReachableShape(cfg, s);
      UnchargedStays(cfg, s, es[0]);
      StepIsReachable(cfg, s, es[0]);
      UnchargedForever(cfg, Step(cfg, s, es[0]), es[1..]);
    }
  }

  // ----- an auction with one bidder -----

  const SELLER: UserId := 1
  const BIDDER: UserId := 7
  const CAP_OF_THREE := Config(3, 0.5, 0.5)
  const CAP_OF_ONE := Config(1, 0.5, 0.5)
  const RULES := Auction(SELLER, Long, 2.0, 1.0, 0, 1000, Draft, 0, 0, 0, 0, None, None)
  const DEPOSIT := Slot(BIDDER, Deposit)
  const BALANCE := Slot(BIDDER, Balance)

  function OnlyBid(m: real): Bidding.Bid {
    Bidding.Bid(BIDDER, m, None, 0)
  }

  function Drafted(): State {
    State(RULES, [], {}, [], map[], None, {}, None, map[], 0)
  }

  function Joined(): State {
    Drafted().(auction := RULES.(status := Active), paid := {BIDDER})
  }

  /** The auction is open and its only bid is in. */
  function Bidden(m: real): State {
    Joined().(bids := [OnlyBid(m)])
  }

  /** It has closed for its only bidder; the end job is queued. */
  function ClosedFor(m: real): State {
    CloseWith(Bidden(m).(now := 1000), BIDDER, m)
  }

  lemma OneBidWins(m: real)
    ensures FirstPick(Long, Listing([OnlyBid(m)])) == Winner(BIDDER, m)
  {
    assert Init([OnlyBid(m)]) == [];
    assert Listing([OnlyBid(m)]) == [OnlyBid(m)];
  }

  lemma JoinedIsReachable(cfg: Config)
    ensures Reachable(cfg, Joined())
  {
    RunIsReachable(cfg, Drafted(), []);
    StepIsReachable(cfg, Drafted(), Publish(SELLER));
    StepIsReachable(cfg, Drafted().(auction := RULES.(status := Active)), Join(BIDDER));
    assert {} + {BIDDER} == {BIDDER};
  }

  lemma BidIsPlaced(cfg: Config, m: real)
    requires m >= 1.0
    ensures Step(cfg, Joined(), Event.Bid(BIDDER, m)) == Bidden(m)
  {
    assert Step(cfg, Joined(), Event.Bid(BIDDER, m)).bids == [] + [OnlyBid(m)];
  }

  lemma ClosedIsReachable(cfg: Config, m: real)
    requires m >= 1.0
    ensures Reachable(cfg, ClosedFor(m))
  {
    JoinedIsReachable(cfg);
    BidIsPlaced(cfg, m);
    StepIsReachable(cfg, Joined(), Event.Bid(BIDDER, m));
    StepIsReachable(cfg, Bidden(m), Tick(1000));
    OneBidWins(m);
    StepIsReachable(cfg, Bidden(m).(now := 1000), Expire);
  }

  // ----- whose bid is too small to charge -----

  /** A win of 1 with half of it as deposit: a reachable ended auction nobody can be charged for, whatever happens next. */
  lemma SmallWinIsUncharged(es: seq<Event>)
    ensures Reachable(CAP_OF_THREE, ClosedFor(1.0)) && Uncharged(CAP_OF_THREE, ClosedFor(1.0))
    ensures var t := Run(CAP_OF_THREE, ClosedFor(1.0), es);
      t.auction.status == Ended && t.auction.winnerId == Some(BIDDER) && t.payments == map[]
  {
    ClosedIsReachable(CAP_OF_THREE, 1.0);
    assert (0.5).Floor == 0 && DepositOf(1.0, 0.5) == 0.0;
    assert Last(ClosedFor(1.0).winners) == WinnerRow(BIDDER, 1.0, 1);
    UnchargedForever(CAP_OF_THREE, ClosedFor(1.0), es);
  }

  // ----- who declines -----

  /** The end job has created the pair. */
  function AwaitingPayment(): State {
    ClosedFor(10.0).(payments := map[DEPOSIT := Payment(5.0, Pending), BALANCE := Payment(5.0, Pending)])
  }

  lemma PairOfTen()
    ensures CreatePair(map[], BIDDER, 10.0, 0.5) == map[DEPOSIT := Payment(5.0, Pending), BALANCE := Payment(5.0, Pending)]
  {
    assert DepositOf(10.0, 0.5) == 5.0;
    assert Whole(5.0) by { assert (5.0).Floor == 5; }
  }

  lemma AwaitingIsReachable(cfg: Config)
    requires cfg.depositRatio == 0.5
    ensures Reachable(cfg, AwaitingPayment())
  {
    ClosedIsReachable(cfg, 10.0);
    PairOfTen();
    StepIsReachable(cfg, ClosedFor(10.0), DeliverEnd);
  }

  /** The winner has declined the deposit and the job is queued. */
  function DepositDeclined(): State {
    var s := AwaitingPayment();
    s.(payments := s.payments[DEPOSIT := Payment(5.0, Declined)], fallbackJobs := {FallbackJob(BIDDER, 1)})
  }

  lemma DeclineQueues(cfg: Config)
    ensures Step(cfg, AwaitingPayment(), DeclinePayment(DEPOSIT, BIDDER)) == DepositDeclined()
  {
  }

  lemma NobodyElse()
    ensures Unsettled(DepositDeclined(), FallbackJob(BIDDER, 1)) && !BidderLeft(DepositDeclined())
  {
    assert DepositDeclined().winners[0].user == BIDDER;
  }

  lemma DeclinedIsReachable(cfg: Config)
    requires cfg.depositRatio == 0.5
    ensures Reachable(cfg, DepositDeclined())
  {
    AwaitingIsReachable(cfg);
    StepIsReachable(cfg, AwaitingPayment(), DeclinePayment(DEPOSIT, BIDDER));
    DeclineQueues(cfg);
  }

  /**
   Two ranks are left, nobody else bid, the winner declines and the job is delivered: the auction is ENDED, names the
   decliner as winner, and stays that way whatever happens next.
   */
  lemma LoneDeclinerIsStuck(es: seq<Event>)
    ensures var a := Run(CAP_OF_THREE, Step(CAP_OF_THREE, DepositDeclined(), DeliverFallback(FallbackJob(BIDDER, 1))), es).auction;
      a.status == Ended && a.winnerId == Some(BIDDER)
  {
    var s := DepositDeclined();
    DeclinedIsReachable(CAP_OF_THREE);
    NobodyElse();
    assert |s.winners| == 1 && s.auction.status == Ended && s.auction.winnerId == Some(BIDDER);
    LastDeclineIsForever(CAP_OF_THREE, s, FallbackJob(BIDDER, 1), es);
  }

  // ----- whose win is not whole -----

  lemma HalfIsNotWhole()
    ensures DepositOf(10.5, 0.5) == 5.0 && Whole(5.0) && !Whole(10.5 - 5.0)
  {
    assert (5.25).Floor == 5 && (5.0).Floor == 5 && (5.5).Floor == 5;
  }

  /** A win of 10.5: the end job creates a deposit of 5 and no balance, in a reachable state. */
  lemma FractionalWinHasNoBalance()
    ensures Reachable(CAP_OF_THREE, ClosedFor(10.5))
    ensures var t := Step(CAP_OF_THREE, ClosedFor(10.5), DeliverEnd);
      Reachable(CAP_OF_THREE, t) && t.auction.winAmount == Some(10.5) && t.payments == map[DEPOSIT := Payment(5.0, Pending)]
  {
    ClosedIsReachable(CAP_OF_THREE, 10.5);
    HalfIsNotWhole();
    StepIsReachable(CAP_OF_THREE, ClosedFor(10.5), DeliverEnd);
  }

  // ----- who buys after all -----

  /** With one rank only, the decline leads to the public offer at the start price. */
  function Offered(): State {
    var s := DepositDeclined();
    s.(payments := map[DEPOSIT := Payment(5.0, Declined), BALANCE := Payment(5.0, Declined)],
       auction := s.auction.(status := FallbackPublicNotification, winnerId := None, winAmount := None),
       offer := Some(PublicOffer(2.0, OfferPending, Unpaid)))
  }

  /** The former winner has turned the offer down. */
  function TurnedDown(): State {
    Offered().(replies := map[BIDDER := OfferReply(Rejected, Unpaid)])
  }

  function Exhausted(): State {
    Offered().(auction := Offered().auction.(status := FallbackEnded), offer := None)
  }

  lemma FallbackExhausts()
    ensures Step(CAP_OF_ONE, DepositDeclined(), DeliverFallback(FallbackJob(BIDDER, 1))) == Exhausted()
  {
    var s := DepositDeclined();
    ElectsSomebodyNew(CAP_OF_ONE, s);
    assert |s.winners| == 1;
    assert DeclineAll(s.payments, BIDDER) == Exhausted().payments;
  }

  lemma ExhaustedIsReachable()
    ensures Reachable(CAP_OF_ONE, Exhausted())
  {
    DeclinedIsReachable(CAP_OF_ONE);
    FallbackExhausts();
    StepIsReachable(CAP_OF_ONE, DepositDeclined(), DeliverFallback(FallbackJob(BIDDER, 1)));
  }

  lemma OfferFollows()
    ensures Step(CAP_OF_ONE, Exhausted(), OfferPublicly) == Offered()
    ensures Step(CAP_OF_ONE, Offered(), RejectOffer(BIDDER)) == TurnedDown()
  {
  }

  lemma TurnedDownIsReachable()
    ensures Reachable(CAP_OF_ONE, TurnedDown())
  {
    ExhaustedIsReachable();
    OfferFollows();
    StepIsReachable(CAP_OF_ONE, Exhausted(), OfferPublicly);
    StepIsReachable(CAP_OF_ONE, Offered(), RejectOffer(BIDDER));
  }

  /**
   A reachable sale without its instalment: a former winner turns the public offer down, which leaves a reply row, and
   then buys all the same. The declined balance row of the old win takes the place of the new one, so nothing is left to
   collect.
   */
  lemma FormerWinnerBuysUnbilled()
    ensures Reachable(CAP_OF_ONE, TurnedDown())
    ensures var t := Step(CAP_OF_ONE, TurnedDown(), BuyOffer(BIDDER));
      && t.auction.status == Sold && t.auction.winnerId == Some(BIDDER) && t.auction.winAmount == Some(2.0)
      && t.payments == TurnedDown().payments && !Owes(t, BIDDER, RemainderOf(2.0, CAP_OF_ONE.remainingRatio))
  {
    TurnedDownIsReachable();
    PurchaseOutcome(CAP_OF_ONE, TurnedDown(), BIDDER);
    assert RemainderOf(2.0, 0.5) == 1.0;
  }
}
