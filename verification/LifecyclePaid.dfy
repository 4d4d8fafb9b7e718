/** Paying: a payment made or declined stays so, and a winner who has paid everything keeps the auction for good. */
module LifecyclePaid {
  import opened Basics
  import opened Auctions
  import opened Payments
  import opened Lifecycle
  import opened LifecycleInvariant
  import opened LifecycleReachable
  import opened LifecycleWinners
  import opened LifecycleJobs
  import opened LifecycleLiveness
  import opened LifecycleSteps

  lemma SettledRowStays(cfg: Config, s: State, e: Event, slot: Slot)
    requires slot in s.payments && s.payments[slot].status != Pending
    ensures var t := Step(cfg, s, e); slot in t.payments && t.payments[slot] == s.payments[slot]
  {
  }

  /** A payment once completed, or declined, is never touched again, over any run and from any state. */
  lemma {:induction false} SettledPaymentIsFinal(cfg: Config, s: State, es: seq<Event>, slot: Slot)
    requires slot in s.payments && s.payments[slot].status != Pending
    ensures var t := Run(cfg, s, es); slot in t.payments && t.payments[slot] == s.payments[slot]
    decreases |es|
  {
    if es != [] {
      SettledRowStays(cfg, s, es[0], slot);
      SettledPaymentIsFinal(cfg, Step(cfg, s, es[0]), es[1..], slot);
    }
  }

  predicate NoJobOf(s: State, u: UserId) {
    forall job <- s.fallbackJobs :: job.declinedUser != u
  }

  /** The winner of the ended auction has payments, all of them completed, and has never declined one. */
  predicate PaidUp(s: State) {
    && s.auction.status == Ended && s.winners != []
    && var u := Last(s.winners).user;
       && HasSlot(s.payments, u) && NoJobOf(s, u)
       && forall k <- s.payments :: k.user == u ==> s.payments[k].status == Completed
  }

  lemma PaidUpIsQuiet(cfg: Config, s: State)
    requires Reachable(cfg, s) && PaidUp(s)
    ensures Quiet(cfg, s)
  {
    RecordAgreesWithWinner(cfg, s);
    forall k | k in s.payments ensures s.payments[k].status != Pending {
      if s.payments[k].status == Pending {
        PendingBelongsToWinner(cfg, s, k);
      }
    }
  }

  lemma RecordAgreesWithWinner(cfg: Config, s: State)
    requires Reachable(cfg, s) && s.auction.status == Ended && s.winners != []
    ensures s.auction.winnerId == Some(Last(s.winners).user)
  {
    ReachableShape(cfg, s);
  }

  lemma PaidUpStep(cfg: Config, s: State, e: Event)
    requires Reachable(cfg, s) && PaidUp(s)
    ensures Idles(s, Step(cfg, s, e)) && PaidUp(Step(cfg, s, e))
  {
    PaidUpIsQuiet(cfg, s);
    ReachableShape(cfg, s);
    QuietStepIsIdle(cfg, s, e);
  }

  /** Once everything is paid nothing that ever happens changes record, winners or payments. */
  lemma {:induction false} PaidUpForever(cfg: Config, s: State, es: seq<Event>)
    requires Reachable(cfg, s) && PaidUp(s)
    ensures var t := Run(cfg, s, es);
      PaidUp(t) && t.auction == s.auction && t.winners == s.winners && t.payments == s.payments
    decreases |es|
  {
    if es != [] {
      PaidUpStep(cfg, s, es[0]);
      StepIsReachable(cfg, s, es[0]);
      PaidUpForever(cfg, Step(cfg, s, es[0]), es[1..]);
    }
  }

  // ----- paying up -----

  /** The winner verifies both parts. */
  function PayingBoth(u: UserId): seq<Event> {
    [VerifyPayment(Slot(u, Deposit), u), VerifyPayment(Slot(u, Balance), u)]
  }

  lemma PaidBoth(cfg: Config, s: State, u: UserId)
    ensures Run(cfg, s, PayingBoth(u))
         == Step(cfg, Step(cfg, s, VerifyPayment(Slot(u, Deposit), u)), VerifyPayment(Slot(u, Balance), u))
  {
    var e, f := VerifyPayment(Slot(u, Deposit), u), VerifyPayment(Slot(u, Balance), u);
    assert PayingBoth(u) == [e] + [f];
    RunAppend(cfg, s, [e], [f]);
    RunOfOne(cfg, s, e);
    RunOfOne(cfg, Step(cfg, s, e), f);
  }

  /** What verifying both parts does to the payments: every pending row of the user is completed, nothing else moves. */
  lemma PayingCompletes(cfg: Config, s: State, u: UserId)
    ensures var t := Run(cfg, s, PayingBoth(u));
      && t == s.(payments := t.payments) && t.payments.Keys == s.payments.Keys
      && (forall k <- s.payments ::
            t.payments[k] == if k.user == u && s.payments[k].status == Pending then Payment(s.payments[k].amount, Completed)
                             else s.payments[k])
  {
    PaidBoth(cfg, s, u);
    var mid := Step(cfg, s, VerifyPayment(Slot(u, Deposit), u));
    VerifyOutcome(cfg, s, Slot(u, Deposit), u);
    VerifyOutcome(cfg, mid, Slot(u, Balance), u);
    forall k | k in s.payments && k.user == u ensures k == Slot(u, Deposit) || k == Slot(u, Balance) {
      assert k.phase == Deposit || k.phase == Balance;
    }
  }

  /**
   Exactly when the winner of an ended auction can settle it by paying: there is a payment row of theirs, every row is
   pending or completed, and none of their declines is queued.
   */
  lemma PayingSettlesIff(cfg: Config, s: State)
    requires Reachable(cfg, s) && s.auction.status == Ended && s.winners != []
    ensures var u := Last(s.winners).user;
      PaidUp(Run(cfg, s, PayingBoth(u))) <==>
        && HasSlot(s.payments, u) && NoJobOf(s, u)
        && forall k <- s.payments :: k.user == u ==> s.payments[k].status in {Pending, Completed}
  {
    PayingCompletes(cfg, s, Last(s.winners).user);
  }
}
