/** What publication fixes, what closing freezes, and how an auction is sold. */
module LifecycleOutcome {
  import opened Basics
  import opened Auctions
  import opened Bidding
  import opened Payments
  import opened PublicOffers
  import opened Lifecycle
  import opened LifecycleInvariant
  import opened LifecycleReachable

  // ----- publication and closing -----

  /** From publication on the rules stand, the end never moves back, and the base end and hard deadline are fixed. */
  predicate KeepsTerms(a: Auction, c: Auction) {
    && SameRules(a, c) && BaseEnd(a) == BaseEnd(c) && Deadline(a) == Deadline(c) && a.endAt <= c.endAt
    && c.status != Draft
  }

  lemma OnlyBidsTouchTerms(cfg: Config, s: State, e: Event)
    requires s.auction.status != Draft && !e.Bid?
    ensures Terms(s.auction) == Terms(Step(cfg, s, e).auction) && Step(cfg, s, e).auction.status != Draft
  {
    if !e.UpdateDraft? {
      StepOnlyDrifts(cfg, s, e);
    }
  }

  lemma StepKeepsTerms(cfg: Config, s: State, e: Event)
    requires Creatable(s.auction) && s.auction.status != Draft
    ensures KeepsTerms(s.auction, Step(cfg, s, e).auction)
  {
    if e.Bid? {
      ExtensionKeepsDeadline(s.auction, s.now);
    } else {
      OnlyBidsTouchTerms(cfg, s, e);
      TermsAgree(s.auction, Step(cfg, s, e).auction);
    }
  }

  /** The hard deadline bounds the end time over any run from publication. */
  lemma {:induction false} PublishedTermsStand(cfg: Config, s: State, es: seq<Event>)
    requires Reachable(cfg, s) && s.auction.status != Draft
    ensures var t := Run(cfg, s, es);
      && KeepsTerms(s.auction, t.auction) && t.auction.endAt <= Deadline(s.auction)
      && t.auction.extensionCount <= s.auction.maxExtensionCount
    decreases |es|
  {
    ReachableRows(cfg, s);
    EndBeforeDeadline(s.auction);
    if es != [] {
      StepKeepsTerms(cfg, s, es[0]);
      StepIsReachable(cfg, s, es[0]);
      PublishedTermsStand(cfg, Step(cfg, s, es[0]), es[1..]);
    }
  }

  lemma ClosedStepFreezes(cfg: Config, s: State, e: Event)
    requires Closed(s.auction.status)
    ensures var t := Step(cfg, s, e);
      Closed(t.auction.status) && t.bids == s.bids && t.auction.startPrice == s.auction.startPrice && t.auction.endAt == s.auction.endAt
  {
  }

  /** Closing is final: never again draft, active or paused, and bids, start price and end time are frozen. */
  lemma {:induction false} ClosedIsFinal(cfg: Config, s: State, es: seq<Event>)
    requires Closed(s.auction.status)
    ensures var t := Run(cfg, s, es);
      && t.auction.status !in {Draft, Active, Paused}
      && t.bids == s.bids && t.auction.startPrice == s.auction.startPrice && t.auction.endAt == s.auction.endAt
    decreases |es|
  {
    if es != [] {
      ClosedStepFreezes(cfg, s, es[0]);
      ClosedIsFinal(cfg, Step(cfg, s, es[0]), es[1..]);
    }
  }

  // ----- the public sale -----

  /** The balance of the sale is outstanding. */
  predicate Owes(s: State, u: UserId, amount: real) {
    Slot(u, Balance) in s.payments && s.payments[Slot(u, Balance)] == Payment(amount, Pending)
  }

  /**
   Verifying a purchase. Without an unpaid offer and a reply row of the user nothing happens. With them no guard of the
   reply, of `setWinner` or of `setStatus` can reject it: reply and offer are paid, and it ends in a sale at the start price
   if and only if the remaining instalment, the start price times the configured ratio, is positive. The instalment's row
   is only written when it is whole and the buyer has no balance row yet.
   */
  lemma PurchaseOutcome(cfg: Config, s: State, u: UserId)
    requires Reachable(cfg, s) && s.offer.Some? && s.offer.value.payment == Unpaid && u in s.replies
    ensures s.replies[u].payment == Unpaid
    ensures MaySetWinner(s.auction, s.offer.value.amount) && MaySetStatus(s.auction.status, Sold)
    ensures var t := DoBuy(cfg, s, u); var rest := s.auction.startPrice * cfg.remainingRatio;
      && t.offer == Some(PublicOffer(s.auction.startPrice, Accepted, Paid))
      && t.replies == s.replies[u := OfferReply(s.replies[u].status, Paid)]
      && (t.auction.status == Sold <==> rest > 0.0)
    ensures var t := DoBuy(cfg, s, u);
      t.auction == if s.auction.startPrice * cfg.remainingRatio > 0.0
                   then s.auction.(status := Sold, winnerId := Some(u), winAmount := Some(s.auction.startPrice))
                   else s.auction
    ensures var t := DoBuy(cfg, s, u); var rest := s.auction.startPrice * cfg.remainingRatio;
      t.payments == if rest > 0.0 && Whole(rest) && Slot(u, Balance) !in s.payments
                    then s.payments[Slot(u, Balance) := Payment(rest, Pending)]
                    else s.payments
    ensures var t := DoBuy(cfg, s, u); var rest := s.auction.startPrice * cfg.remainingRatio;
      && (Owes(t, u, rest) <==> rest > 0.0 && Whole(rest) && Slot(u, Balance) !in s.payments)
      && t == s.(auction := t.auction, payments := t.payments, offer := t.offer, replies := t.replies)
  {
    ReachableShape(cfg, s);
    assert Slot(u, Balance) in s.payments ==> s.payments[Slot(u, Balance)].status != Pending;
    assert s.offer.value.amount == s.auction.startPrice;
    assert RemainderOf(s.offer.value.amount, cfg.remainingRatio) == s.auction.startPrice * cfg.remainingRatio;
  }

  /** Nobody else can buy: an offer is needed, unpaid, and a reply row. */
  lemma NoPurchase(cfg: Config, s: State, u: UserId)
    requires s.offer.None? || s.offer.value.payment != Unpaid || u !in s.replies
    ensures Step(cfg, s, BuyOffer(u)) == s
  {
  }

  /** Only a user who had been elected can already have a balance row, so any other buyer's row is written. */
  lemma BalanceRowBlocksOnlyFormerWinners(cfg: Config, s: State, u: UserId)
    requires Reachable(cfg, s) && s.offer.Some? && s.offer.value.payment == Unpaid && Slot(u, Balance) in s.payments
    ensures WasElected(s.winners, u)
  {
    ReachableShape(cfg, s);
  }

  predicate Sells(cfg: Config, s: State, e: Event) {
    s.auction.status != Sold && Step(cfg, s, e).auction.status == Sold
  }

  function Sales(cfg: Config, s: State, es: seq<Event>): nat
    decreases |es|
  {
    if es == [] then 0 else (if Sells(cfg, s, es[0]) then 1 else 0) + Sales(cfg, Step(cfg, s, es[0]), es[1..])
  }

  function Offers(cfg: Config, s: State, es: seq<Event>): nat
    decreases |es|
  {
    if es == [] then 0
    else
      var t := Step(cfg, s, es[0]);
      (if t.offer.Some? && s.offer.None? then 1 else 0) + Offers(cfg, t, es[1..])
  }

  /** The offer goes from unpaid to paid, which need not be a sale: the later guards can still refuse. */
  predicate PaysOffer(cfg: Config, s: State, e: Event) {
    && s.offer.Some? && s.offer.value.payment == Unpaid
    && Step(cfg, s, e).offer.Some? && Step(cfg, s, e).offer.value.payment == Paid
  }

  function OfferPayments(cfg: Config, s: State, es: seq<Event>): nat
    decreases |es|
  {
    if es == [] then 0
    else (if PaysOffer(cfg, s, es[0]) then 1 else 0) + OfferPayments(cfg, Step(cfg, s, es[0]), es[1..])
  }

  function SalesLeft(s: State): nat {
    if s.offer.Some? && s.offer.value.payment == Paid then 0 else 1
  }

  lemma StepSpendsSale(cfg: Config, s: State, e: Event)
    requires Reachable(cfg, s)
    ensures SalesLeft(Step(cfg, s, e)) + (if Sells(cfg, s, e) then 1 else 0) <= SalesLeft(s)
    ensures SalesLeft(Step(cfg, s, e)) + (if PaysOffer(cfg, s, e) then 1 else 0) <= SalesLeft(s)
    ensures s.offer.Some? ==> Step(cfg, s, e).offer.Some?
  {
    ReachableShape(cfg, s);
    OnlyBuyingTouchesSale(cfg, s, e);
  }

  lemma OnlyBuyingTouchesSale(cfg: Config, s: State, e: Event)
    requires OfferFits(s)
    ensures var t := Step(cfg, s, e);
      && (!e.BuyOffer? ==> !Sells(cfg, s, e))
      && (!e.BuyOffer? && s.offer.Some? ==> t.offer == s.offer)
      && (e.BuyOffer? ==> t.offer.Some? == s.offer.Some?)
      && (!e.BuyOffer? && s.offer.None? && t.offer.Some? ==> t.offer.value.payment == Unpaid)
  {
  }

  /** In any run an auction is sold at most once, its offer is paid at most once, and at most one is ever created. */
  lemma {:induction false} SoldAtMostOnce(cfg: Config, s: State, es: seq<Event>)
    requires Reachable(cfg, s)
    ensures Sales(cfg, s, es) <= SalesLeft(s) <= 1
    ensures OfferPayments(cfg, s, es) <= SalesLeft(s)
    ensures Offers(cfg, s, es) <= if s.offer.Some? then 0 else 1
    decreases |es|
  {
    if es != [] {
      StepSpendsSale(cfg, s, es[0]);
      StepIsReachable(cfg, s, es[0]);
      SoldAtMostOnce(cfg, Step(cfg, s, es[0]), es[1..]);
    }
  }

  /** In every reachable sold auction the sale amount is the start price and the buyer has a paid-for reply row. */
  lemma SaleIsAtStartPrice(cfg: Config, s: State)
    requires Reachable(cfg, s) && s.auction.status == Sold
    ensures s.auction.winAmount == Some(s.auction.startPrice) && s.auction.winnerId.Some?
    ensures s.auction.winnerId.value in s.replies
    ensures s.offer.Some? && s.offer.value == PublicOffer(s.auction.startPrice, Accepted, Paid)
  {
    ReachableShape(cfg, s);
  }
}
