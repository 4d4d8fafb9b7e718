/** The automatic bids that answer a bid, as steps of the life cycle: nothing a standing order does leads anywhere new. */
module LifecycleOrders {
  import opened Basics
  import opened Auctions
  import opened Bidding
  import opened AutoBids
  import opened Lifecycle
  import opened LifecycleReachable

  /** The state after the answer to a bid of `user` at `latest`. */
  function DoAnswer(s: State, latest: real, user: UserId, orders: seq<AutoBid>): State {
    var b := Answer(BookOf(s), latest, user, orders, s.now);
    s.(auction := b.auction, bids := b.bids)
  }

  /** A bid as the server carries it out: refused while an order of the user stands, otherwise placed and answered. */
  function DoBidAnswered(s: State, user: UserId, amount: real, orders: seq<AutoBid>): State {
    if HasActive(orders, user) || !Accepts(BookOf(s), user, amount, s.now) then s
    else DoAnswer(DoBid(s, user, amount), amount, user, orders)
  }

  function BidEvents(offers: seq<Offer>): seq<Event>
    decreases |offers|
  {
    if offers == [] then [] else [Event.Bid(offers[0].user, offers[0].amount)] + BidEvents(offers[1..])
  }

  lemma {:induction false} OffersRun(cfg: Config, s: State, offers: seq<Offer>)
    ensures var b := PlaceAll(BookOf(s), offers, s.now);
      Run(cfg, s, BidEvents(offers)) == s.(auction := b.auction, bids := b.bids) && b.paid == s.paid
    decreases |offers|
  {
    if offers != [] {
      var t := DoBid(s, offers[0].user, offers[0].amount);
      assert BookOf(t) == PlaceBid(BookOf(s), offers[0].user, offers[0].amount, s.now);
      OffersRun(cfg, t, offers[1..]);
      assert BidEvents(offers)[1..] == BidEvents(offers[1..]);
    }
  }

  lemma RunStaysReachable(cfg: Config, s: State, es: seq<Event>)
    requires Reachable(cfg, s)
    ensures Reachable(cfg, Run(cfg, s, es))
  {
    var draft, before: seq<Event> :| Fresh(draft) && s == Run(cfg, draft, before);
    RunAppend(cfg, draft, before, es);
    assert Run(cfg, s, es) == Run(cfg, draft, before + es);
  }

  /** The answer is a run of bids by hand. */
  lemma AnswerIsRun(cfg: Config, s: State, latest: real, user: UserId, orders: seq<AutoBid>)
    requires Reachable(cfg, s) && OrdersPaid(BookOf(s), orders)
    ensures var offers := AnswerOffers(BookOf(s), latest, user, orders, s.now);
      DoAnswer(s, latest, user, orders) == Run(cfg, s, BidEvents(offers)) && Covered(offers, orders)
    ensures Reachable(cfg, DoAnswer(s, latest, user, orders))
  {
    var offers := AnswerOffers(BookOf(s), latest, user, orders, s.now);
    ReachableRows(cfg, s);
    AnswerIsBids(BookOf(s), latest, user, orders, s.now);
    OffersRun(cfg, s, offers);
    RunStaysReachable(cfg, s, BidEvents(offers));
  }

  /** With any orders of paid participants, a bid and its answer lead from reachable states to reachable states. */
  lemma AnsweredStaysReachable(cfg: Config, s: State, user: UserId, amount: real, orders: seq<AutoBid>)
    requires Reachable(cfg, s) && OrdersPaid(BookOf(s), orders)
    ensures Reachable(cfg, DoBidAnswered(s, user, amount, orders))
  {
    var t := DoBid(s, user, amount);
    StepIsReachable(cfg, s, Event.Bid(user, amount));
    AnswerIsRun(cfg, t, amount, user, orders);
  }

  lemma WithoutOrders(s: State, user: UserId, amount: real)
    ensures DoBidAnswered(s, user, amount, []) == DoBid(s, user, amount)
  {
  }
}
