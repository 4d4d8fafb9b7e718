/**
 The use cases of one auction in the form the server runs them: load a record, check, change it, save it back, in the
 source's order. Each method is proved against the transition it stands for in module Lifecycle.
 */
module UseCases {
  import opened Basics
  import opened Auctions
  import opened Bidding
  import opened WinnerSelection
  import opened Payments
  import opened PublicOffers
  import opened Ranking
  import opened Lifecycle
  import opened AutoBids
  import opened LifecycleOrders
  import opened LifecycleReachable

  /** The tables of one auction, standing orders included, its job queues, the bid lock and the clock. */
  class AuctionHouse {
    var auction: Auction
    var bids: seq<Bid>
    var paid: set<UserId>
    var winners: seq<WinnerRow>
    var payments: Ledger
    var endJob: Option<EndJob>
    var fallbackJobs: set<FallbackJob>
    var offer: Option<PublicOffer>
    var replies: map<UserId, OfferReply>
    var now: int
    var lock: Option<int>
    var orders: seq<AutoBid>

    constructor (s: State)
      ensures Snapshot() == s && lock == None && orders == []
    {
      orders := [];
      auction, bids, paid, winners := s.auction, s.bids, s.paid, s.winners;
      payments, endJob, fallbackJobs := s.payments, s.endJob, s.fallbackJobs;
      offer, replies, now, lock := s.offer, s.replies, s.now, None;
    }

    function Snapshot(): State
      reads this
    {
      State(auction, bids, paid, winners, payments, endJob, fallbackJobs, offer, replies, now)
    }

    /**
     The stored record can be read back, every save going through the entity's own checks, and orders belong to paid
     participants.
     */
    predicate Valid()
      reads this
    {
      Creatable(auction) && OneOrderEach(orders) && forall c <- orders :: c.user in paid
    }

    // ----- bidding -----

    /** `quotaLeft` is the plan's answer before the lock. */
    method PlaceBid(user: UserId, amount: real, token: int, quotaLeft: bool) returns (ok: bool)
      requires Valid() && lock != Some(token)
      modifies this
      ensures Valid()
      ensures lock == old(lock)
      ensures ok <==>
        && quotaLeft && old(lock) == None && !HasActive(old(orders), user)
        && Accepts(old(BookOf(Snapshot())), user, amount, now)
      ensures Snapshot() == if quotaLeft && old(lock) == None
                            then DoBidAnswered(old(Snapshot()), user, amount, old(orders))
                            else old(Snapshot())
      ensures orders == if ok then OrdersAfter(AfterBid(old(auction), now), old(orders), now) else old(orders)
    {
      ok := false;
      if quotaLeft {
        var locked := TryLock(token);
        if locked && !HasActive(orders, user) {
          ok := PlaceBidLocked(user, amount);
          if ok {
            AnswerBid(amount, user);
          }
        }
      }
      Release(token);
    }

    /** The automatic bid service, on the rows of this auction. */
    method AnswerBid(latest: real, user: UserId)
      requires Valid()
      modifies this`auction, this`bids, this`orders
      ensures Valid()
      ensures Snapshot() == DoAnswer(old(Snapshot()), latest, user, old(orders))
      ensures orders == OrdersAfter(old(auction), old(orders), now)
    {
      var desk := new AutoBidDesk(Book(auction, bids, paid), orders);
      desk.HandlePlaced(latest, user, now);
      auction, bids, orders := desk.book.auction, desk.book.bids, desk.orders;
    }

    method SetOrder(user: UserId, max: real) returns (ok: bool)
      requires Valid()
      modifies this`orders
      ensures Valid()
      ensures ok <==> MaySetOrder(BookOf(Snapshot()), user, max)
      ensures orders == if ok then WithOrder(old(orders), AutoBid(user, max, true)) else old(orders)
    {
      var desk := new AutoBidDesk(Book(auction, bids, paid), orders);
      ok := desk.SetOrder(user, max);
      orders := desk.orders;
    }

    /** `SET key token NX`. */
    method TryLock(token: int) returns (ok: bool)
      modifies this`lock
      ensures ok <==> old(lock) == None
      ensures lock == if ok then Some(token) else old(lock)
    {
      ok := lock == None;
      if ok {
        lock := Some(token);
      }
    }

    /** Compare and delete: a request that never got the lock releases nothing. */
    method Release(token: int)
      modifies this`lock
      ensures lock == if old(lock) == Some(token) then None else old(lock)
    {
      if lock == Some(token) {
        lock := None;
      }
    }

    method PlaceBidLocked(user: UserId, amount: real) returns (ok: bool)
      requires Valid()
      modifies this`auction, this`bids
      ensures Valid()
      ensures ok <==> Accepts(old(BookOf(Snapshot())), user, amount, now)
      ensures Snapshot() == DoBid(old(Snapshot()), user, amount)
    {
      if amount <= 0.0 {
        return false;
      }
      var latest := HighestBid(bids);
      var own := NewestBidOf(bids, user);
      if user !in paid {
        return false;
      }
      if CanPlaceBid(auction, user, amount, latest, own, now) != Allowed {
        return false;
      }
      var newBid := if auction.kind == Sealed
                    then Bidding.Bid(user, 0.0, Some(Encrypted(amount)), now)
                    else Bidding.Bid(user, amount, None, now);
      if ShouldExtend(auction, auction.endAt - now) {
        auction := auction.(endAt := auction.endAt + auction.antiSnipSeconds * SECOND,
                            extensionCount := auction.extensionCount + 1);
      }
      bids := bids + [newBid];
      return true;
    }

    method Join(user: UserId)
      requires Valid()
      modifies this`paid
      ensures Valid()
      ensures paid == old(paid) + {user}
    {
      paid := paid + {user};
    }

    // ----- the seller's and the administrator's actions -----

    /** `limitsOk`: the category was found, and system configuration allows the new start price and extension count. */
    method UpdateDraft(who: UserId, edit: Edit, limitsOk: bool) returns (ok: bool)
      requires Valid()
      modifies this`auction
      ensures Valid()
      ensures Snapshot() == if limitsOk then DoUpdate(old(Snapshot()), who, edit) else old(Snapshot())
      ensures ok <==> limitsOk && old(auction).seller == who && old(auction).status == Draft && Creatable(ApplyDraft(old(auction), edit))
    {
      if auction.seller != who {
        return false;
      }
      if auction.status != Draft {
        return false;
      }
      if !limitsOk {
        return false;
      }
      var updated := Auction(auction.seller, edit.kind, edit.startPrice, edit.minIncrement, edit.startAt, edit.endAt, Draft,
                             edit.antiSnipSeconds, auction.extensionCount, edit.maxExtensionCount, edit.bidCooldownSeconds,
                             auction.winnerId, None);
      if !Creatable(updated) {
        return false;
      }
      auction := updated;
      return true;
    }

    /** `limitsOk` is what system configuration says of start price and extension count. */
    method Publish(who: UserId, limitsOk: bool) returns (ok: bool)
      requires Valid()
      modifies this`auction
      ensures Valid()
      ensures Snapshot() == if limitsOk then DoPublish(old(Snapshot()), who) else old(Snapshot())
      ensures ok <==> auction.status == Active && old(auction).status == Draft
    {
      if auction.seller != who {
        return false;
      }
      if auction.status != Draft {
        return false;
      }
      if auction.endAt <= now {
        return false;
      }
      if !limitsOk {
        return false;
      }
      auction := Restatused(auction, Active);
      return true;
    }

    method Pause(who: UserId, isAdmin: bool) returns (ok: bool)
      requires Valid()
      modifies this`auction
      ensures Valid()
      ensures Snapshot() == DoPause(old(Snapshot()), who, isAdmin)
      ensures ok <==> auction.status == Paused && old(auction).status == Active
    {
      if !isAdmin && auction.seller != who {
        return false;
      }
      if auction.status != Active {
        return false;
      }
      auction := Restatused(auction, Paused);
      return true;
    }

    method Resume(who: UserId, isAdmin: bool) returns (ok: bool)
      requires Valid()
      modifies this`auction
      ensures Valid()
      ensures Snapshot() == DoResume(old(Snapshot()), who, isAdmin)
      ensures ok <==> auction.status == Active && old(auction).status == Paused
    {
      if !isAdmin && auction.seller != who {
        return false;
      }
      if auction.status != Paused {
        return false;
      }
      auction := Restatused(auction, Active);
      return true;
    }

    /** `setStatus` on the loaded entity, then save. */
    method FailAuction() returns (ok: bool)
      requires Valid()
      modifies this`auction
      ensures Valid()
      ensures ok <==> MaySetStatus(old(auction).status, Failed)
      ensures Snapshot() == DoFail(old(Snapshot()))
    {
      var entity := new AuctionEntity(auction);
      ok := entity.SetStatus(Failed);
      if !ok {
        return;
      }
      auction := entity.Row();
    }

    // ----- ending -----

    /** `validateAndGetWinner` of the strategy for the auction's type. */
    method GetWinner() returns (pick: Pick)
      ensures pick == FirstPick(auction.kind, Listing(bids))
    {
      if auction.kind == Sealed {
        pick := ResolveSealed(Listing(bids));
      } else {
        pick := OpenPick(Listing(bids));
      }
    }

    method EndAuction(who: UserId, isAdmin: bool) returns (ok: bool)
      requires Valid()
      modifies this`auction, this`winners, this`endJob
      ensures Valid()
      ensures Snapshot() == DoEnd(old(Snapshot()), who, isAdmin)
      ensures ok <==> (isAdmin || old(auction).seller == who) && old(auction).status in {Active, Paused}
                      && FirstPick(old(auction).kind, Listing(old(bids))) != Failure
    {
      if !isAdmin && auction.seller != who {
        return false;
      }
      if auction.status != Active && auction.status != Paused {
        return false;
      }
      var pick := GetWinner();
      if pick.Failure? {
        return false;
      }
      if pick.NoWinner? {
        return true;
      }
      winners := winners + [WinnerRow(pick.user, pick.amount, 1)];
      auction := auction.(status := Ended, winnerId := Some(pick.user), winAmount := Some(pick.amount));
      endJob := Some(EndJob(pick.user, pick.amount));
      return true;
    }

    /** One iteration of the expiry sweep, for an auction the repository found overdue. */
    method EndOverdue() returns (ok: bool)
      requires Valid() && auction.endAt <= now
      modifies this`auction, this`winners, this`endJob
      ensures Valid()
      ensures Snapshot() == DoExpire(old(Snapshot()))
      ensures ok <==> !Undecidable(old(Snapshot()))
    {
      if auction.status != Active && auction.status != Paused {
        return true;
      }
      var pick := GetWinner();
      if pick.Failure? {
        return false;
      }
      if pick.Winner? {
        winners := winners + [WinnerRow(pick.user, pick.amount, 1)];
        auction := auction.(status := Ended, winnerId := Some(pick.user), winAmount := Some(pick.amount));
        endJob := Some(EndJob(pick.user, pick.amount));
      } else {
        auction := auction.(status := Ended, winnerId := None, winAmount := None);
      }
      return true;
    }

    // ----- payments -----

    /** `Payments.create`, then the insert, which the unique key and the integer column can refuse. */
    method CreatePayment(slot: Slot, amount: real) returns (ok: bool)
      modifies this`payments
      ensures ok <==> Insertable(old(payments), slot, amount)
      ensures payments == Insert(old(payments), slot, amount)
    {
      if amount <= 0.0 {
        return false;
      }
      if slot in payments || !Whole(amount) {
        return false;
      }
      payments := payments[slot := Payment(amount, Pending)];
      return true;
    }

    method CreatePendingPayments(cfg: Config, user: UserId, win: real) returns (ok: bool)
      modifies this`payments
      ensures payments == CreatePair(old(payments), user, win, cfg.depositRatio)
      ensures ok <==> HasSlot(old(payments), user) || FullPair(payments, user, win)
    {
      if Slot(user, Deposit) in payments || Slot(user, Balance) in payments {
        return true;
      }
      var deposit := DepositOf(win, cfg.depositRatio);
      ok := CreatePayment(Slot(user, Deposit), deposit);
      if !ok {
        return;
      }
      ok := CreatePayment(Slot(user, Balance), win - deposit);
    }

    /** The end job; the payments come after everybody has been notified. */
    method ProcessAuctionEnd(cfg: Config) returns (ok: bool)
      requires Valid()
      modifies this`payments
      ensures Valid()
      ensures Snapshot() == DoDeliverEnd(cfg, old(Snapshot()))
      ensures ok <==> paid == {} || endJob == None || HasSlot(old(payments), endJob.value.winner)
                      || FullPair(payments, endJob.value.winner, endJob.value.amount)
    {
      if paid == {} {
        return true;
      }
      if endJob == None {
        return true;
      }
      ok := CreatePendingPayments(cfg, endJob.value.winner, endJob.value.amount);
    }

    /** `signatureOk` is the gateway's verdict, asked for pending payments only. */
    method VerifyPayment(slot: Slot, who: UserId, signatureOk: bool) returns (ok: bool)
      requires Valid()
      modifies this`payments
      ensures Valid()
      ensures Snapshot() == if signatureOk then DoVerify(old(Snapshot()), slot, who) else old(Snapshot())
      ensures ok <==> slot in payments && slot.user == who && payments[slot].status == Completed
    {
      if slot !in payments || slot.user != who {
        return false;
      }
      if payments[slot].status == Completed {
        return true;
      }
      if payments[slot].status != Pending || !signatureOk {
        return false;
      }
      var entity := new PaymentEntity(payments[slot]);
      ok := entity.MarkAsCompleted();
      if !ok {
        return;
      }
      payments := payments[slot := entity.Row()];
    }

    /** `reportOk`: was the fraud report filed? It comes last, and undoes nothing. */
    method DeclinePayment(slot: Slot, who: UserId, reportOk: bool) returns (ok: bool)
      requires Valid()
      modifies this`payments, this`fallbackJobs
      ensures Valid()
      ensures Snapshot() == DoDecline(old(Snapshot()), slot, who)
      ensures ok <==> slot in payments && slot.user == who && payments[slot].status == Declined
                      && (old(payments) == payments || reportOk)
    {
      if slot !in payments || slot.user != who {
        return false;
      }
      if payments[slot].status == Declined {
        return true;
      }
      if payments[slot].status != Pending {
        return false;
      }
      var entity := new PaymentEntity(payments[slot]);
      var _ := entity.MarkAsDeclined();
      payments := payments[slot := entity.Row()];
      if auction.status == Ended && auction.winnerId == Some(who) {
        fallbackJobs := fallbackJobs + {FallbackJob(who, |winners|)};
      }
      return reportOk;
    }

    // ----- fallback -----

    /** The fallback strategy: cap, filter out the elected, resolve among the rest. */
    method GetFallbackWinner(cfg: Config) returns (r: Fallback)
      ensures r == Elect(cfg, Snapshot())
    {
      if |winners| >= cfg.maxRank {
        return Exhausted;
      }
      if |winners| == 0 {
        return Nobody;
      }
      var eligible := BidsOfOthers(Listing(bids), Users(Ranked(winners)));
      if eligible == [] {
        return Nobody;
      }
      var pick: Pick;
      if auction.kind == Sealed {
        pick := ResolveSealed(eligible);
      } else {
        pick := OpenPick(eligible);
      }
      match pick {
        case Failure => return Unreadable;
        case NoWinner => return Nobody;
        case Winner(u, m) => return Next(u, m, |winners| + 1);
      }
    }

    /** A delivery fails on a bid that cannot be opened, and on a new winner who ends up without the full pair. */
    predicate Succeeds(cfg: Config, s: State, job: FallbackJob, after: Ledger) {
      match Elect(cfg, s)
      case Unreadable => false
      case Next(u, m, _) => m == 0.0 || HasSlot(DeclineAll(s.payments, job.declinedUser), u) || FullPair(after, u, m)
      case _ => true
    }

    method ProcessWinnerFallback(cfg: Config, job: FallbackJob) returns (ok: bool)
      requires Valid() && job in fallbackJobs
      modifies this`auction, this`winners, this`payments
      ensures Valid()
      ensures Snapshot() == DoFallback(cfg, old(Snapshot()), job)
      ensures ok <==> (Unsettled(old(Snapshot()), job) ==> Succeeds(cfg, old(Snapshot()), job, payments))
    {
      if auction.status != Ended {
        return true;
      }
      if auction.winnerId != Some(job.declinedUser) {
        return true;
      }
      payments := DeclineAll(payments, job.declinedUser);
      var newWinner := GetFallbackWinner(cfg);
      if newWinner.Unreadable? {
        return false;
      }
      if newWinner.Exhausted? {
        auction := auction.(status := FallbackEnded, winnerId := None, winAmount := None);
        return true;
      }
      if newWinner.Nobody? || newWinner.amount == 0.0 {
        return true;
      }
      auction := auction.(winnerId := Some(newWinner.user), winAmount := Some(newWinner.amount));
      winners := winners + [WinnerRow(newWinner.user, newWinner.amount, newWinner.rank)];
      ok := CreatePendingPayments(cfg, newWinner.user, newWinner.amount);
    }

    // ----- the public offer -----

    method OfferToPublic() returns (ok: bool)
      requires Valid()
      modifies this`auction, this`offer
      ensures Valid()
      ensures Snapshot() == DoOfferPublicly(old(Snapshot()))
      ensures ok <==> old(auction).status == FallbackEnded && old(offer) == None
    {
      if auction.status != FallbackEnded {
        return false;
      }
      var entity := new AuctionEntity(auction);
      ok := entity.SetStatus(FallbackPublicNotification);
      if !ok {
        return;
      }
      if offer != None {
        return false;
      }
      offer := Some(PublicOffer(auction.startPrice, OfferPending, Unpaid));
      auction := entity.Row();
    }

    /** `orderOk`: did the gateway create the order? The reply row is saved before it is asked. */
    method OrderOffer(user: UserId, orderOk: bool) returns (ok: bool)
      requires Valid()
      modifies this`replies
      ensures Valid()
      ensures Snapshot() == DoOrder(old(Snapshot()), user)
      ensures ok <==>
        && orderOk && auction.status == FallbackPublicNotification && !WasElected(winners, user)
        && offer.Some? && offer.value.status == OfferPending && offer.value.payment == Unpaid
        && user in replies && replies[user].status != Rejected && replies[user].payment == Unpaid
    {
      if auction.status != FallbackPublicNotification {
        return false;
      }
      if exists i :: 0 <= i < |winners| && winners[i].user == user {
        return false;
      }
      if offer == None || offer.value.status != OfferPending || offer.value.payment != Unpaid {
        return false;
      }
      if user in replies {
        return replies[user].status != Rejected && replies[user].payment == Unpaid && orderOk;
      }
      replies := replies[user := OfferReply(OfferPending, Unpaid)];
      return orderOk;
    }

    /** The save's own result is not looked at, so a second reply is silently lost to the unique key. */
    method RejectOffer(user: UserId) returns (ok: bool)
      requires Valid()
      modifies this`replies
      ensures Valid()
      ensures ok <==> auction.status == FallbackPublicNotification
      ensures Snapshot() == DoReject(old(Snapshot()), user)
    {
      if auction.status != FallbackPublicNotification {
        return false;
      }
      if user !in replies {
        replies := replies[user := OfferReply(Rejected, Unpaid)];
      }
      return true;
    }

    method PayReply(user: UserId) returns (ok: bool)
      requires user in replies
      modifies this`replies
      ensures ok <==> old(replies)[user].payment == Unpaid
      ensures replies == if ok then old(replies)[user := old(replies)[user].(payment := Paid)] else old(replies)
    {
      var reply := new OfferReplyEntity(replies[user]);
      ok := reply.SetPaymentStatus(Paid);
      if !ok {
        return;
      }
      replies := replies[user := reply.Row()];
    }

    method PayOffer()
      requires offer.Some? && offer.value.payment == Unpaid
      modifies this`offer
      ensures offer == Some(PublicOffer(old(offer).value.amount, Accepted, Paid))
    {
      var publicOffer := new PublicOfferEntity(offer.value);
      var _ := publicOffer.SetPaymentStatus(Paid);
      offer := Some(publicOffer.Row());
    }

    /** Reply and offer are saved before the winner, instalment and status checks that can still fail. */
    method VerifyPublicPurchase(cfg: Config, user: UserId) returns (ok: bool)
      requires Valid()
      modifies this`auction, this`payments, this`offer, this`replies
      ensures Valid()
      ensures Snapshot() == DoBuy(cfg, old(Snapshot()), user)
      ensures ok <==>
        && old(offer).Some? && user in old(replies) && old(offer).value.payment == Unpaid && old(replies)[user].payment == Unpaid
        && CompletesSale(cfg, old(Snapshot()))
    {
      if offer == None || user !in replies {
        return false;
      }
      if offer.value.payment != Unpaid {
        return false;
      }
      var price := offer.value.amount;
      ok := PayReply(user);
      if !ok {
        return;
      }
      PayOffer();

      var entity := new AuctionEntity(auction);
      ok := entity.SetWinner(user, price);
      if !ok {
        return;
      }
      var remaining := RemainderOf(price, cfg.remainingRatio);
      if remaining <= 0.0 {
        return false;
      }
      ok := entity.SetStatus(Sold);
      if !ok {
        return;
      }
      var _ := CreatePayment(Slot(user, Balance), remaining);
      auction := entity.Row();
    }

    // ----- the system -----

    /** Every event of the transition system is one of the use cases above. */
    method Handle(cfg: Config, e: Event)
      requires Valid() && lock == None
      modifies this
      ensures Valid() && lock == None
      ensures Snapshot() == CarriedOut(cfg, old(Snapshot()), old(orders), e)
    {
      if e.DeliverEnd? || e.VerifyPayment? || e.DeclinePayment? || e.DeliverFallback? {
        HandlePayments(cfg, e);
      } else if e.OfferPublicly? || e.OrderOffer? || e.RejectOffer? || e.BuyOffer? {
        HandleOffer(cfg, e);
      } else {
        HandleAuction(cfg, e);
      }
    }

    method HandlePayments(cfg: Config, e: Event)
      requires Valid() && (e.DeliverEnd? || e.VerifyPayment? || e.DeclinePayment? || e.DeliverFallback?)
      modifies this`auction, this`winners, this`payments, this`fallbackJobs
      ensures Valid()
      ensures Snapshot() == Step(cfg, old(Snapshot()), e)
    {
      match e {
        case DeliverEnd => var _ := ProcessAuctionEnd(cfg);
        case VerifyPayment(slot, u) => var _ := VerifyPayment(slot, u, true);
        case DeclinePayment(slot, u) => var _ := DeclinePayment(slot, u, true);
        case DeliverFallback(job) => if job in fallbackJobs { var _ := ProcessWinnerFallback(cfg, job); }
      }
    }

    method HandleOffer(cfg: Config, e: Event)
      requires Valid() && (e.OfferPublicly? || e.OrderOffer? || e.RejectOffer? || e.BuyOffer?)
      modifies this`auction, this`payments, this`offer, this`replies
      ensures Valid()
      ensures Snapshot() == Step(cfg, old(Snapshot()), e)
    {
      match e {
        case OfferPublicly => var _ := OfferToPublic();
        case OrderOffer(u) => var _ := OrderOffer(u, true);
        case RejectOffer(u) => var _ := RejectOffer(u);
        case BuyOffer(u) => var _ := VerifyPublicPurchase(cfg, u);
      }
    }

    method HandleAuction(cfg: Config, e: Event)
      requires Valid() && lock == None
      requires e.UpdateDraft? || e.Publish? || e.Pause? || e.Resume? || e.Join? || e.Bid? || e.End? || e.Expire? || e.Fail? || e.Tick?
      modifies this
      ensures Valid() && lock == None
      ensures Snapshot() == CarriedOut(cfg, old(Snapshot()), old(orders), e)
    {
      match e {
        case UpdateDraft(u, d) => var _ := UpdateDraft(u, d, true);
        case Publish(u) => var _ := Publish(u, true);
        case Pause(u, admin) => var _ := Pause(u, admin);
        case Resume(u, admin) => var _ := Resume(u, admin);
        case Join(u) => Join(u);
        case Bid(u, m) => var _ := PlaceBid(u, m, 0, true);
        case End(u, admin) => var _ := EndAuction(u, admin);
        case Expire => if auction.endAt <= now { var _ := EndOverdue(); }
        case Fail => var _ := FailAuction();
        case Tick(ms) => now := now + ms;
      }
    }
  }

  /** A use case is one transition, except that a bid is followed by its answer, which is further bids. */
  function CarriedOut(cfg: Config, s: State, orders: seq<AutoBid>, e: Event): State {
    if e.Bid? then DoBidAnswered(s, e.user, e.amount, orders) else Step(cfg, s, e)
  }

  /** Whatever the use cases do, orders included, stays within the reachable states. */
  lemma CarryingOutStaysReachable(cfg: Config, s: State, orders: seq<AutoBid>, e: Event)
    requires Reachable(cfg, s) && OrdersPaid(BookOf(s), orders)
    ensures Reachable(cfg, CarriedOut(cfg, s, orders, e))
  {
    if e.Bid? {
      AnsweredStaysReachable(cfg, s, e.user, e.amount, orders);
    } else {
      StepIsReachable(cfg, s, e);
    }
  }

  /** Is this auction's winner impossible to determine? */
  predicate Undecidable(s: State) {
    s.auction.status in {Active, Paused} && FirstPick(s.auction.kind, Listing(s.bids)) == Failure
  }

  function CountUndecidable(ss: seq<State>): nat {
    if ss == [] then 0 else CountUndecidable(Init(ss)) + (if Undecidable(Last(ss)) then 1 else 0)
  }

  /** The auction is in state `s`. */
  predicate At(h: AuctionHouse, s: State)
    reads h
  {
    h.Valid() && h.Snapshot() == s
  }

  method EndOne(h: AuctionHouse, ghost s: State) returns (ok: bool)
    requires At(h, s) && s.auction.endAt <= s.now
    modifies h`auction, h`winners, h`endJob
    ensures At(h, DoExpire(s)) && ok == !Undecidable(s)
  {
    ok := h.EndOverdue();
  }

  /**
   The expiry sweep over the overdue auctions it was handed, found in the states `before`: each is closed on its own, a
   failure is counted and the sweep goes on.
   */
  method ExpireOverdue(overdue: seq<AuctionHouse>, ghost before: seq<State>) returns (ended: nat, failed: nat)
    requires forall i, j :: 0 <= i < j < |overdue| ==> overdue[i] != overdue[j]
    requires |before| == |overdue|
    requires forall i :: 0 <= i < |overdue| ==> At(overdue[i], before[i]) && before[i].auction.endAt <= before[i].now
    modifies overdue`auction, overdue`winners, overdue`endJob
    ensures ended + failed == |overdue| && failed == CountUndecidable(before)
    ensures forall i :: 0 <= i < |overdue| ==> At(overdue[i], DoExpire(before[i]))
  {
    ended, failed := 0, 0;
    for k := 0 to |overdue|
      invariant ended + failed == k && failed == CountUndecidable(before[..k])
      invariant forall i :: 0 <= i < |overdue| ==> At(overdue[i], if i < k then DoExpire(before[i]) else before[i])
    {
      var ok := EndOne(overdue[k], before[k]);
      assert before[..k + 1] == before[..k] + [before[k]];
      if ok {
        ended := ended + 1;
      } else {
        failed := failed + 1;
      }
    }
    assert before[..|overdue|] == before;
  }
}
