/**
 The life of one auction as a transition system. Every use case is one step; the queue is a set of jobs that are never
 removed, so any job may be delivered late, twice or out of order.
 */
module Lifecycle {
  import opened Basics
  import opened Auctions
  import opened Bidding
  import opened Ranking
  import opened WinnerSelection
  import opened Payments
  import opened PublicOffers

  /** System configuration, fixed for a run. */
  datatype Config = Config(maxRank: int, depositRatio: real, remainingRatio: real)

  datatype WinnerRow = WinnerRow(user: UserId, amount: real, rank: int)

  /**
   A queued fallback job. `reign` is a history variable: how many winners had been elected when the current winner
   declined. No step reads it.
   */
  datatype FallbackJob = FallbackJob(declinedUser: UserId, reign: nat)

  /** The end-of-auction job; an auction that ends without a winner queues one that does nothing. */
  datatype EndJob = EndJob(winner: UserId, amount: real)

  datatype State = State(
    auction: Auction,
    bids: seq<Bid>,
    paid: set<UserId>,
    winners: seq<WinnerRow>,
    payments: Ledger,
    endJob: Option<EndJob>,
    fallbackJobs: set<FallbackJob>,
    offer: Option<PublicOffer>,
    replies: map<UserId, OfferReply>,
    now: int)

  /** The editable part of a draft. */
  datatype Edit = Edit(
    kind: Kind, startPrice: real, minIncrement: real, startAt: int, endAt: int,
    antiSnipSeconds: int, maxExtensionCount: int, bidCooldownSeconds: int)

  datatype Event =
    | UpdateDraft(who: UserId, edit: Edit)
    | Publish(who: UserId)
    | Pause(who: UserId, isAdmin: bool)
    | Resume(who: UserId, isAdmin: bool)
    | Join(user: UserId)
    | Bid(user: UserId, amount: real)
    | End(who: UserId, isAdmin: bool)
    | Expire
    | DeliverEnd
    | VerifyPayment(slot: Slot, who: UserId)
    | DeclinePayment(slot: Slot, who: UserId)
    | DeliverFallback(job: FallbackJob)
    | Fail
    | OfferPublicly
    | OrderOffer(user: UserId)
    | RejectOffer(user: UserId)
    | BuyOffer(user: UserId)
    | Tick(ms: nat)

  // ----- views -----

  function BookOf(s: State): Book {
    Book(s.auction, s.bids, s.paid)
  }

  function Board(s: State): seq<Entry> {
    Entries(s.auction.kind, Listing(s.bids))
  }

  /** The elected users and amounts, in order of rank. */
  function Ranked(ws: seq<WinnerRow>): (r: seq<Entry>)
    ensures |r| == |ws| && forall k :: 0 <= k < |ws| ==> r[k] == Entry(ws[k].user, ws[k].amount)
  {
    if ws == [] then [] else Ranked(Init(ws)) + [Entry(Last(ws).user, Last(ws).amount)]
  }

  predicate WasElected(ws: seq<WinnerRow>, u: UserId) {
    exists i :: 0 <= i < |ws| && ws[i].user == u
  }

  function Elect(cfg: Config, s: State): Fallback {
    NextWinner(cfg.maxRank, s.auction.kind, Listing(s.bids), Users(Ranked(s.winners)), |s.winners|)
  }

  // ----- before and during bidding -----

  function ApplyDraft(a: Auction, d: Edit): Auction {
    a.(kind := d.kind, startPrice := d.startPrice, minIncrement := d.minIncrement, startAt := d.startAt,
       endAt := d.endAt, antiSnipSeconds := d.antiSnipSeconds, maxExtensionCount := d.maxExtensionCount,
       bidCooldownSeconds := d.bidCooldownSeconds, winAmount := None)
  }

  function DoUpdate(s: State, who: UserId, d: Edit): State {
    if s.auction.seller == who && s.auction.status == Draft && Creatable(ApplyDraft(s.auction, d))
    then s.(auction := ApplyDraft(s.auction, d))
    else s
  }

  /** Publishing, pausing and resuming rebuild the record without its win amount. */
  function Restatused(a: Auction, to: Status): Auction {
    a.(status := to, winAmount := None)
  }

  function DoPublish(s: State, who: UserId): State {
    var a := s.auction;
    if a.seller == who && a.status == Draft && a.endAt > s.now && Creatable(a)
    then s.(auction := Restatused(a, Active))
    else s
  }

  function DoPause(s: State, who: UserId, isAdmin: bool): State {
    var a := s.auction;
    if (isAdmin || a.seller == who) && a.status == Active && Creatable(a)
    then s.(auction := Restatused(a, Paused))
    else s
  }

  function DoResume(s: State, who: UserId, isAdmin: bool): State {
    var a := s.auction;
    if (isAdmin || a.seller == who) && a.status == Paused && Creatable(a)
    then s.(auction := Restatused(a, Active))
    else s
  }

  function DoBid(s: State, user: UserId, amount: real): State {
    var b := PlaceBid(BookOf(s), user, amount, s.now);
    s.(auction := b.auction, bids := b.bids)
  }

  // ----- ending -----

  /** Elect rank 1 and close. */
  function CloseWith(s: State, user: UserId, amount: real): State {
    s.(auction := s.auction.(status := Ended, winnerId := Some(user), winAmount := Some(amount)),
       winners := s.winners + [WinnerRow(user, amount, 1)],
       endJob := Some(EndJob(user, amount)))
  }

  predicate MayEnd(s: State) {
    s.auction.status in {Active, Paused} && Creatable(s.auction)
  }

  /** Ending by hand: with no bids the use case reports success and leaves the auction running. */
  function DoEnd(s: State, who: UserId, isAdmin: bool): State {
    if (isAdmin || s.auction.seller == who) && MayEnd(s) then
      match FirstPick(s.auction.kind, Listing(s.bids))
      case Winner(u, m) => CloseWith(s, u, m)
      case _ => s
    else s
  }

  /** The expiry sweep also closes an auction nobody bid on. */
  function DoExpire(s: State): State {
    if MayEnd(s) && s.auction.endAt <= s.now then
      match FirstPick(s.auction.kind, Listing(s.bids))
      case Winner(u, m) => CloseWith(s, u, m)
      case NoWinner => s.(auction := s.auction.(status := Ended, winnerId := None, winAmount := None))
      case Failure => s
    else s
  }

  /** The end job creates the first winner's payments. */
  function DoDeliverEnd(cfg: Config, s: State): State {
    if s.endJob.Some? && s.paid != {}
    then s.(payments := CreatePair(s.payments, s.endJob.value.winner, s.endJob.value.amount, cfg.depositRatio))
    else s
  }

  // ----- payments and fallback -----

  function DoVerify(s: State, slot: Slot, who: UserId): State {
    if slot in s.payments && slot.user == who && s.payments[slot].status == Pending
    then s.(payments := s.payments[slot := s.payments[slot].(status := Completed)])
    else s
  }

  /** Declining a pending payment queues a fallback job while its user is the winner of the ended auction. */
  function DoDecline(s: State, slot: Slot, who: UserId): State {
    if slot in s.payments && slot.user == who && s.payments[slot].status == Pending then
      var t := s.(payments := s.payments[slot := s.payments[slot].(status := Declined)]);
      if s.auction.status == Ended && s.auction.winnerId == Some(who)
      then t.(fallbackJobs := s.fallbackJobs + {FallbackJob(who, |s.winners|)})
      else t
    else s
  }

  /** Seat the newly elected winner: auction record, winner row, payments, in that order. */
  function Seat(cfg: Config, s: State, user: UserId, amount: real, rank: int): State {
    s.(auction := s.auction.(winnerId := Some(user), winAmount := Some(amount)),
       winners := s.winners + [WinnerRow(user, amount, rank)],
       payments := CreatePair(s.payments, user, amount, cfg.depositRatio))
  }

  /** Is this the job of the winner who still sits? */
  predicate Unsettled(s: State, job: FallbackJob) {
    job in s.fallbackJobs && s.auction.status == Ended && s.auction.winnerId == Some(job.declinedUser)
  }

  function DoFallback(cfg: Config, s: State, job: FallbackJob): State {
    if Unsettled(s, job) then
      var t := s.(payments := DeclineAll(s.payments, job.declinedUser));
      match Elect(cfg, s)
      case Exhausted =>
        if Creatable(s.auction)
        then t.(auction := s.auction.(status := FallbackEnded, winnerId := None, winAmount := None))
        else t
      case Nobody => t
      case Unreadable => t
      case Next(u, m, rank) => if m == 0.0 || !Creatable(s.auction) then t else Seat(cfg, t, u, m, rank)
    else s
  }

  // ----- failing and the public offer -----

  function DoFail(s: State): State {
    if MaySetStatus(s.auction.status, Failed) then s.(auction := s.auction.(status := Failed)) else s
  }

  function DoOfferPublicly(s: State): State {
    if s.auction.status == FallbackEnded && s.offer == None
    then s.(auction := s.auction.(status := FallbackPublicNotification),
            offer := Some(PublicOffer(s.auction.startPrice, OfferPending, Unpaid)))
    else s
  }

  /** A user who was never elected asks for a payment order and gets a reply row, once. */
  function DoOrder(s: State, user: UserId): State {
    if s.auction.status == FallbackPublicNotification && !WasElected(s.winners, user)
      && s.offer.Some? && s.offer.value.status == OfferPending && s.offer.value.payment == Unpaid
      && user !in s.replies
    then s.(replies := s.replies[user := OfferReply(OfferPending, Unpaid)])
    else s
  }

  /** A refusal is stored unless the user already has a reply row. */
  function DoReject(s: State, user: UserId): State {
    if s.auction.status == FallbackPublicNotification && user !in s.replies
    then s.(replies := s.replies[user := OfferReply(Rejected, Unpaid)])
    else s
  }

  /** Can the verified purchase reach its last save? */
  predicate CompletesSale(cfg: Config, s: State)
    requires s.offer.Some?
  {
    && MaySetWinner(s.auction, s.offer.value.amount)
    && RemainderOf(s.offer.value.amount, cfg.remainingRatio) > 0.0
    && MaySetStatus(s.auction.status, Sold)
  }

  /** Verify a public purchase. The replies and offer rows are saved before the later guards are tried. */
  function DoBuy(cfg: Config, s: State, user: UserId): State {
    if s.offer.Some? && user in s.replies && s.offer.value.payment == Unpaid && s.replies[user].payment == Unpaid then
      var price := s.offer.value.amount;
      var t := s.(replies := s.replies[user := s.replies[user].(payment := Paid)],
                  offer := Some(PublicOffer(price, Accepted, Paid)));
      if CompletesSale(cfg, s)
      then t.(auction := s.auction.(status := Sold, winnerId := Some(user), winAmount := Some(price)),
              payments := Insert(s.payments, Slot(user, Balance), RemainderOf(price, cfg.remainingRatio)))
      else t
    else s
  }

  // ----- the system -----

  function Step(cfg: Config, s: State, e: Event): State {
    match e
    case UpdateDraft(u, d) => DoUpdate(s, u, d)
    case Publish(u) => DoPublish(s, u)
    case Pause(u, admin) => DoPause(s, u, admin)
    case Resume(u, admin) => DoResume(s, u, admin)
    case Join(u) => s.(paid := s.paid + {u})
    case Bid(u, m) => DoBid(s, u, m)
    case End(u, admin) => DoEnd(s, u, admin)
    case Expire => DoExpire(s)
    case DeliverEnd => DoDeliverEnd(cfg, s)
    case VerifyPayment(slot, u) => DoVerify(s, slot, u)
    case DeclinePayment(slot, u) => DoDecline(s, slot, u)
    case DeliverFallback(job) => DoFallback(cfg, s, job)
    case Fail => DoFail(s)
    case OfferPublicly => DoOfferPublicly(s)
    case OrderOffer(u) => DoOrder(s, u)
    case RejectOffer(u) => DoReject(s, u)
    case BuyOffer(u) => DoBuy(cfg, s, u)
    case Tick(ms) => s.(now := s.now + ms)
  }

  function Run(cfg: Config, s: State, es: seq<Event>): State
    decreases |es|
  {
    if es == [] then s else Run(cfg, Step(cfg, s, es[0]), es[1..])
  }

  /** A freshly created draft. */
  predicate Fresh(s: State) {
    && s.auction.status == Draft && Creatable(s.auction)
    && s.auction.winnerId == None && s.auction.winAmount == None
    && s.bids == [] && s.winners == [] && s.payments == map[] && s.endJob == None && s.fallbackJobs == {}
    && s.offer == None && s.replies == map[]
  }
}
