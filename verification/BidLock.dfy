/**
 The bidding critical section under every interleaving (src/application/usecases/auction/placeBid.usecase.ts,
 src/infrastructure/services/lock/bid.lock.service.ts, src/infrastructure/services/auction/autoBid.service.ts).

 Each request is a call with its own lock token. Once its own bid is stored it answers it with automatic bids, still
 inside the section and on the record it has read. Between two of its awaits any other call may run, the clock may
 advance, a user may join, and standing orders may be set or withdrawn. Use cases that take no lock (pause, resume,
 end, fail, ...) are writers: they load the record, and later store ALL of it back with another status and winner, end
 time and extension count included.
 */
module BidLock {
  import opened Basics
  import opened Auctions
  import opened Bidding
  import opened AutoBids

  /** A call's identity is also its lock token: every call generates a fresh one. */
  type CallId = int
  type WriterId = int
  type AskId = int

  /**
   The answer in progress: the version of the record, the amount to outbid and whose it is, the paid participants as
   read, and the orders still to come, of which there is at most one inside the anti-snipe window.
   */
  datatype Reply = Reply(
    record: Auction, amount: real, last: UserId, payers: set<UserId>, queue: seq<AutoBid>, topOnly: bool)

  /** Where a call stands, with what it has read so far. */
  datatype Stage =
    | Waiting
    | Locked
    | Cleared
    | SawAuction(seen: Auction)
    | SawLatest(seen: Auction, latest: Option<Bid>)
    | SawOwn(seen: Auction, latest: Option<Bid>, own: Option<Bid>)
    | Extending(before: Auction, bid: Bid)
    | Appending(before: Auction, bid: Bid)
    | Answering(reply: Reply)
    | Choosing(reply: Reply)
    | Replying(reply: Reply)
    | Weighing(reply: Reply, order: AutoBid, latest: Option<Bid>)
    | ReplyExtending(reply: Reply, bid: Bid)
    | ReplyAppending(reply: Reply, bid: Bid)
    | Leaving
    | Left

  datatype Call = Call(user: UserId, amount: real, stage: Stage)

  /** What a use case that takes no lock is about; it fixes the status it demands and the one it stores. */
  datatype Purpose = Pausing | Resuming | Closing | FallingBack | Offering | Failing | Selling

  datatype Writer = Writer(purpose: Purpose, record: Auction)

  /** `writers` have loaded the record and not stored it yet, `asks` have been allowed an order and not stored it yet. */
  datatype World = World(
    book: Book, lock: Option<CallId>, calls: map<CallId, Call>, writers: map<WriterId, Writer>,
    orders: seq<AutoBid>, asks: map<AskId, AutoBid>, now: int)

  datatype Event =
    | Arrive(id: CallId, user: UserId, amount: real)
    | Advance(id: CallId)
    | GiveUp(id: CallId)
    | Join(joiner: UserId)
    | Load(writer: WriterId, purpose: Purpose)
    | Store(writer: WriterId, status: Status, winnerId: Option<UserId>, winAmount: Option<real>)
    | Ask(ask: AskId, asker: UserId, max: real)
    | Stand(ask: AskId)
    | Withdraw(owner: UserId)
    | Tick(ms: nat)

  predicate InCritical(s: Stage) {
    !s.Waiting? && !s.Leaving? && !s.Left?
  }

  predicate Reading(s: Stage) {
    s.SawAuction? || s.SawLatest? || s.SawOwn?
  }

  /** The call's own bid is stored and it is answering it. */
  predicate InReply(s: Stage) {
    s.Answering? || s.Choosing? || s.Replying? || s.Weighing? || s.ReplyExtending? || s.ReplyAppending?
  }

  /** About to save an extended record, and about to create a bid row. */
  predicate Saving(s: Stage) {
    s.Extending? || s.ReplyExtending?
  }

  predicate Creating(s: Stage) {
    s.Appending? || s.ReplyAppending?
  }

  /** The stages in which a call goes by a version of the record it has read. */
  predicate Informed(s: Stage) {
    Reading(s) || s.Extending? || s.Appending? || InReply(s)
  }

  /** The version the current bid is or was decided on. */
  function Held(s: Stage): Auction
    requires Informed(s)
  {
    if Reading(s) then s.seen else if InReply(s) then s.reply.record else s.before
  }

  /** The version the call last read or saved. */
  function Version(s: Stage): Auction
    requires Informed(s)
  {
    if Creating(s) then AfterBid(Held(s), s.bid.createdAt) else Held(s)
  }

  // ----- transitions -----

  /** The synchronous tail of the section: participant check, policy, extension decision. */
  function Decide(call: Call, paid: set<UserId>, now: int): Stage
    requires call.stage.SawOwn?
  {
    var s := call.stage;
    if call.amount > 0.0 && call.user in paid
      && CanPlaceBid(s.seen, call.user, call.amount, s.latest, s.own, now) == Allowed
      && Creatable(AfterBid(s.seen, now))
    then
      var bid := NewBid(s.seen, call.user, call.amount, now);
      if ShouldExtend(s.seen, s.seen.endAt - now) then Extending(s.seen, bid) else Appending(s.seen, bid)
    else
      Leaving
  }

  /** The list of orders is read once; inside the anti-snipe window only its first order counts. */
  function Queued(r: Reply, orders: seq<AutoBid>, now: int): Reply {
    var listed := Listed(orders);
    if InWindow(r.record, now)
    then r.(queue := if listed == [] then [] else [listed[0]], topOnly := true)
    else r.(queue := listed, topOnly := false)
  }

  /** The first order inside the window is tried as it is; the loop skips the last bidder and whoever has not paid. */
  predicate Considers(r: Reply, c: AutoBid) {
    r.topOnly || (c.user != r.last && c.user in r.payers)
  }

  function DecideReply(r: Reply, c: AutoBid, latest: Option<Bid>, own: Option<Bid>, now: int): Stage {
    var amount := NextMin(r.record, r.amount);
    if amount <= c.max
      && CanPlaceBid(r.record, c.user, amount, latest, own, now) == Allowed
      && Creatable(AfterBid(r.record, now))
    then
      var bid := NewBid(r.record, c.user, amount, now);
      if ShouldExtend(r.record, r.record.endAt - now) then ReplyExtending(r, bid) else ReplyAppending(r, bid)
    else
      Replying(r)
  }

  /** What the call does next in the state it finds. */
  function StageFrom(w: World, call: Call): Stage {
    match call.stage
    case Waiting => if w.lock == None then Locked else Leaving
    case Locked => if HasActive(w.orders, call.user) then Leaving else Cleared
    case Cleared => SawAuction(w.book.auction)
    case SawAuction(a) => SawLatest(a, HighestBid(w.book.bids))
    case SawLatest(a, l) => SawOwn(a, l, NewestBidOf(w.book.bids, call.user))
    case SawOwn(_, _, _) => Decide(call, w.book.paid, w.now)
    case Extending(a, bid) => Appending(a, bid)
    case Appending(a, bid) => Answering(Reply(AfterBid(a, bid.createdAt), bid.amount, call.user, {}, [], false))
    case Answering(r) => if r.record.kind != Long then Leaving else Choosing(r.(payers := w.book.paid))
    case Choosing(r) => Replying(Queued(r, w.orders, w.now))
    case Replying(r) =>
      if r.queue == [] then Leaving
      else
        var rest := r.(queue := r.queue[1..]);
        if Considers(r, r.queue[0]) then Weighing(rest, r.queue[0], HighestBid(w.book.bids)) else Replying(rest)
    case Weighing(r, c, l) => DecideReply(r, c, l, NewestBidOf(w.book.bids, c.user), w.now)
    case ReplyExtending(r, bid) => ReplyAppending(r, bid)
    case ReplyAppending(r, bid) =>
      Replying(r.(record := AfterBid(r.record, bid.createdAt), amount := bid.amount, last := bid.user))
    case Leaving => Left
    case Left => Left
  }

  function NextStage(w: World, id: CallId): Stage
    requires id in w.calls
  {
    StageFrom(w, w.calls[id])
  }

  /** `SET key token NX` on entry, compare-and-delete in the `finally` block. */
  function NextLock(w: World, id: CallId): Option<CallId>
    requires id in w.calls
  {
    match w.calls[id].stage
    case Waiting => if w.lock == None then Some(id) else w.lock
    case Leaving => if w.lock == Some(id) then None else w.lock
    case _ => w.lock
  }

  function NextBook(w: World, id: CallId): Book
    requires id in w.calls
  {
    var s := w.calls[id].stage;
    if Saving(s) then w.book.(auction := Extended(Held(s)))
    else if Creating(s) then w.book.(bids := w.book.bids + [s.bid])
    else w.book
  }

  /** After the one automatic bid inside the window all orders end. */
  function NextOrders(w: World, id: CallId): seq<AutoBid>
    requires id in w.calls
  {
    var s := w.calls[id].stage;
    if s.Replying? && s.reply.queue == [] && s.reply.topOnly then AllWithdrawn(w.orders) else w.orders
  }

  /** Where a failed read leaves a call: out, except that the loop over the orders goes on to the next one. */
  function Dropped(s: Stage): Stage {
    match s
    case Replying(r) => if r.topOnly || r.queue == [] then Leaving else Replying(r.(queue := r.queue[1..]))
    case Weighing(r, _, _) => if r.topOnly then Leaving else Replying(r)
    case _ => if s.Waiting? || s.Locked? || s.Cleared? || Reading(s) || s.Answering? || s.Choosing? then Leaving else s
  }

  /** What the writer may store: its use case fixes the status it demands, the new one, and what becomes of the winner. */
  predicate MayStore(p: Writer, to: Status, winnerId: Option<UserId>, winAmount: Option<real>) {
    var a := p.record;
    match p.purpose
    case Pausing => a.status == Active && to == Paused && winnerId == a.winnerId && winAmount == None
    case Resuming => a.status == Paused && to == Active && winnerId == a.winnerId && winAmount == None
    case Closing => a.status in {Active, Paused} && to == Ended && (winnerId.Some? <==> winAmount.Some?)
    case FallingBack =>
      && a.status == Ended
      && (|| (to == Ended && winnerId.Some? && winAmount.Some?)
          || (to == FallbackEnded && winnerId.None? && winAmount.None?))
    case Offering =>
      a.status == FallbackEnded && to == FallbackPublicNotification && winnerId == a.winnerId && winAmount == a.winAmount
    case Failing => MaySetStatus(a.status, Failed) && to == Failed && winnerId == a.winnerId && winAmount == a.winAmount
    case Selling => MaySetStatus(a.status, Sold) && to == Sold && winnerId.Some? && winAmount.Some?
  }

  /** The event is a writer storing the record it loaded. */
  predicate Stores(w: World, e: Event) {
    e.Store? && e.writer in w.writers && MayStore(w.writers[e.writer], e.status, e.winnerId, e.winAmount)
  }

  /** The record a writer stores: what it loaded, with the fields it decided on. */
  function Rewritten(seen: Auction, status: Status, winnerId: Option<UserId>, winAmount: Option<real>): Auction {
    seen.(status := status, winnerId := winnerId, winAmount := winAmount)
  }

  function StoredRecord(w: World, e: Event): Auction
    requires Stores(w, e)
  {
    Rewritten(w.writers[e.writer].record, e.status, e.winnerId, e.winAmount)
  }

  function Moved(w: World, id: CallId): World
    requires id in w.calls
  {
    w.(book := NextBook(w, id), lock := NextLock(w, id), orders := NextOrders(w, id),
       calls := w.calls[id := w.calls[id].(stage := NextStage(w, id))])
  }

  /** One step of any participant; an event that is not enabled changes nothing. */
  function Step(w: World, e: Event): World {
    match e
    case Arrive(id, user, amount) =>
      if id in w.calls then w else w.(calls := w.calls[id := Call(user, amount, Waiting)])
    case Advance(id) => if id in w.calls then Moved(w, id) else w
    case GiveUp(id) =>
      if id in w.calls then w.(calls := w.calls[id := w.calls[id].(stage := Dropped(w.calls[id].stage))]) else w
    case Join(u) => w.(book := w.book.(paid := w.book.paid + {u}))
    case Load(wid, p) => w.(writers := w.writers[wid := Writer(p, w.book.auction)])
    case Store(wid, _, _, _) =>
      if Stores(w, e) then w.(book := w.book.(auction := StoredRecord(w, e)), writers := w.writers - {wid}) else w
    case Ask(k, u, m) => if MaySetOrder(w.book, u, m) then w.(asks := w.asks[k := AutoBid(u, m, true)]) else w
    case Stand(k) => if k in w.asks then w.(orders := WithOrder(w.orders, w.asks[k]), asks := w.asks - {k}) else w
    case Withdraw(u) => w.(orders := Withdrawn(w.orders, u))
    case Tick(ms) => w.(now := w.now + ms)
  }

  function Run(w: World, es: seq<Event>): World
    decreases |es|
  {
    if es == [] then w else Run(Step(w, es[0]), es[1..])
  }

  lemma RunOne(w: World, e: Event, rest: seq<Event>)
    ensures Run(w, [e] + rest) == Run(Step(w, e), rest)
  {
    assert ([e] + rest)[1..] == rest;
  }

  lemma {:induction false} RunAppend(w: World, a: seq<Event>, b: seq<Event>)
    ensures Run(w, a + b) == Run(Run(w, a), b)
    decreases |a|
  {
    if a == [] {
      assert a + b == b;
    } else {
      RunAppend(Step(w, a[0]), a[1..], b);
      assert (a + b)[1..] == a[1..] + b;
    }
  }

  // ----- the horizon: what every version of the record agrees on -----

  /** The record with all its extensions used up. */
  function Horizon(a: Auction): Auction {
    a.(endAt := Deadline(a), extensionCount := a.maxExtensionCount)
  }

  function Far(b: Book): Book {
    b.(auction := Horizon(b.auction))
  }

  /** Two versions of one record: they differ in status, winner and number of extensions only. */
  predicate Kin(a: Auction, c: Auction) {
    Creatable(a) && BaseEnd(a) == BaseEnd(c) && Terms(Horizon(a)) == Terms(Horizon(c))
  }

  lemma KinFacts(a: Auction, c: Auction)
    requires Kin(a, c)
    ensures SameRules(a, c) && Deadline(a) == Deadline(c) && a.endAt <= Deadline(c)
  {
    TermsAgree(Horizon(a), Horizon(c));
    EndBeforeDeadline(a);
  }

  /** All extensions are worth the same, so an extended record is kin to the one before. */
  lemma ExtendedIsKin(a: Auction)
    requires Creatable(Extended(a)) && a.antiSnipSeconds > 0
    ensures Kin(Extended(a), a)
  {
    var s := a.antiSnipSeconds * SECOND;
    assert (a.extensionCount + 1) * s == a.extensionCount * s + s;
    var left := a.maxExtensionCount - a.extensionCount;
    assert (left - 1) * s == left * s - s;
  }

  // ----- safety -----

  /** Who is still to be asked has an order, and whoever has one has paid. */
  predicate ReplyOk(b: Book, s: Stage)
    requires InReply(s)
  {
    && s.reply.payers <= b.paid
    && (!s.Answering? ==> s.reply.record.kind == Long)
    && (forall c <- s.reply.queue :: c.active && c.user in b.paid)
    && (s.Weighing? ==> s.order.active && s.order.user in b.paid && s.latest == HighestBid(b.bids))
  }

  /** The bids a reading call has read, as stored. */
  predicate BidsAsRead(b: Book, call: Call) {
    match call.stage
    case SawLatest(_, l) => l == HighestBid(b.bids)
    case SawOwn(_, l, o) => l == HighestBid(b.bids) && o == NewestBidOf(b.bids, call.user)
    case _ => true
  }

  /**
   What a call inside the section has read: bids exactly as stored, the record as some version of the stored one. A
   validated bid fits the stored history.
   */
  predicate Current(w: World, call: Call) {
    var b, s := w.book, call.stage;
    && (Informed(s) ==> Kin(Version(s), b.auction))
    && BidsAsRead(b, call)
    && (Saving(s) ==>
          ShouldExtend(Held(s), Held(s).endAt - s.bid.createdAt) && Held(s).status == Active)
    && (Saving(s) || Creating(s) ==> Fits(Far(b), s.bid, w.now))
    && (InReply(s) ==> ReplyOk(b, s))
  }

  predicate Exclusive(w: World) {
    && (forall id <- w.calls :: InCritical(w.calls[id].stage) ==> w.lock == Some(id))
    && (w.lock.Some? ==>
          (w.lock.value in w.calls
           && (InCritical(w.calls[w.lock.value].stage) || w.calls[w.lock.value].stage.Leaving?)))
  }

  /** Orders, stored or about to be, belong to paid participants, one each. */
  predicate OrdersOk(w: World) {
    && OrdersPaid(w.book, w.orders) && OneOrderEach(w.orders)
    && (forall k <- w.asks :: w.asks[k].active && w.asks[k].user in w.book.paid)
  }

  predicate Safe(w: World) {
    && Creatable(w.book.auction)
    && Sound(Far(w.book), w.now)
    && Exclusive(w)
    && (forall id <- w.calls :: Current(w, w.calls[id]))
    && (forall wid <- w.writers :: Kin(w.writers[wid].record, w.book.auction))
    && OrdersOk(w)
  }

  /** Clock, participants, orders, writers and the version of the record may move without a call noticing. */
  lemma DriftKeepsSafe(w: World, v: World)
    requires Safe(w) && v.calls == w.calls && v.lock == w.lock && w.now <= v.now && OrdersOk(v)
    requires w.book.bids == v.book.bids && w.book.paid <= v.book.paid && Kin(v.book.auction, w.book.auction)
    requires forall wid <- v.writers :: Kin(v.writers[wid].record, w.book.auction)
    ensures Safe(v)
  {
    Drift(Far(w.book), Far(v.book), w.now, v.now);
    forall id | id in v.calls ensures Current(v, v.calls[id]) {
      assert Current(w, w.calls[id]);
    }
  }

  /** Using up the extensions rules out no bid. */
  lemma AcceptedAtHorizon(b: Book, user: UserId, amount: real, now: int)
    requires Accepts(b, user, amount, now) && Creatable(b.auction)
    ensures Accepts(Far(b), user, amount, now)
    ensures NewBid(Far(b).auction, user, amount, now) == NewBid(b.auction, user, amount, now)
  {
    EndBeforeDeadline(b.auction);
    assert AfterBid(Far(b).auction, now) == Far(b).auction;
  }

  /** A bid accepted on ANY version of the record fits the stored history, up to the hard deadline. */
  lemma AcceptedFits(b: Book, seen: Auction, user: UserId, amount: real, now: int)
    requires Sound(Far(b), now) && Kin(seen, b.auction) && Accepts(b.(auction := seen), user, amount, now)
    ensures Fits(Far(b), NewBid(seen, user, amount, now), now)
  {
    var asSeen := b.(auction := seen);
    AcceptedAtHorizon(asSeen, user, amount, now);
    Drift(Far(b), Far(asSeen), now, now);
    AllowedFits(Far(asSeen), user, amount, now);
    Drift(Far(asSeen), Far(b), now, now);
  }

  lemma BidFits(b: Book, seen: Auction, user: UserId, amount: real, now: int)
    requires Sound(Far(b), now) && Kin(seen, b.auction) && Accepts(b.(auction := seen), user, amount, now)
    ensures Fits(Far(b), NewBid(seen, user, amount, now), now) && Kin(AfterBid(seen, now), b.auction)
  {
    AcceptedFits(b, seen, user, amount, now);
    if ShouldExtend(seen, seen.endAt - now) {
      ExtendedIsKin(seen);
    }
  }

  /** A bid by hand, validated on what the call has read. */
  lemma DecideFits(w: World, id: CallId)
    requires Sound(Far(w.book), w.now) && id in w.calls && w.calls[id].stage.SawOwn? && Current(w, w.calls[id])
    ensures var s := Decide(w.calls[id], w.book.paid, w.now); Current(w, w.calls[id].(stage := s))
  {
    var call := w.calls[id];
    assert Current(w, call);
    var seen := call.stage.seen;
    var s := Decide(call, w.book.paid, w.now);
    if Accepts(w.book.(auction := seen), call.user, call.amount, w.now) {
      BidFits(w.book, seen, call.user, call.amount, w.now);
      assert (s.Extending? || s.Appending?) && s.before == seen && s.bid == NewBid(seen, call.user, call.amount, w.now);
    } else {
      assert s == Leaving;
    }
  }

  /** An automatic bid decided on what the call has read is one its owner could place by hand. */
  lemma ReplyIsAccepted(b: Book, r: Reply, c: AutoBid, now: int)
    requires Kin(r.record, b.auction) && Sound(Far(b), now) && r.record.kind == Long && c.user in b.paid
    requires AutoAccepts(b.(auction := r.record), c, r.amount, now)
    ensures Accepts(b.(auction := r.record), c.user, NextMin(r.record, r.amount), now)
  {
    var h := HighestBid(b.bids);
    if h.Some? {
      var i :| 0 <= i < |b.bids| && b.bids[i] == h.value;
      KinFacts(r.record, b.auction);
      assert 0.0 < Worth(b.auction.kind, b.bids[i]) == h.value.amount;
    }
  }

  lemma ReplyBidFits(b: Book, r: Reply, c: AutoBid, now: int)
    requires Kin(r.record, b.auction) && Sound(Far(b), now) && r.record.kind == Long && c.user in b.paid
    requires AutoAccepts(b.(auction := r.record), c, r.amount, now)
    ensures Fits(Far(b), NewBid(r.record, c.user, NextMin(r.record, r.amount), now), now)
    ensures Kin(AfterBid(r.record, now), b.auction)
  {
    ReplyIsAccepted(b, r, c, now);
    AcceptedFits(b, r.record, c.user, NextMin(r.record, r.amount), now);
    if ShouldExtend(r.record, r.record.endAt - now) {
      ExtendedIsKin(r.record);
    }
  }

  /** An automatic bid, validated on the record and orders the call has read. */
  lemma DecideReplyFits(w: World, id: CallId)
    requires Sound(Far(w.book), w.now) && id in w.calls && w.calls[id].stage.Weighing? && Current(w, w.calls[id])
    ensures Current(w, w.calls[id].(stage := NextStage(w, id)))
  {
    var call := w.calls[id];
    assert Current(w, call);
    var r, c := call.stage.reply, call.stage.order;
    var s := NextStage(w, id);
    if AutoAccepts(w.book.(auction := r.record), c, r.amount, w.now) {
      ReplyBidFits(w.book, r, c, w.now);
      assert (s.ReplyExtending? || s.ReplyAppending?) && s.reply == r;
      assert s.bid == NewBid(r.record, c.user, NextMin(r.record, r.amount), w.now);
    } else {
      assert s == Replying(r);
    }
  }

  lemma AdvanceKeepsExclusive(w: World, id: CallId)
    requires Exclusive(w) && id in w.calls
    ensures Exclusive(Step(w, Advance(id)))
  {
  }

  /** What saving the extension and creating the bid row do to the history. */
  lemma WritesKeepSound(w: World, id: CallId)
    requires Creatable(w.book.auction) && Sound(Far(w.book), w.now) && id in w.calls && Current(w, w.calls[id])
    ensures var v := Step(w, Advance(id));
      Creatable(v.book.auction) && Kin(v.book.auction, w.book.auction) && Sound(Far(v.book), v.now)
  {
    var v := Step(w, Advance(id));
    var s := w.calls[id].stage;
    assert Current(w, w.calls[id]);
    if Saving(s) {
      ExtendedIsKin(Held(s));
      Drift(Far(w.book), Far(v.book), w.now, v.now);
    } else if Creating(s) {
      AppendKeepsSound(Far(w.book), Far(w.book).auction, s.bid, w.now);
      assert Far(v.book) == Book(Far(w.book).auction, w.book.bids + [s.bid], w.book.paid);
    }
  }

  /** Saving the extension or creating the row: the call goes by the version it has just saved. */
  lemma OwnWriteIsCurrent(w: World, id: CallId)
    requires id in w.calls && (Saving(w.calls[id].stage) || Creating(w.calls[id].stage)) && Current(w, w.calls[id])
    ensures var v := Step(w, Advance(id)); Current(v, v.calls[id])
  {
    var v := Step(w, Advance(id));
    var s := w.calls[id].stage;
    assert Current(w, w.calls[id]);
    if Saving(s) {
      ExtendedIsKin(Held(s));
      Drift(Far(w.book), Far(v.book), w.now, v.now);
      assert Version(v.calls[id].stage) == v.book.auction;
    } else {
      assert Version(v.calls[id].stage) == Version(s) && v.book.auction == w.book.auction;
    }
  }

  /** Reading the orders, or the next one. */
  lemma OwnReplyIsCurrent(w: World, id: CallId)
    requires id in w.calls && Current(w, w.calls[id]) && OrdersOk(w)
    requires w.calls[id].stage.Answering? || w.calls[id].stage.Choosing? || w.calls[id].stage.Replying?
    ensures var v := Step(w, Advance(id)); Current(v, v.calls[id])
  {
    var r := w.calls[id].stage.reply;
    var next := NextStage(w, id);
    assert InReply(next) ==> next.reply.record == r.record && Version(next) == r.record;
  }

  lemma OwnReadIsCurrent(w: World, id: CallId)
    requires Creatable(w.book.auction) && id in w.calls && Current(w, w.calls[id])
    requires var s := w.calls[id].stage; !s.SawOwn? && !Saving(s) && !Creating(s) && !InReply(s)
    ensures var v := Step(w, Advance(id)); Current(v, v.calls[id])
  {
    assert Step(w, Advance(id)).book == w.book && !InReply(NextStage(w, id));
  }

  lemma OwnStepIsCurrent(w: World, id: CallId)
    requires Creatable(w.book.auction) && Sound(Far(w.book), w.now) && OrdersOk(w)
    requires id in w.calls && Current(w, w.calls[id])
    ensures var v := Step(w, Advance(id)); Current(v, v.calls[id])
  {
    var v := Step(w, Advance(id));
    var s := w.calls[id].stage;
    if s.SawOwn? {
      DecideFits(w, id);
    } else if s.Weighing? {
      DecideReplyFits(w, id);
    } else if Saving(s) || Creating(s) {
      OwnWriteIsCurrent(w, id);
    } else if InReply(s) {
      OwnReplyIsCurrent(w, id);
    } else {
      OwnReadIsCurrent(w, id);
    }
  }

  /** The other calls are outside the section whenever this one writes. */
  lemma OthersStayCurrent(w: World, id: CallId, other: CallId)
    requires Safe(w) && id in w.calls && other in w.calls && other != id
    ensures var v := Step(w, Advance(id)); other in v.calls && Current(v, v.calls[other])
  {
    assert Current(w, w.calls[other]);
  }

  lemma AdvanceKeepsSafe(w: World, id: CallId)
    requires Safe(w) && id in w.calls
    ensures Safe(Step(w, Advance(id)))
  {
    var v := Step(w, Advance(id));
    AdvanceKeepsExclusive(w, id);
    assert Current(w, w.calls[id]);
    WritesKeepSound(w, id);
    OwnStepIsCurrent(w, id);
    OrdersStayOk(w, Advance(id));
    forall other | other in v.calls ensures Current(v, v.calls[other]) {
      if other != id {
        OthersStayCurrent(w, id, other);
      }
    }
  }

  lemma DroppedIsCurrent(w: World, call: Call)
    requires Current(w, call)
    ensures Current(w, call.(stage := Dropped(call.stage)))
  {
  }

  /** A call that arrives knows nothing yet; one that gives up a read knows no more than before. */
  lemma CallsComeAndGo(w: World, e: Event)
    requires Safe(w) && (e.Arrive? || e.GiveUp?)
    ensures Safe(Step(w, e))
  {
    var v := Step(w, e);
    assert v == w.(calls := v.calls);
    assert Exclusive(v) by { GivingUpKeepsExclusive(w, e); }
    forall id | id in v.calls ensures Current(v, v.calls[id]) {
      if id in w.calls {
        assert Current(w, w.calls[id]);
        DroppedIsCurrent(w, w.calls[id]);
        assert Current(w, v.calls[id]);
      }
      SameKnowledge(w, v, v.calls[id]);
    }
  }

  lemma GivingUpKeepsExclusive(w: World, e: Event)
    requires Exclusive(w) && (e.Arrive? || e.GiveUp?)
    ensures Exclusive(Step(w, e))
  {
  }

  /** What a call knows is about the book and the clock only. */
  lemma SameKnowledge(w: World, v: World, call: Call)
    requires v.book == w.book && v.now == w.now
    ensures Current(v, call) <==> Current(w, call)
  {
  }

  /** Orders come from paid participants, and nobody's payment is ever taken back. */
  lemma OrdersStayOk(w: World, e: Event)
    requires OrdersOk(w)
    ensures OrdersOk(Step(w, e))
  {
  }

  lemma StepKeepsSafe(w: World, e: Event)
    requires Safe(w)
    ensures Safe(Step(w, e))
  {
    if e.Advance? {
      if e.id in w.calls { AdvanceKeepsSafe(w, e.id); }
    } else if e.Arrive? || e.GiveUp? {
      CallsComeAndGo(w, e);
    } else {
      OrdersStayOk(w, e);
      DriftKeepsSafe(w, Step(w, e));
    }
  }

  /**
   Every interleaving, automatic bids and writers included, keeps mutual exclusion, up-to-date bids in every snapshot,
   orders of paid participants only, and a bid history that is sound up to the hard deadline.
   */
  lemma {:induction false} RunKeepsSafe(w: World, es: seq<Event>)
    requires Safe(w)
    ensures Safe(Run(w, es))
    decreases |es|
  {
    if es != [] {
      StepKeepsSafe(w, es[0]);
      RunKeepsSafe(Step(w, es[0]), es[1..]);
    }
  }

  /** Opening state of bidding: a published auction nobody has bid on or set an order for, nobody in the section. */
  predicate Opening(w: World) {
    Creatable(w.book.auction) && w.book.bids == [] && w.lock == None && w.calls == map[] && w.writers == map[]
    && w.orders == [] && w.asks == map[]
  }

  lemma OpeningIsSafe(w: World)
    requires Opening(w)
    ensures Safe(w)
  {
  }

  predicate AtMostOneInside(w: World) {
    forall c, d ::
      c in w.calls && d in w.calls && InCritical(w.calls[c].stage) && InCritical(w.calls[d].stage) ==> c == d
  }

  /** Every bid reaches its place in line: the n-th (from 0) is worth at least n + 1 increments. */
  predicate Climbs(minIncrement: real, bids: seq<Bid>) {
    && (forall i, j :: 0 <= i < j < |bids| ==> bids[j].amount >= bids[i].amount + minIncrement)
    && (forall n: nat :: n < |bids| ==> bids[n].amount >= (n + 1) as real * minIncrement)
  }

  lemma SafeMeansRising(v: World)
    requires Safe(v)
    ensures AtMostOneInside(v)
    ensures v.book.auction.kind != Sealed ==> Climbs(v.book.auction.minIncrement, v.book.bids)
  {
    if v.book.auction.kind != Sealed {
      forall n: nat | n < |v.book.bids|
        ensures v.book.bids[n].amount >= (n + 1) as real * v.book.auction.minIncrement
      {
        NthBidAtLeast(Far(v.book), v.now, n);
      }
    }
  }

  /**
   The headline: whatever the interleaving, at most one call is inside the section, each open bid tops every earlier
   one by the minimum increment, the n-th is worth at least n increments, one user's bids are a cooldown apart, and a
   sealed auction holds at most one bid per user.
   */
  lemma BiddingIsExclusiveAndRising(w: World, es: seq<Event>)
    requires Opening(w)
    ensures var v := Run(w, es); var a := v.book.auction;
      && AtMostOneInside(v)
      && (a.kind != Sealed ==> Climbs(a.minIncrement, v.book.bids))
      && Spaced(a.bidCooldownSeconds * SECOND, v.book.bids)
      && OneEach(a.kind, v.book.bids)
  {
    OpeningIsSafe(w);
    RunKeepsSafe(w, es);
    SafeMeansRising(Run(w, es));
  }

  // ----- progress -----

  /** How many of its own steps a call is at most from having released the lock, with `n` orders to be listed. */
  function StepsToRelease(s: Stage, n: nat): nat {
    match s
    case Locked => 11 + 4 * n
    case Cleared => 10 + 4 * n
    case SawAuction(_) => 9 + 4 * n
    case SawLatest(_, _) => 8 + 4 * n
    case SawOwn(_, _, _) => 7 + 4 * n
    case Extending(_, _) => 6 + 4 * n
    case Appending(_, _) => 5 + 4 * n
    case Answering(_) => 4 + 4 * n
    case Choosing(_) => 3 + 4 * n
    case Replying(r) => 2 + 4 * |r.queue|
    case Weighing(r, _, _) => 5 + 4 * |r.queue|
    case ReplyExtending(r, _) => 4 + 4 * |r.queue|
    case ReplyAppending(r, _) => 3 + 4 * |r.queue|
    case Leaving => 1
    case _ => 0
  }

  lemma StepIsShorter(w: World, id: CallId)
    requires id in w.calls && (InCritical(w.calls[id].stage) || w.calls[id].stage.Leaving?)
    ensures |NextOrders(w, id)| == |w.orders|
    ensures StepsToRelease(NextStage(w, id), |w.orders|) < StepsToRelease(w.calls[id].stage, |w.orders|)
  {
    assert w.calls[id].stage.Choosing? ==> |Queued(w.calls[id].stage.reply, w.orders, w.now).queue| <= |w.orders|;
  }

  lemma HolderMovesOn(w: World, id: CallId)
    requires Exclusive(w) && w.lock == Some(id)
    ensures var v := Step(w, Advance(id));
      && Exclusive(v) && id in v.calls && |v.orders| == |w.orders|
      && StepsToRelease(v.calls[id].stage, |v.orders|) < StepsToRelease(w.calls[id].stage, |w.orders|)
      && (if w.calls[id].stage.Leaving? then v.lock == None else v.lock == w.lock)
  {
    AdvanceKeepsExclusive(w, id);
    StepIsShorter(w, id);
  }

  /** No deadlock: whoever holds the lock frees it in a bounded number of steps of its own, without waiting for anybody. */
  lemma HolderFinishes(w: World, id: CallId) returns (es: seq<Event>)
    requires Exclusive(w) && w.lock == Some(id)
    ensures Run(w, es).lock == None && |es| <= StepsToRelease(w.calls[id].stage, |w.orders|)
    ensures forall e <- es :: e == Advance(id)
    decreases StepsToRelease(w.calls[id].stage, |w.orders|)
  {
    HolderMovesOn(w, id);
    var v := Step(w, Advance(id));
    var rest := [];
    if w.calls[id].stage.Leaving? {
      assert Run(v, rest) == v;
    } else {
      rest := HolderFinishes(v, id);
    }
    RunOne(w, Advance(id), rest);
    es := [Advance(id)] + rest;
  }

  // ----- the end time under interleaving -----

  lemma StepKeepsKin(w: World, e: Event)
    requires Safe(w)
    ensures Kin(Step(w, e).book.auction, w.book.auction)
  {
    if e.Advance? && e.id in w.calls {
      assert Current(w, w.calls[e.id]);
      WritesKeepSound(w, e.id);
    } else if e.Advance? || e.Arrive? || e.GiveUp? {
      assert Step(w, e).book == w.book;
    }
  }

  /**
   No interleaving, writers included, changes the rules, the base end time or the hard deadline, or takes the end past
   that deadline or the extensions over their cap.
   */
  lemma {:induction false} RunKeepsDeadline(w: World, es: seq<Event>)
    requires Safe(w)
    ensures var a, a' := w.book.auction, Run(w, es).book.auction;
      && SameRules(a, a') && BaseEnd(a') == BaseEnd(a) && Deadline(a') == Deadline(a)
      && a'.endAt <= Deadline(a) && a'.extensionCount <= a.maxExtensionCount
    decreases |es|
  {
    if es == [] {
      EndBeforeDeadline(w.book.auction);
    } else {
      StepKeepsSafe(w, es[0]);
      StepKeepsKin(w, es[0]);
      KinFacts(Step(w, es[0]).book.auction, w.book.auction);
      RunKeepsDeadline(Step(w, es[0]), es[1..]);
    }
  }

  /** The event stores a version of the record with fewer extensions than the stored one has. */
  predicate StoresStaleEnd(w: World, e: Event) {
    var a := w.book.auction;
    && a.antiSnipSeconds > 0
    && match e
       case Store(wid, _, _, _) => Stores(w, e) && w.writers[wid].record.extensionCount < a.extensionCount
       case Advance(id) =>
         id in w.calls && Saving(w.calls[id].stage) && Held(w.calls[id].stage).extensionCount + 1 < a.extensionCount
       case _ => false
  }

  lemma FewerExtensionsEndEarlier(a: Auction, c: Auction)
    requires BaseEnd(a) == BaseEnd(c) && a.antiSnipSeconds == c.antiSnipSeconds > 0
    ensures a.endAt < c.endAt <==> a.extensionCount < c.extensionCount
  {
    var s := a.antiSnipSeconds * SECOND;
    assert a.endAt - c.endAt == (a.extensionCount - c.extensionCount) * s;
    if a.extensionCount < c.extensionCount {
      assert (c.extensionCount - a.extensionCount) * s > 0;
    } else {
      assert (a.extensionCount - c.extensionCount) * s >= 0;
    }
  }

  /** Without an anti-snipe window every version has the same end: validated calls never extend. */
  lemma NoWindowNoMove(w: World, e: Event)
    requires Safe(w) && w.book.auction.antiSnipSeconds == 0
    ensures Step(w, e).book.auction.endAt == w.book.auction.endAt
  {
    StepKeepsKin(w, e);
    KinFacts(Step(w, e).book.auction, w.book.auction);
  }

  /** Exactly when the end time moves back: a version with fewer extensions is stored over one with more. */
  lemma EndMovesBackIff(w: World, e: Event)
    requires Safe(w) && w.book.auction.antiSnipSeconds >= 0
    ensures Step(w, e).book.auction.endAt < w.book.auction.endAt <==> StoresStaleEnd(w, e)
  {
    var a, a' := w.book.auction, Step(w, e).book.auction;
    StepKeepsKin(w, e);
    KinFacts(a', a);
    if a.antiSnipSeconds == 0 {
      NoWindowNoMove(w, e);
    } else {
      FewerExtensionsEndEarlier(a', a);
    }
    if e.Advance? && e.id in w.calls {
      assert Current(w, w.calls[e.id]);
    }
  }

  /** No store along the run is stale in its number of extensions. */
  predicate StoresAreFresh(w: World, es: seq<Event>)
    decreases |es|
  {
    es == [] || (!StoresStaleEnd(w, es[0]) && StoresAreFresh(Step(w, es[0]), es[1..]))
  }

  /** The end never moves back during the run. */
  predicate EndAdvances(w: World, es: seq<Event>)
    decreases |es|
  {
    es == [] || (w.book.auction.endAt <= Step(w, es[0]).book.auction.endAt && EndAdvances(Step(w, es[0]), es[1..]))
  }

  /** Over any run the end never moves back if and only if no store is stale. */
  lemma {:induction false} EndAdvancesIffFresh(w: World, es: seq<Event>)
    requires Safe(w) && w.book.auction.antiSnipSeconds >= 0
    ensures EndAdvances(w, es) <==> StoresAreFresh(w, es)
    decreases |es|
  {
    if es != [] {
      EndMovesBackIff(w, es[0]);
      StepKeepsSafe(w, es[0]);
      StepKeepsKin(w, es[0]);
      KinFacts(Step(w, es[0]).book.auction, w.book.auction);
      EndAdvancesIffFresh(Step(w, es[0]), es[1..]);
    }
  }

  /** Every version of the record still to be stored, and the stored one, has at least `n` extensions. */
  predicate AtLeastExtended(w: World, n: int) {
    && w.book.auction.extensionCount >= n
    && (forall wid <- w.writers :: w.writers[wid].record.extensionCount >= n)
    && (forall id <- w.calls :: Informed(w.calls[id].stage) ==> Held(w.calls[id].stage).extensionCount >= n)
  }

  lemma StepKeepsExtensions(w: World, e: Event, n: int)
    requires AtLeastExtended(w, n)
    ensures AtLeastExtended(Step(w, e), n)
  {
  }

  lemma {:induction false} RunKeepsExtensions(w: World, es: seq<Event>, n: int)
    requires AtLeastExtended(w, n)
    ensures AtLeastExtended(Run(w, es), n)
    decreases |es|
  {
    if es != [] {
      StepKeepsExtensions(w, es[0], n);
      RunKeepsExtensions(Step(w, es[0]), es[1..], n);
    }
  }

  /** Whatever stale versions are stored, the end stays between the published end and the hard deadline. */
  lemma EndStaysInRange(w: World, es: seq<Event>)
    requires Opening(w) && w.book.auction.antiSnipSeconds >= 0
    ensures w.book.auction.endAt <= Run(w, es).book.auction.endAt <= Deadline(w.book.auction)
  {
    var a, a' := w.book.auction, Run(w, es).book.auction;
    OpeningIsSafe(w);
    RunKeepsDeadline(w, es);
    RunKeepsExtensions(w, es, a.extensionCount);
    MoreExtensionsEndLater(a, a');
  }

  lemma MoreExtensionsEndLater(a: Auction, c: Auction)
    requires BaseEnd(a) == BaseEnd(c) && a.antiSnipSeconds == c.antiSnipSeconds >= 0 && a.extensionCount <= c.extensionCount
    ensures a.endAt <= c.endAt
  {
    var s := a.antiSnipSeconds * SECOND;
    assert c.endAt - a.endAt == (c.extensionCount - a.extensionCount) * s;
    assert (c.extensionCount - a.extensionCount) * s >= 0;
  }

  /** One user's bids over a whole run, bounded by the times published with the auction. */
  lemma BidsPerUserAreBounded(w: World, es: seq<Event>, user: UserId)
    requires Opening(w)
    ensures var a := w.book.auction; var n := |TimesOf(Run(w, es).book.bids, user)|;
      n > 0 ==> (n - 1) * (a.bidCooldownSeconds * SECOND) < Deadline(a) - a.startAt
  {
    OpeningIsSafe(w);
    RunKeepsSafe(w, es);
    RunKeepsDeadline(w, es);
    var v := Run(w, es);
    CooldownBoundsBids(Far(v.book), user, v.now);
  }
}
