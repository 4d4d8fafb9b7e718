/**
 Closing an auction takes no bid lock. Whether the bid list, and the closed record itself, are final afterwards depends
 on who is inside the section and on the standing orders: this module says exactly when each is.
 */
module BidLockClosing {
  import opened Basics
  import opened Auctions
  import opened Bidding
  import opened AutoBids
  import opened BidLock

  /** An active order, or one its owner has been allowed while the auction was active and that is not stored yet. */
  predicate Standing(w: World, c: AutoBid) {
    c.active && (c in w.orders || exists k <- w.asks :: w.asks[k] == c)
  }

  /** The call is answering a bid and has no bid of its own pending. */
  predicate Between(s: Stage) {
    InReply(s) && !Saving(s) && !Creating(s)
  }

  /**
   Could the answer at stage `s` still place a bid for order `c` at time `t`? Inside the anti-snipe window the first order
   is tried whoever owns it; the loop skips the last bidder and whoever was not among the participants read.
   */
  predicate CouldReply(w: World, s: Stage, c: AutoBid, t: int)
    requires Between(s)
  {
    var r := s.reply;
    && r.record.kind == Long
    && AutoAccepts(w.book.(auction := r.record), c, r.amount, t)
    && match s
       case Answering(_) => Standing(w, c) && (c.user != r.last || InWindow(r.record, t))
       case Choosing(_) => Standing(w, c) && ((c.user != r.last && c.user in r.payers) || InWindow(r.record, t))
       case Replying(_) => c in r.queue && Considers(r, c)
       case Weighing(_, d, _) => c == d || (c in r.queue && Considers(r, c))
  }

  /**
   Could this call, if it decided at `t`, still append a bid, its own or one for order `c`? Status in its snapshot may be
   stale.
   */
  predicate CouldStillPass(w: World, id: CallId, c: AutoBid, t: int)
    requires id in w.calls
  {
    var call := w.calls[id];
    var s := call.stage;
    if Reading(s) then
      && call.amount > 0.0
      && CanPlaceBid(s.seen, call.user, call.amount, HighestBid(w.book.bids), NewestBidOf(w.book.bids, call.user), t) == Allowed
      && Creatable(AfterBid(s.seen, t))
    else if Between(s) then
      CouldReply(w, s, c, t)
    else
      Saving(s) || Creating(s)
  }

  ghost predicate Armed(w: World) {
    exists id, c, t :: id in w.calls && w.now <= t && CouldStillPass(w, id, c, t)
  }

  predicate NeverReopens(es: seq<Event>) {
    forall e <- es :: e.Store? ==> e.status != Active
  }

  ghost predicate Frozen(w: World) {
    forall es :: NeverReopens(es) ==> Run(w, es).book.bids == w.book.bids
  }

  // ----- disarmed: nothing is appended -----

  /** Orders are set only while the auction is active. */
  lemma NoNewOrders(w: World, e: Event, c: AutoBid)
    requires w.book.auction.status != Active && Standing(Step(w, e), c)
    ensures Standing(w, c)
  {
    if e.Stand? && e.ask in w.asks && c == w.asks[e.ask] {
      assert Standing(w, c);
    } else if e.Advance? && e.id in w.calls && c in Step(w, e).orders {
      assert c in w.orders;
    }
  }

  /** The order taken next from the answer was open to it before. */
  lemma OwnReplyShrinks(w: World, id: CallId, c: AutoBid, t: int)
    requires id in w.calls && Between(w.calls[id].stage) && w.now <= t && w.book.auction.status != Active
    requires Between(NextStage(w, id))
    requires CouldReply(Moved(w, id), NextStage(w, id), c, t)
    ensures CouldReply(w, w.calls[id].stage, c, t)
  {
    var s := w.calls[id].stage;
    assert Moved(w, id) == Step(w, Advance(id)) && Moved(w, id).book == w.book;
    if s.Answering? {
      NoNewOrders(w, Advance(id), c);
    } else if s.Choosing? {
      ListedIsStanding(w, s.reply, c, t);
    }
  }

  lemma ListedIsStanding(w: World, r: Reply, c: AutoBid, t: int)
    requires w.now <= t && c in Queued(r, w.orders, w.now).queue && Considers(Queued(r, w.orders, w.now), c)
    ensures Standing(w, c) && ((c.user != r.last && c.user in r.payers) || InWindow(r.record, t))
  {
    assert c in Listed(w.orders);
  }

  lemma DroppedReplyShrinks(w: World, s: Stage, c: AutoBid, t: int)
    requires Between(s) && Between(Dropped(s))
    ensures CouldReply(w, Dropped(s), c, t) ==> CouldReply(w, s, c, t)
  {
  }

  /** What a call could still append is a matter of the call, the stored bids and the standing orders alone. */
  lemma SameChance(w: World, v: World, id: CallId, c: AutoBid, t: int)
    requires id in w.calls && id in v.calls && v.calls[id] == w.calls[id] && v.book.bids == w.book.bids
    requires Standing(v, c) ==> Standing(w, c)
    ensures CouldStillPass(v, id, c, t) ==> CouldStillPass(w, id, c, t)
  {
  }

  /** The call could append at once, for `c` or for the order it is weighing. */
  predicate CouldNow(w: World, id: CallId, c: AutoBid)
    requires id in w.calls
  {
    var s := w.calls[id].stage;
    CouldStillPass(w, id, c, w.now) || (s.Weighing? && CouldStillPass(w, id, s.order, w.now))
  }

  lemma ReplyGainsNothing(w: World, id: CallId, c: AutoBid, t: int)
    requires id in w.calls && Between(w.calls[id].stage) && ReplyOk(w.book, w.calls[id].stage) && w.now <= t
    requires w.book.auction.status != Active
    ensures var v := Step(w, Advance(id)); v.book == w.book
    ensures var v := Step(w, Advance(id)); CouldStillPass(v, id, c, t) ==> CouldStillPass(w, id, c, t) || CouldNow(w, id, c)
  {
    var next := NextStage(w, id);
    assert Moved(w, id) == Step(w, Advance(id)) && !Reading(next);
    if Between(next) && CouldReply(Moved(w, id), next, c, t) {
      OwnReplyShrinks(w, id, c, t);
    }
  }

  /** The call's own step: whatever it could append afterwards, or writes, it could append before. */
  lemma OwnStepGainsNothing(w: World, id: CallId, c: AutoBid, t: int)
    requires id in w.calls && Current(w, w.calls[id]) && w.now <= t && w.book.auction.status != Active
    ensures var v := Step(w, Advance(id));
      CouldStillPass(v, id, c, t) || v.book != w.book ==> CouldStillPass(w, id, c, t) || CouldNow(w, id, c)
  {
    if Between(w.calls[id].stage) {
      ReplyGainsNothing(w, id, c, t);
    }
  }

  lemma OthersLeaveCall(w: World, e: Event, id: CallId)
    requires id in w.calls && e != Advance(id)
    ensures var v := Step(w, e);
      && id in v.calls
      && (|| v.calls[id] == w.calls[id]
          || (e == GiveUp(id) && v.calls[id] == w.calls[id].(stage := Dropped(w.calls[id].stage))))
  {
  }

  lemma GivingUpGainsNothing(w: World, id: CallId, c: AutoBid, t: int)
    requires id in w.calls
    ensures var v := Step(w, GiveUp(id)); CouldStillPass(v, id, c, t) ==> CouldStillPass(w, id, c, t)
  {
    var s := w.calls[id].stage;
    var v := Step(w, GiveUp(id));
    assert v == w.(calls := v.calls);
    if Between(s) && Between(Dropped(s)) {
      DroppedReplyShrinks(w, s, c, t);
      assert CouldReply(v, Dropped(s), c, t) <==> CouldReply(w, Dropped(s), c, t);
    }
  }

  lemma OtherStepGainsNothing(w: World, e: Event, id: CallId, c: AutoBid, t: int)
    requires id in w.calls && e != Advance(id) && w.book.auction.status != Active && Step(w, e).book.bids == w.book.bids
    ensures var v := Step(w, e); id in v.calls && (CouldStillPass(v, id, c, t) ==> CouldStillPass(w, id, c, t))
  {
    OthersLeaveCall(w, e, id);
    var v := Step(w, e);
    if e == GiveUp(id) {
      GivingUpGainsNothing(w, id, c, t);
    } else {
      if Standing(v, c) {
        NoNewOrders(w, e, c);
      }
      SameChance(w, v, id, c, t);
    }
  }

  lemma DisarmedCall(w: World, id: CallId, c: AutoBid, t: int)
    requires !Armed(w) && id in w.calls && w.now <= t
    ensures !CouldStillPass(w, id, c, t) && !CouldNow(w, id, c)
  {
  }

  /** Nothing is written while nobody is armed. */
  lemma DisarmedWritesNothing(w: World, e: Event)
    requires Safe(w) && w.book.auction.status != Active && !Armed(w)
    ensures var v := Step(w, e); v.book.bids == w.book.bids && (!e.Store? ==> v.book.auction == w.book.auction)
  {
    if e.Advance? && e.id in w.calls {
      var any := AutoBid(0, 0.0, true);
      assert Current(w, w.calls[e.id]);
      OwnStepGainsNothing(w, e.id, any, w.now);
      DisarmedCall(w, e.id, any, w.now);
    }
  }

  lemma DisarmedStep(w: World, e: Event)
    requires Safe(w) && w.book.auction.status != Active && !Armed(w)
    requires e.Store? ==> e.status != Active
    ensures var v := Step(w, e);
      v.book.bids == w.book.bids && v.book.auction.status != Active && !Armed(v)
  {
    var v := Step(w, e);
    DisarmedWritesNothing(w, e);
    forall id, c, t | id in v.calls && v.now <= t
      ensures !CouldStillPass(v, id, c, t)
    {
      if id in w.calls {
        DisarmedCall(w, id, c, t);
        if e == Advance(id) {
          assert Current(w, w.calls[id]);
          OwnStepGainsNothing(w, id, c, t);
        } else {
          OtherStepGainsNothing(w, e, id, c, t);
        }
      }
    }
  }

  lemma {:induction false} DisarmedRun(w: World, es: seq<Event>)
    requires Safe(w) && w.book.auction.status != Active && !Armed(w) && NeverReopens(es)
    ensures Run(w, es).book.bids == w.book.bids && Run(w, es).book.auction.status != Active
    decreases |es|
  {
    if es != [] {
      assert es[0] in es;
      DisarmedStep(w, es[0]);
      StepKeepsSafe(w, es[0]);
      DisarmedRun(Step(w, es[0]), es[1..]);
    }
  }

  // ----- armed: what it takes to get there -----

  predicate OnlyActive(orders: seq<AutoBid>, c: AutoBid) {
    c in orders && forall x <- orders :: x.active ==> x == c
  }

  /** Owners store the orders they have been allowed, or withdraw theirs. */
  predicate OrderEvents(es: seq<Event>) {
    forall e <- es :: e.Stand? || e.Withdraw?
  }

  lemma {:induction false} OrderRun(w: World, es: seq<Event>)
    requires OrderEvents(es) && Safe(w)
    ensures var v := Run(w, es); v == w.(orders := v.orders, asks := v.asks) && Safe(v)
    decreases |es|
  {
    if es != [] {
      assert es[0].Stand? || es[0].Withdraw?;
      StepKeepsSafe(w, es[0]);
      OrderRun(Step(w, es[0]), es[1..]);
    }
  }

  /** How many active orders stand in the way of `c`. */
  function Rivals(orders: seq<AutoBid>, c: AutoBid): nat {
    if orders == [] then 0 else Rivals(Init(orders), c) + (if Last(orders).active && Last(orders) != c then 1 else 0)
  }

  lemma {:induction false} NoRivals(orders: seq<AutoBid>, c: AutoBid)
    requires c in orders && Rivals(orders, c) == 0
    ensures OnlyActive(orders, c)
  {
    forall x | x in orders && x.active ensures x == c {
      if x != c {
        RivalCounts(orders, c, x);
        assert false;
      }
    }
  }

  lemma {:induction false} RivalCounts(orders: seq<AutoBid>, c: AutoBid, x: AutoBid)
    requires x in orders && x.active && x != c
    ensures Rivals(orders, c) > 0
  {
    if Last(orders) != x {
      assert orders == Init(orders) + [Last(orders)];
      RivalCounts(Init(orders), c, x);
    }
  }

  lemma {:induction false} SomeRival(orders: seq<AutoBid>, c: AutoBid) returns (x: AutoBid)
    requires Rivals(orders, c) > 0
    ensures x in orders && x.active && x != c
  {
    if Last(orders).active && Last(orders) != c {
      x := Last(orders);
    } else {
      x := SomeRival(Init(orders), c);
    }
  }

  lemma {:induction false} WithdrawingLeavesFewer(orders: seq<AutoBid>, c: AutoBid, user: UserId)
    ensures Rivals(Withdrawn(orders, user), c) <= Rivals(orders, c)
    ensures (exists x <- orders :: x.active && x != c && x.user == user) ==>
      Rivals(Withdrawn(orders, user), c) < Rivals(orders, c)
  {
    if orders != [] {
      var rest := Init(orders);
      assert orders == rest + [Last(orders)];
      WithdrawingLeavesFewer(rest, c, user);
      assert Init(Withdrawn(orders, user)) == Withdrawn(rest, user);
    }
  }

  /** One order each, so withdrawing another user's order leaves `c` in place. */
  lemma WithdrawingKeeps(orders: seq<AutoBid>, c: AutoBid, x: AutoBid)
    requires OneOrderEach(orders) && c in orders && x in orders && x != c
    ensures c in Withdrawn(orders, x.user)
  {
    var i :| 0 <= i < |orders| && orders[i] == c;
    var j :| 0 <= j < |orders| && orders[j] == x;
    assert Withdrawn(orders, x.user)[i] == c;
  }

  /** All other orders are withdrawn by their owners. */
  lemma WithdrawRivals(w: World, c: AutoBid) returns (es: seq<Event>)
    requires OrdersOk(w) && c in w.orders
    ensures OrderEvents(es) && OnlyActive(Run(w, es).orders, c)
    decreases Rivals(w.orders, c)
  {
    if Rivals(w.orders, c) == 0 {
      es := [];
      NoRivals(w.orders, c);
    } else {
      var x := SomeRival(w.orders, c);
      var e := Withdraw(x.user);
      WithdrawingLeavesFewer(w.orders, c, x.user);
      WithdrawingKeeps(w.orders, c, x);
      OrdersStayOk(w, e);
      var rest := WithdrawRivals(Step(w, e), c);
      RunOne(w, e, rest);
      es := [e] + rest;
    }
  }

  /** A standing order becomes the only active one. */
  lemma ClearTheWay(w: World, c: AutoBid) returns (es: seq<Event>)
    requires OrdersOk(w)
    ensures OrderEvents(es) && if Standing(w, c) then OnlyActive(Run(w, es).orders, c) else es == []
  {
    if !Standing(w, c) {
      es := [];
    } else if c in w.orders {
      es := WithdrawRivals(w, c);
    } else {
      var k :| k in w.asks && w.asks[k] == c;
      OrdersStayOk(w, Stand(k));
      var rest := WithdrawRivals(Step(w, Stand(k)), c);
      RunOne(w, Stand(k), rest);
      es := [Stand(k)] + rest;
    }
  }

  /** The requester has joined, the clock shows `t`, and `c` is the only active order if it stands at all. */
  predicate Ready(w: World, id: CallId, c: AutoBid, t: int)
    requires id in w.calls
  {
    && w.now == t
    && (Reading(w.calls[id].stage) ==> w.calls[id].user in w.book.paid)
    && (Standing(w, c) ==> OnlyActive(w.orders, c))
  }

  lemma JoinAndWait(w: World, user: UserId, t: int) returns (es: seq<Event>)
    requires w.now <= t && Safe(w)
    ensures NeverReopens(es) && Run(w, es) == w.(now := t, book := w.book.(paid := w.book.paid + {user})) && Safe(Run(w, es))
  {
    var e, f := Join(user), Tick(t - w.now);
    es := [e] + [f];
    RunOne(w, e, [f]);
    RunOne(Step(w, e), f, []);
    assert [f] + [] == [f];
    RunKeepsSafe(w, es);
  }

  /** Whatever the call could still do at `t`, everything else it takes can be put in place. */
  lemma GetReady(w: World, id: CallId, c: AutoBid, t: int) returns (es: seq<Event>)
    requires Safe(w) && id in w.calls && w.now <= t
    ensures NeverReopens(es)
    ensures var v := Run(w, es);
      && Safe(v) && v.calls == w.calls && v.book.bids == w.book.bids && v.book.auction == w.book.auction
      && Ready(v, id, c, t) && (Standing(w, c) ==> Standing(v, c))
  {
    var first := ClearTheWay(w, c);
    OrderRun(w, first);
    var v := Run(w, first);
    assert Standing(w, c) <==> Standing(v, c) && OnlyActive(v.orders, c);
    var rest := JoinAndWait(v, w.calls[id].user, t);
    RunAppend(w, first, rest);
    es := first + rest;
  }

  // ----- armed: the call finishes -----

  /** The answer, one step on: it has chosen its order, or taken another one first. */
  lemma ReplyMovesOn(w: World, id: CallId, c: AutoBid)
    requires id in w.calls && Between(w.calls[id].stage) && ReplyOk(w.book, w.calls[id].stage) && OrdersOk(w)
    requires CouldReply(w, w.calls[id].stage, c, w.now) && Ready(w, id, c, w.now)
    ensures var v, s := Step(w, Advance(id)), NextStage(w, id);
      && v.book == w.book && v.orders == w.orders
      && (Saving(s) || Creating(s) || (Between(s) && CouldReply(v, s, c, w.now)))
      && InReply(s) && s.reply.record == w.calls[id].stage.reply.record
  {
    var s := w.calls[id].stage;
    if s.Choosing? {
      assert c in Listed(w.orders) && Listed(w.orders)[0] in Listed(w.orders);
    }
  }

  /** With everything in place, the call's own step leads to the append. */
  lemma AdvanceStaysArmed(w: World, id: CallId, c: AutoBid)
    requires id in w.calls && Current(w, w.calls[id]) && OrdersOk(w) && !Creating(w.calls[id].stage)
    requires CouldStillPass(w, id, c, w.now) && Ready(w, id, c, w.now)
    ensures var v := Step(w, Advance(id)); v.book.bids == w.book.bids && CouldStillPass(v, id, c, w.now)
    ensures Ready(Step(w, Advance(id)), id, c, w.now)
  {
    if Between(w.calls[id].stage) {
      ReplyMovesOn(w, id, c);
    }
  }

  /** A call inside the section holds the lock, so its own steps bring it closer to the release. */
  lemma InsideMovesOn(w: World, id: CallId)
    requires Safe(w) && id in w.calls && InCritical(w.calls[id].stage)
    ensures var v := Step(w, Advance(id));
      && Safe(v) && id in v.calls
      && StepsToRelease(v.calls[id].stage, |v.orders|) < StepsToRelease(w.calls[id].stage, |w.orders|)
  {
    assert w.lock == Some(id);
    HolderMovesOn(w, id);
    StepKeepsSafe(w, Advance(id));
  }

  lemma ReadyCallFinishes(w: World, id: CallId, c: AutoBid) returns (es: seq<Event>)
    requires Safe(w) && id in w.calls && CouldStillPass(w, id, c, w.now) && Ready(w, id, c, w.now)
    ensures NeverReopens(es) && |Run(w, es).book.bids| > |w.book.bids|
    decreases StepsToRelease(w.calls[id].stage, |w.orders|)
  {
    var e := Advance(id);
    var v := Step(w, e);
    var rest := [];
    if Creating(w.calls[id].stage) {
      assert Run(v, rest) == v;
    } else {
      assert v.book.bids == w.book.bids && CouldStillPass(v, id, c, v.now) && Ready(v, id, c, v.now) by {
        assert Current(w, w.calls[id]);
        AdvanceStaysArmed(w, id, c);
      }
      InsideMovesOn(w, id);
      rest := ReadyCallFinishes(v, id, c);
    }
    RunOne(w, e, rest);
    es := [e] + rest;
  }

  /** Joining, orders and the clock leave a call as able as it was. */
  lemma ReadinessKeepsChance(w: World, v: World, id: CallId, c: AutoBid, t: int)
    requires id in w.calls && v.calls == w.calls && v.book.bids == w.book.bids && (Standing(w, c) ==> Standing(v, c))
    requires CouldStillPass(w, id, c, t)
    ensures CouldStillPass(v, id, c, t)
  {
  }

  /** Let the armed call run: its user joins and orders are stored or withdrawn as needed, the clock reaches `t`. */
  lemma ArmedCallFinishes(w: World, id: CallId, c: AutoBid, t: int) returns (es: seq<Event>)
    requires Safe(w) && id in w.calls && w.now <= t && CouldStillPass(w, id, c, t)
    ensures NeverReopens(es) && |Run(w, es).book.bids| > |w.book.bids|
  {
    var first := GetReady(w, id, c, t);
    var v := Run(w, first);
    ReadinessKeepsChance(w, v, id, c, t);
    var rest := ReadyCallFinishes(v, id, c);
    RunAppend(w, first, rest);
    es := first + rest;
  }

  /**
   Exactly when closing makes the bid list final: in a closed (or paused) auction the bids stay as they are in every
   continuation that does not reopen it, if and only if no call inside the section could still pass, with a bid of its
   own or an automatic one.
   */
  lemma FrozenIffDisarmed(w: World)
    requires Safe(w) && w.book.auction.status != Active
    ensures Frozen(w) <==> !Armed(w)
  {
    if Armed(w) {
      var id, c, t :| id in w.calls && w.now <= t && CouldStillPass(w, id, c, t);
      var es := ArmedCallFinishes(w, id, c, t);
      assert NeverReopens(es) && Run(w, es).book.bids != w.book.bids;
    } else {
      forall es | NeverReopens(es) ensures Run(w, es).book.bids == w.book.bids {
        DisarmedRun(w, es);
      }
    }
  }

  lemma NobodyInsideNobodyArmed(w: World)
    requires Exclusive(w) && w.lock == None
    ensures !Armed(w)
  {
    forall id, c, t | id in w.calls ensures !CouldStillPass(w, id, c, t) {
      assert !InCritical(w.calls[id].stage);
    }
  }

  /** Closing while the lock is free is always final for the bids. */
  lemma ClosingUnlockedIsFinal(w: World, wid: WriterId, status: Status, winnerId: Option<UserId>, winAmount: Option<real>)
    requires Safe(w) && w.lock == None && status != Active && Stores(w, Store(wid, status, winnerId, winAmount))
    ensures Frozen(Step(w, Store(wid, status, winnerId, winAmount)))
  {
    var e := Store(wid, status, winnerId, winAmount);
    var v := Step(w, e);
    assert Safe(v) by { StepKeepsSafe(w, e); }
    assert v.lock == None && v.book.auction.status != Active;
    NobodyInsideNobodyArmed(v);
    FrozenIffDisarmed(v);
  }

  // ----- the record -----

  /** The answer at stage `s` could save an extension at `t`, with a bid for order `c`. */
  predicate ReplyExtends(w: World, s: Stage, c: AutoBid, t: int)
    requires Between(s)
  {
    CouldReply(w, s, c, t) && ShouldExtend(s.reply.record, s.reply.record.endAt - t)
  }

  /**
   Could this call, if it decided at `t`, still write an extended ACTIVE record back? A bid that only waits to be appended
   can do so through the orders that will answer it.
   */
  predicate CouldExtend(w: World, id: CallId, c: AutoBid, t: int)
    requires id in w.calls
  {
    var s := w.calls[id].stage;
    if Reading(s) then CouldStillPass(w, id, c, t) && ShouldExtend(s.seen, s.seen.endAt - t)
    else if Between(s) then ReplyExtends(w, s, c, t)
    else Saving(s) || (Creating(s) && ReplyExtends(Moved(w, id), NextStage(w, id), c, t))
  }

  ghost predicate MayReopen(w: World) {
    exists id, c, t :: id in w.calls && w.now <= t && CouldExtend(w, id, c, t)
  }

  ghost predicate StaysShut(w: World) {
    forall es :: NeverReopens(es) ==> Run(w, es).book.auction.status != Active
  }

  /** While a call goes by a version of the record nobody else appends a bid. */
  lemma OnlyTheHolderAppends(w: World, e: Event, id: CallId)
    requires Exclusive(w) && id in w.calls && Informed(w.calls[id].stage) && e != Advance(id)
    ensures Step(w, e).book.bids == w.book.bids
  {
    assert InCritical(w.calls[id].stage);
    assert w.lock == Some(id);
  }

  /** A bid allowed now is allowed until the end, and a later one extends if it comes inside the window. */
  lemma LaterIsAllowed(a: Auction, user: UserId, amount: real, latest: Option<Bid>, own: Option<Bid>, now: int, t: int)
    requires CanPlaceBid(a, user, amount, latest, own, now) == Allowed && now <= t && ShouldExtend(a, a.endAt - t)
    requires Creatable(a)
    ensures CanPlaceBid(a, user, amount, latest, own, t) == Allowed && Creatable(AfterBid(a, t))
  {
  }

  /** The call could extend at once, for `c` or for the order it is weighing. */
  predicate ExtendsNow(w: World, id: CallId, c: AutoBid)
    requires id in w.calls
  {
    var s := w.calls[id].stage;
    CouldExtend(w, id, c, w.now) || (s.Weighing? && CouldExtend(w, id, s.order, w.now))
  }

  lemma ExtendingDecision(w: World, id: CallId, c: AutoBid)
    requires id in w.calls && w.calls[id].stage.SawOwn? && BidsAsRead(w.book, w.calls[id]) && NextStage(w, id).Extending?
    ensures CouldExtend(w, id, c, w.now)
  {
  }

  lemma LateDecision(w: World, id: CallId, c: AutoBid, t: int)
    requires id in w.calls && w.calls[id].stage.SawOwn? && BidsAsRead(w.book, w.calls[id]) && NextStage(w, id).Appending?
    requires var a := w.calls[id].stage.seen; w.now <= t && ShouldExtend(a, a.endAt - t) && Creatable(a)
    ensures CouldExtend(w, id, c, t)
  {
    var call := w.calls[id];
    LaterIsAllowed(call.stage.seen, call.user, call.amount, call.stage.latest, call.stage.own, w.now, t);
  }

  /** A bid by hand that does not extend leaves no answer that could: the bid itself could have come that late. */
  lemma DecisionGainsNothing(w: World, id: CallId, c: AutoBid, t: int)
    requires id in w.calls && w.calls[id].stage.SawOwn? && Current(w, w.calls[id]) && w.now <= t
    ensures var v := Step(w, Advance(id)); CouldExtend(v, id, c, t) ==> CouldExtend(w, id, c, t) || ExtendsNow(w, id, c)
  {
    var v := Step(w, Advance(id));
    var s := NextStage(w, id);
    assert v.calls[id] == w.calls[id].(stage := s);
    if s.Extending? {
      ExtendingDecision(w, id, c);
    } else if s.Appending? {
      var a := w.calls[id].stage.seen;
      assert Version(s) == a && NextStage(v, id).Answering? && NextStage(v, id).reply.record == a;
      if ShouldExtend(a, a.endAt - t) {
        LateDecision(w, id, c, t);
      }
    }
  }

  lemma ExtendingReply(w: World, id: CallId)
    requires id in w.calls && w.calls[id].stage.Weighing? && ReplyOk(w.book, w.calls[id].stage)
    requires NextStage(w, id).ReplyExtending?
    ensures CouldExtend(w, id, w.calls[id].stage.order, w.now)
  {
  }

  lemma LateReply(w: World, id: CallId, t: int)
    requires id in w.calls && w.calls[id].stage.Weighing? && ReplyOk(w.book, w.calls[id].stage)
    requires NextStage(w, id).ReplyAppending?
    requires var a := w.calls[id].stage.reply.record; w.now <= t && ShouldExtend(a, a.endAt - t) && Creatable(a)
    ensures CouldExtend(w, id, w.calls[id].stage.order, t)
  {
    var s := w.calls[id].stage;
    var r, d := s.reply, s.order;
    LaterIsAllowed(r.record, d.user, NextMin(r.record, r.amount), s.latest, NewestBidOf(w.book.bids, d.user), w.now, t);
  }

  lemma SkippedReply(w: World, id: CallId, c: AutoBid, t: int)
    requires id in w.calls && w.calls[id].stage.Weighing? && NextStage(w, id).Replying?
    ensures CouldExtend(Step(w, Advance(id)), id, c, t) ==> CouldExtend(w, id, c, t)
  {
    assert Step(w, Advance(id)).book == w.book;
  }

  /** Nor does an automatic bid that does not extend leave a later one that could. */
  lemma ReplyDecisionGainsNothing(w: World, id: CallId, c: AutoBid, t: int)
    requires id in w.calls && w.calls[id].stage.Weighing? && Current(w, w.calls[id]) && w.now <= t
    ensures CouldExtend(Step(w, Advance(id)), id, c, t) ==>
      CouldExtend(w, id, c, t) || CouldExtend(w, id, w.calls[id].stage.order, t) || ExtendsNow(w, id, c)
  {
    var v := Step(w, Advance(id));
    var s := NextStage(w, id);
    assert v.calls[id] == w.calls[id].(stage := s);
    if s.ReplyExtending? {
      ExtendingReply(w, id);
    } else if s.ReplyAppending? {
      var a := w.calls[id].stage.reply.record;
      assert Version(s) == a && NextStage(v, id).Replying? && NextStage(v, id).reply.record == a;
      if ShouldExtend(a, a.endAt - t) {
        LateReply(w, id, t);
      }
    } else {
      SkippedReply(w, id, c, t);
    }
  }

  /** Reading on, or creating a bid row, changes nothing about what the call could extend. */
  lemma ReadingOnKeepsAbility(w: World, id: CallId, c: AutoBid, t: int)
    requires id in w.calls && (w.calls[id].stage.SawAuction? || w.calls[id].stage.SawLatest?)
    requires BidsAsRead(w.book, w.calls[id])
    ensures var v := Step(w, Advance(id)); CouldExtend(v, id, c, t) <==> CouldExtend(w, id, c, t)
  {
    assert Step(w, Advance(id)).book == w.book;
  }

  lemma CreatingKeepsAbility(w: World, id: CallId, c: AutoBid, t: int)
    requires id in w.calls && Creating(w.calls[id].stage)
    ensures var v := Step(w, Advance(id)); CouldExtend(v, id, c, t) <==> CouldExtend(w, id, c, t)
  {
    assert Moved(w, id) == Step(w, Advance(id)) && Between(NextStage(w, id));
  }

  lemma ReplyStepGainsNothing(w: World, id: CallId, c: AutoBid, t: int)
    requires id in w.calls && Between(w.calls[id].stage) && !w.calls[id].stage.Weighing?
    requires w.book.auction.status != Active && w.now <= t
    ensures var v := Step(w, Advance(id)); CouldExtend(v, id, c, t) ==> CouldExtend(w, id, c, t)
  {
    var next := NextStage(w, id);
    assert Moved(w, id) == Step(w, Advance(id));
    if Between(next) && CouldReply(Moved(w, id), next, c, t) {
      OwnReplyShrinks(w, id, c, t);
      assert next.reply.record == w.calls[id].stage.reply.record;
    }
  }

  /** The call's own step makes it no abler to extend, unless it is extending already. */
  lemma OwnStepExtendsNoMore(w: World, id: CallId, c: AutoBid, t: int)
    requires id in w.calls && Current(w, w.calls[id]) && w.book.auction.status != Active && w.now <= t
    ensures CouldExtend(Step(w, Advance(id)), id, c, t) ==>
      var s := w.calls[id].stage;
      CouldExtend(w, id, c, t) || ExtendsNow(w, id, c) || (s.Weighing? && CouldExtend(w, id, s.order, t))
  {
    var s := w.calls[id].stage;
    if s.SawOwn? {
      DecisionGainsNothing(w, id, c, t);
    } else if Reading(s) {
      ReadingOnKeepsAbility(w, id, c, t);
    } else if s.Weighing? {
      ReplyDecisionGainsNothing(w, id, c, t);
    } else if Between(s) {
      ReplyStepGainsNothing(w, id, c, t);
    } else if Creating(s) {
      CreatingKeepsAbility(w, id, c, t);
    }
  }

  /** The ability to extend is a matter of the call, the stored bids and the standing orders alone. */
  lemma SameAbility(w: World, v: World, id: CallId, c: AutoBid, t: int)
    requires id in w.calls && id in v.calls && v.calls[id] == w.calls[id]
    requires Informed(w.calls[id].stage) ==> v.book.bids == w.book.bids
    requires Standing(v, c) ==> Standing(w, c)
    ensures CouldExtend(v, id, c, t) ==> CouldExtend(w, id, c, t)
  {
    var s := w.calls[id].stage;
    if Creating(s) {
      assert NextStage(v, id) == NextStage(w, id);
      assert Moved(v, id).book.bids == Moved(w, id).book.bids;
      assert Moved(v, id).orders == v.orders && Moved(w, id).orders == w.orders;
    }
  }

  lemma GivingUpExtendsNoMore(w: World, id: CallId, c: AutoBid, t: int)
    requires id in w.calls
    ensures var v := Step(w, GiveUp(id)); CouldExtend(v, id, c, t) ==> CouldExtend(w, id, c, t)
  {
    var s := w.calls[id].stage;
    var v := Step(w, GiveUp(id));
    assert v == w.(calls := v.calls);
    if Between(s) && Between(Dropped(s)) {
      DroppedReplyShrinks(w, s, c, t);
      assert CouldReply(v, Dropped(s), c, t) <==> CouldReply(w, Dropped(s), c, t);
    } else if Dropped(s) == s {
      SameAbility(w, v, id, c, t);
    }
  }

  /** Nor does anybody else's. */
  lemma OtherStepExtendsNoMore(w: World, e: Event, id: CallId, c: AutoBid, t: int)
    requires Exclusive(w) && id in w.calls && e != Advance(id) && w.book.auction.status != Active
    ensures var v := Step(w, e); id in v.calls && (CouldExtend(v, id, c, t) ==> CouldExtend(w, id, c, t))
  {
    OthersLeaveCall(w, e, id);
    var v := Step(w, e);
    if e == GiveUp(id) {
      GivingUpExtendsNoMore(w, id, c, t);
    } else {
      if Informed(w.calls[id].stage) {
        OnlyTheHolderAppends(w, e, id);
      }
      if Standing(v, c) {
        NoNewOrders(w, e, c);
      }
      SameAbility(w, v, id, c, t);
    }
  }

  lemma ShutCall(w: World, id: CallId, c: AutoBid, t: int)
    requires !MayReopen(w) && id in w.calls && w.now <= t
    ensures !CouldExtend(w, id, c, t) && !ExtendsNow(w, id, c)
    ensures var s := w.calls[id].stage; s.Weighing? ==> !CouldExtend(w, id, s.order, t)
  {
  }

  lemma SavingMayReopen(w: World, id: CallId)
    requires id in w.calls
    ensures Saving(w.calls[id].stage) ==> MayReopen(w)
  {
    var any := AutoBid(0, 0.0, true);
    assert Saving(w.calls[id].stage) ==> CouldExtend(w, id, any, w.now);
  }

  lemma ShutStaysClosed(w: World, e: Event)
    requires w.book.auction.status != Active && !MayReopen(w) && (e.Store? ==> e.status != Active)
    ensures Step(w, e).book.auction.status != Active
    ensures !e.Store? ==> Step(w, e).book.auction == w.book.auction
  {
    if e.Advance? && e.id in w.calls {
      SavingMayReopen(w, e.id);
    }
  }

  lemma ShutStep(w: World, e: Event)
    requires Safe(w) && w.book.auction.status != Active && !MayReopen(w)
    requires e.Store? ==> e.status != Active
    ensures var v := Step(w, e); v.book.auction.status != Active && !MayReopen(v)
    ensures !e.Store? ==> Step(w, e).book.auction == w.book.auction
  {
    var v := Step(w, e);
    ShutStaysClosed(w, e);
    forall id, c, t | id in v.calls && v.now <= t
      ensures !CouldExtend(v, id, c, t)
    {
      if id in w.calls {
        ShutCall(w, id, c, t);
        if e == Advance(id) {
          assert Current(w, w.calls[id]);
          OwnStepExtendsNoMore(w, id, c, t);
        } else {
          OtherStepExtendsNoMore(w, e, id, c, t);
        }
      }
    }
  }

  lemma {:induction false} ShutRun(w: World, es: seq<Event>)
    requires Safe(w) && w.book.auction.status != Active && !MayReopen(w) && NeverReopens(es)
    ensures Run(w, es).book.auction.status != Active
    decreases |es|
  {
    if es != [] {
      assert es[0] in es;
      ShutStep(w, es[0]);
      StepKeepsSafe(w, es[0]);
      ShutRun(Step(w, es[0]), es[1..]);
    }
  }

  lemma SavingReopens(w: World, id: CallId)
    requires id in w.calls && Saving(w.calls[id].stage) && Current(w, w.calls[id])
    ensures Step(w, Advance(id)).book.auction.status == Active
  {
  }

  /** A bid by hand decided inside the window leads to the extension. */
  lemma DecisionExtends(w: World, id: CallId, c: AutoBid)
    requires id in w.calls && w.calls[id].stage.SawOwn? && BidsAsRead(w.book, w.calls[id])
    requires w.calls[id].user in w.book.paid
    requires CouldExtend(w, id, c, w.now)
    ensures NextStage(w, id).Extending?
  {
  }

  /** So does an automatic one, whichever order the answer has come to. */
  lemma ReplyStaysExtending(w: World, id: CallId, c: AutoBid)
    requires id in w.calls && Between(w.calls[id].stage) && ReplyOk(w.book, w.calls[id].stage) && OrdersOk(w)
    requires CouldExtend(w, id, c, w.now) && Ready(w, id, c, w.now)
    ensures CouldExtend(Step(w, Advance(id)), id, c, w.now)
  {
    ReplyMovesOn(w, id, c);
    assert !NextStage(w, id).ReplyAppending?;
  }

  /** With everything in place, the call's own step leads to the extension. */
  lemma AdvanceStaysExtending(w: World, id: CallId, c: AutoBid)
    requires id in w.calls && Current(w, w.calls[id]) && OrdersOk(w) && !Saving(w.calls[id].stage)
    requires CouldExtend(w, id, c, w.now) && Ready(w, id, c, w.now)
    ensures CouldExtend(Step(w, Advance(id)), id, c, w.now)
  {
    var s := w.calls[id].stage;
    if Between(s) {
      ReplyStaysExtending(w, id, c);
    } else if Creating(s) {
      CreatingKeepsAbility(w, id, c, w.now);
    } else if s.SawOwn? {
      DecisionExtends(w, id, c);
    } else {
      ReadingOnKeepsAbility(w, id, c, w.now);
    }
  }

  /** Everything stays in place while the call has an order to come to. */
  lemma AdvanceStaysReady(w: World, id: CallId, c: AutoBid)
    requires id in w.calls && Ready(w, id, c, w.now) && (CouldStillPass(w, id, c, w.now) || CouldExtend(w, id, c, w.now))
    ensures Ready(Step(w, Advance(id)), id, c, w.now)
  {
    assert Step(w, Advance(id)).orders == w.orders && Step(w, Advance(id)).asks == w.asks;
  }

  lemma ReadyCallReopens(w: World, id: CallId, c: AutoBid) returns (es: seq<Event>)
    requires Safe(w) && id in w.calls && CouldExtend(w, id, c, w.now) && Ready(w, id, c, w.now)
    ensures NeverReopens(es) && Run(w, es).book.auction.status == Active
    decreases StepsToRelease(w.calls[id].stage, |w.orders|)
  {
    var e := Advance(id);
    var v := Step(w, e);
    var rest := [];
    if Saving(w.calls[id].stage) {
      assert Current(w, w.calls[id]);
      SavingReopens(w, id);
      assert Run(v, rest) == v;
    } else {
      assert CouldExtend(v, id, c, v.now) by {
        assert Current(w, w.calls[id]);
        AdvanceStaysExtending(w, id, c);
      }
      assert Ready(v, id, c, v.now) by { AdvanceStaysReady(w, id, c); }
      InsideMovesOn(w, id);
      rest := ReadyCallReopens(v, id, c);
    }
    RunOne(w, e, rest);
    es := [e] + rest;
  }

  lemma ReadinessKeepsAbility(w: World, v: World, id: CallId, c: AutoBid, t: int)
    requires id in w.calls && v.calls == w.calls && v.book.bids == w.book.bids && (Standing(w, c) ==> Standing(v, c))
    requires CouldExtend(w, id, c, t)
    ensures CouldExtend(v, id, c, t)
  {
    SameAbility(v, w, id, c, t);
  }

  /** Let the extending call run: the closed record is overwritten by an ACTIVE one. */
  lemma ExtenderReopens(w: World, id: CallId, c: AutoBid, t: int) returns (es: seq<Event>)
    requires Safe(w) && id in w.calls && w.now <= t && CouldExtend(w, id, c, t)
    ensures NeverReopens(es) && Run(w, es).book.auction.status == Active
  {
    var first := GetReady(w, id, c, t);
    var v := Run(w, first);
    ReadinessKeepsAbility(w, v, id, c, t);
    var rest := ReadyCallReopens(v, id, c);
    RunAppend(w, first, rest);
    es := first + rest;
  }

  /**
   Exactly when closing is final for the record: as long as no writer stores ACTIVE, a closed (or paused) auction stays
   so in every continuation if and only if no call inside the section could still extend it, with its own bid or an
   automatic one. A call that could only append leaves the record alone, so this is a weaker demand than that of
   `FrozenIffDisarmed`.
   */
  lemma ShutIffNobodyExtends(w: World)
    requires Safe(w) && w.book.auction.status != Active
    ensures StaysShut(w) <==> !MayReopen(w)
  {
    if MayReopen(w) {
      var id, c, t :| id in w.calls && w.now <= t && CouldExtend(w, id, c, t);
      var es := ExtenderReopens(w, id, c, t);
      assert NeverReopens(es) && Run(w, es).book.auction.status == Active;
    } else {
      forall es | NeverReopens(es) ensures Run(w, es).book.auction.status != Active {
        ShutRun(w, es);
      }
    }
  }

  lemma ExtendersAreArmed(w: World)
    ensures MayReopen(w) ==> Armed(w)
  {
    if MayReopen(w) {
      var id, c, t :| id in w.calls && w.now <= t && CouldExtend(w, id, c, t);
      assert CouldStillPass(w, id, c, t);
    }
  }

  /** Final bids mean a final record: nobody who could extend cannot also append. */
  lemma FrozenMeansShut(w: World)
    requires Safe(w) && w.book.auction.status != Active && Frozen(w)
    ensures StaysShut(w)
  {
    FrozenIffDisarmed(w);
    ShutIffNobodyExtends(w);
    ExtendersAreArmed(w);
  }

  /** At `t`, order `c` could answer the bid about to be appended with one that extends the record. */
  predicate AnswersInWindow(w: World, id: CallId, c: AutoBid, t: int)
    requires id in w.calls && w.calls[id].stage.Appending?
  {
    var s := w.calls[id].stage;
    var a := Version(s);
    && Standing(w, c) && a.kind == Long && ShouldExtend(a, a.endAt - t)
    && AutoAccepts(Book(a, w.book.bids + [s.bid], w.book.paid), c, s.bid.amount, t)
  }

  ghost predicate AnswerMayExtend(w: World, id: CallId)
    requires id in w.calls && w.calls[id].stage.Appending?
  {
    exists c, t :: w.now <= t && AnswersInWindow(w, id, c, t)
  }

  lemma AnsweringExtends(w: World, id: CallId, c: AutoBid, t: int)
    requires id in w.calls && w.calls[id].stage.Appending?
    ensures CouldExtend(w, id, c, t) <==> AnswersInWindow(w, id, c, t)
  {
    var s := w.calls[id].stage;
    var v := Moved(w, id);
    assert v.orders == w.orders && v.book == Book(w.book.auction, w.book.bids + [s.bid], w.book.paid);
    assert v.book.(auction := Version(s)) == Book(Version(s), w.book.bids + [s.bid], w.book.paid);
  }

  lemma OnlyTheHolderExtends(w: World, id: CallId, other: CallId, c: AutoBid, t: int)
    requires Exclusive(w) && id in w.calls && InCritical(w.calls[id].stage) && other in w.calls && CouldExtend(w, other, c, t)
    ensures other == id
  {
    assert InCritical(w.calls[other].stage);
  }

  /** Only the call inside could extend, so it is down to the orders that answer its bid. */
  lemma AppendingReopensIff(w: World, id: CallId)
    requires Exclusive(w) && id in w.calls && w.calls[id].stage.Appending?
    ensures MayReopen(w) <==> AnswerMayExtend(w, id)
  {
    if MayReopen(w) {
      var other, c, t :| other in w.calls && w.now <= t && CouldExtend(w, other, c, t);
      OnlyTheHolderExtends(w, id, other, c, t);
      AnsweringExtends(w, id, c, t);
    }
    if AnswerMayExtend(w, id) {
      var c, t :| w.now <= t && AnswersInWindow(w, id, c, t);
      AnsweringExtends(w, id, c, t);
    }
  }

  /**
   The two differ: while a validated bid only waits to be appended, the bids are not final, and the record is exactly
   unless an order stands that could answer the bid inside the anti-snipe window.
   */
  lemma AppendingLeavesRecordShutIff(w: World, id: CallId)
    requires Safe(w) && w.book.auction.status != Active && id in w.calls && w.calls[id].stage.Appending?
    ensures !Frozen(w)
    ensures StaysShut(w) <==> !AnswerMayExtend(w, id)
  {
    assert CouldStillPass(w, id, AutoBid(0, 0.0, true), w.now);
    FrozenIffDisarmed(w);
    ShutIffNobodyExtends(w);
    AppendingReopensIff(w, id);
  }

  // ----- for good -----

  /** A use case that is about to store an open status: a pause or a resume whose own guard held when it loaded. */
  predicate Reopens(p: Writer) {
    (p.purpose == Pausing && p.record.status == Active) || (p.purpose == Resuming && p.record.status == Paused)
  }

  predicate OpenWriter(w: World) {
    exists wid <- w.writers :: Reopens(w.writers[wid])
  }

  ghost predicate ClosedForGood(w: World) {
    forall es :: Closed(Run(w, es).book.auction.status)
  }

  lemma ClosedStep(w: World, e: Event)
    requires Safe(w) && Closed(w.book.auction.status) && !MayReopen(w) && !OpenWriter(w)
    ensures var v := Step(w, e); Closed(v.book.auction.status) && !MayReopen(v) && !OpenWriter(v)
  {
    if Stores(w, e) {
      assert !Reopens(w.writers[e.writer]);
      ShutStep(w, e);
    } else if e.Store? {
      assert Step(w, e) == w;
    } else {
      ShutStep(w, e);
    }
  }

  lemma {:induction false} ClosedRun(w: World, es: seq<Event>)
    requires Safe(w) && Closed(w.book.auction.status) && !MayReopen(w) && !OpenWriter(w)
    ensures Closed(Run(w, es).book.auction.status)
    decreases |es|
  {
    if es != [] {
      ClosedStep(w, es[0]);
      StepKeepsSafe(w, es[0]);
      ClosedRun(Step(w, es[0]), es[1..]);
    }
  }

  /** A pause or resume in flight stores its open status. */
  lemma OpenWriterReopens(w: World, wid: WriterId) returns (es: seq<Event>)
    requires wid in w.writers && Reopens(w.writers[wid])
    ensures !Closed(Run(w, es).book.auction.status)
  {
    var e := Store(wid, if w.writers[wid].purpose == Pausing then Paused else Active, w.writers[wid].record.winnerId, None);
    es := [e];
    assert es[1..] == [];
  }

  /**
   Exactly when closing is final, whatever anybody does next: no call inside could still extend the record, and no pause
   or resume is in flight. Any number of other use cases in flight, a second closing among them, do no harm.
   */
  lemma ClosedForGoodIff(w: World)
    requires Safe(w) && Closed(w.book.auction.status)
    ensures ClosedForGood(w) <==> !MayReopen(w) && !OpenWriter(w)
  {
    if MayReopen(w) {
      var id, c, t :| id in w.calls && w.now <= t && CouldExtend(w, id, c, t);
      var es := ExtenderReopens(w, id, c, t);
      assert !Closed(Run(w, es).book.auction.status);
    } else if wid :| wid in w.writers && Reopens(w.writers[wid]) {
      var es := OpenWriterReopens(w, wid);
      assert !Closed(Run(w, es).book.auction.status);
    } else {
      forall es ensures Closed(Run(w, es).book.auction.status) {
        ClosedRun(w, es);
      }
    }
  }
}
