/**
 The automatic bids that answer an accepted bid, placed under the same lock
 (src/infrastructure/services/auction/autoBid.service.ts).
 */
module AutoBids {
  import opened Basics
  import opened Auctions
  import opened Bidding

  /** A standing order to outbid others up to `max`. A list of orders holds one per user, oldest first. */
  datatype AutoBid = AutoBid(user: UserId, max: real, active: bool)

  // ----- standing orders -----

  /** One order per user: setting another one replaces maximum and status in place. */
  function WithOrder(orders: seq<AutoBid>, c: AutoBid): (r: seq<AutoBid>)
    ensures c in r && forall x :: x in r <==> x == c || (x in orders && x.user != c.user)
  {
    if exists x <- orders :: x.user == c.user then
      var i :| 0 <= i < |orders| && orders[i].user == c.user;
      var r := seq(|orders|, j requires 0 <= j < |orders| => if orders[j].user == c.user then c else orders[j]);
      assert r[i] == c;
      assert forall j :: 0 <= j < |orders| ==> r[j] == if orders[j].user == c.user then c else orders[j];
      r
    else
      orders + [c]
  }

  function Withdrawn(orders: seq<AutoBid>, user: UserId): (r: seq<AutoBid>)
    ensures |r| == |orders|
    ensures forall i :: 0 <= i < |r| ==>
      && r[i].user == orders[i].user && r[i].max == orders[i].max
      && (r[i].active <==> orders[i].active && orders[i].user != user)
  {
    seq(|orders|, i requires 0 <= i < |orders| => if orders[i].user == user then orders[i].(active := false) else orders[i])
  }

  function AllWithdrawn(orders: seq<AutoBid>): (r: seq<AutoBid>)
    ensures |r| == |orders| && forall i :: 0 <= i < |r| ==> r[i] == orders[i].(active := false)
  {
    seq(|orders|, i requires 0 <= i < |orders| => orders[i].(active := false))
  }

  predicate HasActive(orders: seq<AutoBid>, user: UserId) {
    exists c <- orders :: c.active && c.user == user
  }

  predicate OneOrderEach(orders: seq<AutoBid>) {
    forall i, j :: 0 <= i < j < |orders| ==> orders[i].user != orders[j].user
  }

  /** Behind the orders of at least the same maximum, before the others. */
  function Inserted(listed: seq<AutoBid>, c: AutoBid): (r: seq<AutoBid>)
    ensures |r| == |listed| + 1 && forall x :: x in r <==> x == c || x in listed
  {
    if listed == [] || Last(listed).max >= c.max then
      listed + [c]
    else
      assert listed == Init(listed) + [Last(listed)];
      Inserted(Init(listed), c) + [Last(listed)]
  }

  /** What `findActiveByAuctionId` lists: the active orders, highest maximum first, older ones first among equals. */
  function Listed(orders: seq<AutoBid>): (r: seq<AutoBid>)
    ensures |r| <= |orders| && forall x :: x in r <==> x in orders && x.active
  {
    if orders == [] then
      []
    else
      assert orders == Init(orders) + [Last(orders)];
      var rest := Listed(Init(orders));
      if Last(orders).active then Inserted(rest, Last(orders)) else rest
  }

  /** `x` was set before `y`. */
  predicate Older(orders: seq<AutoBid>, x: AutoBid, y: AutoBid) {
    exists i, j :: 0 <= i < j < |orders| && orders[i] == x && orders[j] == y
  }

  predicate ByPriority(orders: seq<AutoBid>, listed: seq<AutoBid>) {
    forall i, j :: 0 <= i < j < |listed| ==>
      listed[i].max > listed[j].max || (listed[i].max == listed[j].max && Older(orders, listed[i], listed[j]))
  }

  lemma {:induction false} InsertedByPriority(orders: seq<AutoBid>, listed: seq<AutoBid>, c: AutoBid)
    requires ByPriority(orders, listed) && forall x <- listed :: Older(orders, x, c)
    ensures ByPriority(orders, Inserted(listed, c))
    ensures listed != [] && Last(listed).max < c.max ==> Last(Inserted(listed, c)) == Last(listed)
  {
    if listed != [] && Last(listed).max < c.max {
      InsertedByPriority(orders, Init(listed), c);
      var r := Inserted(listed, c);
      forall i | 0 <= i < |r| - 1
        ensures r[i].max > Last(r).max || (r[i].max == Last(r).max && Older(orders, r[i], Last(r)))
      {
        assert r[i] in Inserted(Init(listed), c);
        if r[i] != c {
          var j :| 0 <= j < |Init(listed)| && Init(listed)[j] == r[i];
          assert listed[j] == r[i];
        }
      }
    }
  }

  /** The list is in priority order. */
  lemma {:induction false} ListedByPriority(orders: seq<AutoBid>)
    ensures ByPriority(orders, Listed(orders))
  {
    if orders != [] {
      var before := Init(orders);
      ListedByPriority(before);
      forall x, y | Older(before, x, y) ensures Older(orders, x, y) {
        var i, j :| 0 <= i < j < |before| && before[i] == x && before[j] == y;
        assert orders[i] == x && orders[j] == y;
      }
      forall x | x in Listed(before) ensures Older(orders, x, Last(orders)) {
        var i :| 0 <= i < |before| && before[i] == x;
        assert orders[i] == x && orders[|orders| - 1] == Last(orders);
      }
      assert ByPriority(orders, Listed(before));
      if Last(orders).active {
        InsertedByPriority(orders, Listed(before), Last(orders));
      }
    }
  }

  // ----- one automatic bid -----

  function NextMin(a: Auction, current: real): real {
    current + a.minIncrement
  }

  /** The same policy as for a bid by hand, but no look at the participants. */
  predicate AutoAccepts(b: Book, c: AutoBid, current: real, now: int) {
    var amount := NextMin(b.auction, current);
    && amount <= c.max
    && CanPlaceBid(b.auction, c.user, amount, HighestBid(b.bids), NewestBidOf(b.bids, c.user), now) == Allowed
    && Creatable(AfterBid(b.auction, now))
  }

  function PlaceAuto(b: Book, c: AutoBid, current: real, now: int): Book {
    if AutoAccepts(b, c, current, now)
    then Book(AfterBid(b.auction, now), b.bids + [NewBid(b.auction, c.user, NextMin(b.auction, current), now)], b.paid)
    else b
  }

  // ----- the answer to an accepted bid -----

  /** Where the chain stands: the book, the amount to outbid, and whose bid that was. */
  datatype Chain = Chain(book: Book, amount: real, last: UserId)

  predicate Considered(ch: Chain, c: AutoBid) {
    c.active && c.user != ch.last && c.user in ch.book.paid
  }

  function ChainStep(ch: Chain, c: AutoBid, now: int): Chain {
    if Considered(ch, c) && AutoAccepts(ch.book, c, ch.amount, now)
    then Chain(PlaceAuto(ch.book, c, ch.amount, now), NextMin(ch.book.auction, ch.amount), c.user)
    else ch
  }

  function RunChain(ch: Chain, configs: seq<AutoBid>, now: int): Chain
    decreases |configs|
  {
    if configs == [] then ch else RunChain(ChainStep(ch, configs[0], now), configs[1..], now)
  }

  predicate InWindow(a: Auction, now: int) {
    a.endAt - now <= a.antiSnipSeconds * SECOND
  }

  /** Inside the anti-snipe window the first order alone bids; outside it the chain runs over all of them. */
  function Answer(b: Book, latest: real, user: UserId, orders: seq<AutoBid>, now: int): Book {
    var listed := Listed(orders);
    if b.auction.kind != Long then b
    else if InWindow(b.auction, now) then (if listed == [] then b else PlaceAuto(b, listed[0], latest, now))
    else RunChain(Chain(b, latest, user), listed, now).book
  }

  /** The single bid inside the window ends all orders. */
  function OrdersAfter(a: Auction, orders: seq<AutoBid>, now: int): seq<AutoBid> {
    if a.kind == Long && InWindow(a, now) then AllWithdrawn(orders) else orders
  }

  // ----- who may set an order -----

  /** Only a user with a paid participant row, and only while a LONG auction is active. */
  predicate MaySetOrder(b: Book, user: UserId, max: real) {
    b.auction.status == Active && b.auction.kind == Long && user in b.paid && max > 0.0
  }

  predicate OrdersPaid(b: Book, orders: seq<AutoBid>) {
    forall c <- orders :: c.user in b.paid
  }

  class AutoBidDesk {
    var book: Book
    var orders: seq<AutoBid>

    constructor (b: Book, standing: seq<AutoBid>)
      ensures book == b && orders == standing
    {
      book, orders := b, standing;
    }

    /** The socket handler and the create or update use case behind it. */
    method SetOrder(user: UserId, max: real) returns (ok: bool)
      requires OrdersPaid(book, orders) && OneOrderEach(orders)
      modifies this`orders
      ensures OrdersPaid(book, orders) && OneOrderEach(orders)
      ensures ok <==> MaySetOrder(book, user, max)
      ensures ok <==> book.auction.status == Active && book.auction.kind == Long && user in book.paid && max > 0.0
      ensures orders == if ok then WithOrder(old(orders), AutoBid(user, max, true)) else old(orders)
    {
      if book.auction.status != Active {
        return false;
      }
      if user !in book.paid {
        return false;
      }
      if book.auction.kind != Long || max <= 0.0 {
        return false;
      }
      orders := WithOrder(orders, AutoBid(user, max, true));
      return true;
    }

    method Withdraw(user: UserId)
      requires OrdersPaid(book, orders) && OneOrderEach(orders)
      modifies this`orders
      ensures OrdersPaid(book, orders) && OneOrderEach(orders)
      ensures orders == Withdrawn(old(orders), user) && !HasActive(orders, user)
    {
      orders := Withdrawn(orders, user);
    }

    /** Place one automatic bid if order, policy and extension allow it. */
    method PlaceFor(c: AutoBid, current: real, now: int) returns (placed: Option<Bid>)
      requires Creatable(book.auction)
      modifies this`book
      ensures Creatable(book.auction)
      ensures book == PlaceAuto(old(book), c, current, now)
      ensures placed.Some? <==> AutoAccepts(old(book), c, current, now)
      ensures placed.Some? ==> book.bids == old(book).bids + [placed.value] && placed.value.user == c.user
    {
      var nextMin := current + book.auction.minIncrement;
      if nextMin > c.max {
        return None;
      }
      var latest, own := HighestBid(book.bids), NewestBidOf(book.bids, c.user);
      if CanPlaceBid(book.auction, c.user, nextMin, latest, own, now) != Allowed {
        return None;
      }
      var newBid := NewBid(book.auction, c.user, nextMin, now);
      if ShouldExtend(book.auction, book.auction.endAt - now) {
        book := book.(auction := Extended(book.auction));
      }
      book := book.(bids := book.bids + [newBid]);
      return Some(newBid);
    }

    method HandlePlaced(latest: real, user: UserId, now: int)
      requires Creatable(book.auction)
      modifies this
      ensures Creatable(book.auction)
      ensures book == Answer(old(book), latest, user, old(orders), now)
      ensures orders == OrdersAfter(old(book).auction, old(orders), now)
    {
      if book.auction.kind != Long {
        return;
      }
      var listed := Listed(orders);
      if InWindow(book.auction, now) {
        if listed != [] {
          var _ := PlaceFor(listed[0], latest, now);
        }
        orders := AllWithdrawn(orders);
        return;
      }
      var amount, last := latest, user;
      for i := 0 to |listed|
        invariant Creatable(book.auction) && orders == old(orders)
        invariant RunChain(Chain(book, amount, last), listed[i..], now)
               == RunChain(Chain(old(book), latest, user), listed, now)
      {
        var c := listed[i];
        assert listed[i..][1..] == listed[i + 1..];
        if !c.active || c.user == last || c.user !in book.paid {
          continue;
        }
        var increment := book.auction.minIncrement;
        var placed := PlaceFor(c, amount, now);
        if placed.Some? {
          amount, last := amount + increment, c.user;
        }
      }
    }
  }

  // ----- what the chain keeps -----

  /** An automatic bid of a paid participant is exactly a bid by hand of the next minimum. */
  lemma AutoIsPlaceBid(b: Book, c: AutoBid, current: real, now: int)
    requires Sound(b, now) && b.auction.kind == Long && c.user in b.paid && AutoAccepts(b, c, current, now)
    ensures PlaceAuto(b, c, current, now) == PlaceBid(b, c.user, NextMin(b.auction, current), now)
  {
    var h := HighestBid(b.bids);
    if h.Some? {
      var i :| 0 <= i < |b.bids| && b.bids[i] == h.value;
      assert 0.0 < Worth(b.auction.kind, b.bids[i]) == h.value.amount;
    }
  }

  lemma StepKeepsSound(ch: Chain, c: AutoBid, now: int)
    requires Sound(ch.book, now) && ch.book.auction.kind == Long
    ensures Sound(ChainStep(ch, c, now).book, now) && ChainStep(ch, c, now).book.auction.kind == Long
  {
    if Considered(ch, c) && AutoAccepts(ch.book, c, ch.amount, now) {
      AutoIsPlaceBid(ch.book, c, ch.amount, now);
      PlaceBidKeepsSound(ch.book, c.user, NextMin(ch.book.auction, ch.amount), now);
    }
  }

  /** However many orders answer, the history stays in order, spaced, rising, paid for and inside the window. */
  lemma {:induction false} ChainKeepsSound(ch: Chain, configs: seq<AutoBid>, now: int)
    requires Sound(ch.book, now) && ch.book.auction.kind == Long
    ensures Sound(RunChain(ch, configs, now).book, now)
    decreases |configs|
  {
    if configs != [] {
      StepKeepsSound(ch, configs[0], now);
      ChainKeepsSound(ChainStep(ch, configs[0], now), configs[1..], now);
    }
  }

  /** The bids of `b` continued by bids that each top the one before by exactly the increment. */
  predicate ClimbsFrom(bids: seq<Bid>, amount: real, increment: real, later: seq<Bid>) {
    && bids <= later
    && forall i :: |bids| <= i < |later| ==> later[i].amount == amount + (i - |bids| + 1) as real * increment
  }

  lemma OneMoreClimb(bids: seq<Bid>, bid: Bid, amount: real, increment: real, later: seq<Bid>)
    requires bid.amount == amount + increment && ClimbsFrom(bids + [bid], amount + increment, increment, later)
    ensures ClimbsFrom(bids, amount, increment, later)
  {
    var n := |bids|;
    forall i | n <= i < |later| ensures later[i].amount == amount + (i - n + 1) as real * increment {
      if i == n {
        assert later[n] == (bids + [bid])[n];
      } else {
        assert (i - n + 1) as real * increment == (i - n) as real * increment + increment;
      }
    }
    forall i | 0 <= i < n ensures later[i] == bids[i] {
      assert later[i] == (bids + [bid])[i];
    }
  }

  lemma ChainStepClimbs(ch: Chain, c: AutoBid, now: int)
    requires ch.book.auction.kind == Long
    ensures var next := ChainStep(ch, c, now); var inc := ch.book.auction.minIncrement;
      && next.book.auction.kind == Long && next.book.auction.minIncrement == inc
      && (|| next == ch
          || (&& |next.book.bids| == |ch.book.bids| + 1 && next.amount == ch.amount + inc
              && next.book.bids == ch.book.bids + [Last(next.book.bids)] && Last(next.book.bids).amount == next.amount))
  {
  }

  /** The chain raises the price by exactly one increment a bid, with at most one bid per order. */
  lemma {:induction false} ChainClimbs(ch: Chain, configs: seq<AutoBid>, now: int)
    requires ch.book.auction.kind == Long
    ensures var r := RunChain(ch, configs, now);
      && ClimbsFrom(ch.book.bids, ch.amount, ch.book.auction.minIncrement, r.book.bids)
      && |ch.book.bids| <= |r.book.bids| <= |ch.book.bids| + |configs|
    decreases |configs|
  {
    if configs != [] {
      var next := ChainStep(ch, configs[0], now);
      ChainStepClimbs(ch, configs[0], now);
      ChainClimbs(next, configs[1..], now);
      if next != ch {
        var r := RunChain(next, configs[1..], now);
        OneMoreClimb(ch.book.bids, Last(next.book.bids), ch.amount, ch.book.auction.minIncrement, r.book.bids);
      }
    }
  }

  /** Whoever may set an order has paid, so the answer always keeps the history sound. */
  lemma AnswerKeepsSound(b: Book, latest: real, user: UserId, orders: seq<AutoBid>, now: int)
    requires Sound(b, now) && OrdersPaid(b, orders)
    ensures Sound(Answer(b, latest, user, orders, now), now)
  {
    var listed := Listed(orders);
    if b.auction.kind == Long {
      if !InWindow(b.auction, now) {
        ChainKeepsSound(Chain(b, latest, user), listed, now);
      } else if listed != [] && AutoAccepts(b, listed[0], latest, now) {
        assert listed[0] in listed;
        AutoIsPlaceBid(b, listed[0], latest, now);
        PlaceBidKeepsSound(b, listed[0].user, NextMin(b.auction, latest), now);
      }
    }
  }

  // ----- who has to answer -----

  /** An order of `user` up to `max` can bid against `current`: the next minimum does not exceed it and fits every bid. */
  predicate CanAnswer(b: Book, c: AutoBid, current: real, now: int) {
    var amount := current + b.auction.minIncrement;
    amount <= c.max && b.auction.status == Active && Fits(b, Bid(c.user, amount, None, now), now)
  }

  /** The service decides exactly: an order bids if and only if its maximum allows and the bid fits every stored one. */
  lemma AcceptedIffCanAnswer(b: Book, c: AutoBid, current: real, now: int)
    requires Sound(b, now) && b.auction.kind == Long && c.user in b.paid
    ensures AutoAccepts(b, c, current, now) <==> CanAnswer(b, c, current, now)
    ensures AutoAccepts(b, c, current, now) ==> var d := PlaceAuto(b, c, current, now);
      d.bids == b.bids + [Bid(c.user, current + b.auction.minIncrement, None, now)] && d.paid == b.paid
  {
    var amount := NextMin(b.auction, current);
    AcceptedIffFits(b, c.user, amount, now);
    if AutoAccepts(b, c, current, now) {
      AutoIsPlaceBid(b, c, current, now);
      NextIsPositive(b, c, current, now);
    }
  }

  lemma NextIsPositive(b: Book, c: AutoBid, current: real, now: int)
    requires Sound(b, now) && b.auction.kind == Long && AutoAccepts(b, c, current, now)
    ensures NextMin(b.auction, current) > 0.0
  {
    var h := HighestBid(b.bids);
    if h.Some? {
      var i :| 0 <= i < |b.bids| && b.bids[i] == h.value;
      assert 0.0 < Worth(b.auction.kind, b.bids[i]) == h.value.amount;
    }
  }

  /** The chain stays silent exactly if no order on the list is to be considered and could bid. */
  lemma {:induction false} ChainSilentIff(ch: Chain, configs: seq<AutoBid>, now: int)
    ensures RunChain(ch, configs, now).book.bids == ch.book.bids <==>
      forall c <- configs :: !(Considered(ch, c) && AutoAccepts(ch.book, c, ch.amount, now))
    ensures ch.book.bids <= RunChain(ch, configs, now).book.bids
    decreases |configs|
  {
    if configs != [] {
      var next := ChainStep(ch, configs[0], now);
      ChainSilentIff(next, configs[1..], now);
      assert configs == [configs[0]] + configs[1..];
      assert configs[0] in configs;
    }
  }

  /** Who may answer: outside the window any active order but the bidder's own, inside it only the one of highest priority. */
  predicate MayAnswer(b: Book, c: AutoBid, user: UserId, orders: seq<AutoBid>, now: int) {
    c.active && c in orders
    && if b.auction.endAt - now <= b.auction.antiSnipSeconds * 1000 then Listed(orders)[0] == c else c.user != user
  }

  /**
   Exactly when a bid is answered: in a LONG auction, if some order that may answer allows the next minimum and could bid it
   by hand. An order whose maximum equals the next minimum still answers.
   */
  lemma AnsweredIff(b: Book, latest: real, user: UserId, orders: seq<AutoBid>, now: int)
    requires Sound(b, now) && OrdersPaid(b, orders)
    ensures Answer(b, latest, user, orders, now).bids != b.bids <==>
      b.auction.kind == Long && exists c <- orders :: MayAnswer(b, c, user, orders, now) && CanAnswer(b, c, latest, now)
  {
    var listed := Listed(orders);
    if b.auction.kind == Long {
      forall c | c in listed ensures AutoAccepts(b, c, latest, now) <==> CanAnswer(b, c, latest, now) {
        AcceptedIffCanAnswer(b, c, latest, now);
      }
      if !InWindow(b.auction, now) {
        ChainSilentIff(Chain(b, latest, user), listed, now);
        assert forall c <- listed :: Considered(Chain(b, latest, user), c) <==> MayAnswer(b, c, user, orders, now);
      } else if listed != [] {
        assert listed[0] in listed;
      }
    }
  }

  /** An answer inside the window withdraws every order, and no other answer withdraws any. */
  lemma OrdersEndIff(a: Auction, orders: seq<AutoBid>, now: int)
    ensures var after := OrdersAfter(a, orders, now);
      && |after| == |orders|
      && forall i :: 0 <= i < |orders| ==>
           && after[i].user == orders[i].user && after[i].max == orders[i].max
           && (after[i].active <==> orders[i].active && !(a.kind == Long && a.endAt - now <= a.antiSnipSeconds * 1000))
  {
  }

  // ----- the answer as bids by hand -----

  datatype Offer = Offer(user: UserId, amount: real)

  function PlaceAll(b: Book, offers: seq<Offer>, now: int): Book
    decreases |offers|
  {
    if offers == [] then b else PlaceAll(PlaceBid(b, offers[0].user, offers[0].amount, now), offers[1..], now)
  }

  /** What the head of the list offers, if anything. */
  function HeadOffer(ch: Chain, c: AutoBid, now: int): seq<Offer> {
    if Considered(ch, c) && AutoAccepts(ch.book, c, ch.amount, now)
    then [Offer(c.user, NextMin(ch.book.auction, ch.amount))]
    else []
  }

  function ChainOffers(ch: Chain, configs: seq<AutoBid>, now: int): seq<Offer>
    decreases |configs|
  {
    if configs == [] then []
    else
      HeadOffer(ch, configs[0], now) + ChainOffers(ChainStep(ch, configs[0], now), configs[1..], now)
  }

  function AnswerOffers(b: Book, latest: real, user: UserId, orders: seq<AutoBid>, now: int): seq<Offer> {
    var listed := Listed(orders);
    if b.auction.kind != Long then []
    else if !InWindow(b.auction, now) then ChainOffers(Chain(b, latest, user), listed, now)
    else if listed != [] && AutoAccepts(b, listed[0], latest, now)
    then [Offer(listed[0].user, NextMin(b.auction, latest))]
    else []
  }

  /** Every offer is covered by an order of its user. */
  predicate Covered(offers: seq<Offer>, configs: seq<AutoBid>) {
    forall o <- offers :: exists c <- configs :: c.active && c.user == o.user && o.amount <= c.max
  }

  lemma HeadIsBid(ch: Chain, c: AutoBid, now: int, later: seq<Offer>)
    requires Sound(ch.book, now) && ch.book.auction.kind == Long
    ensures PlaceAll(ch.book, HeadOffer(ch, c, now) + later, now) == PlaceAll(ChainStep(ch, c, now).book, later, now)
  {
    var offers := HeadOffer(ch, c, now);
    if offers == [] {
      assert offers + later == later;
    } else {
      AutoIsPlaceBid(ch.book, c, ch.amount, now);
      assert (offers + later)[1..] == later;
    }
  }

  lemma MoreCovered(first: seq<Offer>, c: AutoBid, later: seq<Offer>, configs: seq<AutoBid>)
    requires configs != [] && configs[0] == c && Covered(later, configs[1..])
    requires forall o <- first :: c.active && c.user == o.user && o.amount <= c.max
    ensures Covered(first + later, configs)
  {
    forall o | o in first + later ensures exists x <- configs :: x.active && x.user == o.user && o.amount <= x.max {
      if o in first {
        assert c in configs;
      } else {
        var x :| x in configs[1..] && x.active && x.user == o.user && o.amount <= x.max;
        assert x in configs;
      }
    }
  }

  lemma {:induction false} ChainIsBids(ch: Chain, configs: seq<AutoBid>, now: int)
    requires Sound(ch.book, now) && ch.book.auction.kind == Long
    ensures RunChain(ch, configs, now).book == PlaceAll(ch.book, ChainOffers(ch, configs, now), now)
    ensures Covered(ChainOffers(ch, configs, now), configs)
    decreases |configs|
  {
    if configs != [] {
      var c, rest := configs[0], configs[1..];
      var next := ChainStep(ch, c, now);
      StepKeepsSound(ch, c, now);
      ChainIsBids(next, rest, now);
      HeadIsBid(ch, c, now, ChainOffers(next, rest, now));
      MoreCovered(HeadOffer(ch, c, now), c, ChainOffers(next, rest, now), configs);
    }
  }

  /** The whole answer is a sequence of bids by hand, none above the maximum of its user's order. */
  lemma AnswerIsBids(b: Book, latest: real, user: UserId, orders: seq<AutoBid>, now: int)
    requires Sound(b, now) && OrdersPaid(b, orders)
    ensures var offers := AnswerOffers(b, latest, user, orders, now);
      Answer(b, latest, user, orders, now) == PlaceAll(b, offers, now) && Covered(offers, orders)
  {
    var listed := Listed(orders);
    if b.auction.kind == Long && !InWindow(b.auction, now) {
      ChainIsBids(Chain(b, latest, user), listed, now);
    } else if b.auction.kind == Long && listed != [] && AutoAccepts(b, listed[0], latest, now) {
      assert listed[0] in listed && listed[0] in orders;
      AutoIsPlaceBid(b, listed[0], latest, now);
      assert AnswerOffers(b, latest, user, orders, now)[1..] == [];
    }
  }
}
