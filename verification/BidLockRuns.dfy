/** Runs of the bidding section from an opened auction: one request undisturbed, and three that go wrong. */
module BidLockRuns {
  import opened Basics
  import opened Auctions
  import opened Bidding
  import opened AutoBids
  import opened BidLock

  // ----- one request, undisturbed -----

  function Advances(id: CallId, n: nat): seq<Event> {
    if n == 0 then [] else [Advance(id)] + Advances(id, n - 1)
  }

  /** A request and more steps than it can take. */
  function Request(id: CallId, user: UserId, amount: real, orders: seq<AutoBid>): seq<Event> {
    [Arrive(id, user, amount)] + Advances(id, 16 + 4 * |orders|)
  }

  /** `w` with the call holding the lock at the given stage. */
  function Holding(w: World, id: CallId, user: UserId, amount: real, s: Stage): World {
    w.(lock := Some(id), calls := w.calls[id := Call(user, amount, s)])
  }

  /** `n` of the call's own steps. */
  function Walk(w: World, id: CallId, n: nat): World
    decreases n
  {
    if n == 0 then w else Walk(Step(w, Advance(id)), id, n - 1)
  }

  predicate Spelt(n: nat) { true }

  /** `n` of the call's own steps lead from `w` to `v`. They are looked at one by one only where `Spelt` is mentioned. */
  ghost predicate Leads(w: World, id: CallId, n: nat, v: World) {
    forall m: nat {:trigger Spelt(m)} :: m == n ==> Walk(w, id, m) == v
  }

  lemma {:induction false} WalkSplit(w: World, id: CallId, m: nat, n: nat)
    ensures Walk(w, id, m + n) == Walk(Walk(w, id, m), id, n)
    decreases m
  {
    if m > 0 {
      WalkSplit(Step(w, Advance(id)), id, m - 1, n);
    }
  }

  lemma Join(w: World, id: CallId, m: nat, x: World, n: nat, v: World)
    requires Leads(w, id, m, x) && Leads(x, id, n, v)
    ensures Leads(w, id, m + n, v)
  {
    assert Spelt(m) && Spelt(n);
    WalkSplit(w, id, m, n);
  }

  lemma OneStep(w: World, id: CallId, v: World)
    requires Step(w, Advance(id)) == v
    ensures Leads(w, id, 1, v)
  {
    assert Walk(w, id, 1) == Walk(v, id, 0) == v;
  }

  lemma {:induction false} WalkIsRun(w: World, id: CallId, n: nat)
    ensures Run(w, Advances(id, n)) == Walk(w, id, n)
    decreases n
  {
    if n > 0 {
      RunOne(w, Advance(id), Advances(id, n - 1));
      WalkIsRun(Step(w, Advance(id)), id, n - 1);
    }
  }

  lemma LeadsIsRun(w: World, id: CallId, n: nat, v: World)
    requires Leads(w, id, n, v)
    ensures Run(w, Advances(id, n)) == v
  {
    assert Spelt(n);
    WalkIsRun(w, id, n);
  }

  // ----- the call inside, step by step -----

  /** Inside the section a call does not look at the lock or at other calls. */
  lemma SameStage(w: World, v: World, call: Call)
    requires v.book == w.book && v.orders == w.orders && v.now == w.now && InCritical(call.stage)
    ensures StageFrom(v, call) == StageFrom(w, call)
  {
  }

  /** A step that writes nothing. */
  lemma Reads(w: World, id: CallId, user: UserId, amount: real, s: Stage, next: Stage)
    requires InCritical(s) && !Saving(s) && !Creating(s) && (s.Replying? ==> s.reply.queue != [])
    requires next == StageFrom(w, Call(user, amount, s))
    ensures Leads(Holding(w, id, user, amount, s), id, 1, Holding(w, id, user, amount, next))
  {
    var at, call := Holding(w, id, user, amount, s), Call(user, amount, s);
    SameStage(w, at, call);
    assert Step(at, Advance(id)).calls == w.calls[id := call.(stage := next)];
    OneStep(at, id, Holding(w, id, user, amount, next));
  }

  /** Saving an extension. */
  lemma Saves(w: World, id: CallId, user: UserId, amount: real, s: Stage)
    requires Saving(s)
    ensures var v := w.(book := w.book.(auction := Extended(Held(s))));
      var next := if InReply(s) then ReplyAppending(s.reply, s.bid) else Appending(s.before, s.bid);
      Leads(Holding(w, id, user, amount, s), id, 1, Holding(v, id, user, amount, next))
  {
    var at, call := Holding(w, id, user, amount, s), Call(user, amount, s);
    var v := w.(book := w.book.(auction := Extended(Held(s))));
    assert Step(at, Advance(id)).calls == w.calls[id := call.(stage := StageFrom(at, call))];
    OneStep(at, id, Holding(v, id, user, amount, StageFrom(at, call)));
  }

  /** Creating the row of a bid by hand, or of an automatic one. */
  lemma Appends(w: World, id: CallId, user: UserId, amount: real, s: Stage)
    requires Creating(s)
    ensures var v := w.(book := w.book.(bids := w.book.bids + [s.bid]));
      var next := if InReply(s) then Replying(s.reply.(record := Version(s), amount := s.bid.amount, last := s.bid.user))
                  else Answering(Reply(Version(s), s.bid.amount, user, {}, [], false));
      Leads(Holding(w, id, user, amount, s), id, 1, Holding(v, id, user, amount, next))
  {
    var at, call := Holding(w, id, user, amount, s), Call(user, amount, s);
    var v := w.(book := w.book.(bids := w.book.bids + [s.bid]));
    assert Step(at, Advance(id)).calls == w.calls[id := call.(stage := StageFrom(at, call))];
    OneStep(at, id, Holding(v, id, user, amount, StageFrom(at, call)));
  }

  /** The call gone, the lock free. */
  function Gone(w: World, id: CallId, user: UserId, amount: real): World {
    w.(lock := None, calls := w.calls[id := Call(user, amount, Left)])
  }

  lemma Releases(w: World, id: CallId, user: UserId, amount: real)
    ensures Leads(Holding(w, id, user, amount, Leaving), id, 1, Gone(w, id, user, amount))
  {
    var at := Holding(w, id, user, amount, Leaving);
    assert Step(at, Advance(id)).calls == w.calls[id := Call(user, amount, Left)];
    OneStep(at, id, Gone(w, id, user, amount));
  }

  lemma {:induction false} LeftStays(w: World, id: CallId, n: nat)
    requires id in w.calls && w.calls[id].stage == Left
    ensures Leads(w, id, n, w)
    decreases n
  {
    if n == 0 {
      assert Walk(w, id, 0) == w;
    } else {
      assert Step(w, Advance(id)).calls == w.calls;
      OneStep(w, id, w);
      LeftStays(w, id, n - 1);
      Join(w, id, 1, w, n - 1, w);
    }
  }

  /** What the call decides on the state it finds. */
  function Decision(w: World, user: UserId, amount: real): Stage {
    var seen := SawOwn(w.book.auction, HighestBid(w.book.bids), NewestBidOf(w.book.bids, user));
    Decide(Call(user, amount, seen), w.book.paid, w.now)
  }

  lemma ReadsRecord(w: World, id: CallId, user: UserId, amount: real)
    requires !HasActive(w.orders, user)
    ensures Leads(Holding(w, id, user, amount, Locked), id, 2, Holding(w, id, user, amount, SawAuction(w.book.auction)))
  {
    var w0, w1 := Holding(w, id, user, amount, Locked), Holding(w, id, user, amount, Cleared);
    Reads(w, id, user, amount, Locked, Cleared);
    Reads(w, id, user, amount, Cleared, SawAuction(w.book.auction));
    Join(w0, id, 1, w1, 1, Holding(w, id, user, amount, SawAuction(w.book.auction)));
  }

  lemma ReadsBids(w: World, id: CallId, user: UserId, amount: real)
    ensures Leads(Holding(w, id, user, amount, SawAuction(w.book.auction)), id, 3,
                  Holding(w, id, user, amount, Decision(w, user, amount)))
  {
    var a, l, o := w.book.auction, HighestBid(w.book.bids), NewestBidOf(w.book.bids, user);
    var w0, w1 := Holding(w, id, user, amount, SawAuction(a)), Holding(w, id, user, amount, SawLatest(a, l));
    var w2, w3 := Holding(w, id, user, amount, SawOwn(a, l, o)), Holding(w, id, user, amount, Decision(w, user, amount));
    Reads(w, id, user, amount, SawAuction(a), SawLatest(a, l));
    Reads(w, id, user, amount, SawLatest(a, l), SawOwn(a, l, o));
    Reads(w, id, user, amount, SawOwn(a, l, o), Decision(w, user, amount));
    Join(w0, id, 1, w1, 1, w2);
    Join(w0, id, 2, w2, 1, w3);
  }

  lemma ReadsAndDecides(w: World, id: CallId, user: UserId, amount: real)
    requires !HasActive(w.orders, user)
    ensures Leads(Holding(w, id, user, amount, Locked), id, 5, Holding(w, id, user, amount, Decision(w, user, amount)))
  {
    ReadsRecord(w, id, user, amount);
    ReadsBids(w, id, user, amount);
    Join(Holding(w, id, user, amount, Locked), id, 2, Holding(w, id, user, amount, SawAuction(w.book.auction)), 3,
         Holding(w, id, user, amount, Decision(w, user, amount)));
  }

  // ----- the answer -----

  /** The order's bid is accepted, on the version of the record the answer goes by. */
  predicate Takes(w: World, r: Reply, c: AutoBid) {
    AutoAccepts(w.book.(auction := r.record), c, r.amount, w.now)
  }

  function ReplyBid(w: World, r: Reply, c: AutoBid): Bid {
    NewBid(r.record, c.user, NextMin(r.record, r.amount), w.now)
  }

  function BookAfter(w: World, r: Reply, c: AutoBid): Book {
    if !Takes(w, r, c) then w.book
    else
      Book(if ShouldExtend(r.record, r.record.endAt - w.now) then Extended(r.record) else w.book.auction,
           w.book.bids + [ReplyBid(w, r, c)], w.book.paid)
  }

  function ReplyAfter(w: World, r: Reply, c: AutoBid): Reply {
    if !Takes(w, r, c) then r
    else r.(record := AfterBid(r.record, w.now), amount := NextMin(r.record, r.amount), last := c.user)
  }

  function Weighed(w: World, r: Reply, c: AutoBid): Stage {
    DecideReply(r, c, HighestBid(w.book.bids), NewestBidOf(w.book.bids, c.user), w.now)
  }

  /** The order is taken up, and its bid decided. */
  lemma OrderIsWeighed(w: World, id: CallId, user: UserId, amount: real, r: Reply)
    requires r.queue != [] && Considers(r, r.queue[0])
    ensures var c, rest := r.queue[0], r.(queue := r.queue[1..]);
      Leads(Holding(w, id, user, amount, Replying(r)), id, 2, Holding(w, id, user, amount, Weighed(w, rest, c)))
  {
    var c, rest := r.queue[0], r.(queue := r.queue[1..]);
    var s := Weighing(rest, c, HighestBid(w.book.bids));
    Reads(w, id, user, amount, Replying(r), s);
    Reads(w, id, user, amount, s, Weighed(w, rest, c));
    Join(Holding(w, id, user, amount, Replying(r)), id, 1, Holding(w, id, user, amount, s), 1,
         Holding(w, id, user, amount, Weighed(w, rest, c)));
  }

  lemma WeighedMeans(w: World, r: Reply, c: AutoBid)
    requires r.record.kind == Long
    ensures Weighed(w, r, c) == if !Takes(w, r, c) then Replying(r)
      else if ShouldExtend(r.record, r.record.endAt - w.now) then ReplyExtending(r, ReplyBid(w, r, c))
      else ReplyAppending(r, ReplyBid(w, r, c))
    ensures Takes(w, r, c) ==> var bid := ReplyBid(w, r, c);
      ReplyAfter(w, r, c) == r.(record := AfterBid(r.record, bid.createdAt), amount := bid.amount, last := bid.user)
  {
  }

  /** The accepted bid is written. */
  lemma ReplyIsWritten(w: World, id: CallId, user: UserId, amount: real, r: Reply, c: AutoBid) returns (k: nat)
    requires r.record.kind == Long && Takes(w, r, c)
    ensures 1 <= k <= 2
    ensures Leads(Holding(w, id, user, amount, Weighed(w, r, c)), id, k,
                  Holding(w.(book := BookAfter(w, r, c)), id, user, amount, Replying(ReplyAfter(w, r, c))))
  {
    WeighedMeans(w, r, c);
    var bid := ReplyBid(w, r, c);
    if ShouldExtend(r.record, r.record.endAt - w.now) {
      var v := w.(book := w.book.(auction := Extended(r.record)));
      Saves(w, id, user, amount, ReplyExtending(r, bid));
      Appends(v, id, user, amount, ReplyAppending(r, bid));
      Join(Holding(w, id, user, amount, ReplyExtending(r, bid)), id, 1, Holding(v, id, user, amount, ReplyAppending(r, bid)), 1,
           Holding(w.(book := BookAfter(w, r, c)), id, user, amount, Replying(ReplyAfter(w, r, c))));
      k := 2;
    } else {
      Appends(w, id, user, amount, ReplyAppending(r, bid));
      k := 1;
    }
  }

  /** From its place at the head of the queue to the next one: at most four steps. */
  lemma OrderIsTried(w: World, id: CallId, user: UserId, amount: real, r: Reply) returns (k: nat)
    requires r.queue != [] && Considers(r, r.queue[0]) && r.record.kind == Long
    ensures k <= 4
    ensures var c, rest := r.queue[0], r.(queue := r.queue[1..]);
      Leads(Holding(w, id, user, amount, Replying(r)), id, k,
            Holding(w.(book := BookAfter(w, rest, c)), id, user, amount, Replying(ReplyAfter(w, rest, c))))
  {
    var c, rest := r.queue[0], r.(queue := r.queue[1..]);
    OrderIsWeighed(w, id, user, amount, r);
    if Takes(w, rest, c) {
      var n := ReplyIsWritten(w, id, user, amount, rest, c);
      Join(Holding(w, id, user, amount, Replying(r)), id, 2, Holding(w, id, user, amount, Weighed(w, rest, c)), n,
           Holding(w.(book := BookAfter(w, rest, c)), id, user, amount, Replying(ReplyAfter(w, rest, c))));
      k := 2 + n;
    } else {
      WeighedMeans(w, rest, c);
      k := 2;
    }
  }

  lemma QueueDone(w: World, id: CallId, user: UserId, amount: real, r: Reply)
    requires r.queue == []
    ensures var v := w.(orders := if r.topOnly then AllWithdrawn(w.orders) else w.orders);
      Leads(Holding(w, id, user, amount, Replying(r)), id, 2, Gone(v, id, user, amount))
  {
    var v := w.(orders := if r.topOnly then AllWithdrawn(w.orders) else w.orders);
    var at := Holding(w, id, user, amount, Replying(r));
    assert Step(at, Advance(id)).calls == w.calls[id := Call(user, amount, Leaving)];
    OneStep(at, id, Holding(v, id, user, amount, Leaving));
    Releases(v, id, user, amount);
    Join(at, id, 1, Holding(v, id, user, amount, Leaving), 1, Gone(v, id, user, amount));
  }

  lemma TryingIsChainStep(w: World, r: Reply, c: AutoBid)
    requires r.record == w.book.auction && r.record.kind == Long && r.payers == w.book.paid && !r.topOnly && c.active
    ensures ChainStep(Chain(w.book, r.amount, r.last), c, w.now)
         == if Considers(r, c) then Chain(BookAfter(w, r, c), ReplyAfter(w, r, c).amount, ReplyAfter(w, r, c).last)
            else Chain(w.book, r.amount, r.last)
    ensures ReplyAfter(w, r, c).record == BookAfter(w, r, c).auction && ReplyAfter(w, r, c).record.kind == Long
    ensures ReplyAfter(w, r, c).payers == BookAfter(w, r, c).paid && !ReplyAfter(w, r, c).topOnly
    ensures ReplyAfter(w, r, c).queue == r.queue
  {
    assert w.book.(auction := r.record) == w.book;
  }

  function ChainBook(w: World, r: Reply): Book {
    RunChain(Chain(w.book, r.amount, r.last), r.queue, w.now).book
  }

  /** The loop over the queue is the chain of automatic bids. */
  lemma {:induction false} LoopIsChain(w: World, id: CallId, user: UserId, amount: real, r: Reply) returns (k: nat)
    requires r.record == w.book.auction && r.record.kind == Long && r.payers == w.book.paid && !r.topOnly
    requires forall c <- r.queue :: c.active
    ensures k <= 2 + 4 * |r.queue|
    ensures Leads(Holding(w, id, user, amount, Replying(r)), id, k, Gone(w.(book := ChainBook(w, r)), id, user, amount))
    decreases |r.queue|
  {
    if r.queue == [] {
      QueueDone(w, id, user, amount, r);
      assert w.(orders := w.orders) == w;
      k := 2;
    } else {
      var c, rest := r.queue[0], r.(queue := r.queue[1..]);
      assert c in r.queue && forall x <- rest.queue :: x in r.queue;
      TryingIsChainStep(w, rest, c);
      var m: nat, v, next := 1, w, rest;
      if Considers(r, c) {
        m := OrderIsTried(w, id, user, amount, r);
        v, next := w.(book := BookAfter(w, rest, c)), ReplyAfter(w, rest, c);
      } else {
        Reads(w, id, user, amount, Replying(r), Replying(rest));
      }
      var n := LoopIsChain(v, id, user, amount, next);
      assert ChainBook(v, next) == ChainBook(w, r);
      Join(Holding(w, id, user, amount, Replying(r)), id, m, Holding(v, id, user, amount, Replying(next)), n,
           Gone(w.(book := ChainBook(w, r)), id, user, amount));
      k := m + n;
    }
  }

  /** The book and the orders after the answer to an accepted bid. */
  function Answered(w: World, latest: real, user: UserId): World {
    w.(book := Answer(w.book, latest, user, w.orders, w.now), orders := OrdersAfter(w.book.auction, w.orders, w.now))
  }

  lemma TopOrderAnswers(w: World, r: Reply)
    requires r.record == w.book.auction && r.record.kind == Long && InWindow(r.record, w.now)
    ensures var listed := Listed(w.orders);
      Answered(w, r.amount, r.last)
        == w.(book := if listed == [] then w.book else BookAfter(w, r, listed[0]), orders := AllWithdrawn(w.orders))
  {
    assert w.book.(auction := r.record) == w.book;
  }

  lemma TopOrderIsTried(w: World, id: CallId, user: UserId, amount: real, r: Reply) returns (k: nat)
    requires r.record == w.book.auction && r.record.kind == Long && InWindow(r.record, w.now)
    requires r.topOnly && r.queue == if Listed(w.orders) == [] then [] else [Listed(w.orders)[0]]
    ensures k <= 6
    ensures Leads(Holding(w, id, user, amount, Replying(r)), id, k, Gone(Answered(w, r.amount, r.last), id, user, amount))
  {
    if r.queue == [] {
      TopOrderAnswers(w, r);
      QueueDone(w, id, user, amount, r);
      k := 2;
    } else {
      var c, rest := r.queue[0], r.(queue := r.queue[1..]);
      var v, next := w.(book := BookAfter(w, rest, c)), ReplyAfter(w, rest, c);
      TopOrderAnswers(w, rest);
      var m := OrderIsTried(w, id, user, amount, r);
      QueueDone(v, id, user, amount, next);
      Join(Holding(w, id, user, amount, Replying(r)), id, m, Holding(v, id, user, amount, Replying(next)), 2,
           Gone(Answered(w, r.amount, r.last), id, user, amount));
      k := m + 2;
    }
  }

  lemma NoAnswer(w: World, latest: real, user: UserId)
    requires w.book.auction.kind != Long || w.orders == []
    ensures Answered(w, latest, user) == w
  {
    assert AllWithdrawn([]) == [];
  }

  lemma ChainAnswers(w: World, r: Reply)
    requires w.book.auction.kind == Long && !InWindow(w.book.auction, w.now) && r.queue == Listed(w.orders)
    ensures Answered(w, r.amount, r.last) == w.(book := ChainBook(w, r))
  {
  }

  /** The queue as read, worked off. */
  lemma QueueAnswers(w: World, id: CallId, user: UserId, amount: real, r: Reply) returns (k: nat)
    requires r.record == w.book.auction && r.record.kind == Long && r.payers == w.book.paid
    ensures k <= 6 + 4 * |w.orders|
    ensures Leads(Holding(w, id, user, amount, Replying(Queued(r, w.orders, w.now))), id, k,
                  Gone(Answered(w, r.amount, r.last), id, user, amount))
  {
    var queued := Queued(r, w.orders, w.now);
    if InWindow(r.record, w.now) {
      k := TopOrderIsTried(w, id, user, amount, queued);
    } else {
      k := LoopIsChain(w, id, user, amount, queued);
      ChainAnswers(w, queued);
    }
  }

  /** The answering stages, undisturbed, are the answer in one step. */
  lemma AnsweringIsAnswer(w: World, id: CallId, user: UserId, amount: real, r: Reply) returns (k: nat)
    requires r.record == w.book.auction
    ensures k <= 8 + 4 * |w.orders|
    ensures Leads(Holding(w, id, user, amount, Answering(r)), id, k, Gone(Answered(w, r.amount, r.last), id, user, amount))
  {
    var w0, last := Holding(w, id, user, amount, Answering(r)), Gone(Answered(w, r.amount, r.last), id, user, amount);
    if r.record.kind != Long {
      Reads(w, id, user, amount, Answering(r), Leaving);
      NoAnswer(w, r.amount, r.last);
      Releases(w, id, user, amount);
      Join(w0, id, 1, Holding(w, id, user, amount, Leaving), 1, last);
      k := 2;
    } else {
      var read := r.(payers := w.book.paid);
      var w1 := Holding(w, id, user, amount, Choosing(read));
      var w2 := Holding(w, id, user, amount, Replying(Queued(read, w.orders, w.now)));
      Reads(w, id, user, amount, Answering(r), Choosing(read));
      Reads(w, id, user, amount, Choosing(read), Replying(Queued(read, w.orders, w.now)));
      var n := QueueAnswers(w, id, user, amount, read);
      Join(w0, id, 1, w1, 1, w2);
      Join(w0, id, 2, w2, n, last);
      k := 2 + n;
    }
  }

  // ----- the whole request -----

  /** The request done: refused while an order of the user stands, otherwise placed or not, and answered. */
  function Served(w: World, id: CallId, user: UserId, amount: real): World {
    if HasActive(w.orders, user) || !Accepts(w.book, user, amount, w.now) then
      Gone(w, id, user, amount)
    else
      Gone(Answered(w.(book := PlaceBid(w.book, user, amount, w.now)), amount, user), id, user, amount)
  }

  lemma DecisionMeans(w: World, user: UserId, amount: real)
    ensures var d, bid := Decision(w, user, amount), NewBid(w.book.auction, user, amount, w.now);
      d == if !Accepts(w.book, user, amount, w.now) then Leaving
           else if ShouldExtend(w.book.auction, w.book.auction.endAt - w.now) then Extending(w.book.auction, bid)
           else Appending(w.book.auction, bid)
  {
    assert w.book == Book(w.book.auction, w.book.bids, w.book.paid);
  }

  /** The first stage of the answer to a bid just placed. */
  function Beginning(w: World, user: UserId, amount: real): Stage {
    var bid := NewBid(w.book.auction, user, amount, w.now);
    Answering(Reply(AfterBid(w.book.auction, w.now), bid.amount, user, {}, [], false))
  }

  /** From the decision to the start of the answer. */
  lemma BidIsPlaced(w: World, id: CallId, user: UserId, amount: real) returns (k: nat)
    requires Accepts(w.book, user, amount, w.now)
    ensures k <= 2
    ensures Leads(Holding(w, id, user, amount, Decision(w, user, amount)), id, k,
                  Holding(w.(book := PlaceBid(w.book, user, amount, w.now)), id, user, amount, Beginning(w, user, amount)))
  {
    DecisionMeans(w, user, amount);
    var a, bid := w.book.auction, NewBid(w.book.auction, user, amount, w.now);
    if ShouldExtend(a, a.endAt - w.now) {
      var v := w.(book := w.book.(auction := Extended(a)));
      Saves(w, id, user, amount, Extending(a, bid));
      Appends(v, id, user, amount, Appending(a, bid));
      Join(Holding(w, id, user, amount, Extending(a, bid)), id, 1, Holding(v, id, user, amount, Appending(a, bid)), 1,
           Holding(w.(book := PlaceBid(w.book, user, amount, w.now)), id, user, amount, Beginning(w, user, amount)));
      k := 2;
    } else {
      Appends(w, id, user, amount, Appending(a, bid));
      k := 1;
    }
  }

  lemma Finishes(w: World, id: CallId, user: UserId, amount: real) returns (k: nat)
    requires !HasActive(w.orders, user)
    ensures k <= 10 + 4 * |w.orders|
    ensures Leads(Holding(w, id, user, amount, Decision(w, user, amount)), id, k, Served(w, id, user, amount))
  {
    if Accepts(w.book, user, amount, w.now) {
      var placed := w.(book := PlaceBid(w.book, user, amount, w.now));
      var r := Beginning(w, user, amount).reply;
      var m := BidIsPlaced(w, id, user, amount);
      var n := AnsweringIsAnswer(placed, id, user, amount, r);
      if placed.book.auction.kind != Long {
        NoAnswer(placed, amount, user);
        NoAnswer(placed, r.amount, user);
      }
      Join(Holding(w, id, user, amount, Decision(w, user, amount)), id, m, Holding(placed, id, user, amount, Answering(r)), n,
           Served(w, id, user, amount));
      k := m + n;
    } else {
      DecisionMeans(w, user, amount);
      Releases(w, id, user, amount);
      k := 1;
    }
  }

  /** All the call does from the moment it has the lock. */
  lemma LockedFinishes(w: World, id: CallId, user: UserId, amount: real) returns (k: nat)
    ensures k <= 15 + 4 * |w.orders|
    ensures Leads(Holding(w, id, user, amount, Locked), id, k, Served(w, id, user, amount))
  {
    if HasActive(w.orders, user) {
      Reads(w, id, user, amount, Locked, Leaving);
      Releases(w, id, user, amount);
      Join(Holding(w, id, user, amount, Locked), id, 1, Holding(w, id, user, amount, Leaving), 1, Gone(w, id, user, amount));
      k := 2;
    } else {
      ReadsAndDecides(w, id, user, amount);
      var n := Finishes(w, id, user, amount);
      Join(Holding(w, id, user, amount, Locked), id, 5, Holding(w, id, user, amount, Decision(w, user, amount)), n,
           Served(w, id, user, amount));
      k := 5 + n;
    }
  }

  /** A request that finds the lock free has it after one step. */
  lemma RunOfRequest(w: World, id: CallId, user: UserId, amount: real, n: nat, v: World)
    requires w.lock == None && id !in w.calls && Leads(Holding(w, id, user, amount, Locked), id, n, v)
    ensures Run(w, [Arrive(id, user, amount)] + Advances(id, 1 + n)) == v
  {
    var waiting := Step(w, Arrive(id, user, amount));
    RunOne(w, Arrive(id, user, amount), Advances(id, 1 + n));
    assert Step(waiting, Advance(id)).calls == w.calls[id := Call(user, amount, Locked)];
    OneStep(waiting, id, Holding(w, id, user, amount, Locked));
    Join(waiting, id, 1, Holding(w, id, user, amount, Locked), n, v);
    LeadsIsRun(waiting, id, 1 + n, v);
  }

  /** Once it is done, further steps change nothing. */
  lemma LockedIsServed(w: World, id: CallId, user: UserId, amount: real, n: nat)
    requires n == 15 + 4 * |w.orders|
    ensures Leads(Holding(w, id, user, amount, Locked), id, n, Served(w, id, user, amount))
  {
    var v := Served(w, id, user, amount);
    var k := LockedFinishes(w, id, user, amount);
    LeftStays(v, id, n - k);
    Join(Holding(w, id, user, amount, Locked), id, k, v, n - k, v);
  }

  lemma RequestRuns(w: World, id: CallId, user: UserId, amount: real, v: World)
    requires w.lock == None && id !in w.calls
    requires Leads(Holding(w, id, user, amount, Locked), id, 15 + 4 * |w.orders|, v)
    ensures Run(w, Request(id, user, amount, w.orders)) == v
  {
    RunOfRequest(w, id, user, amount, 15 + 4 * |w.orders|, v);
  }

  /** A request nobody disturbs is exactly one atomic bid with its atomic answer, and leaves the lock free. */
  lemma RequestIsPlaceBid(w: World, id: CallId, user: UserId, amount: real)
    requires w.lock == None && id !in w.calls
    ensures Run(w, Request(id, user, amount, w.orders)) == Served(w, id, user, amount)
  {
    var v := Served(w, id, user, amount);
    LockedIsServed(w, id, user, amount, 15 + 4 * |w.orders|);
    RequestRuns(w, id, user, amount, v);
  }

  /** Where nobody has an order, the request and some time. */
  lemma RequestThenWait(w: World, id: CallId, user: UserId, amount: real, ms: nat)
    requires w.lock == None && id !in w.calls && w.orders == []
    ensures Run(w, Request(id, user, amount, []) + [Tick(ms)])
         == Gone(w.(book := PlaceBid(w.book, user, amount, w.now), now := w.now + ms), id, user, amount)
  {
    RequestIsPlaceBid(w, id, user, amount);
    assert Served(w, id, user, amount) == Gone(w.(book := PlaceBid(w.book, user, amount, w.now)), id, user, amount) by {
      NoAnswer(w.(book := PlaceBid(w.book, user, amount, w.now)), amount, user);
    }
    RunAppend(w, Request(id, user, amount, []), [Tick(ms)]);
    RunOne(Served(w, id, user, amount), Tick(ms), []);
    assert [Tick(ms)] + [] == [Tick(ms)];
  }

  lemma RunOfOne(w: World, e: Event)
    ensures Run(w, [e]) == Step(w, e)
  {
    RunOne(w, e, []);
    assert [e] + [] == [e];
  }

  lemma RunOfTwo(w: World, e: Event, f: Event)
    ensures Run(w, [e, f]) == Step(Step(w, e), f)
  {
    RunOne(w, e, [f]);
    RunOfOne(Step(w, e), f);
    assert [e] + [f] == [e, f];
  }

  // ----- an opened auction -----

  const RULES := Auction(1, Long, 1.0, 1.0, 0, 100000, Active, 60, 0, 3, 0, None, None)
  const LEAD := Bid(8, 1.0, None, 0)
  const RIVAL := Bid(7, 5.0, None, 99500)
  const LATER := Bid(8, 6.0, None, 119500)

  function Opened(): World {
    World(Book(RULES, [], {7, 8}), None, map[], map[], [], map[], 0)
  }

  // ----- a closed auction comes back -----

  /** User 8 has bid 1 at the start, and it is `now`. */
  function Quiet(x: CallId, now: int): World {
    World(Book(RULES, [LEAD], {7, 8}), None, map[x := Call(8, 1.0, Left)], map[], [], map[], now)
  }

  lemma LeadIsPlaced()
    ensures PlaceBid(Book(RULES, [], {7, 8}), 8, 1.0, 0) == Book(RULES, [LEAD], {7, 8})
  {
    assert PlaceBid(Book(RULES, [], {7, 8}), 8, 1.0, 0).bids == [] + [LEAD];
  }

  lemma QuietIsReached(x: CallId, now: nat)
    ensures Run(Opened(), Request(x, 8, 1.0, []) + [Tick(now)]) == Quiet(x, now)
  {
    RequestThenWait(Opened(), x, 8, 1.0, now);
    LeadIsPlaced();
    assert Opened().calls[x := Call(8, 1.0, Left)] == Quiet(x, now).calls;
  }

  function Entering(y: CallId): seq<Event> {
    [Arrive(y, 7, 5.0)] + Advances(y, 6)
  }

  lemma EnteringDecides(w: World, y: CallId)
    requires w.lock == None && y !in w.calls && !HasActive(w.orders, 7)
    ensures Run(w, Entering(y)) == Holding(w, y, 7, 5.0, Decision(w, 7, 5.0))
  {
    ReadsAndDecides(w, y, 7, 5.0);
    RunOfRequest(w, y, 7, 5.0, 5, Holding(w, y, 7, 5.0, Decision(w, 7, 5.0)));
  }

  function EndingFor8(p: WriterId): seq<Event> {
    [Load(p, Closing), Store(p, Ended, Some(8), Some(1.0))]
  }

  function EndedRecord(): Auction {
    RULES.(status := Ended, winnerId := Some(8), winAmount := Some(1.0))
  }

  lemma SellerEnds(w: World, p: WriterId)
    requires w.book.auction == RULES && w.writers == map[]
    ensures Run(w, EndingFor8(p)) == w.(book := w.book.(auction := EndedRecord()))
  {
    RunOfTwo(w, Load(p, Closing), Store(p, Ended, Some(8), Some(1.0)));
    assert Step(Step(w, Load(p, Closing)), Store(p, Ended, Some(8), Some(1.0))).writers == map[];
  }

  /** User 7's bid of 5 has been validated inside the section, half a second before the end. */
  function Poised(x: CallId, y: CallId): World {
    Holding(Quiet(x, 99500), y, 7, 5.0, Extending(RULES, RIVAL))
  }

  lemma RivalIsValidated(x: CallId)
    ensures Decision(Quiet(x, 99500), 7, 5.0) == Extending(RULES, RIVAL)
  {
    assert Init([LEAD]) == [];
    assert HighestBid([LEAD]) == Some(LEAD) && NewestBidOf([LEAD], 7) == None;
  }

  /** From the opening to the moment the seller has ended the auction for user 8. */
  function Ending(x: CallId, y: CallId, p: WriterId): seq<Event> {
    Request(x, 8, 1.0, []) + [Tick(99500)] + Entering(y) + EndingFor8(p)
  }

  function EndedWorld(x: CallId, y: CallId): World {
    Poised(x, y).(book := Book(EndedRecord(), [LEAD], {7, 8}))
  }

  lemma EndingIsReached(x: CallId, y: CallId, p: WriterId)
    requires x != y
    ensures Run(Opened(), Ending(x, y, p)) == EndedWorld(x, y)
  {
    var a := Request(x, 8, 1.0, []) + [Tick(99500)];
    QuietIsReached(x, 99500);
    EnteringDecides(Quiet(x, 99500), y);
    RivalIsValidated(x);
    SellerEnds(Poised(x, y), p);
    RunAppend(Opened(), a + Entering(y), EndingFor8(p));
    RunAppend(Opened(), a, Entering(y));
  }

  /** User 7's extension and bid are written. */
  function Overwritten(x: CallId, y: CallId): World {
    Holding(Quiet(x, 99500).(book := Book(Extended(RULES), [LEAD, RIVAL], {7, 8})), y, 7, 5.0,
            Answering(Reply(Extended(RULES), 5.0, 7, {}, [], false)))
  }

  lemma ExtensionComesBack(x: CallId, y: CallId)
    ensures Run(EndedWorld(x, y), Advances(y, 2)) == Overwritten(x, y)
  {
    var w := EndedWorld(x, y);
    var base := Quiet(x, 99500).(book := w.book);
    var next := base.(book := base.book.(auction := Extended(RULES)));
    assert w == Holding(base, y, 7, 5.0, Extending(RULES, RIVAL));
    Saves(base, y, 7, 5.0, Extending(RULES, RIVAL));
    Appends(next, y, 7, 5.0, Appending(RULES, RIVAL));
    assert [LEAD] + [RIVAL] == [LEAD, RIVAL];
    Join(w, y, 1, Holding(next, y, 7, 5.0, Appending(RULES, RIVAL)), 1, Overwritten(x, y));
    LeadsIsRun(w, y, 2, Overwritten(x, y));
  }

  /**
   A run from an opened auction. The seller ends it for user 8 while an extension is pending; the extension writes the
   ACTIVE record back, erasing the winner, and user 7's bid is appended to an auction that had ended.
   */
  lemma EndedAuctionComesBack(x: CallId, y: CallId, p: WriterId)
    requires x != y
    ensures Opening(Opened())
    ensures var ended := Run(Opened(), Ending(x, y, p)).book.auction; ended.status == Ended && ended.winnerId == Some(8)
    ensures var v := Run(Opened(), Ending(x, y, p) + Advances(y, 2)).book;
      v.auction.status == Active && v.auction.winnerId == None && v.bids == [LEAD, RIVAL]
  {
    EndingIsReached(x, y, p);
    ExtensionComesBack(x, y);
    RunAppend(Opened(), Ending(x, y, p), Advances(y, 2));
  }

  // ----- a standing order brings a closed auction back -----

  const ORDER := AutoBid(8, 10.0, true)
  const EARLY := Bid(7, 5.0, None, 39999)
  const REPLY := Bid(8, 6.0, None, 40005)

  /** User 8 sets an order up to 10. */
  function Ordering(k: AskId): seq<Event> {
    [Ask(k, 8, 10.0), Stand(k)]
  }

  lemma OrderIsSet(x: CallId, k: AskId)
    ensures Run(Quiet(x, 39999), Ordering(k)) == Quiet(x, 39999).(orders := [ORDER])
  {
    RunOfTwo(Quiet(x, 39999), Ask(k, 8, 10.0), Stand(k));
    assert Step(Step(Quiet(x, 39999), Ask(k, 8, 10.0)), Stand(k)).asks == map[];
    assert WithOrder([], ORDER) == [ORDER];
  }

  lemma EarlyIsValidated(x: CallId)
    ensures Decision(Quiet(x, 39999).(orders := [ORDER]), 7, 5.0) == Appending(RULES, EARLY)
  {
    assert Init([LEAD]) == [];
    assert HighestBid([LEAD]) == Some(LEAD) && NewestBidOf([LEAD], 7) == None;
  }

  /** User 7's bid is validated a millisecond before the window opens; the seller ends the auction; six milliseconds pass. */
  function EndingUnderOrder(x: CallId, y: CallId, k: AskId, p: WriterId): seq<Event> {
    (Request(x, 8, 1.0, []) + [Tick(39999)] + Ordering(k)) + (Entering(y) + EndingFor8(p) + [Tick(6)])
  }

  function EndedUnderOrder(x: CallId): World {
    Quiet(x, 40005).(orders := [ORDER], book := Book(EndedRecord(), [LEAD], {7, 8}))
  }

  function Ordered(x: CallId): World {
    Quiet(x, 39999).(orders := [ORDER])
  }

  lemma OrderedIsReached(x: CallId, k: AskId)
    ensures Run(Opened(), Request(x, 8, 1.0, []) + [Tick(39999)] + Ordering(k)) == Ordered(x)
  {
    QuietIsReached(x, 39999);
    OrderIsSet(x, k);
    RunAppend(Opened(), Request(x, 8, 1.0, []) + [Tick(39999)], Ordering(k));
  }

  lemma EndedWhilePoised(x: CallId, y: CallId, p: WriterId)
    requires x != y
    ensures Run(Ordered(x), Entering(y) + EndingFor8(p) + [Tick(6)])
         == Holding(EndedUnderOrder(x), y, 7, 5.0, Appending(RULES, EARLY))
  {
    var poised := Holding(Ordered(x), y, 7, 5.0, Appending(RULES, EARLY));
    EnteringDecides(Ordered(x), y);
    EarlyIsValidated(x);
    SellerEnds(poised, p);
    RunAppend(Ordered(x), Entering(y) + EndingFor8(p), [Tick(6)]);
    RunAppend(Ordered(x), Entering(y), EndingFor8(p));
    RunOfOne(poised.(book := poised.book.(auction := EndedRecord())), Tick(6));
  }

  lemma EndingUnderOrderIsReached(x: CallId, y: CallId, k: AskId, p: WriterId)
    requires x != y
    ensures Run(Opened(), EndingUnderOrder(x, y, k, p)) == Holding(EndedUnderOrder(x), y, 7, 5.0, Appending(RULES, EARLY))
  {
    OrderedIsReached(x, k);
    EndedWhilePoised(x, y, p);
    RunAppend(Opened(), Request(x, 8, 1.0, []) + [Tick(39999)] + Ordering(k), Entering(y) + EndingFor8(p) + [Tick(6)]);
  }

  lemma ReplyIsTaken(w: World, r: Reply)
    requires w.book.bids == [LEAD, EARLY] && w.now == 40005 && r.record == RULES && r.amount == 5.0
    ensures Takes(w, r, ORDER) && BookAfter(w, r, ORDER) == Book(Extended(RULES), [LEAD, EARLY, REPLY], w.book.paid)
  {
    assert Init([LEAD, EARLY]) == [LEAD] && Init([LEAD]) == [];
    assert HighestBid([LEAD]) == Some(LEAD) && HighestBid([LEAD, EARLY]) == Some(EARLY);
    assert NewestBidOf([LEAD, EARLY], 8) == Some(LEAD);
    assert [LEAD, EARLY] + [REPLY] == [LEAD, EARLY, REPLY];
  }

  /** User 7's bid is in, and its answer has read the orders. */
  function Tried(x: CallId): World {
    EndedUnderOrder(x).(book := Book(EndedRecord(), [LEAD, EARLY], {7, 8}))
  }

  function Asked(): Reply {
    Reply(RULES, 5.0, 7, {7, 8}, [ORDER], true)
  }

  lemma OrderIsListed(x: CallId, y: CallId)
    ensures Leads(Holding(EndedUnderOrder(x), y, 7, 5.0, Appending(RULES, EARLY)), y, 3,
                  Holding(Tried(x), y, 7, 5.0, Replying(Asked())))
  {
    var r := Reply(RULES, 5.0, 7, {}, [], false);
    var read := r.(payers := {7, 8});
    var w0, w1 := Holding(EndedUnderOrder(x), y, 7, 5.0, Appending(RULES, EARLY)), Holding(Tried(x), y, 7, 5.0, Answering(r));
    var w2, w3 := Holding(Tried(x), y, 7, 5.0, Choosing(read)), Holding(Tried(x), y, 7, 5.0, Replying(Asked()));
    assert [LEAD] + [EARLY] == [LEAD, EARLY];
    Appends(EndedUnderOrder(x), y, 7, 5.0, Appending(RULES, EARLY));
    Reads(Tried(x), y, 7, 5.0, Answering(r), Choosing(read));
    assert Listed([ORDER]) == [ORDER] by {
      assert Init([ORDER]) == [];
    }
    Reads(Tried(x), y, 7, 5.0, Choosing(read), Replying(Asked()));
    Join(w0, y, 1, w1, 1, w2);
    Join(w0, y, 2, w2, 1, w3);
  }

  /** The order's bid has been written, under an extended ACTIVE record. */
  function Reopened(x: CallId): World {
    EndedUnderOrder(x).(book := Book(Extended(RULES), [LEAD, EARLY, REPLY], {7, 8}), orders := [ORDER.(active := false)])
  }

  lemma OrderComesBack(x: CallId, y: CallId)
    ensures Run(Holding(EndedUnderOrder(x), y, 7, 5.0, Appending(RULES, EARLY)), Advances(y, 9)) == Gone(Reopened(x), y, 7, 5.0)
  {
    var w0 := Holding(EndedUnderOrder(x), y, 7, 5.0, Appending(RULES, EARLY));
    var w3 := Holding(Tried(x), y, 7, 5.0, Replying(Asked()));
    OrderIsListed(x, y);
    var k := OrderIsTried(Tried(x), y, 7, 5.0, Asked());
    var rest := Asked().(queue := []);
    assert Asked().queue[1..] == [];
    ReplyIsTaken(Tried(x), rest);
    var v, next := Tried(x).(book := BookAfter(Tried(x), rest, ORDER)), ReplyAfter(Tried(x), rest, ORDER);
    QueueDone(v, y, 7, 5.0, next);
    assert AllWithdrawn([ORDER]) == [ORDER.(active := false)];
    Join(w0, y, 3, w3, k, Holding(v, y, 7, 5.0, Replying(next)));
    Join(w0, y, 3 + k, Holding(v, y, 7, 5.0, Replying(next)), 2, Gone(Reopened(x), y, 7, 5.0));
    LeftStays(Gone(Reopened(x), y, 7, 5.0), y, 4 - k);
    Join(w0, y, 5 + k, Gone(Reopened(x), y, 7, 5.0), 4 - k, Gone(Reopened(x), y, 7, 5.0));
    LeadsIsRun(w0, y, 9, Gone(Reopened(x), y, 7, 5.0));
  }

  /**
   A run from an opened auction. The seller ends it for user 8 while user 7's bid, which extends nothing, waits to be
   appended; six milliseconds later user 8's standing order answers that bid on the record as it was, inside the window:
   the ACTIVE record is written back, and two bids are appended to an auction that had ended.
   */
  lemma StandingOrderReopens(x: CallId, y: CallId, k: AskId, p: WriterId)
    requires x != y
    ensures Opening(Opened())
    ensures var ended := Run(Opened(), EndingUnderOrder(x, y, k, p)).book;
      ended.auction.status == Ended && ended.auction.winnerId == Some(8) && ended.bids == [LEAD]
    ensures var v := Run(Opened(), EndingUnderOrder(x, y, k, p) + Advances(y, 9)).book;
      v.auction.status == Active && v.auction.winnerId == None && v.bids == [LEAD, EARLY, REPLY]
  {
    EndingUnderOrderIsReached(x, y, k, p);
    OrderComesBack(x, y);
    RunAppend(Opened(), EndingUnderOrder(x, y, k, p), Advances(y, 9));
  }

  // ----- a pause that straddles extensions -----

  /** The pause has loaded the record, half a second before the end. */
  function Loaded(p: WriterId): World {
    Opened().(writers := map[p := Writer(Pausing, RULES)], now := 99500)
  }

  /** User 7 has bid and extended, and twenty seconds have passed. */
  function Rivalled(x: CallId, p: WriterId): World {
    Gone(Loaded(p).(book := Book(Extended(RULES), [RIVAL], {7, 8}), now := 119500), x, 7, 5.0)
  }

  lemma PauseLoads(p: WriterId)
    ensures Run(Opened(), [Tick(99500), Load(p, Pausing)]) == Loaded(p)
  {
    RunOfTwo(Opened(), Tick(99500), Load(p, Pausing));
    assert Opened().writers[p := Writer(Pausing, RULES)] == Loaded(p).writers;
  }

  lemma FirstExtension()
    ensures PlaceBid(Book(RULES, [], {7, 8}), 7, 5.0, 99500) == Book(Extended(RULES), [RIVAL], {7, 8})
  {
    assert PlaceBid(Book(RULES, [], {7, 8}), 7, 5.0, 99500).bids == [] + [RIVAL];
  }

  lemma RivalBids(x: CallId, p: WriterId)
    ensures Run(Loaded(p), Request(x, 7, 5.0, []) + [Tick(20000)]) == Rivalled(x, p)
  {
    RequestThenWait(Loaded(p), x, 7, 5.0, 20000);
    FirstExtension();
  }

  lemma SecondExtension()
    ensures PlaceBid(Book(Extended(RULES), [RIVAL], {7, 8}), 8, 6.0, 119500)
         == Book(Extended(Extended(RULES)), [RIVAL, LATER], {7, 8})
  {
    var b := Book(Extended(RULES), [RIVAL], {7, 8});
    assert Init([RIVAL]) == [];
    assert HighestBid([RIVAL]) == Some(RIVAL) && NewestBidOf([RIVAL], 8) == None;
    assert PlaceBid(b, 8, 6.0, 119500).bids == [RIVAL] + [LATER];
  }

  /** The pause loads the record, user 7 bids and extends, twenty seconds later user 8 bids and extends. */
  function Straddling(x: CallId, y: CallId, p: WriterId): seq<Event> {
    [Tick(99500), Load(p, Pausing)] + (Request(x, 7, 5.0, []) + [Tick(20000)]) + (Request(y, 8, 6.0, []) + [Tick(0)])
  }

  /** User 8 has bid and extended too. */
  function Straddled(x: CallId, y: CallId, p: WriterId): World {
    Gone(Rivalled(x, p).(book := Book(Extended(Extended(RULES)), [RIVAL, LATER], {7, 8})), y, 8, 6.0)
  }

  lemma StraddlingRuns(x: CallId, y: CallId, p: WriterId)
    requires x != y
    ensures Run(Opened(), Straddling(x, y, p)) == Straddled(x, y, p)
  {
    var a, b, c := [Tick(99500), Load(p, Pausing)], Request(x, 7, 5.0, []) + [Tick(20000)], Request(y, 8, 6.0, []) + [Tick(0)];
    PauseLoads(p);
    RivalBids(x, p);
    RequestThenWait(Rivalled(x, p), y, 8, 6.0, 0);
    SecondExtension();
    RunAppend(Opened(), a + b, c);
    RunAppend(Opened(), a, b);
  }

  /**
   A run from an opened auction in which the end moves back: a pause stores the record it loaded before two extensions,
   and a bid accepted in between now lies after the end time.
   */
  lemma PauseMovesEndBack(x: CallId, y: CallId, p: WriterId)
    requires x != y
    ensures Opening(Opened())
    ensures Run(Opened(), Straddling(x, y, p)).book.auction.endAt == 220000
    ensures var v := Run(Opened(), Straddling(x, y, p) + [Store(p, Paused, None, None)]).book;
      v.auction.endAt == 100000 && v.bids == [RIVAL, LATER] && Last(v.bids).createdAt > v.auction.endAt
  {
    StraddlingRuns(x, y, p);
    RunAppend(Opened(), Straddling(x, y, p), [Store(p, Paused, None, None)]);
    RunOfOne(Straddled(x, y, p), Store(p, Paused, None, None));
  }
}
