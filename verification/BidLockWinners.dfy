/**
 The rank-1 winner rows of an auction that several use cases close at the same time: each elects a winner and saves the
 row before it stores the record (src/application/usecases/auction/endAuction.usecase.ts,
 src/application/usecases/auction/expireOverdueAuctions.usecase.ts), and the rows are unique per user only.
 */
module BidLockWinners {
  import opened Basics
  import opened Auctions
  import opened Bidding
  import opened Ranking
  import opened WinnerSelection
  import opened BidLock
  import opened BidLockRuns

  /** The interleaved section with the rank-1 rows saved so far, and whom each closing use case has elected. */
  datatype Poll = Poll(world: World, rows: seq<Entry>, chosen: map<WriterId, Option<Entry>>)

  datatype Act =
    | Sys(e: Event)
    | Elect(writer: WriterId)

  predicate HasRow(rows: seq<Entry>, user: UserId) {
    exists i :: 0 <= i < |rows| && rows[i].user == user
  }

  /** A closing use case whose guard held when it loaded the record, and that has not elected yet. */
  predicate MayElect(p: Poll, wid: WriterId) {
    && wid in p.world.writers && p.world.writers[wid].purpose == Closing
    && p.world.writers[wid].record.status in {Active, Paused} && wid !in p.chosen
  }

  /** The election reads the bids as they are now, not as they were when the record was loaded. */
  function LeaderFor(p: Poll, wid: WriterId): Pick
    requires wid in p.world.writers
  {
    FirstPick(p.world.writers[wid].record.kind, Listing(p.world.book.bids))
  }

  /** The use case has failed. */
  function Dropping(p: Poll, wid: WriterId): Poll {
    p.(world := p.world.(writers := p.world.writers - {wid}))
  }

  function DoElect(p: Poll, wid: WriterId): Poll {
    if !MayElect(p, wid) then p
    else
      match LeaderFor(p, wid)
      case Failure => Dropping(p, wid)
      case NoWinner => p.(chosen := p.chosen[wid := None])
      case Winner(u, m) =>
        if HasRow(p.rows, u) then Dropping(p, wid)
        else p.(rows := p.rows + [Entry(u, m)], chosen := p.chosen[wid := Some(Entry(u, m))])
  }

  /** A closing use case stores the winner it has elected. */
  predicate AsElected(p: Poll, e: Event)
    requires e.Store?
  {
    e.writer in p.world.writers && p.world.writers[e.writer].purpose == Closing ==>
      && e.writer in p.chosen
      && match p.chosen[e.writer]
         case Some(x) => e.winnerId == Some(x.user) && e.winAmount == Some(x.amount)
         case None => e.winnerId == None && e.winAmount == None
  }

  function PollStep(p: Poll, a: Act): Poll {
    match a
    case Elect(wid) => DoElect(p, wid)
    case Sys(e) =>
      if e.Store? then (if AsElected(p, e) then p.(world := Step(p.world, e), chosen := p.chosen - {e.writer}) else p)
      else if e.Load? then p.(world := Step(p.world, e), chosen := p.chosen - {e.writer})
      else p.(world := Step(p.world, e))
  }

  function PollRun(p: Poll, acts: seq<Act>): Poll
    decreases |acts|
  {
    if acts == [] then p else PollRun(PollStep(p, acts[0]), acts[1..])
  }

  // ----- what holds throughout -----

  lemma PollKeepsSafe(p: Poll, a: Act)
    requires Safe(p.world)
    ensures Safe(PollStep(p, a).world)
  {
    if a.Sys? {
      StepKeepsSafe(p.world, a.e);
    } else {
      var v := PollStep(p, a).world;
      assert v == p.world.(writers := v.writers);
      DriftKeepsSafe(p.world, v);
    }
  }

  predicate OpenKind(a: Auction) {
    a.kind != Sealed && a.minIncrement > 0.0
  }

  /** In an open auction whoever closes it elects the last bidder. */
  lemma LeaderIsLastBidder(p: Poll, wid: WriterId)
    requires Safe(p.world) && OpenKind(p.world.book.auction) && wid in p.world.writers
    ensures var bids := p.world.book.bids;
      LeaderFor(p, wid) == if bids == [] then NoWinner else Winner(Last(bids).user, Last(bids).amount)
  {
    var b := Far(p.world.book);
    KinFacts(p.world.writers[wid].record, p.world.book.auction);
    ListingIsPermutation(b.bids);
    if b.bids != [] {
      OpenWinnerIsLastBid(b, p.world.now, Listing(b.bids));
    }
  }

  predicate IsBid(bids: seq<Bid>, x: Entry) {
    exists k :: 0 <= k < |bids| && bids[k].user == x.user && bids[k].amount == x.amount
  }

  /** Each row is a bid that was placed, and each later row another user's higher bid. */
  predicate RowsClimb(p: Poll) {
    && (forall i, j :: 0 <= i < j < |p.rows| ==> p.rows[i].user != p.rows[j].user && p.rows[i].amount < p.rows[j].amount)
    && (forall i :: 0 <= i < |p.rows| ==> IsBid(p.world.book.bids, p.rows[i]))
  }

  /** Bids are never taken back. */
  lemma BidsStay(w: World, e: Event)
    ensures w.book.bids <= Step(w, e).book.bids
  {
  }

  lemma IsBidStays(bids: seq<Bid>, more: seq<Bid>, x: Entry)
    requires IsBid(bids, x) && bids <= more
    ensures IsBid(more, x)
  {
    var k :| 0 <= k < |bids| && bids[k].user == x.user && bids[k].amount == x.amount;
    assert more[k] == bids[k];
  }

  /** The last bid is the highest one, strictly above every other user's. */
  lemma LastIsHighest(p: Poll, x: Entry)
    requires Safe(p.world) && OpenKind(p.world.book.auction) && p.world.book.bids != []
    requires IsBid(p.world.book.bids, x) && x.user != Last(p.world.book.bids).user
    ensures x.amount < Last(p.world.book.bids).amount
  {
    var bids := Far(p.world.book).bids;
    var k :| 0 <= k < |bids| && bids[k].user == x.user && bids[k].amount == x.amount;
    assert bids[|bids| - 1].amount >= bids[k].amount + p.world.book.auction.minIncrement;
  }

  lemma SysKeepsClimb(p: Poll, e: Event)
    requires RowsClimb(p)
    ensures RowsClimb(PollStep(p, Sys(e)))
  {
    var q := PollStep(p, Sys(e));
    BidsStay(p.world, e);
    assert q.rows == p.rows && p.world.book.bids <= q.world.book.bids;
    forall i | 0 <= i < |q.rows| ensures IsBid(q.world.book.bids, q.rows[i]) {
      IsBidStays(p.world.book.bids, q.world.book.bids, p.rows[i]);
    }
  }

  /** A new row is the last bid, which tops those of all rows before it. */
  lemma ElectionKeepsClimb(p: Poll, wid: WriterId)
    requires Safe(p.world) && OpenKind(p.world.book.auction) && RowsClimb(p)
    ensures RowsClimb(DoElect(p, wid))
  {
    var q, bids := DoElect(p, wid), p.world.book.bids;
    if q.rows != p.rows {
      LeaderIsLastBidder(p, wid);
      var x := Entry(Last(bids).user, Last(bids).amount);
      assert q.rows == p.rows + [x] && q.world == p.world;
      assert bids[|bids| - 1] == Last(bids) && IsBid(bids, x);
      forall i | 0 <= i < |p.rows| ensures p.rows[i].user != x.user && p.rows[i].amount < x.amount {
        LastIsHighest(p, p.rows[i]);
      }
    }
  }

  lemma PollKeepsClimb(p: Poll, a: Act)
    requires Safe(p.world) && OpenKind(p.world.book.auction) && RowsClimb(p)
    ensures RowsClimb(PollStep(p, a))
  {
    if a.Sys? {
      SysKeepsClimb(p, a.e);
    } else {
      ElectionKeepsClimb(p, a.writer);
    }
  }

  lemma KindStays(p: Poll, a: Act)
    requires Safe(p.world)
    ensures OpenKind(PollStep(p, a).world.book.auction) == OpenKind(p.world.book.auction)
  {
    if a.Sys? {
      StepKeepsKin(p.world, a.e);
      KinFacts(Step(p.world, a.e).book.auction, p.world.book.auction);
    }
  }

  /**
   However many use cases close an open auction, in any interleaving: the rank-1 rows are bids that were placed, one a
   user, in rising order.
   */
  lemma {:induction false} RowsAlwaysClimb(p: Poll, acts: seq<Act>)
    requires Safe(p.world) && OpenKind(p.world.book.auction) && RowsClimb(p)
    ensures RowsClimb(PollRun(p, acts))
    decreases |acts|
  {
    if acts != [] {
      PollKeepsSafe(p, acts[0]);
      PollKeepsClimb(p, acts[0]);
      KindStays(p, acts[0]);
      RowsAlwaysClimb(PollStep(p, acts[0]), acts[1..]);
    }
  }

  // ----- how many rows -----

  /** Whom the elections along the run elect, saved or not. */
  function Leaders(p: Poll, acts: seq<Act>): seq<UserId>
    decreases |acts|
  {
    if acts == [] then []
    else
      (if acts[0].Elect? && MayElect(p, acts[0].writer) && LeaderFor(p, acts[0].writer).Winner?
       then [LeaderFor(p, acts[0].writer).user] else [])
      + Leaders(PollStep(p, acts[0]), acts[1..])
  }

  /** The rows are the leaders, each once. */
  lemma {:induction false} RowsAreLeaders(p: Poll, acts: seq<Act>, u: UserId)
    ensures HasRow(PollRun(p, acts).rows, u) <==> HasRow(p.rows, u) || u in Leaders(p, acts)
    decreases |acts|
  {
    if acts != [] {
      var q := PollStep(p, acts[0]);
      RowsAreLeaders(q, acts[1..], u);
      if q.rows != p.rows {
        assert q.rows == p.rows + [Last(q.rows)];
        if HasRow(p.rows, u) {
          var i :| 0 <= i < |p.rows| && p.rows[i].user == u;
          assert q.rows[i].user == u;
        }
        assert q.rows[|p.rows|] == Last(q.rows);
      }
    }
  }

  predicate OneRowEach(rows: seq<Entry>) {
    forall i, j :: 0 <= i < j < |rows| ==> rows[i].user != rows[j].user
  }

  lemma {:induction false} RowsStayDistinct(p: Poll, acts: seq<Act>)
    requires OneRowEach(p.rows)
    ensures OneRowEach(PollRun(p, acts).rows)
    decreases |acts|
  {
    if acts != [] {
      assert OneRowEach(PollStep(p, acts[0]).rows);
      RowsStayDistinct(PollStep(p, acts[0]), acts[1..]);
    }
  }

  /** Exactly when an auction gets two rank-1 rows: two of its closings elect different users. */
  lemma TwoRowsIffLeadersDiffer(p: Poll, acts: seq<Act>)
    requires p.rows == []
    ensures |PollRun(p, acts).rows| >= 2 <==> exists u, v :: u in Leaders(p, acts) && v in Leaders(p, acts) && u != v
  {
    var r := PollRun(p, acts).rows;
    RowsStayDistinct(p, acts);
    if |r| >= 2 {
      RowsAreLeaders(p, acts, r[0].user);
      RowsAreLeaders(p, acts, r[1].user);
    }
    if u, v :| u in Leaders(p, acts) && v in Leaders(p, acts) && u != v {
      RowsAreLeaders(p, acts, u);
      RowsAreLeaders(p, acts, v);
      var i :| 0 <= i < |r| && r[i].user == u;
      var j :| 0 <= j < |r| && r[j].user == v;
      assert i != j;
    }
  }

  // ----- two closings, two winners -----

  function Lift(es: seq<Event>): seq<Act>
    decreases |es|
  {
    if es == [] then [] else [Sys(es[0])] + Lift(es[1..])
  }

  lemma {:induction false} PollAppend(p: Poll, a: seq<Act>, b: seq<Act>)
    ensures PollRun(p, a + b) == PollRun(PollRun(p, a), b)
    decreases |a|
  {
    if a == [] {
      assert a + b == b;
    } else {
      PollAppend(PollStep(p, a[0]), a[1..], b);
      assert (a + b)[1..] == a[1..] + b;
    }
  }

  /** Requests and the clock run as before, with the rows untouched. */
  lemma {:induction false} LiftedRun(p: Poll, es: seq<Event>)
    requires forall e <- es :: !e.Store? && !e.Load?
    ensures PollRun(p, Lift(es)) == p.(world := Run(p.world, es))
    decreases |es|
  {
    if es != [] {
      assert es[0] in es;
      LiftedRun(PollStep(p, Sys(es[0])), es[1..]);
      assert Lift(es)[1..] == Lift(es[1..]);
    }
  }

  const TOP := Bid(7, 5.0, None, 0)

  /** User 8 has bid 1, user 7 has not arrived yet. */
  function Led(x: CallId): World {
    Quiet(x, 0)
  }

  /** The first closing has loaded the record and elected user 8. */
  function HalfEnded(x: CallId, p: WriterId): Poll {
    Poll(Led(x).(writers := map[p := Writer(Closing, RULES)]), [Entry(8, 1.0)], map[p := Some(Entry(8, 1.0))])
  }

  /** Then user 7 has bid 5. */
  function Topped(x: CallId, y: CallId, p: WriterId): Poll {
    var h := HalfEnded(x, p);
    h.(world := Gone(h.world.(book := Book(RULES, [LEAD, TOP], {7, 8})), y, 7, 5.0))
  }

  lemma FirstElectionIsFor8(x: CallId, p: WriterId)
    ensures PollRun(Poll(Led(x), [], map[]), [Sys(Load(p, Closing)), Elect(p)]) == HalfEnded(x, p)
  {
    var start := Poll(Led(x), [], map[]);
    var loaded := PollStep(start, Sys(Load(p, Closing)));
    assert loaded == start.(world := Led(x).(writers := map[p := Writer(Closing, RULES)]));
    assert Init([LEAD]) == [] && Listing([LEAD]) == [LEAD];
    assert LeaderFor(loaded, p) == Winner(8, 1.0);
    assert PollRun(start, [Sys(Load(p, Closing)), Elect(p)]) == PollRun(loaded, [Elect(p)]);
    assert PollRun(loaded, [Elect(p)]) == PollStep(loaded, Elect(p));
  }

  lemma TopIsPlaced()
    ensures PlaceBid(Book(RULES, [LEAD], {7, 8}), 7, 5.0, 0) == Book(RULES, [LEAD, TOP], {7, 8})
  {
    assert Init([LEAD]) == [];
    assert HighestBid([LEAD]) == Some(LEAD) && NewestBidOf([LEAD], 7) == None;
    assert PlaceBid(Book(RULES, [LEAD], {7, 8}), 7, 5.0, 0).bids == [LEAD] + [TOP];
  }

  function Topping(y: CallId): seq<Event> {
    Request(y, 7, 5.0, []) + [Tick(0)]
  }

  lemma {:induction false} AdvancesOnly(y: CallId, n: nat)
    ensures forall e <- Advances(y, n) :: e.Advance?
    decreases n
  {
    if n > 0 {
      AdvancesOnly(y, n - 1);
    }
  }

  lemma User7Tops(x: CallId, y: CallId, p: WriterId)
    requires x != y
    ensures PollRun(HalfEnded(x, p), Lift(Topping(y))) == Topped(x, y, p)
  {
    AdvancesOnly(y, 16);
    RequestThenWait(HalfEnded(x, p).world, y, 7, 5.0, 0);
    TopIsPlaced();
    LiftedRun(HalfEnded(x, p), Topping(y));
  }

  /** The second closing: it elects user 7 and ends the auction; then the first one stores what it had elected. */
  function Closings(p: WriterId, q: WriterId): seq<Act> {
    [Sys(Load(q, Closing)), Elect(q), Sys(Store(q, Ended, Some(7), Some(5.0))), Sys(Store(p, Ended, Some(8), Some(1.0)))]
  }

  /** The second closing has saved its row too. */
  function BothElected(x: CallId, y: CallId, p: WriterId, q: WriterId): Poll {
    var t := Topped(x, y, p);
    Poll(t.world.(writers := t.world.writers[q := Writer(Closing, RULES)]), [Entry(8, 1.0), Entry(7, 5.0)],
         t.chosen[q := Some(Entry(7, 5.0))])
  }

  lemma SevenLeads()
    ensures FirstPick(Long, Listing([LEAD, TOP])) == Winner(7, 5.0)
  {
    assert Init([LEAD, TOP]) == [LEAD] && Init([LEAD]) == [] && Listing([LEAD, TOP]) == [TOP, LEAD];
    assert Init([TOP, LEAD]) == [TOP] && ReduceBids([TOP]) == TOP;
    assert ReduceBids([TOP, LEAD]) == TOP;
  }

  lemma SecondElectionIsFor7(x: CallId, y: CallId, p: WriterId, q: WriterId)
    requires p != q
    ensures PollStep(PollStep(Topped(x, y, p), Sys(Load(q, Closing))), Elect(q)) == BothElected(x, y, p, q)
  {
    var t := Topped(x, y, p);
    var loaded := PollStep(t, Sys(Load(q, Closing)));
    assert loaded.chosen == t.chosen;
    assert loaded == t.(world := t.world.(writers := t.world.writers[q := Writer(Closing, RULES)]));
    SevenLeads();
    assert LeaderFor(loaded, q) == Winner(7, 5.0);
    assert !HasRow(t.rows, 7);
    assert t.rows + [Entry(7, 5.0)] == [Entry(8, 1.0), Entry(7, 5.0)];
  }

  lemma BothStore(x: CallId, y: CallId, p: WriterId, q: WriterId)
    requires p != q
    ensures var b := BothElected(x, y, p, q);
      var r := PollStep(PollStep(b, Sys(Store(q, Ended, Some(7), Some(5.0)))), Sys(Store(p, Ended, Some(8), Some(1.0))));
      r.rows == [Entry(8, 1.0), Entry(7, 5.0)] && r.world.book.bids == [LEAD, TOP] && r.world.book.auction == EndedRecord()
  {
    var b := BothElected(x, y, p, q);
    var mid := PollStep(b, Sys(Store(q, Ended, Some(7), Some(5.0))));
    assert Stores(b.world, Store(q, Ended, Some(7), Some(5.0)));
    assert mid.chosen == map[p := Some(Entry(8, 1.0))] && p in mid.world.writers;
  }

  lemma PollRunTwo(p: Poll, a: Act, b: Act)
    ensures PollRun(p, [a, b]) == PollStep(PollStep(p, a), b)
  {
    assert [a, b][1..] == [b] && [b][1..] == [];
    assert PollRun(p, [a, b]) == PollRun(PollStep(p, a), [b]);
    assert PollRun(PollStep(p, a), [b]) == PollRun(PollStep(PollStep(p, a), b), []);
  }

  lemma ClosingsRun(x: CallId, y: CallId, p: WriterId, q: WriterId)
    requires p != q
    ensures var r := PollRun(Topped(x, y, p), Closings(p, q));
      r.rows == [Entry(8, 1.0), Entry(7, 5.0)] && r.world.book.bids == [LEAD, TOP] && r.world.book.auction == EndedRecord()
  {
    var t, b := Topped(x, y, p), BothElected(x, y, p, q);
    var c, d := Sys(Store(q, Ended, Some(7), Some(5.0))), Sys(Store(p, Ended, Some(8), Some(1.0)));
    SecondElectionIsFor7(x, y, p, q);
    BothStore(x, y, p, q);
    PollRunTwo(t, Sys(Load(q, Closing)), Elect(q));
    PollRunTwo(b, c, d);
    PollAppend(t, [Sys(Load(q, Closing)), Elect(q)], [c, d]);
    assert Closings(p, q) == [Sys(Load(q, Closing)), Elect(q)] + [c, d];
  }

  /**
   A reachable auction with two rank-1 winners. The seller's closing has elected user 8 when user 7 tops the bid; the
   expiry sweep elects user 7 and ends the auction; then the first closing stores its own winner. The record names user
   8 at 1, although user 7's bid of 5 was accepted while the auction was active and has a rank-1 row as well.
   */
  lemma TwoFirstWinners(x: CallId, y: CallId, p: WriterId, q: WriterId)
    requires x != y && p != q
    ensures Led(x) == Run(Opened(), Request(x, 8, 1.0, []) + [Tick(0)])
    ensures var acts := [Sys(Load(p, Closing)), Elect(p)] + Lift(Topping(y)) + Closings(p, q);
      var r := PollRun(Poll(Led(x), [], map[]), acts);
      && r.rows == [Entry(8, 1.0), Entry(7, 5.0)] && r.world.book.bids == [LEAD, TOP]
      && r.world.book.auction.status == Ended && r.world.book.auction.winnerId == Some(8)
  {
    QuietIsReached(x, 0);
    var start := Poll(Led(x), [], map[]);
    var first, second := [Sys(Load(p, Closing)), Elect(p)], Lift(Topping(y));
    FirstElectionIsFor8(x, p);
    User7Tops(x, y, p);
    PollAppend(start, first + second, Closings(p, q));
    PollAppend(start, first, second);
    ClosingsRun(x, y, p, q);
  }
}
