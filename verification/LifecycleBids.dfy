/** The bid list is the log of the accepted requests, and so is every winner's amount. */
module LifecycleBids {
  import opened Basics
  import opened Auctions
  import opened Bidding
  import opened AutoBids
  import opened Lifecycle
  import opened LifecycleInvariant
  import opened LifecycleReachable
  import opened LifecycleWinners

  /** A request: who asked, for how much, and when. */
  datatype Request = Request(user: UserId, amount: real, at: int)

  /** The request the event makes, if it is one and is accepted. */
  function Accepted(s: State, e: Event): seq<Request> {
    if e.Bid? && Accepts(BookOf(s), e.user, e.amount, s.now) then [Request(e.user, e.amount, s.now)] else []
  }

  /** The requests accepted along a run, oldest first. */
  function Log(cfg: Config, s: State, es: seq<Event>): seq<Request>
    decreases |es|
  {
    if es == [] then []
    else
      Accepted(s, es[0]) + Log(cfg, Step(cfg, s, es[0]), es[1..])
  }

  /** Row by row, the bids record the requests. */
  predicate Recorded(kind: Kind, bids: seq<Bidding.Bid>, log: seq<Request>) {
    && |bids| == |log|
    && forall i :: 0 <= i < |bids| ==> Records(kind, bids[i], log[i].user, log[i].amount, log[i].at)
  }

  /** Bids are appended by accepted requests only, and the kind is fixed once there are any. */
  lemma StepRecords(cfg: Config, s: State, e: Event, log: seq<Request>)
    requires (s.auction.status == Draft ==> s.bids == []) && Recorded(s.auction.kind, s.bids, log)
    ensures var t := Step(cfg, s, e); Recorded(t.auction.kind, t.bids, log + Accepted(s, e))
  {
    if e.Bid? {
      AcceptedBidIsRecorded(BookOf(s), e.user, e.amount, s.now);
    } else {
      assert Step(cfg, s, e).bids == s.bids && (s.bids != [] ==> Step(cfg, s, e).auction.kind == s.auction.kind);
    }
  }

  lemma ReachableStepRecords(cfg: Config, s: State, e: Event, t: State, log: seq<Request>)
    requires Reachable(cfg, s) && Recorded(s.auction.kind, s.bids, log) && t == Step(cfg, s, e)
    ensures Reachable(cfg, t) && Recorded(t.auction.kind, t.bids, log + Accepted(s, e))
  {
    ReachableShape(cfg, s);
    StepRecords(cfg, s, e, log);
    StepIsReachable(cfg, s, e);
  }

  lemma Regroup(a: seq<Request>, b: seq<Request>, c: seq<Request>)
    ensures (a + b) + c == a + (b + c)
  {
  }

  lemma {:induction false} RunRecords(cfg: Config, s: State, es: seq<Event>, log: seq<Request>)
    requires Reachable(cfg, s) && Recorded(s.auction.kind, s.bids, log)
    ensures var t := Run(cfg, s, es); Recorded(t.auction.kind, t.bids, log + Log(cfg, s, es))
    decreases |es|
  {
    if es == [] {
      assert log + [] == log;
    } else {
      var first, next := Accepted(s, es[0]), Step(cfg, s, es[0]);
      ReachableStepRecords(cfg, s, es[0], next, log);
      RunRecords(cfg, next, es[1..], log + first);
      Regroup(log, first, Log(cfg, next, es[1..]));
    }
  }

  /**
   After any run from a draft the bid list is the log of the accepted requests, row for row: same users, same times, and
   amounts that are, or open as, exactly what was asked.
   */
  lemma BidsAreTheLog(cfg: Config, draft: State, es: seq<Event>)
    requires Fresh(draft)
    ensures var t := Run(cfg, draft, es); Recorded(t.auction.kind, t.bids, Log(cfg, draft, es))
  {
    RunIsReachable(cfg, draft, []);
    assert Run(cfg, draft, []) == draft;
    RunRecords(cfg, draft, es, []);
    assert [] + Log(cfg, draft, es) == Log(cfg, draft, es);
  }

  /** Whoever is elected asked for exactly the amount of the winner row, in an accepted request. */
  lemma WinnersAsked(cfg: Config, draft: State, es: seq<Event>, i: nat)
    requires Fresh(draft) && i < |Run(cfg, draft, es).winners|
    ensures var row := Run(cfg, draft, es).winners[i];
      exists r <- Log(cfg, draft, es) :: r.user == row.user && r.amount == row.amount
  {
    var t, log := Run(cfg, draft, es), Log(cfg, draft, es);
    RunIsReachable(cfg, draft, es);
    WinnersArePodium(cfg, t);
    BidsAreTheLog(cfg, draft, es);
    var row := t.winners[i];
    assert Earned(t, row);
    var j :| 0 <= j < |t.bids| && t.bids[j].user == row.user && Worth(t.auction.kind, t.bids[j]) == row.amount;
    assert log[j] in log && Records(t.auction.kind, t.bids[j], log[j].user, log[j].amount, log[j].at);
  }
}
