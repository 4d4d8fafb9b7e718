/** Every row the bidding section ever creates is what somebody asked for, or one increment on top of the row before. */
module BidLockRows {
  import opened Basics
  import opened Auctions
  import opened Bidding
  import opened AutoBids
  import opened BidLock

  /**
   The pending bid of a call: its own records what the request asks, an automatic one tops the last stored bid by one
   increment. While a call answers, the amount it goes by is that of the last stored bid.
   */
  predicate AsAsked(b: Book, call: Call) {
    var s := call.stage;
    && ((Saving(s) || Creating(s)) && !InReply(s) ==>
          Records(b.auction.kind, s.bid, call.user, call.amount, s.bid.createdAt))
    && (InReply(s) ==> b.bids != [] && Last(b.bids).amount == s.reply.amount)
    && ((Saving(s) || Creating(s)) && InReply(s) ==>
          && b.auction.kind == Long
          && Records(Long, s.bid, s.bid.user, s.reply.amount + b.auction.minIncrement, s.bid.createdAt))
  }

  predicate AllAsAsked(w: World) {
    forall id <- w.calls :: AsAsked(w.book, w.calls[id])
  }

  /** Some request asked for exactly this bid. */
  predicate Requested(w: World, row: Bid) {
    exists id <- w.calls :: Records(w.book.auction.kind, row, w.calls[id].user, w.calls[id].amount, row.createdAt)
  }

  /** A bid of a LONG auction exactly one increment above the one stored right before it. */
  predicate TopsThePrevious(b: Book, i: nat)
    requires i < |b.bids|
  {
    && b.auction.kind == Long && i > 0
    && Records(Long, b.bids[i], b.bids[i].user, b.bids[i - 1].amount + b.auction.minIncrement, b.bids[i].createdAt)
  }

  predicate Explained(w: World) {
    forall i :: 0 <= i < |w.book.bids| ==> Requested(w, w.book.bids[i]) || TopsThePrevious(w.book, i)
  }

  /** Rules of the stored record are the same in every version. */
  lemma SameRulesAfter(w: World, e: Event)
    requires Safe(w)
    ensures SameRules(Step(w, e).book.auction, w.book.auction)
  {
    StepKeepsKin(w, e);
    KinFacts(Step(w, e).book.auction, w.book.auction);
  }

  lemma SameRulesAsHeld(w: World, id: CallId)
    requires id in w.calls && Current(w, w.calls[id]) && Informed(w.calls[id].stage) && !Creating(w.calls[id].stage)
    ensures SameRules(Held(w.calls[id].stage), w.book.auction)
  {
    KinFacts(Held(w.calls[id].stage), w.book.auction);
  }

  // ----- the call that moves -----

  lemma OwnDecisionIsAsked(w: World, id: CallId)
    requires id in w.calls && Current(w, w.calls[id]) && w.calls[id].stage.SawOwn?
    ensures AsAsked(Moved(w, id).book, Moved(w, id).calls[id])
  {
    SameRulesAsHeld(w, id);
  }

  lemma OwnReplyIsAsked(w: World, id: CallId)
    requires id in w.calls && Current(w, w.calls[id]) && AsAsked(w.book, w.calls[id])
    requires InReply(w.calls[id].stage) && !Saving(w.calls[id].stage) && !Creating(w.calls[id].stage)
    ensures AsAsked(Moved(w, id).book, Moved(w, id).calls[id])
  {
    SameRulesAsHeld(w, id);
    var next := NextStage(w, id);
    assert InReply(next) ==> next.reply.amount == w.calls[id].stage.reply.amount;
    assert w.calls[id].stage.Answering? && InReply(next) ==> w.book.auction.kind == Long;
  }

  lemma OwnWriteIsAsked(w: World, id: CallId)
    requires id in w.calls && Current(w, w.calls[id]) && AsAsked(w.book, w.calls[id])
    requires Saving(w.calls[id].stage) || Creating(w.calls[id].stage)
    requires SameRules(Moved(w, id).book.auction, w.book.auction)
    ensures AsAsked(Moved(w, id).book, Moved(w, id).calls[id])
  {
  }

  lemma OwnStepIsAsked(w: World, id: CallId)
    requires Safe(w) && id in w.calls && AsAsked(w.book, w.calls[id])
    ensures AsAsked(Moved(w, id).book, Moved(w, id).calls[id])
  {
    assert Current(w, w.calls[id]);
    var s := w.calls[id].stage;
    if s.SawOwn? {
      OwnDecisionIsAsked(w, id);
    } else if Saving(s) || Creating(s) {
      assert Moved(w, id) == Step(w, Advance(id));
      SameRulesAfter(w, Advance(id));
      OwnWriteIsAsked(w, id);
    } else if InReply(s) {
      OwnReplyIsAsked(w, id);
    }
  }

  // ----- everybody else -----

  /** Whoever has a bid pending or is answering holds the lock, so nobody else writes a row meanwhile. */
  lemma OthersStayAsAsked(w: World, e: Event, id: CallId)
    requires Exclusive(w) && id in w.calls && e != Advance(id) && AsAsked(w.book, w.calls[id])
    requires SameRules(Step(w, e).book.auction, w.book.auction)
    ensures var v := Step(w, e); id in v.calls && AsAsked(v.book, v.calls[id])
  {
    var v := Step(w, e);
    if InCritical(w.calls[id].stage) {
      assert w.lock == Some(id);
      assert v.book.bids == w.book.bids;
    }
  }

  lemma StepStaysAsAsked(w: World, e: Event)
    requires Safe(w) && AllAsAsked(w)
    ensures AllAsAsked(Step(w, e))
  {
    var v := Step(w, e);
    SameRulesAfter(w, e);
    forall id | id in v.calls ensures AsAsked(v.book, v.calls[id]) {
      if id in w.calls {
        if e == Advance(id) {
          OwnStepIsAsked(w, id);
        } else {
          OthersStayAsAsked(w, e, id);
        }
      }
    }
  }

  // ----- the rows -----

  /** The row about to be created, in either way. */
  lemma NewRowIsExplained(w: World, id: CallId)
    requires id in w.calls && Creating(w.calls[id].stage) && AsAsked(w.book, w.calls[id])
    ensures var v := Moved(w, id); var n := |w.book.bids|;
      && v.book.bids[..n] == w.book.bids && |v.book.bids| == n + 1
      && (Requested(v, v.book.bids[n]) || TopsThePrevious(v.book, n))
  {
    var v := Moved(w, id);
    if !InReply(w.calls[id].stage) {
      assert id in v.calls && v.calls[id].user == w.calls[id].user && v.calls[id].amount == w.calls[id].amount;
      assert Records(v.book.auction.kind, Last(v.book.bids), v.calls[id].user, v.calls[id].amount, Last(v.book.bids).createdAt);
    }
  }

  /** No request is ever forgotten or changed. */
  lemma RequestsStay(w: World, e: Event, row: Bid)
    requires Requested(w, row) && SameRules(Step(w, e).book.auction, w.book.auction)
    ensures Requested(Step(w, e), row)
  {
    var id :| id in w.calls && Records(w.book.auction.kind, row, w.calls[id].user, w.calls[id].amount, row.createdAt);
    var v := Step(w, e);
    assert id in v.calls && v.calls[id].user == w.calls[id].user && v.calls[id].amount == w.calls[id].amount;
  }

  lemma OnlyCreatingAppends(w: World, e: Event)
    ensures var v := Step(w, e);
      || v.book.bids == w.book.bids
      || (e.Advance? && e.id in w.calls && Creating(w.calls[e.id].stage) && v == Moved(w, e.id))
  {
  }

  lemma StepStaysExplained(w: World, e: Event)
    requires Safe(w) && AllAsAsked(w) && Explained(w)
    ensures Explained(Step(w, e))
  {
    var v := Step(w, e);
    SameRulesAfter(w, e);
    OnlyCreatingAppends(w, e);
    if v.book.bids != w.book.bids {
      NewRowIsExplained(w, e.id);
    }
    forall i | 0 <= i < |v.book.bids| ensures Requested(v, v.book.bids[i]) || TopsThePrevious(v.book, i) {
      if i < |w.book.bids| {
        assert v.book.bids[i] == w.book.bids[i] && (i > 0 ==> v.book.bids[i - 1] == w.book.bids[i - 1]);
        if Requested(w, w.book.bids[i]) {
          RequestsStay(w, e, w.book.bids[i]);
        }
      }
    }
  }

  lemma {:induction false} RunStaysExplained(w: World, es: seq<Event>)
    requires Safe(w) && AllAsAsked(w) && Explained(w)
    ensures Explained(Run(w, es)) && AllAsAsked(Run(w, es))
    decreases |es|
  {
    if es != [] {
      StepStaysAsAsked(w, es[0]);
      StepStaysExplained(w, es[0]);
      StepKeepsSafe(w, es[0]);
      RunStaysExplained(Step(w, es[0]), es[1..]);
    }
  }

  /**
   After any interleaving from an opened auction every stored bid records a request, with the user and exactly the amount
   of that request, or is an automatic bid exactly one increment above the bid stored right before it.
   */
  lemma EveryRowIsExplained(w: World, es: seq<Event>)
    requires Opening(w)
    ensures Explained(Run(w, es))
  {
    OpeningIsSafe(w);
    RunStaysExplained(w, es);
  }

  /** The step that creates the row of a request's own bid, after any interleaving from an opened auction. */
  lemma OwnRowIsRecorded(w: World, es: seq<Event>, id: CallId)
    requires Opening(w) && id in Run(w, es).calls && Run(w, es).calls[id].stage.Appending?
    ensures var u := Run(w, es); var v := Step(u, Advance(id)); var call := u.calls[id];
      && v.book.bids == u.book.bids + [Last(v.book.bids)]
      && Records(u.book.auction.kind, Last(v.book.bids), call.user, call.amount, call.stage.bid.createdAt)
      && Worth(u.book.auction.kind, Last(v.book.bids)) == call.amount
  {
    OpeningIsSafe(w);
    RunStaysExplained(w, es);
    var u := Run(w, es);
    assert AsAsked(u.book, u.calls[id]);
  }

  /**
   An order answers if and only if its maximum is not below the next minimum and its owner could bid that by hand; the
   pending bid is then exactly that one.
   */
  lemma OrderBidsIff(w: World, id: CallId)
    requires Safe(w) && id in w.calls && w.calls[id].stage.Weighing?
    ensures var s := w.calls[id].stage; var t := NextStage(w, id);
      var amount := s.reply.amount + s.reply.record.minIncrement;
      (Saving(t) || Creating(t)) ==
        (amount <= s.order.max && Accepts(w.book.(auction := s.reply.record), s.order.user, amount, w.now))
    ensures var s := w.calls[id].stage; var t := NextStage(w, id);
      Saving(t) || Creating(t) ==>
        Records(Long, t.bid, s.order.user, s.reply.amount + s.reply.record.minIncrement, w.now)
  {
    var call := w.calls[id];
    assert Current(w, call);
    var r, c := call.stage.reply, call.stage.order;
    if AutoAccepts(w.book.(auction := r.record), c, r.amount, w.now) {
      ReplyIsAccepted(w.book, r, c, w.now);
    }
  }
}
