/**
 The interleaved section against the atomic one: an interleaved run is a run of whole `PlaceBid` requests and whole
 status changes, step by step, exactly as long as no writer stores a changed record over a snapshot or an extension.
 */
module BidLockAtomic {
  import opened Basics
  import opened Auctions
  import opened Bidding
  import opened AutoBids
  import opened BidLock

  // ----- refinement -----

  datatype AtomicEvent =
    | Skip
    | Place(user: UserId, amount: real, at: int)
    | Admit(joiner: UserId)
    | Restatus(status: Status, winnerId: Option<UserId>, winAmount: Option<real>)

  function AtomicStep(b: Book, e: AtomicEvent): Book {
    match e
    case Skip => b
    case Place(u, m, t) => PlaceBid(b, u, m, t)
    case Admit(u) => b.(paid := b.paid + {u})
    case Restatus(s, u, m) => b.(auction := b.auction.(status := s, winnerId := u, winAmount := m))
  }

  function AtomicRun(b: Book, es: seq<AtomicEvent>): Book
    decreases |es|
  {
    if es == [] then b else AtomicRun(AtomicStep(b, es[0]), es[1..])
  }

  /** The atomic view: an extension saved by a call that has not appended its bid yet has not happened. */
  function Abs(w: World): Book {
    if w.lock.Some? && w.lock.value in w.calls && Creating(w.calls[w.lock.value].stage)
    then w.book.(auction := Held(w.calls[w.lock.value].stage))
    else w.book
  }

  /** Whose bid is being placed: the requester's own, or that of an order's owner. */
  function Bidder(call: Call): UserId
    requires Saving(call.stage) || Creating(call.stage)
  {
    if InReply(call.stage) then call.stage.bid.user else call.user
  }

  function Amount(call: Call): real
    requires Saving(call.stage) || Creating(call.stage)
  {
    if InReply(call.stage) then call.stage.bid.amount else call.amount
  }

  /** A bid, automatic or by hand, takes effect when its row is created, and as of the time it was validated. */
  function Label(w: World, e: Event): AtomicEvent {
    match e
    case Advance(id) =>
      if id in w.calls && Creating(w.calls[id].stage)
      then Place(Bidder(w.calls[id]), Amount(w.calls[id]), w.calls[id].stage.bid.createdAt)
      else Skip
    case Join(u) => Admit(u)
    case Store(wid, s, u, m) => if Stores(w, e) then Restatus(s, u, m) else Skip
    case _ => Skip
  }

  /**
   A writer stores either exactly what is stored already, or a record with the current end time and extensions while no
   call holds a snapshot of it.
   */
  predicate Disciplined(w: World, e: Event) {
    Stores(w, e) ==>
      var rec := StoredRecord(w, e);
      || rec == w.book.auction
      || (Terms(rec) == Terms(w.book.auction) && forall id <- w.calls :: !Informed(w.calls[id].stage))
  }

  predicate DisciplinedRun(w: World, es: seq<Event>)
    decreases |es|
  {
    es == [] || (Disciplined(w, es[0]) && DisciplinedRun(Step(w, es[0]), es[1..]))
  }

  function Labels(w: World, es: seq<Event>): seq<AtomicEvent>
    decreases |es|
  {
    if es == [] then [] else [Label(w, es[0])] + Labels(Step(w, es[0]), es[1..])
  }

  /** The pending bid is what an atomic request on version `a` would place. */
  predicate Earned(b: Book, call: Call)
    requires Saving(call.stage) || Creating(call.stage)
  {
    var s := call.stage;
    var a := Held(s);
    && Accepts(Book(a, b.bids, b.paid), Bidder(call), Amount(call), s.bid.createdAt)
    && s.bid == NewBid(a, Bidder(call), Amount(call), s.bid.createdAt)
  }

  /** Under the discipline a snapshot is current in every field, status included. */
  predicate Exact(w: World, call: Call) {
    var s := call.stage;
    && (Informed(s) ==> Version(s) == w.book.auction)
    && (Saving(s) || Creating(s) ==> Earned(w.book, call))
  }

  predicate AllExact(w: World) {
    forall id <- w.calls :: Exact(w, w.calls[id])
  }

  predicate Faithful(w: World) {
    Safe(w) && AllExact(w)
  }

  /** A call outside the one that moves keeps an exact snapshot: only the lock holder has one at all. */
  lemma OthersHaveNoSnapshot(w: World, id: CallId)
    requires Safe(w) && id in w.calls && InCritical(w.calls[id].stage)
    ensures forall other <- w.calls :: other != id ==> !InCritical(w.calls[other].stage)
  {
  }

  /** The other calls keep what they have: nobody else is inside while this one writes. */
  lemma OthersStayExact(w: World, id: CallId, other: CallId)
    requires Faithful(w) && id in w.calls && other in w.calls && other != id
    ensures var v := Step(w, Advance(id)); other in v.calls && Exact(v, v.calls[other])
  {
    assert Exact(w, w.calls[other]);
    if InCritical(w.calls[id].stage) {
      OthersHaveNoSnapshot(w, id);
    }
  }

  lemma AdvanceStaysFaithful(w: World, id: CallId)
    requires Faithful(w) && id in w.calls
    ensures Faithful(Step(w, Advance(id)))
  {
    StepKeepsSafe(w, Advance(id));
    var v := Step(w, Advance(id));
    forall other | other in v.calls ensures Exact(v, v.calls[other]) {
      if other == id {
        OwnStepIsExact(w, id);
      } else {
        OthersStayExact(w, id, other);
      }
    }
  }

  lemma DecisionIsExact(w: World, id: CallId)
    requires id in w.calls && w.calls[id].stage.SawOwn? && Exact(w, w.calls[id]) && Current(w, w.calls[id])
    ensures var v := Step(w, Advance(id)); Exact(v, v.calls[id])
  {
    var call := w.calls[id];
    assert w.book == Book(call.stage.seen, w.book.bids, w.book.paid);
  }

  lemma ReplyDecisionIsExact(w: World, id: CallId)
    requires Sound(Far(w.book), w.now) && id in w.calls && w.calls[id].stage.Weighing?
    requires Exact(w, w.calls[id]) && Current(w, w.calls[id])
    ensures var v := Step(w, Advance(id)); Exact(v, v.calls[id])
  {
    var call := w.calls[id];
    var r, c := call.stage.reply, call.stage.order;
    assert w.book == w.book.(auction := r.record) && w.book == Book(r.record, w.book.bids, w.book.paid);
    if AutoAccepts(w.book, c, r.amount, w.now) {
      ReplyIsAccepted(w.book, r, c, w.now);
    }
  }

  lemma WriteIsExact(w: World, id: CallId)
    requires id in w.calls && (Saving(w.calls[id].stage) || Creating(w.calls[id].stage))
    requires Exact(w, w.calls[id]) && Current(w, w.calls[id])
    ensures var v := Step(w, Advance(id)); Exact(v, v.calls[id])
  {
    var v := Step(w, Advance(id));
    var s := w.calls[id].stage;
    if Saving(s) {
      assert v.book == w.book.(auction := Extended(Held(s)));
      assert Version(v.calls[id].stage) == Extended(Held(s));
    } else {
      assert v.book.auction == w.book.auction && Version(v.calls[id].stage) == Version(s);
    }
  }

  lemma ReadIsExact(w: World, id: CallId)
    requires id in w.calls && Exact(w, w.calls[id])
    requires var s := w.calls[id].stage; !s.SawOwn? && !s.Weighing? && !Saving(s) && !Creating(s)
    ensures var v := Step(w, Advance(id)); Exact(v, v.calls[id])
  {
    var next := NextStage(w, id);
    assert !Saving(next) && !Creating(next) && Step(w, Advance(id)).book == w.book;
    assert InReply(next) ==> next.reply.record == w.calls[id].stage.reply.record;
  }

  lemma OwnStepIsExact(w: World, id: CallId)
    requires Faithful(w) && id in w.calls
    ensures var v := Step(w, Advance(id)); Exact(v, v.calls[id])
  {
    var s := w.calls[id].stage;
    assert Exact(w, w.calls[id]) && Current(w, w.calls[id]);
    if s.SawOwn? {
      DecisionIsExact(w, id);
    } else if s.Weighing? {
      ReplyDecisionIsExact(w, id);
    } else if Saving(s) || Creating(s) {
      WriteIsExact(w, id);
    } else {
      ReadIsExact(w, id);
    }
  }

  /** Seen from a call inside the section. */
  lemma AbsFromInside(w: World, id: CallId)
    requires w.lock == Some(id) && id in w.calls
    ensures Abs(w) == if Creating(w.calls[id].stage) then w.book.(auction := Held(w.calls[id].stage)) else w.book
  {
  }

  lemma CreatingPlaces(w: World, id: CallId)
    requires Exclusive(w) && id in w.calls && Creating(w.calls[id].stage) && Exact(w, w.calls[id])
    ensures Abs(Step(w, Advance(id))) == AtomicStep(Abs(w), Label(w, Advance(id)))
    ensures |Abs(Step(w, Advance(id))).bids| == |Abs(w).bids| + 1
  {
    AbsFromInside(w, id);
    AbsFromInside(Step(w, Advance(id)), id);
  }

  lemma SavingIsHidden(w: World, id: CallId)
    requires Exclusive(w) && id in w.calls && Saving(w.calls[id].stage) && Exact(w, w.calls[id])
    ensures Abs(Step(w, Advance(id))) == Abs(w)
  {
    AbsFromInside(w, id);
    AbsFromInside(Step(w, Advance(id)), id);
  }

  lemma ReadingIsHidden(w: World, id: CallId)
    requires Exclusive(w) && id in w.calls && Exact(w, w.calls[id])
    requires !Saving(w.calls[id].stage) && !Creating(w.calls[id].stage)
    ensures Abs(Step(w, Advance(id))) == Abs(w)
  {
    var v := Step(w, Advance(id));
    if InCritical(w.calls[id].stage) {
      AbsFromInside(w, id);
      AbsFromInside(v, id);
      assert Creating(NextStage(w, id)) ==> Held(NextStage(w, id)) == Held(w.calls[id].stage) == w.book.auction;
    } else {
      assert w.lock.Some? && w.lock.value in w.calls && Creating(w.calls[w.lock.value].stage) ==> w.lock.value != id;
    }
  }

  lemma AdvanceRefines(w: World, id: CallId)
    requires Faithful(w) && id in w.calls
    ensures Abs(Step(w, Advance(id))) == AtomicStep(Abs(w), Label(w, Advance(id)))
    ensures Label(w, Advance(id)).Place? ==> |Abs(Step(w, Advance(id))).bids| == |Abs(w).bids| + 1
  {
    FaithfulIsExact(w, id);
    if Creating(w.calls[id].stage) {
      CreatingPlaces(w, id);
    } else if Saving(w.calls[id].stage) {
      SavingIsHidden(w, id);
    } else {
      ReadingIsHidden(w, id);
    }
  }

  /** A call that moves on without a read keeps its version, one that gives up may lose it. */
  lemma DroppedIsExact(w: World, call: Call)
    requires Exact(w, call)
    ensures Exact(w, call.(stage := Dropped(call.stage)))
  {
    assert !Saving(call.stage) && !Creating(call.stage) && Informed(Dropped(call.stage)) ==>
      Version(Dropped(call.stage)) == Version(call.stage);
  }

  lemma SameRecordStaysExact(w: World, v: World, call: Call)
    requires Exact(w, call) && v.book.bids == w.book.bids && w.book.paid <= v.book.paid
    requires v.book.auction == w.book.auction || !Informed(call.stage)
    ensures Exact(v, call)
  {
  }

  lemma OtherEventKeepsExact(w: World, e: Event, id: CallId)
    requires id in Step(w, e).calls && Disciplined(w, e) && !e.Advance?
    requires id in w.calls ==> Exact(w, w.calls[id])
    ensures var v := Step(w, e); Exact(v, v.calls[id])
  {
    var v := Step(w, e);
    if id in w.calls {
      DroppedIsExact(w, w.calls[id]);
      assert Exact(w, v.calls[id]);
      SameRecordStaysExact(w, v, v.calls[id]);
    }
  }

  lemma OtherEventsKeepExact(w: World, e: Event)
    requires AllExact(w) && Disciplined(w, e) && !e.Advance?
    ensures AllExact(Step(w, e))
  {
    forall id | id in Step(w, e).calls ensures Exact(Step(w, e), Step(w, e).calls[id]) {
      OtherEventKeepsExact(w, e, id);
    }
  }

  lemma OtherEventsStayFaithful(w: World, e: Event)
    requires Faithful(w) && Disciplined(w, e) && !e.Advance?
    ensures Faithful(Step(w, e))
  {
    StepKeepsSafe(w, e);
    OtherEventsKeepExact(w, e);
  }

  lemma OtherEventsRefine(w: World, e: Event)
    requires Faithful(w) && Disciplined(w, e) && !e.Advance?
    ensures Abs(Step(w, e)) == AtomicStep(Abs(w), Label(w, e)) && !Label(w, e).Place?
  {
    if Stores(w, e) {
      StoreRefines(w, e);
    }
  }

  lemma FaithfulIsExact(w: World, id: CallId)
    requires Faithful(w) && id in w.calls
    ensures Exact(w, w.calls[id])
  {
  }

  /** The stored record, whichever version a writer replaces it with, seen from a call about to append. */
  lemma SameRecordSameStatus(w: World, id: CallId, rec: Auction)
    requires Faithful(w) && id in w.calls && Creating(w.calls[id].stage) && rec == w.book.auction
    ensures var a := Held(w.calls[id].stage);
      a.(status := rec.status, winnerId := rec.winnerId, winAmount := rec.winAmount) == a
  {
    FaithfulIsExact(w, id);
  }

  lemma NoSnapshotNothingPending(w: World)
    requires forall id <- w.calls :: !Informed(w.calls[id].stage)
    ensures Abs(w) == w.book
  {
    if w.lock.Some? {
      var id: CallId := w.lock.value;
      assert id in w.calls ==> !Informed(w.calls[id].stage);
    }
  }

  lemma StoreRefines(w: World, e: Event)
    requires Faithful(w) && Disciplined(w, e) && Stores(w, e)
    ensures Abs(Step(w, e)) == AtomicStep(Abs(w), Label(w, e))
  {
    var rec := StoredRecord(w, e);
    if rec == w.book.auction {
      assert Step(w, e).book == w.book;
      if w.lock.Some? && w.lock.value in w.calls && Creating(w.calls[w.lock.value].stage) {
        SameRecordSameStatus(w, w.lock.value, rec);
      }
    } else {
      NoSnapshotNothingPending(w);
      NoSnapshotNothingPending(Step(w, e));
      TermsAgree(rec, w.book.auction);
    }
  }

  /** Storing a changed record breaks every snapshot of the old one. */
  lemma ChangeBreaksSnapshot(w: World, e: Event, id: CallId)
    requires Faithful(w) && e.Store? && id in w.calls && Informed(w.calls[id].stage)
    requires Step(w, e).book.auction != w.book.auction
    ensures !Faithful(Step(w, e))
  {
    var v := Step(w, e);
    FaithfulIsExact(w, id);
    assert id in v.calls && v.calls[id] == w.calls[id];
    assert !Exact(v, v.calls[id]);
  }

  /** A store outside the discipline cannot be matched: a snapshot goes stale, or the end time jumps. */
  lemma UndisciplinedStoreBreaks(w: World, e: Event)
    requires Faithful(w) && !Disciplined(w, e)
    ensures !(Faithful(Step(w, e)) && Abs(Step(w, e)) == AtomicStep(Abs(w), Label(w, e)))
  {
    if id :| id in w.calls && Informed(w.calls[id].stage) {
      ChangeBreaksSnapshot(w, e, id);
    } else {
      var rec := StoredRecord(w, e);
      NoSnapshotNothingPending(w);
      NoSnapshotNothingPending(Step(w, e));
      assert Abs(Step(w, e)).auction == rec;
      assert Terms(AtomicStep(Abs(w), Label(w, e)).auction) == Terms(w.book.auction);
    }
  }

  lemma StepRefines(w: World, e: Event)
    requires Faithful(w) && Disciplined(w, e)
    ensures Faithful(Step(w, e))
    ensures Abs(Step(w, e)) == AtomicStep(Abs(w), Label(w, e))
    ensures Label(w, e).Place? ==> |Abs(Step(w, e)).bids| == |Abs(w).bids| + 1
  {
    if e.Advance? && e.id in w.calls {
      AdvanceStaysFaithful(w, e.id);
      AdvanceRefines(w, e.id);
    } else if !e.Advance? {
      OtherEventsStayFaithful(w, e);
      OtherEventsRefine(w, e);
    }
  }

  /** A step is matched by one atomic step, or none, exactly when it keeps the discipline. */
  lemma StepRefinesIff(w: World, e: Event)
    requires Faithful(w)
    ensures Disciplined(w, e) <==> Faithful(Step(w, e)) && Abs(Step(w, e)) == AtomicStep(Abs(w), Label(w, e))
  {
    if Disciplined(w, e) {
      StepRefines(w, e);
    } else {
      UndisciplinedStoreBreaks(w, e);
    }
  }

  /** Linearizability of bidding: a disciplined interleaved run IS an atomic run, request by request. */
  lemma {:induction false} RunRefines(w: World, es: seq<Event>)
    requires Faithful(w) && DisciplinedRun(w, es)
    ensures Faithful(Run(w, es)) && |Labels(w, es)| == |es|
    ensures Abs(Run(w, es)) == AtomicRun(Abs(w), Labels(w, es))
    decreases |es|
  {
    if es != [] {
      StepRefines(w, es[0]);
      RunRefines(Step(w, es[0]), es[1..]);
      assert Labels(w, es)[1..] == Labels(Step(w, es[0]), es[1..]);
    }
  }

  /** Every step along the run is matched by its atomic step. */
  predicate MatchedRun(w: World, es: seq<Event>)
    decreases |es|
  {
    || es == []
    || (&& Faithful(Step(w, es[0])) && Abs(Step(w, es[0])) == AtomicStep(Abs(w), Label(w, es[0]))
        && MatchedRun(Step(w, es[0]), es[1..]))
  }

  /** A run is matched step by step if and only if every store along it keeps the discipline. */
  lemma {:induction false} MatchedIffDisciplined(w: World, es: seq<Event>)
    requires Faithful(w)
    ensures MatchedRun(w, es) <==> DisciplinedRun(w, es)
    decreases |es|
  {
    if es != [] {
      StepRefinesIff(w, es[0]);
      if Disciplined(w, es[0]) {
        MatchedIffDisciplined(Step(w, es[0]), es[1..]);
      }
    }
  }
}
