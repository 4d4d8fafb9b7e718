/** What every reachable state of an auction's life satisfies. */
module LifecycleInvariant {
  import opened Basics
  import opened Auctions
  import opened Bidding
  import opened Ranking
  import opened WinnerSelection
  import opened Payments
  import opened PublicOffers
  import opened Lifecycle

  // ----- the invariant, piece by piece -----

  predicate StatusFits(s: State) {
    var st := s.auction.status;
    && st != Cancelled
    && (!Closed(st) ==> s.winners == [])
    && (st == Draft ==> s.bids == [])
    && (st in {FallbackEnded, FallbackPublicNotification, Sold} ==> s.winners != [])
    && (st == Ended && s.winners == [] ==> s.bids == [])
  }

  /** Until somebody is elected there is no aftermath. */
  predicate Untouched(s: State) {
    s.winners == [] ==>
      && s.payments == map[] && s.endJob == None && s.fallbackJobs == {} && s.offer == None && s.replies == map[]
      && s.auction.winnerId == None && s.auction.winAmount == None
  }

  /** Who the record names as winner. */
  predicate Seated(s: State) {
    var a := s.auction;
    && (a.status == Ended && s.winners != [] ==>
          a.winnerId == Some(Last(s.winners).user) && a.winAmount == Some(Last(s.winners).amount))
    && (a.status in {FallbackEnded, FallbackPublicNotification} ==> a.winnerId == None && a.winAmount == None)
    && (a.status in {Sold, Failed} && a.winnerId.Some? ==> a.winnerId.value in s.replies && a.winAmount == Some(a.startPrice))
    && (a.status in {Sold, Failed} && a.winnerId.None? ==> a.winAmount == None)
    && (a.status == Sold ==> a.winnerId.Some?)
  }

  predicate EndJobFits(s: State) {
    s.winners != [] ==> s.endJob == Some(EndJob(s.winners[0].user, s.winners[0].amount))
  }

  predicate OfferFits(s: State) {
    var st := s.auction.status;
    && (s.offer.None? ==> s.replies == map[] && st !in {FallbackPublicNotification, Sold})
    && (s.offer.Some? ==>
          && st in {FallbackPublicNotification, Sold, Failed}
          && s.winners != []
          && s.offer.value.amount == s.auction.startPrice
          && s.offer.value.status == (if s.offer.value.payment == Unpaid then OfferPending else Accepted)
          && (s.offer.value.payment == Unpaid ==>
                st != Sold && s.auction.winnerId == None && forall u <- s.replies :: s.replies[u].payment == Unpaid))
  }

  /** Status, record, end job and public offer fit together. */
  predicate Shape(s: State) {
    StatusFits(s) && Untouched(s) && Seated(s) && EndJobFits(s) && OfferFits(s)
  }

  /** Only the sitting winner owes anything; every row belongs to an elected user or to the public buyer. */
  predicate Owing(s: State) {
    && (forall k <- s.payments :: s.payments[k].status == Pending ==> s.auction.winnerId == Some(k.user))
    && (forall k <- s.payments ::
          || WasElected(s.winners, k.user)
          || (s.auction.winnerId == Some(k.user) && k.phase == Balance && s.auction.status in {Sold, Failed}))
  }

  /** A winner is only ever passed over after payments were created for them. */
  predicate Settled(s: State) {
    forall i :: 0 <= i < |s.winners| && (i + 1 < |s.winners| || s.auction.status != Ended) ==>
      HasSlot(s.payments, s.winners[i].user)
  }

  predicate JobsFit(s: State) {
    forall j <- s.fallbackJobs ::
      1 <= j.reign <= |s.winners| && s.winners[j.reign - 1].user == j.declinedUser && HasSlot(s.payments, j.declinedUser)
  }

  predicate Distinct(ws: seq<WinnerRow>) {
    forall i, j :: 0 <= i < j < |ws| ==> ws[i].user != ws[j].user
  }

  /** A win amount that splits into a positive whole deposit and a positive whole balance. */
  predicate Splittable(win: real, ratio: real) {
    Whole(win) && 0.0 < DepositOf(win, ratio) < win
  }

  predicate PairsFit(cfg: Config, s: State) {
    forall i :: 0 <= i < |s.winners| && Splittable(s.winners[i].amount, cfg.depositRatio) && HasSlot(s.payments, s.winners[i].user) ==>
      FullPair(s.payments, s.winners[i].user, s.winners[i].amount)
  }

  /** Winners, payments and queued jobs fit together. */
  predicate Money(cfg: Config, s: State) {
    Distinct(s.winners) && Owing(s) && Settled(s) && JobsFit(s) && PairsFit(cfg, s)
  }

  /** The winner rows are the first places of the leaderboard, ranked 1, 2, ..., and never more than the cap. */
  predicate RowsFit(cfg: Config, s: State) {
    && IsPodium(Board(s), Ranked(s.winners))
    && (forall i :: 0 <= i < |s.winners| ==> s.winners[i].rank == i + 1)
    && |s.winners| <= Max(1, cfg.maxRank)
  }

  predicate Inv(cfg: Config, s: State) {
    Sound(BookOf(s), s.now) && Shape(s) && Money(cfg, s) && RowsFit(cfg, s)
  }

  lemma FreshIsInv(cfg: Config, s: State)
    requires Fresh(s)
    ensures Inv(cfg, s)
  {
  }

  // ----- the book -----

  lemma StepKeepsSound(cfg: Config, s: State, e: Event)
    requires Sound(BookOf(s), s.now) && (s.auction.status == Draft ==> s.bids == [])
    ensures Sound(BookOf(Step(cfg, s, e)), Step(cfg, s, e).now)
  {
    var t := Step(cfg, s, e);
    if e.Bid? {
      PlaceBidKeepsSound(BookOf(s), e.user, e.amount, s.now);
      assert BookOf(t) == PlaceBid(BookOf(s), e.user, e.amount, s.now);
    } else if !e.UpdateDraft? {
      StepOnlyDrifts(cfg, s, e);
      Drift(BookOf(s), BookOf(t), s.now, t.now);
    }
  }

  predicate Drifts(s: State, t: State) {
    s.now <= t.now && s.bids == t.bids && s.paid <= t.paid && Terms(s.auction) == Terms(t.auction)
  }

  lemma FallbackDrifts(cfg: Config, s: State, job: FallbackJob)
    ensures Drifts(s, DoFallback(cfg, s, job))
  {
  }

  lemma BuyingDrifts(cfg: Config, s: State, u: UserId)
    ensures Drifts(s, DoBuy(cfg, s, u))
  {
  }

  lemma StepOnlyDrifts(cfg: Config, s: State, e: Event)
    requires !e.Bid? && !e.UpdateDraft?
    ensures Drifts(s, Step(cfg, s, e))
  {
    match e {
      case DeliverFallback(job) => FallbackDrifts(cfg, s, job);
      case BuyOffer(u) => BuyingDrifts(cfg, s, u);
      case _ =>
    }
  }

  // ----- status, record, offer -----

  /** An election at the end of the auction finds somebody exactly when somebody bid. */
  lemma FirstElection(s: State)
    requires Sound(BookOf(s), s.now)
    ensures s.bids == [] ==> FirstPick(s.auction.kind, Listing(s.bids)) == NoWinner
    ensures s.bids != [] ==> FirstPick(s.auction.kind, Listing(s.bids)).Winner?
  {
    SoundMeansWellFormed(BookOf(s), s.now);
    FirstPickIsLeader(s.auction.kind, Listing(s.bids));
  }

  /** Whoever the fallback elects has not been elected before. */
  lemma ElectsSomebodyNew(cfg: Config, s: State)
    ensures Elect(cfg, s).Next? ==> !WasElected(s.winners, Elect(cfg, s).user)
    ensures Elect(cfg, s).Next? ==> Elect(cfg, s).rank == |s.winners| + 1 && 1 <= |s.winners| < cfg.maxRank
    ensures Elect(cfg, s) == Exhausted <==> |s.winners| >= cfg.maxRank
  {
    var others := BidsOfOthers(Listing(s.bids), Users(Ranked(s.winners)));
    if Elect(cfg, s).Next? {
      OthersAreNew(Listing(s.bids), Users(Ranked(s.winners)));
      PickIsABidder(s.auction.kind, others);
      ElectedAreRanked(s.winners, Elect(cfg, s).user);
    }
  }

  lemma ElectedAreRanked(ws: seq<WinnerRow>, u: UserId)
    ensures WasElected(ws, u) <==> u in Users(Ranked(ws))
  {
    InUsers(Ranked(ws), u);
    if u in Users(Ranked(ws)) {
      var k :| 0 <= k < |Ranked(ws)| && Ranked(ws)[k].user == u;
      assert ws[k].user == u;
    }
    if WasElected(ws, u) {
      var i :| 0 <= i < |ws| && ws[i].user == u;
      assert Ranked(ws)[i].user == u;
    }
  }

  lemma {:induction false} OthersAreNew(bids: seq<Bid>, winners: set<UserId>)
    ensures forall b <- BidsOfOthers(bids, winners) :: b.user !in winners
  {
    if bids != [] {
      OthersAreNew(Init(bids), winners);
    }
  }

  lemma {:induction false} ScanFindsABidder(bids: seq<Bid>)
    ensures ScanSealed(bids).At? && ScanSealed(bids).winner.Some? ==> exists b <- bids :: b.user == ScanSealed(bids).winner.value
  {
    if bids != [] {
      ScanFindsABidder(Init(bids));
      assert bids == Init(bids) + [Last(bids)];
    }
  }

  lemma PickIsABidder(kind: Kind, bids: seq<Bid>)
    ensures FirstPick(kind, bids).Winner? ==> exists b <- bids :: b.user == FirstPick(kind, bids).user
  {
    if kind == Sealed {
      ScanFindsABidder(bids);
    } else if bids != [] {
      ReduceIsMax(bids);
    }
  }

  predicate Aftermath(e: Event) {
    e.Fail? || e.OfferPublicly? || e.OrderOffer? || e.RejectOffer? || e.BuyOffer?
  }

  predicate Closing(e: Event) {
    e.End? || e.Expire?
  }

  lemma ClosingKeepsShape(cfg: Config, s: State, e: Event)
    requires Shape(s) && Closing(e)
    requires s.bids == [] ==> FirstPick(s.auction.kind, Listing(s.bids)) == NoWinner
    requires s.bids != [] ==> FirstPick(s.auction.kind, Listing(s.bids)).Winner?
    ensures Shape(Step(cfg, s, e))
  {
  }

  lemma AftermathKeepsShape(cfg: Config, s: State, e: Event)
    requires Shape(s) && Aftermath(e)
    ensures Shape(Step(cfg, s, e))
  {
  }

  lemma FallbackKeepsShape(cfg: Config, s: State, job: FallbackJob)
    requires Shape(s)
    ensures Shape(DoFallback(cfg, s, job))
  {
    ElectsSomebodyNew(cfg, s);
    var t := s.(payments := DeclineAll(s.payments, job.declinedUser));
    if s.winners == [] {
      assert !Unsettled(s, job);
    } else if Unsettled(s, job) {
      assert Shape(t);
      var r := Elect(cfg, s);
      if r.Next? {
        var v := Seat(cfg, t, r.user, r.amount, r.rank);
        assert v.winners[0] == s.winners[0] && Last(v.winners) == WinnerRow(r.user, r.amount, r.rank);
        assert Shape(v);
      }
    }
  }

  lemma PaymentsKeepShape(cfg: Config, s: State, e: Event)
    requires Shape(s) && (e.DeliverEnd? || e.VerifyPayment? || e.DeclinePayment?)
    ensures Shape(Step(cfg, s, e))
  {
    if s.winners == [] {
      assert Step(cfg, s, e) == s;
    }
  }

  lemma BiddingKeepsShape(cfg: Config, s: State, e: Event)
    requires Shape(s) && (e.UpdateDraft? || e.Publish? || e.Pause? || e.Resume? || e.Join? || e.Tick? || e.Bid?)
    ensures Shape(Step(cfg, s, e))
  {
    if e.Bid? && s.auction.status != Active {
      assert Step(cfg, s, e) == s;
    }
  }

  lemma StepKeepsShape(cfg: Config, s: State, e: Event)
    requires Sound(BookOf(s), s.now) && Shape(s)
    ensures Shape(Step(cfg, s, e))
  {
    if Closing(e) {
      FirstElection(s);
      ClosingKeepsShape(cfg, s, e);
    } else if Aftermath(e) {
      AftermathKeepsShape(cfg, s, e);
    } else if e.DeliverFallback? {
      FallbackKeepsShape(cfg, s, e.job);
    } else if e.DeliverEnd? || e.VerifyPayment? || e.DeclinePayment? {
      PaymentsKeepShape(cfg, s, e);
    } else {
      BiddingKeepsShape(cfg, s, e);
    }
  }

  // ----- winners, payments, jobs -----

  predicate MoneyUntouched(s: State, t: State) {
    && t.winners == s.winners && t.payments == s.payments && t.fallbackJobs == s.fallbackJobs
    && t.auction.winnerId == s.auction.winnerId
    && (|| t.auction.status == s.auction.status
        || (s.winners == [] && s.payments == map[])
        || (s.auction.status != Ended && t.auction.status != Ended && (s.auction.status in {Sold, Failed} ==> t.auction.status in {Sold, Failed})))
  }

  lemma MoneyFrame(cfg: Config, s: State, t: State)
    requires Money(cfg, s) && MoneyUntouched(s, t)
    ensures Money(cfg, t)
  {
  }

  lemma MostStepsLeaveMoney(cfg: Config, s: State, e: Event)
    requires Shape(s)
    requires !Closing(e) && !e.BuyOffer? && !e.DeliverFallback? && !e.DeliverEnd? && !e.VerifyPayment? && !e.DeclinePayment?
    ensures MoneyUntouched(s, Step(cfg, s, e))
  {
  }

  lemma ClosingKeepsMoney(cfg: Config, s: State, e: Event)
    requires Shape(s) && Money(cfg, s) && Closing(e)
    ensures Money(cfg, Step(cfg, s, e))
  {
  }

  /** Creating a pair for a user touches that user's rows only, and completes a splittable amount. */
  lemma CreatePairEffect(ps: Ledger, user: UserId, win: real, ratio: real)
    ensures var after := CreatePair(ps, user, win, ratio);
      && (forall k :: k in ps ==> k in after && after[k] == ps[k])
      && (forall k :: k in after && k !in ps ==> k.user == user && after[k].status == Pending && !HasSlot(ps, user))
      && (!HasSlot(ps, user) && Splittable(win, ratio) ==> FullPair(after, user, win))
  {
    var d := (win * ratio).Floor;
    WholeShift(win, d);
    assert Whole(DepositOf(win, ratio));
  }

  lemma DeliverEndKeepsMoney(cfg: Config, s: State)
    requires Shape(s) && Money(cfg, s)
    ensures Money(cfg, DoDeliverEnd(cfg, s))
  {
    var t := DoDeliverEnd(cfg, s);
    if t != s {
      var j := s.endJob.value;
      CreatePairEffect(s.payments, j.winner, j.amount, cfg.depositRatio);
      assert s.winners != [] && s.winners[0] == s.winners[0];
      assert WasElected(s.winners, j.winner);
      if !HasSlot(s.payments, j.winner) {
        assert |s.winners| == 1 && s.auction.status == Ended;
      }
    }
  }

  lemma RewriteKeepsMoney(cfg: Config, s: State, slot: Slot, status: PaymentStatus)
    requires Money(cfg, s) && slot in s.payments && status != Pending
    ensures Money(cfg, s.(payments := s.payments[slot := s.payments[slot].(status := status)]))
  {
    var t := s.(payments := s.payments[slot := s.payments[slot].(status := status)]);
    assert t.payments.Keys == s.payments.Keys;
    assert forall u :: HasSlot(t.payments, u) <==> HasSlot(s.payments, u);
  }

  lemma DeclineKeepsMoney(cfg: Config, s: State, slot: Slot, who: UserId)
    requires Shape(s) && Money(cfg, s)
    ensures Money(cfg, DoDecline(s, slot, who))
  {
    if DoDecline(s, slot, who) != s {
      RewriteKeepsMoney(cfg, s, slot, Declined);
      assert slot.phase == Deposit || slot.phase == Balance;
    }
  }

  predicate NothingPending(ps: Ledger) {
    forall k <- ps :: ps[k].status != Pending
  }

  /** After the cleanup nobody owes anything. */
  lemma CleanupKeepsMoney(cfg: Config, s: State, user: UserId)
    requires Money(cfg, s) && s.auction.winnerId == Some(user)
    ensures var t := s.(payments := DeclineAll(s.payments, user)); Money(cfg, t) && NothingPending(t.payments)
  {
    var t := s.(payments := DeclineAll(s.payments, user));
    assert t.payments.Keys == s.payments.Keys;
    assert forall u :: HasSlot(t.payments, u) <==> HasSlot(s.payments, u);
  }

  /** The job of the sitting winner was queued in the current reign, and that winner has payments. */
  lemma UnsettledIsCurrent(cfg: Config, s: State, job: FallbackJob)
    requires Shape(s) && Money(cfg, s) && Unsettled(s, job)
    ensures s.winners != [] && Last(s.winners).user == job.declinedUser && job.reign == |s.winners|
    ensures HasSlot(s.payments, job.declinedUser)
  {
    assert 1 <= job.reign <= |s.winners|;
  }

  lemma ExhaustedKeepsMoney(cfg: Config, s: State)
    requires Money(cfg, s) && s.auction.status == Ended && s.winners != []
    requires HasSlot(s.payments, Last(s.winners).user) && NothingPending(s.payments)
    ensures Money(cfg, s.(auction := s.auction.(status := FallbackEnded, winnerId := None, winAmount := None)))
  {
  }

  /** `after` only adds rows of `u`, who had none. */
  predicate OnlyAddsRowsOf(before: Ledger, after: Ledger, u: UserId) {
    && !HasSlot(before, u)
    && (forall k :: k in before ==> k in after && after[k] == before[k])
    && (forall k :: k in after && k !in before ==> k.user == u)
  }

  lemma SeatKeepsOwing(s: State, t: State, row: WinnerRow)
    requires Owing(s) && NothingPending(s.payments) && OnlyAddsRowsOf(s.payments, t.payments, row.user)
    requires s.auction.status == Ended && t.winners == s.winners + [row] && t.auction.winnerId == Some(row.user)
    ensures Owing(t)
  {
    assert t.winners[|s.winners|].user == row.user;
    forall k | k in t.payments ensures WasElected(t.winners, k.user) {
      if k in s.payments {
        var i :| 0 <= i < |s.winners| && s.winners[i].user == k.user;
        assert t.winners[i].user == k.user;
      }
    }
  }

  lemma SeatKeepsSettled(s: State, t: State, row: WinnerRow)
    requires Settled(s) && JobsFit(s) && OnlyAddsRowsOf(s.payments, t.payments, row.user)
    requires s.auction.status == Ended && t.auction.status == Ended && s.winners != []
    requires HasSlot(s.payments, Last(s.winners).user)
    requires t.winners == s.winners + [row] && t.fallbackJobs == s.fallbackJobs
    ensures Settled(t) && JobsFit(t)
  {
    assert forall i :: 0 <= i < |s.winners| ==> t.winners[i] == s.winners[i];
    assert forall v :: HasSlot(s.payments, v) ==> HasSlot(t.payments, v);
  }

  lemma SeatKeepsPairs(cfg: Config, s: State, t: State, row: WinnerRow)
    requires PairsFit(cfg, s) && OnlyAddsRowsOf(s.payments, t.payments, row.user) && !WasElected(s.winners, row.user)
    requires t.winners == s.winners + [row]
    requires Splittable(row.amount, cfg.depositRatio) ==> FullPair(t.payments, row.user, row.amount)
    ensures PairsFit(cfg, t)
  {
    forall i | 0 <= i < |t.winners| && Splittable(t.winners[i].amount, cfg.depositRatio) && HasSlot(t.payments, t.winners[i].user)
      ensures FullPair(t.payments, t.winners[i].user, t.winners[i].amount)
    {
      if i < |s.winners| {
        assert t.winners[i] == s.winners[i] && s.winners[i].user != row.user;
        assert HasSlot(s.payments, s.winners[i].user);
      }
    }
  }

  lemma SeatKeepsMoney(cfg: Config, s: State, u: UserId, m: real)
    requires Money(cfg, s) && s.auction.status == Ended && s.winners != []
    requires HasSlot(s.payments, Last(s.winners).user) && NothingPending(s.payments) && !WasElected(s.winners, u)
    ensures Money(cfg, Seat(cfg, s, u, m, |s.winners| + 1))
  {
    var t := Seat(cfg, s, u, m, |s.winners| + 1);
    var row := WinnerRow(u, m, |s.winners| + 1);
    assert !HasSlot(s.payments, u);
    CreatePairEffect(s.payments, u, m, cfg.depositRatio);
    assert OnlyAddsRowsOf(s.payments, t.payments, u);
    SeatKeepsOwing(s, t, row);
    SeatKeepsSettled(s, t, row);
    SeatKeepsPairs(cfg, s, t, row);
    assert Distinct(t.winners);
  }

  lemma FallbackKeepsMoney(cfg: Config, s: State, job: FallbackJob)
    requires Shape(s) && Money(cfg, s)
    ensures Money(cfg, DoFallback(cfg, s, job))
  {
    if Unsettled(s, job) {
      UnsettledIsCurrent(cfg, s, job);
      CleanupKeepsMoney(cfg, s, job.declinedUser);
      ElectsSomebodyNew(cfg, s);
      var t := s.(payments := DeclineAll(s.payments, job.declinedUser));
      assert HasSlot(t.payments, job.declinedUser);
      var r := Elect(cfg, s);
      if r.Exhausted? {
        ExhaustedKeepsMoney(cfg, t);
      } else if r.Next? {
        SeatKeepsMoney(cfg, t, r.user, r.amount);
      }
    }
  }

  lemma BuyKeepsMoney(cfg: Config, s: State, u: UserId)
    requires Shape(s) && Money(cfg, s)
    ensures Money(cfg, DoBuy(cfg, s, u))
  {
    var t := DoBuy(cfg, s, u);
    if t != s && t.auction.status == Sold {
      assert s.auction.winnerId == None && s.auction.status != Ended;
      assert forall v :: HasSlot(s.payments, v) ==> HasSlot(t.payments, v);
      forall k | k in t.payments
        ensures WasElected(t.winners, k.user) || (t.auction.winnerId == Some(k.user) && k.phase == Balance)
      {
        assert k in s.payments || k == Slot(u, Balance);
      }
      forall i | 0 <= i < |t.winners| && Splittable(t.winners[i].amount, cfg.depositRatio) && HasSlot(t.payments, t.winners[i].user)
        ensures FullPair(t.payments, t.winners[i].user, t.winners[i].amount)
      {
        assert HasSlot(s.payments, s.winners[i].user);
      }
    }
  }

  lemma StepKeepsMoney(cfg: Config, s: State, e: Event)
    requires Shape(s) && Money(cfg, s)
    ensures Money(cfg, Step(cfg, s, e))
  {
    if Closing(e) {
      ClosingKeepsMoney(cfg, s, e);
    } else if e.DeliverEnd? {
      DeliverEndKeepsMoney(cfg, s);
    } else if e.VerifyPayment? {
      if DoVerify(s, e.slot, e.who) != s { RewriteKeepsMoney(cfg, s, e.slot, Completed); }
    } else if e.DeclinePayment? {
      DeclineKeepsMoney(cfg, s, e.slot, e.who);
    } else if e.DeliverFallback? {
      FallbackKeepsMoney(cfg, s, e.job);
    } else if e.BuyOffer? {
      BuyKeepsMoney(cfg, s, e.user);
    } else {
      MostStepsLeaveMoney(cfg, s, e);
      MoneyFrame(cfg, s, Step(cfg, s, e));
    }
  }

  // ----- the winner rows -----

  lemma RowsFrame(cfg: Config, s: State, t: State)
    requires RowsFit(cfg, s) && t.winners == s.winners
    requires s.winners == [] || (t.bids == s.bids && t.auction.kind == s.auction.kind)
    ensures RowsFit(cfg, t)
  {
    if s.winners != [] {
      assert Board(t) == Board(s);
    }
  }

  lemma {:induction false} EveryoneEligible(es: seq<Entry>)
    ensures Eligible(es, {}) == es
  {
    if es != [] {
      EveryoneEligible(Init(es));
      assert es == Init(es) + [Last(es)];
    }
  }

  lemma LeaderIsPodium(es: seq<Entry>)
    requires es != []
    ensures IsPodium(es, [Leader(es)])
  {
    EveryoneEligible(es);
    var none: seq<Entry> := [];
    assert Users(none) == {};
    ElectionExtendsPodium(es, none);
    assert none + [Leader(es)] == [Leader(es)];
  }

  lemma FirstPickTopsBoard(s: State)
    requires Sound(BookOf(s), s.now) && s.bids != []
    ensures Board(s) != []
    ensures FirstPick(s.auction.kind, Listing(s.bids)) == Winner(Leader(Board(s)).user, Leader(Board(s)).amount)
  {
    SoundMeansWellFormed(BookOf(s), s.now);
    assert |Listing(s.bids)| == |s.bids|;
    FirstPickIsLeader(s.auction.kind, Listing(s.bids));
  }

  /** The first election seats the top of the leaderboard. */
  lemma CloseFillsFirstRow(cfg: Config, s: State, u: UserId, m: real)
    requires Board(s) != [] && Leader(Board(s)) == Entry(u, m) && s.winners == []
    ensures RowsFit(cfg, CloseWith(s, u, m))
  {
    LeaderIsPodium(Board(s));
    var t := CloseWith(s, u, m);
    assert t.winners == [WinnerRow(u, m, 1)];
    RankedOne(t.winners[0]);
    assert Board(t) == Board(s);
    assert IsPodium(Board(t), Ranked(t.winners));
  }

  lemma RankedOne(w: WinnerRow)
    ensures Ranked([w]) == [Entry(w.user, w.amount)]
  {
    assert Init([w]) == [];
  }

  /** A fallback election fills the next row with the next place. */
  lemma SeatFillsNextRow(cfg: Config, s: State, job: FallbackJob)
    requires Sound(BookOf(s), s.now) && RowsFit(cfg, s) && s.winners != [] && Elect(cfg, s).Next?
    ensures var r := Elect(cfg, s);
      r.amount > 0.0 && RowsFit(cfg, Seat(cfg, s.(payments := DeclineAll(s.payments, job.declinedUser)), r.user, r.amount, r.rank))
  {
    ElectsSomebodyNew(cfg, s);
    SoundMeansWellFormed(BookOf(s), s.now);
    NextWinnerIsNextPlace(cfg.maxRank, s.auction.kind, Listing(s.bids), Ranked(s.winners));
    var r := Elect(cfg, s);
    var row := WinnerRow(r.user, r.amount, r.rank);
    var t := Seat(cfg, s.(payments := DeclineAll(s.payments, job.declinedUser)), r.user, r.amount, r.rank);
    assert Init(s.winners + [row]) == s.winners;
    assert Ranked(t.winners) == Ranked(s.winners) + [Entry(r.user, r.amount)];
    assert Board(t) == Board(s);
  }

  lemma OnlyElectionsTouchRows(cfg: Config, s: State, e: Event)
    requires Shape(s)
    ensures var t := Step(cfg, s, e);
      || (t.winners == s.winners && (s.winners == [] || (t.bids == s.bids && t.auction.kind == s.auction.kind)))
      || (Closing(e) && MayEnd(s) && s.winners == [] && FirstPick(s.auction.kind, Listing(s.bids)).Winner?
          && t == CloseWith(s, FirstPick(s.auction.kind, Listing(s.bids)).user, FirstPick(s.auction.kind, Listing(s.bids)).amount))
      || (e.DeliverFallback? && Elect(cfg, s).Next? && s.winners != []
          && t == Seat(cfg, s.(payments := DeclineAll(s.payments, e.job.declinedUser)), Elect(cfg, s).user, Elect(cfg, s).amount, Elect(cfg, s).rank))
  {
    if e.DeliverFallback? {
      ElectsSomebodyNew(cfg, s);
    }
  }

  lemma StepKeepsRows(cfg: Config, s: State, e: Event)
    requires Sound(BookOf(s), s.now) && Shape(s) && RowsFit(cfg, s)
    ensures RowsFit(cfg, Step(cfg, s, e))
  {
    var t := Step(cfg, s, e);
    OnlyElectionsTouchRows(cfg, s, e);
    if t.winners == s.winners && (s.winners == [] || (t.bids == s.bids && t.auction.kind == s.auction.kind)) {
      RowsFrame(cfg, s, t);
    } else if Closing(e) {
      FirstElection(s);
      FirstPickTopsBoard(s);
      CloseFillsFirstRow(cfg, s, Leader(Board(s)).user, Leader(Board(s)).amount);
    } else {
      SeatFillsNextRow(cfg, s, e.job);
    }
  }

  // ----- every run -----

  lemma StepKeepsInv(cfg: Config, s: State, e: Event)
    requires Inv(cfg, s)
    ensures Inv(cfg, Step(cfg, s, e))
  {
    StepKeepsSound(cfg, s, e);
    StepKeepsShape(cfg, s, e);
    StepKeepsMoney(cfg, s, e);
    StepKeepsRows(cfg, s, e);
  }

  lemma {:induction false} RunKeepsInv(cfg: Config, s: State, es: seq<Event>)
    requires Inv(cfg, s)
    ensures Inv(cfg, Run(cfg, s, es))
    decreases |es|
  {
    if es != [] {
      StepKeepsInv(cfg, s, es[0]);
      RunKeepsInv(cfg, Step(cfg, s, es[0]), es[1..]);
    }
  }
}
