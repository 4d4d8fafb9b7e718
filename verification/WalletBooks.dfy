/** Do the wallets agree with the deposits? Exactly which steps keep them in balance, and what every run conserves. */
module WalletBooks {
  import opened Basics
  import opened Payments
  import opened Wallets

  // ----- what is owed back -----

  function Due(l: Lot, u: nat): real {
    if u in l.seats && u !in l.returned then l.deposit else 0.0
  }

  /** The user's deposits outstanding over all auctions. */
  function TotalDue(lots: seq<Lot>, u: nat): real {
    if lots == [] then 0.0 else TotalDue(Init(lots), u) + Due(Last(lots), u)
  }

  predicate Distinct(s: seq<nat>) {
    forall i, j :: 0 <= i < j < |s| ==> s[i] != s[j]
  }

  predicate LotFits(l: Lot, users: nat) {
    && l.deposit >= 0.0
    && Distinct(l.seats)
    && (forall u <- l.seats :: u < users)
    && (forall u <- l.returned :: u in l.seats)
  }

  predicate Solvent(b: Bank) {
    && (forall w <- b.wallets :: Storable(w) && w.main >= 0.0)
    && (forall l <- b.lots :: LotFits(l, |b.wallets|))
  }

  /** Every held balance is exactly the user's outstanding deposits. */
  predicate Balanced(b: Bank) {
    Solvent(b) && forall u: nat :: u < |b.wallets| ==> b.wallets[u].held == TotalDue(b.lots, u)
  }

  lemma {:induction false} TotalDueUpdate(lots: seq<Lot>, a: nat, l: Lot, u: nat)
    requires a < |lots|
    ensures TotalDue(lots[a := l], u) == TotalDue(lots, u) - Due(lots[a], u) + Due(l, u)
  {
    if a == |lots| - 1 {
      assert Init(lots[a := l]) == Init(lots);
    } else {
      assert Init(lots[a := l]) == Init(lots)[a := l];
      TotalDueUpdate(Init(lots), a, l, u);
    }
  }

  lemma {:induction false} TotalDueNonNegative(lots: seq<Lot>, users: nat, u: nat)
    requires forall l <- lots :: LotFits(l, users)
    ensures TotalDue(lots, u) >= 0.0
  {
    if lots != [] {
      assert Last(lots) in lots && forall l <- Init(lots) :: l in lots;
      TotalDueNonNegative(Init(lots), users, u);
    }
  }

  /** In balanced books no held balance is negative and every row can be read back. */
  lemma BalancedIsReadable(b: Bank)
    requires Balanced(b)
    ensures forall w <- b.wallets :: Readable(w)
  {
    forall w | w in b.wallets ensures Readable(w) {
      var u :| 0 <= u < |b.wallets| && b.wallets[u] == w;
      TotalDueNonNegative(b.lots, |b.wallets|, u);
    }
  }

  lemma WholeSum(x: real, y: real)
    requires Whole(x)
    ensures Whole(x + y) <==> Whole(y)
    ensures Whole(x - y) <==> Whole(y)
  {
    assert (x + y).Floor == x.Floor + y.Floor;
    if Whole(y) {
      assert (x - y).Floor == x.Floor - y.Floor;
    }
  }

  // ----- joining -----

  lemma JoinBalance(b: Bank, a: nat, u: nat)
    requires Balanced(b)
    ensures Balanced(DoJoin(b, a, u)) <==> !(JoinSucceeds(b, a, u) && u in b.lots[a].seats && b.lots[a].deposit > 0.0)
  {
    var c := DoJoin(b, a, u);
    BalancedIsReadable(b);
    if JoinSucceeds(b, a, u) {
      var l := b.lots[a];
      assert l in b.lots;
      var k := Seated(l, u);
      assert LotFits(k, |b.wallets|);
      forall v: nat | v < |b.wallets|
        ensures c.wallets[v].held - TotalDue(c.lots, v) == if v == u && u in l.seats then l.deposit else 0.0
      {
        TotalDueUpdate(b.lots, a, k, v);
      }
      assert Solvent(c);
      assert c.wallets[u].held == TotalDue(c.lots, u) <==> !(u in l.seats && l.deposit > 0.0);
    } else if a < |b.lots| && Find(b, u).Some? && b.wallets[u].main >= b.lots[a].deposit {
      assert b.lots[a] in b.lots;
      assert c == b;
    }
  }

  // ----- releasing -----

  function Gap(b: Bank, u: nat): real
    requires u < |b.wallets|
  {
    b.wallets[u].held - TotalDue(b.lots, u)
  }

  /** One refund moves the refunded user's balance only, and unbalances it only on a second refund. */
  lemma RefundEffect(b: Bank, a: nat, u: nat)
    requires Solvent(b) && a < |b.lots| && u in b.lots[a].seats && u < |b.wallets|
    ensures var c := Refund(b, a, u);
      && Solvent(c) && |c.wallets| == |b.wallets| && |c.lots| == |b.lots| && c.lots[a].seats == b.lots[a].seats
      && c.lots[a].deposit == b.lots[a].deposit && b.lots[a].returned <= c.lots[a].returned <= b.lots[a].returned + {u}
      && (forall v: nat :: v < |b.wallets| && v != u ==> Gap(c, v) == Gap(b, v) && c.wallets[v] == b.wallets[v])
      && (u !in b.lots[a].returned ==> Gap(c, u) == Gap(b, u))
      && (u in b.lots[a].returned && Whole(b.lots[a].deposit) ==> Gap(c, u) == Gap(b, u) - b.lots[a].deposit)
      && Gap(c, u) <= Gap(b, u)
  {
    var l := b.lots[a];
    assert l in b.lots && b.wallets[u] in b.wallets;
    WholeSum(b.wallets[u].main, l.deposit);
    WholeSum(b.wallets[u].held, l.deposit);
    var k := l.(returned := l.returned + {u});
    forall v: nat | v < |b.wallets| ensures TotalDue(b.lots[a := k], v) == TotalDue(b.lots, v) - Due(l, v) + Due(k, v) {
      TotalDueUpdate(b.lots, a, k, v);
    }
  }

  /** Is `u` still to be refunded by the pass from `i` on, although refunded before? */
  predicate Twice(b: Bank, a: nat, winner: Option<nat>, i: nat, u: nat)
    requires a < |b.lots|
  {
    && u in b.lots[a].returned && winner != Some(u)
    && exists j :: i <= j < |b.lots[a].seats| && b.lots[a].seats[j] == u
  }

  /** Participants are distinct, so refunding the one at `i` makes nobody after it a second-time case. */
  lemma RefundMakesNoTwice(b: Bank, c: Bank, a: nat, winner: Option<nat>, i: nat)
    requires a < |b.lots| && a < |c.lots| && i < |b.lots[a].seats| && Distinct(b.lots[a].seats)
    requires c.lots[a].seats == b.lots[a].seats && c.lots[a].returned <= b.lots[a].returned + {b.lots[a].seats[i]}
    ensures forall v: nat :: Twice(c, a, winner, i + 1, v) ==> Twice(b, a, winner, i, v)
    ensures var u := b.lots[a].seats[i]; u in b.lots[a].returned && winner != Some(u) ==> Twice(b, a, winner, i, u)
  {
    forall v: nat | Twice(c, a, winner, i + 1, v) ensures Twice(b, a, winner, i, v) {
      var j :| i + 1 <= j < |c.lots[a].seats| && c.lots[a].seats[j] == v;
      assert v != b.lots[a].seats[i];
    }
  }

  /** What a pass from participant `i` on may do: it never raises a gap, and moves one only by a second refund. */
  predicate PassFits(b: Bank, c: Bank, a: nat, winner: Option<nat>, i: nat)
    requires a < |b.lots|
  {
    && Solvent(c) && |c.wallets| == |b.wallets|
    && (forall v: nat :: v < |b.wallets| ==> Gap(c, v) <= Gap(b, v))
    && (forall v: nat :: v < |b.wallets| && (!Twice(b, a, winner, i, v) || b.lots[a].deposit == 0.0) ==> Gap(c, v) == Gap(b, v))
  }

  lemma SkipThenPass(b: Bank, c: Bank, a: nat, winner: Option<nat>, i: nat)
    requires Solvent(b) && a < |b.lots| && i < |b.lots[a].seats| && PassFits(b, c, a, winner, i + 1)
    ensures PassFits(b, c, a, winner, i)
  {
    assert b.lots[a] in b.lots;
    RefundMakesNoTwice(b, b, a, winner, i);
  }

  lemma RefundAlone(b: Bank, a: nat, winner: Option<nat>, i: nat)
    requires Solvent(b) && a < |b.lots| && i < |b.lots[a].seats| && b.lots[a].seats[i] < |b.wallets| && winner != Some(b.lots[a].seats[i])
    ensures var c := Refund(b, a, b.lots[a].seats[i]);
      && PassFits(b, c, a, winner, i) && a < |c.lots| && c.lots[a].seats == b.lots[a].seats && c.lots[a].deposit == b.lots[a].deposit
      && c.lots[a].returned <= b.lots[a].returned + {b.lots[a].seats[i]}
  {
    var u := b.lots[a].seats[i];
    assert b.lots[a] in b.lots;
    RefundEffect(b, a, u);
    RefundMakesNoTwice(b, Refund(b, a, u), a, winner, i);
  }

  lemma RefundThenPass(b: Bank, c: Bank, d: Bank, a: nat, winner: Option<nat>, i: nat)
    requires Solvent(b) && a < |b.lots| && i < |b.lots[a].seats| && a < |c.lots| && PassFits(b, c, a, winner, i)
    requires c.lots[a].seats == b.lots[a].seats && c.lots[a].deposit == b.lots[a].deposit
    requires c.lots[a].returned <= b.lots[a].returned + {b.lots[a].seats[i]}
    requires PassFits(c, d, a, winner, i + 1)
    ensures PassFits(b, d, a, winner, i)
  {
    assert b.lots[a] in b.lots;
    RefundMakesNoTwice(b, c, a, winner, i);
  }

  lemma {:induction false} PassEffect(b: Bank, a: nat, winner: Option<nat>, i: nat)
    requires Solvent(b) && a < |b.lots|
    ensures PassFits(b, ReleaseFrom(b, a, winner, i), a, winner, i)
    decreases |b.lots[a].seats| - i
  {
    var l := b.lots[a];
    assert l in b.lots;
    if i < |l.seats| {
      var u := l.seats[i];
      assert u in l.seats;
      if winner == Some(u) || Find(b, u).None? {
        PassEffect(b, a, winner, i + 1);
        SkipThenPass(b, ReleaseFrom(b, a, winner, i + 1), a, winner, i);
      } else {
        RefundAlone(b, a, winner, i);
        var c := Refund(b, a, u);
        if SaveSucceeds(Releasing(b.wallets[u], l.deposit)) {
          PassEffect(c, a, winner, i + 1);
          RefundThenPass(b, c, ReleaseFrom(c, a, winner, i + 1), a, winner, i);
        }
      }
    }
  }

  /** One refund of a whole deposit is stored, and either it can be read back or it shows at once. */
  lemma WholeRefundIsStored(b: Bank, a: nat, x: nat)
    requires Solvent(b) && a < |b.lots| && x < |b.wallets| && Whole(b.lots[a].deposit)
    ensures var w := Releasing(b.wallets[x], b.lots[a].deposit);
      Storable(w) && Refund(b, a, x).wallets == b.wallets[x := w]
    ensures (forall w <- b.wallets :: Readable(w)) && Readable(Releasing(b.wallets[x], b.lots[a].deposit)) ==>
      forall w <- Refund(b, a, x).wallets :: Readable(w)
  {
    assert b.wallets[x] in b.wallets;
    WholeSum(b.wallets[x].main, b.lots[a].deposit);
    WholeSum(b.wallets[x].held, b.lots[a].deposit);
  }

  /** A second refund always shows: in the user's gap, or in a row that can no longer be read. */
  lemma {:induction false} SecondRefundShows(b: Bank, a: nat, winner: Option<nat>, i: nat, u: nat)
    requires Solvent(b) && a < |b.lots| && u < |b.wallets| && Twice(b, a, winner, i, u)
    requires Whole(b.lots[a].deposit) && b.lots[a].deposit > 0.0
    requires forall w <- b.wallets :: Readable(w)
    ensures var c := ReleaseFrom(b, a, winner, i);
      |c.wallets| == |b.wallets| && (Gap(c, u) < Gap(b, u) || exists w <- c.wallets :: !Readable(w))
    decreases |b.lots[a].seats| - i
  {
    var l := b.lots[a];
    assert l in b.lots;
    var x := l.seats[i];
    assert x in l.seats && b.wallets[x] in b.wallets;
    if winner == Some(x) {
      SecondRefundShows(b, a, winner, i + 1, u);
    } else {
      RefundEffect(b, a, x);
      WholeRefundIsStored(b, a, x);
      var c := Refund(b, a, x);
      if !Readable(Releasing(b.wallets[x], l.deposit)) {
        assert c.wallets[x] in c.wallets;
      } else if x == u {
        PassEffect(c, a, winner, i + 1);
      } else {
        assert Twice(c, a, winner, i + 1, u);
        SecondRefundShows(c, a, winner, i + 1, u);
      }
    }
  }

  /** A deposit that is not whole cannot be stored back, so the pass stops at the first refund without a trace. */
  lemma {:induction false} FractionalPassIsIdle(b: Bank, a: nat, winner: Option<nat>, i: nat)
    requires Solvent(b) && a < |b.lots| && !Whole(b.lots[a].deposit)
    ensures ReleaseFrom(b, a, winner, i) == b
    decreases |b.lots[a].seats| - i
  {
    var l := b.lots[a];
    if i < |l.seats| {
      var u := l.seats[i];
      if winner == Some(u) || Find(b, u).None? {
        FractionalPassIsIdle(b, a, winner, i + 1);
      } else {
        assert b.wallets[u] in b.wallets;
        WholeSum(b.wallets[u].main, l.deposit);
      }
    }
  }

  predicate RefundsAgain(b: Bank, a: nat, winner: Option<nat>)
    requires a < |b.lots|
  {
    && b.lots[a].deposit > 0.0 && Whole(b.lots[a].deposit)
    && exists u <- b.lots[a].returned :: winner != Some(u)
  }

  lemma ReleaseBalance(b: Bank, a: nat, winner: Option<nat>)
    requires Balanced(b) && a < |b.lots|
    ensures Balanced(DoRelease(b, a, winner)) <==> !RefundsAgain(b, a, winner)
  {
    var c := DoRelease(b, a, winner);
    var l := b.lots[a];
    assert l in b.lots;
    if !Whole(l.deposit) {
      FractionalPassIsIdle(b, a, winner, 0);
    } else {
      PassEffect(b, a, winner, 0);
      if RefundsAgain(b, a, winner) {
        var u :| u in l.returned && winner != Some(u);
        var j :| 0 <= j < |l.seats| && l.seats[j] == u;
        assert Twice(b, a, winner, 0, u);
        BalancedIsReadable(b);
        SecondRefundShows(b, a, winner, 0, u);
        if Balanced(c) {
          BalancedIsReadable(c);
          assert false;
        }
      } else {
        forall v: nat | v < |c.wallets| ensures c.wallets[v].held == TotalDue(c.lots, v) {
          assert Gap(c, v) == Gap(b, v);
        }
      }
    }
  }

  // ----- editing a draft -----

  predicate Reprices(b: Bank, a: nat, asked: real) {
    a < |b.lots| && !b.lots[a].published && asked >= 0.0 && asked != b.lots[a].deposit
  }

  lemma RepriceBalance(b: Bank, a: nat, asked: real)
    requires Balanced(b)
    ensures Balanced(Step(b, Reprice(a, asked))) <==>
      !(Reprices(b, a, asked) && exists u <- b.lots[a].seats :: u !in b.lots[a].returned)
  {
    if Reprices(b, a, asked) {
      var c := Step(b, Reprice(a, asked));
      var l := b.lots[a];
      assert l in b.lots;
      var k := l.(deposit := asked);
      forall v: nat | v < |b.wallets| ensures TotalDue(c.lots, v) == TotalDue(b.lots, v) - Due(l, v) + Due(k, v) {
        TotalDueUpdate(b.lots, a, k, v);
      }
      assert Solvent(c);
      if u :| u in l.seats && u !in l.returned {
        assert c.wallets[u].held != TotalDue(c.lots, u);
      } else {
        assert forall v: nat :: Due(k, v) == Due(l, v);
      }
    } else {
      assert Step(b, Reprice(a, asked)).lots == b.lots;
    }
  }

  // ----- every step -----

  /** The steps that throw the books out of balance: a second join, a second release, a new price for a taken seat. */
  predicate Breaks(b: Bank, e: Event) {
    match e
    case Join(a, u) => JoinSucceeds(b, a, u) && u in b.lots[a].seats && b.lots[a].deposit > 0.0
    case ReleaseAll(a, w) => a < |b.lots| && RefundsAgain(b, a, w)
    case Reprice(a, d) => Reprices(b, a, d) && exists u <- b.lots[a].seats :: u !in b.lots[a].returned
    case _ => false
  }

  lemma OtherStepsBalance(b: Bank, e: Event)
    requires Balanced(b) && (e.OpenLot? || e.PublishLot? || e.Credit? || e.Debit?)
    ensures Balanced(Step(b, e))
  {
    var c := Step(b, e);
    match e {
      case OpenLot(d) =>
        if d >= 0.0 { assert Init(c.lots) == b.lots; }
      case PublishLot(a) =>
        if a < |b.lots| {
          assert b.lots[a] in b.lots;
          forall v: nat | v < |b.wallets| ensures TotalDue(c.lots, v) == TotalDue(b.lots, v) {
            TotalDueUpdate(b.lots, a, c.lots[a], v);
          }
        }
      case _ =>
    }
  }

  /** Exactly the steps named in `Breaks` upset balanced books. */
  lemma StepBalancedIff(b: Bank, e: Event)
    requires Balanced(b)
    ensures Balanced(Step(b, e)) <==> !Breaks(b, e)
  {
    match e {
      case Join(a, u) => JoinBalance(b, a, u);
      case ReleaseAll(a, w) => if a < |b.lots| { ReleaseBalance(b, a, w); }
      case Reprice(a, d) => RepriceBalance(b, a, d);
      case _ => OtherStepsBalance(b, e);
    }
  }

  // ----- orderly runs -----

  /** Join once, after publication; release once. */
  predicate Orderly(b: Bank, e: Event) {
    && (e.Join? && e.lot < |b.lots| ==> b.lots[e.lot].published && e.user !in b.lots[e.lot].seats)
    && (e.ReleaseAll? && e.lot < |b.lots| ==> b.lots[e.lot].returned == {})
  }

  predicate OrderlyRun(b: Bank, es: seq<Event>)
    decreases |es|
  {
    es == [] || (Orderly(b, es[0]) && OrderlyRun(Step(b, es[0]), es[1..]))
  }

  predicate DraftsEmpty(b: Bank) {
    forall l <- b.lots :: l.published || l.seats == []
  }

  lemma {:induction false} ReleaseKeepsSeats(b: Bank, a: nat, winner: Option<nat>, i: nat)
    requires a < |b.lots|
    ensures var c := ReleaseFrom(b, a, winner, i);
      |c.lots| == |b.lots| && c.lots == b.lots[a := b.lots[a].(returned := c.lots[a].returned)]
    decreases |b.lots[a].seats| - i
  {
    var l := b.lots[a];
    if i < |l.seats| {
      var u := l.seats[i];
      if winner == Some(u) || Find(b, u).None? {
        ReleaseKeepsSeats(b, a, winner, i + 1);
      } else if SaveSucceeds(Releasing(b.wallets[u], l.deposit)) {
        ReleaseKeepsSeats(Refund(b, a, u), a, winner, i + 1);
      }
    }
  }

  lemma OrderlyStepIsClean(b: Bank, e: Event)
    requires DraftsEmpty(b) && Orderly(b, e)
    ensures !Breaks(b, e) && DraftsEmpty(Step(b, e))
  {
    if e.ReleaseAll? && e.lot < |b.lots| {
      ReleaseKeepsSeats(b, e.lot, e.winner, 0);
    }
    if e.Reprice? && e.lot < |b.lots| {
      assert b.lots[e.lot] in b.lots;
    }
    var c := Step(b, e);
    forall l | l in c.lots ensures l.published || l.seats == [] {
      var k :| 0 <= k < |c.lots| && c.lots[k] == l;
      if k < |b.lots| { assert b.lots[k] in b.lots; }
    }
  }

  /**
   Over any orderly run, across all auctions together, every held balance equals the user's outstanding deposits, no
   balance is negative and every wallet stays readable.
   */
  lemma {:induction false} OrderlyRunsBalance(b: Bank, es: seq<Event>)
    requires Balanced(b) && DraftsEmpty(b) && OrderlyRun(b, es)
    ensures Balanced(Run(b, es)) && forall w <- Run(b, es).wallets :: Readable(w)
    decreases |es|
  {
    if es == [] {
      BalancedIsReadable(b);
    } else {
      OrderlyStepIsClean(b, es[0]);
      StepBalancedIff(b, es[0]);
      OrderlyRunsBalance(Step(b, es[0]), es[1..]);
    }
  }

  // ----- conservation -----

  function Total(ws: seq<Wallet>): real {
    if ws == [] then 0.0 else Total(Init(ws)) + Last(ws).main + Last(ws).held
  }

  lemma {:induction false} TotalUpdate(ws: seq<Wallet>, u: nat, w: Wallet)
    requires u < |ws|
    ensures Total(ws[u := w]) == Total(ws) - ws[u].main - ws[u].held + w.main + w.held
  {
    if u == |ws| - 1 {
      assert Init(ws[u := w]) == Init(ws);
    } else {
      assert Init(ws[u := w]) == Init(ws)[u := w];
      TotalUpdate(Init(ws), u, w);
    }
  }

  lemma {:induction false} ReleaseConserves(b: Bank, a: nat, winner: Option<nat>, i: nat)
    requires a < |b.lots|
    ensures Total(ReleaseFrom(b, a, winner, i).wallets) == Total(b.wallets)
    decreases |b.lots[a].seats| - i
  {
    var l := b.lots[a];
    if i < |l.seats| {
      var u := l.seats[i];
      if winner == Some(u) || Find(b, u).None? {
        ReleaseConserves(b, a, winner, i + 1);
      } else {
        TotalUpdate(b.wallets, u, Releasing(b.wallets[u], l.deposit));
        if SaveSucceeds(Releasing(b.wallets[u], l.deposit)) {
          ReleaseConserves(Refund(b, a, u), a, winner, i + 1);
        }
      }
    }
  }

  /** Money that enters (or leaves) the wallets in one step. */
  function Inflow(b: Bank, e: Event): real {
    match e
    case Credit(u, m) => if DoCredit(b, u, m) != b then m else 0.0
    case Debit(u, m) => if DoDebit(b, u, m) != b then -m else 0.0
    case _ => 0.0
  }

  function TotalInflow(b: Bank, es: seq<Event>): real
    decreases |es|
  {
    if es == [] then 0.0 else Inflow(b, es[0]) + TotalInflow(Step(b, es[0]), es[1..])
  }

  lemma StepConserves(b: Bank, e: Event)
    ensures Total(Step(b, e).wallets) == Total(b.wallets) + Inflow(b, e)
  {
    match e {
      case Join(a, u) =>
        if a < |b.lots| && u < |b.wallets| { TotalUpdate(b.wallets, u, Holding(b.wallets[u], b.lots[a].deposit)); }
      case ReleaseAll(a, w) =>
        if a < |b.lots| { ReleaseConserves(b, a, w, 0); }
      case Credit(u, m) =>
        if u < |b.wallets| { TotalUpdate(b.wallets, u, b.wallets[u].(main := b.wallets[u].main + m)); }
      case Debit(u, m) =>
        if u < |b.wallets| { TotalUpdate(b.wallets, u, b.wallets[u].(main := b.wallets[u].main - m)); }
      case _ =>
    }
  }

  /** Holding and releasing never create or lose money: in ANY run, double joins and releases included, only credits and debits move the total. */
  lemma {:induction false} RunConserves(b: Bank, es: seq<Event>)
    ensures Total(Run(b, es).wallets) == Total(b.wallets) + TotalInflow(b, es)
    decreases |es|
  {
    if es != [] {
      StepConserves(b, es[0]);
      RunConserves(Step(b, es[0]), es[1..]);
    }
  }

  // ----- disorderly runs -----

  /** Main balances stay non-negative in every run, orderly or not. */
  lemma {:induction false} MainNeverNegative(b: Bank, es: seq<Event>)
    requires Solvent(b)
    ensures Solvent(Run(b, es))
    decreases |es|
  {
    if es != [] {
      StepKeepsSolvent(b, es[0]);
      MainNeverNegative(Step(b, es[0]), es[1..]);
    }
  }

  lemma StepKeepsSolvent(b: Bank, e: Event)
    requires Solvent(b)
    ensures Solvent(Step(b, e))
  {
    match e {
      case ReleaseAll(a, w) =>
        if a < |b.lots| { PassEffect(b, a, w, 0); }
      case Join(a, u) =>
        if a < |b.lots| { assert b.lots[a] in b.lots && LotFits(b.lots[a], |b.wallets|); }
      case Reprice(a, _) =>
        if a < |b.lots| { assert b.lots[a] in b.lots; }
      case PublishLot(a) =>
        if a < |b.lots| { assert b.lots[a] in b.lots; }
      case _ =>
    }
  }

  lemma {:induction false} ReleaseSkipsUnreadable(b: Bank, a: nat, winner: Option<nat>, i: nat, u: nat)
    requires a < |b.lots| && u < |b.wallets| && !Readable(b.wallets[u])
    ensures var c := ReleaseFrom(b, a, winner, i); u < |c.wallets| && c.wallets[u] == b.wallets[u]
    decreases |b.lots[a].seats| - i
  {
    var l := b.lots[a];
    if i < |l.seats| {
      var x := l.seats[i];
      if winner == Some(x) || Find(b, x).None? {
        ReleaseSkipsUnreadable(b, a, winner, i + 1, u);
      } else if SaveSucceeds(Releasing(b.wallets[x], l.deposit)) {
        ReleaseSkipsUnreadable(Refund(b, a, x), a, winner, i + 1, u);
      }
    }
  }

  /** A wallet row gone negative is lost: no later event of any kind changes it. */
  lemma {:induction false} UnreadableForever(b: Bank, es: seq<Event>, u: nat)
    requires u < |b.wallets| && !Readable(b.wallets[u])
    ensures u < |Run(b, es).wallets| && Run(b, es).wallets[u] == b.wallets[u]
    decreases |es|
  {
    if es != [] {
      if es[0].ReleaseAll? && es[0].lot < |b.lots| {
        ReleaseSkipsUnreadable(b, es[0].lot, es[0].winner, 0, u);
      }
      UnreadableForever(Step(b, es[0]), es[1..], u);
    }
  }

  /** A pass touches a wallet at most once: as it was, or with one deposit released. */
  lemma {:induction false} PassTouchesOnce(b: Bank, a: nat, winner: Option<nat>, i: nat, v: nat)
    requires Solvent(b) && a < |b.lots| && v < |b.wallets|
    ensures var c := ReleaseFrom(b, a, winner, i);
      && v < |c.wallets|
      && (|| c.wallets[v] == b.wallets[v]
          || (&& c.wallets[v] == Releasing(b.wallets[v], b.lots[a].deposit) && Whole(b.lots[a].deposit)
              && winner != Some(v) && exists j :: i <= j < |b.lots[a].seats| && b.lots[a].seats[j] == v))
    decreases |b.lots[a].seats| - i
  {
    var l := b.lots[a];
    assert l in b.lots;
    if i < |l.seats| {
      var u := l.seats[i];
      assert u in l.seats && b.wallets[u] in b.wallets;
      WholeSum(b.wallets[u].main, l.deposit);
      if winner == Some(u) || Find(b, u).None? {
        PassTouchesOnce(b, a, winner, i + 1, v);
      } else {
        assert u == v ==> l.seats[i] == v;
        if SaveSucceeds(Releasing(b.wallets[u], l.deposit)) {
          RefundEffect(b, a, u);
          PassTouchesOnce(Refund(b, a, u), a, winner, i + 1, v);
        }
      }
    }
  }

  /** Somebody refunded before, whom the pass would refund again, has too little in deposits to cover it. */
  predicate Uncovered(b: Bank, a: nat, winner: Option<nat>)
    requires a < |b.lots|
  {
    && Whole(b.lots[a].deposit)
    && exists u <- b.lots[a].returned :: winner != Some(u) && TotalDue(b.lots, u) < b.lots[a].deposit
  }

  predicate AllReadable(b: Bank) {
    forall w <- b.wallets :: Readable(w)
  }

  /** An uncovered second refund leaves a row that cannot be read: this one, or one on which the pass stopped earlier. */
  lemma {:induction false} UncoveredLosesARow(b: Bank, a: nat, winner: Option<nat>, i: nat, u: nat)
    requires Solvent(b) && a < |b.lots| && u < |b.wallets| && Twice(b, a, winner, i, u)
    requires Whole(b.lots[a].deposit) && AllReadable(b) && b.wallets[u].held < b.lots[a].deposit
    ensures !AllReadable(ReleaseFrom(b, a, winner, i))
    decreases |b.lots[a].seats| - i
  {
    var l := b.lots[a];
    assert l in b.lots;
    var x := l.seats[i];
    assert x in l.seats && b.wallets[x] in b.wallets;
    if winner == Some(x) {
      UncoveredLosesARow(b, a, winner, i + 1, u);
    } else {
      RefundEffect(b, a, x);
      WholeRefundIsStored(b, a, x);
      var c := Refund(b, a, x);
      if !Readable(Releasing(b.wallets[x], l.deposit)) {
        assert c.wallets[x] in c.wallets;
      } else {
        assert x != u && Twice(c, a, winner, i + 1, u);
        UncoveredLosesARow(c, a, winner, i + 1, u);
      }
    }
  }

  /** A row the pass made negative belongs to an uncovered user. */
  lemma LostRowIsUncovered(b: Bank, a: nat, winner: Option<nat>, v: nat)
    requires Balanced(b) && a < |b.lots| && v < |b.wallets|
    requires var c := DoRelease(b, a, winner); v < |c.wallets| && !Readable(c.wallets[v])
    ensures Whole(b.lots[a].deposit) && v in b.lots[a].returned && winner != Some(v) && TotalDue(b.lots, v) < b.lots[a].deposit
  {
    BalancedIsReadable(b);
    PassTouchesOnce(b, a, winner, 0, v);
    var l := b.lots[a];
    assert l in b.lots && b.wallets[v] in b.wallets;
    assert b.wallets[v].held < l.deposit;
    if v !in l.returned {
      DueIsPartOfTotal(b.lots, |b.wallets|, a, v);
      assert false;
    }
  }

  lemma {:induction false} DueIsPartOfTotal(lots: seq<Lot>, users: nat, a: nat, u: nat)
    requires a < |lots| && forall l <- lots :: LotFits(l, users)
    ensures TotalDue(lots, u) >= Due(lots[a], u)
  {
    assert Last(lots) in lots && forall l <- Init(lots) :: l in lots;
    if a == |lots| - 1 {
      TotalDueNonNegative(Init(lots), users, u);
    } else {
      DueIsPartOfTotal(Init(lots), users, a, u);
    }
  }

  /**
   Exactly when a release pass, from balanced books, leaves a wallet row that can never be read again: some user it
   refunds a second time has less outstanding over all auctions than the deposit.
   */
  lemma ReleaseLosesARowIff(b: Bank, a: nat, winner: Option<nat>)
    requires Balanced(b) && a < |b.lots|
    ensures !AllReadable(DoRelease(b, a, winner)) <==> Uncovered(b, a, winner)
  {
    var c := DoRelease(b, a, winner);
    var l := b.lots[a];
    assert l in b.lots;
    BalancedIsReadable(b);
    if Uncovered(b, a, winner) {
      var u :| u in l.returned && winner != Some(u) && TotalDue(b.lots, u) < l.deposit;
      var j :| 0 <= j < |l.seats| && l.seats[j] == u;
      assert Twice(b, a, winner, 0, u);
      UncoveredLosesARow(b, a, winner, 0, u);
    } else if !AllReadable(c) {
      var w :| w in c.wallets && !Readable(w);
      var v :| 0 <= v < |c.wallets| && c.wallets[v] == w;
      PassEffect(b, a, winner, 0);
      LostRowIsUncovered(b, a, winner, v);
      assert false;
    }
  }

  /** With a whole deposit the pass reaches its end exactly if it leaves every row readable. */
  lemma {:induction false} CompletesIffReadable(b: Bank, a: nat, winner: Option<nat>, i: nat)
    requires Solvent(b) && a < |b.lots| && Whole(b.lots[a].deposit) && AllReadable(b)
    ensures PassCompletes(b, a, winner, i) <==> AllReadable(ReleaseFrom(b, a, winner, i))
    decreases |b.lots[a].seats| - i
  {
    var l := b.lots[a];
    assert l in b.lots;
    if i < |l.seats| {
      var u := l.seats[i];
      assert u in l.seats && b.wallets[u] in b.wallets;
      if winner == Some(u) {
        CompletesIffReadable(b, a, winner, i + 1);
      } else {
        RefundEffect(b, a, u);
        WholeRefundIsStored(b, a, u);
        var c := Refund(b, a, u);
        if Readable(Releasing(b.wallets[u], l.deposit)) {
          CompletesIffReadable(c, a, winner, i + 1);
        } else {
          assert c.wallets[u] in c.wallets;
        }
      }
    }
  }

  /** With a deposit that is not whole it gets past the winner only. */
  lemma {:induction false} FractionalCompletesIff(b: Bank, a: nat, winner: Option<nat>, i: nat)
    requires Solvent(b) && a < |b.lots| && !Whole(b.lots[a].deposit) && AllReadable(b)
    ensures PassCompletes(b, a, winner, i) <==> forall j :: i <= j < |b.lots[a].seats| ==> winner == Some(b.lots[a].seats[j])
    decreases |b.lots[a].seats| - i
  {
    var l := b.lots[a];
    assert l in b.lots;
    if i < |l.seats| {
      var u := l.seats[i];
      assert u in l.seats && b.wallets[u] in b.wallets;
      WholeSum(b.wallets[u].main, l.deposit);
      if winner == Some(u) {
        FractionalCompletesIff(b, a, winner, i + 1);
      }
    }
  }

  /** Exactly when the release pass reports success, from balanced books. */
  lemma ReleaseSucceedsIff(b: Bank, a: nat, winner: Option<nat>)
    requires Balanced(b) && a < |b.lots|
    ensures PassCompletes(b, a, winner, 0) <==>
      if Whole(b.lots[a].deposit) then !Uncovered(b, a, winner) else forall u <- b.lots[a].seats :: winner == Some(u)
  {
    BalancedIsReadable(b);
    if Whole(b.lots[a].deposit) {
      CompletesIffReadable(b, a, winner, 0);
      ReleaseLosesARowIff(b, a, winner);
    } else {
      FractionalCompletesIff(b, a, winner, 0);
    }
  }

  /** A pass over a single participant. */
  lemma LonePass(b: Bank, a: nat, u: nat)
    requires a < |b.lots| && u < |b.wallets| && b.lots[a].seats == [u] && Readable(b.wallets[u])
    requires Storable(Releasing(b.wallets[u], b.lots[a].deposit))
    ensures var c := DoRelease(b, a, None);
      && c.wallets == b.wallets[u := Releasing(b.wallets[u], b.lots[a].deposit)]
      && a < |c.lots| && c.lots[a].seats == [u] && c.lots[a].deposit == b.lots[a].deposit
  {
    var c := Refund(b, a, u);
    assert ReleaseFrom(c, a, None, 1) == c;
  }

  /**
   And it does happen: somebody joins, and the end job is delivered twice. Unless other deposits cover the second
   refund, the row goes negative and the wallet is lost, whatever happens next.
   */
  lemma SecondReleaseLosesWallet(b: Bank, a: nat, u: nat, es: seq<Event>)
    requires Balanced(b) && JoinSucceeds(b, a, u) && b.lots[a].seats == []
    requires TotalDue(b.lots, u) < b.lots[a].deposit
    ensures var end := Run(Step(Step(Step(b, Join(a, u)), ReleaseAll(a, None)), ReleaseAll(a, None)), es);
      && u < |end.wallets| && end.wallets[u] == Releasing(b.wallets[u], b.lots[a].deposit)
      && !Readable(end.wallets[u])
  {
    var d := b.lots[a].deposit;
    var joined := DoJoin(b, a, u);
    assert joined.lots[a].seats == [] + [u] == [u] && joined.wallets[u] == Holding(b.wallets[u], d);
    assert Releasing(joined.wallets[u], d) == b.wallets[u] && b.wallets[u] in b.wallets;
    WholeSum(b.wallets[u].main, d);
    WholeSum(b.wallets[u].held, d);
    LonePass(joined, a, u);
    var once := DoRelease(joined, a, None);
    LonePass(once, a, u);
    UnreadableForever(DoRelease(once, a, None), es, u);
  }
}
