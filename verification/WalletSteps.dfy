/** What each wallet operation comes to: the exact condition, both balances afterwards, and everybody else untouched. */
module WalletSteps {
  import opened Basics
  import opened Payments
  import opened Wallets
  import opened WalletBooks

  /** The user has a wallet, neither balance of which is negative. */
  predicate HasWallet(b: Bank, u: nat) {
    u < |b.wallets| && b.wallets[u].main >= 0.0 && b.wallets[u].held >= 0.0
  }

  /** Of the wallets only that of `u` differs, and of the rest of the books nothing. */
  predicate NowHas(b: Bank, c: Bank, u: nat, main: real, held: real)
    requires u < |b.wallets|
  {
    c == b.(wallets := b.wallets[u := Wallet(main, held)])
  }

  /** A credit of at least 1 is added to the main balance if there is a wallet and the new balance is whole. */
  lemma CreditOutcome(b: Bank, u: nat, amount: real)
    ensures var c := Step(b, Credit(u, amount));
      if amount >= 1.0 && HasWallet(b, u) && Whole(b.wallets[u].main + amount) && Whole(b.wallets[u].held)
      then NowHas(b, c, u, b.wallets[u].main + amount, b.wallets[u].held)
      else c == b
  {
  }

  /** A positive debit is taken from the main balance if that covers it and what is left is whole. */
  lemma DebitOutcome(b: Bank, u: nat, amount: real)
    ensures var c := Step(b, Debit(u, amount));
      if HasWallet(b, u) && 0.0 < amount <= b.wallets[u].main && Whole(b.wallets[u].main - amount) && Whole(b.wallets[u].held)
      then NowHas(b, c, u, b.wallets[u].main - amount, b.wallets[u].held)
      else c == b
  {
  }

  /** A credit and a debit of the same amount cancel out. */
  lemma DebitUndoesCredit(b: Bank, u: nat, amount: real)
    requires amount >= 1.0 && HasWallet(b, u) && Whole(amount) && Whole(b.wallets[u].main) && Whole(b.wallets[u].held)
    ensures Step(b, Credit(u, amount)) != b
    ensures Step(Step(b, Credit(u, amount)), Debit(u, amount)) == b
  {
    var w := b.wallets[u];
    CreditOutcome(b, u, amount);
    WholeSum(w.main, amount);
    var c := Step(b, Credit(u, amount));
    assert c.wallets[u] == Wallet(w.main + amount, w.held);
    DebitOutcome(c, u, amount);
    assert c.wallets[u].main - amount == w.main;
    assert b.wallets[u := w] == b.wallets;
  }

  /**
   Joining moves the deposit from the main to the held balance, and seats the user once, if there is a wallet whose main
   balance covers the deposit and both new balances are whole; otherwise nothing changes.
   */
  lemma JoinOutcome(b: Bank, a: nat, u: nat)
    requires a < |b.lots| && b.lots[a].deposit >= 0.0
    ensures var c := Step(b, Join(a, u)); var d := b.lots[a].deposit;
      if && HasWallet(b, u) && d <= b.wallets[u].main && Whole(b.wallets[u].main - d) && Whole(b.wallets[u].held + d)
      then
        && c.wallets == b.wallets[u := Wallet(b.wallets[u].main - d, b.wallets[u].held + d)]
        && c.lots == b.lots[a := b.lots[a].(seats := if u in b.lots[a].seats then b.lots[a].seats else b.lots[a].seats + [u])]
      else c == b
    ensures a < |Step(b, Join(a, u)).lots|
  {
  }

  // ----- the release pass -----

  /** Who the pass from participant `i` on has to refund. */
  predicate ToRefund(l: Lot, winner: Option<nat>, i: nat, u: nat) {
    winner != Some(u) && exists j :: i <= j < |l.seats| && l.seats[j] == u
  }

  /** The wallets after the pass: one deposit moved back for everybody it has to refund, the rest as they were. */
  ghost predicate AllRefunded(b: Bank, c: Bank, a: nat, winner: Option<nat>, i: nat)
    requires a < |b.lots|
  {
    var l := b.lots[a];
    && |c.wallets| == |b.wallets|
    && (forall u: nat :: u < |b.wallets| ==>
          c.wallets[u] == if ToRefund(l, winner, i, u) then Wallet(b.wallets[u].main + l.deposit, b.wallets[u].held - l.deposit)
                          else b.wallets[u])
    && |c.lots| == |b.lots| && c.lots == b.lots[a := l.(returned := c.lots[a].returned)]
    && (forall u: nat :: u in c.lots[a].returned <==> u in l.returned || ToRefund(l, winner, i, u))
  }

  lemma NextToRefund(l: Lot, winner: Option<nat>, i: nat, u: nat)
    requires i < |l.seats|
    ensures ToRefund(l, winner, i, u) <==> ToRefund(l, winner, i + 1, u) || (l.seats[i] == u && winner != Some(u))
  {
    if ToRefund(l, winner, i + 1, u) {
      var j :| i + 1 <= j < |l.seats| && l.seats[j] == u;
    }
  }

  lemma NobodyTwice(l: Lot, winner: Option<nat>, i: nat)
    requires Distinct(l.seats) && i < |l.seats|
    ensures !ToRefund(l, winner, i + 1, l.seats[i])
  {
  }

  lemma SkipRefunds(b: Bank, c: Bank, a: nat, winner: Option<nat>, i: nat)
    requires a < |b.lots| && i < |b.lots[a].seats| && winner == Some(b.lots[a].seats[i])
    requires AllRefunded(b, c, a, winner, i + 1)
    ensures AllRefunded(b, c, a, winner, i)
  {
    forall u: nat ensures ToRefund(b.lots[a], winner, i, u) <==> ToRefund(b.lots[a], winner, i + 1, u) {
      NextToRefund(b.lots[a], winner, i, u);
    }
  }

  lemma OneMoreRefund(b: Bank, c: Bank, a: nat, winner: Option<nat>, i: nat)
    requires a < |b.lots| && i < |b.lots[a].seats| && Distinct(b.lots[a].seats)
    requires var u := b.lots[a].seats[i]; winner != Some(u) && u < |b.wallets|
    requires Storable(Releasing(b.wallets[b.lots[a].seats[i]], b.lots[a].deposit))
    requires AllRefunded(Refund(b, a, b.lots[a].seats[i]), c, a, winner, i + 1)
    ensures AllRefunded(b, c, a, winner, i)
  {
    var l := b.lots[a];
    var m := Refund(b, a, l.seats[i]);
    NobodyTwice(l, winner, i);
    forall u: nat ensures ToRefund(l, winner, i, u) <==> ToRefund(m.lots[a], winner, i + 1, u) || u == l.seats[i] {
      NextToRefund(l, winner, i, u);
      assert ToRefund(m.lots[a], winner, i + 1, u) <==> ToRefund(l, winner, i + 1, u);
    }
  }

  lemma {:induction false} PassRefundsAll(b: Bank, a: nat, winner: Option<nat>, i: nat)
    requires Solvent(b) && a < |b.lots| && PassCompletes(b, a, winner, i) && AllReadable(b)
    ensures AllRefunded(b, ReleaseFrom(b, a, winner, i), a, winner, i)
    decreases |b.lots[a].seats| - i
  {
    var l := b.lots[a];
    assert l in b.lots;
    if i >= |l.seats| {
      assert ReleaseFrom(b, a, winner, i) == b;
    } else {
      var u := l.seats[i];
      assert u in l.seats && b.wallets[u] in b.wallets;
      if winner == Some(u) {
        PassRefundsAll(b, a, winner, i + 1);
        SkipRefunds(b, ReleaseFrom(b, a, winner, i + 1), a, winner, i);
      } else {
        var c := Refund(b, a, u);
        RefundKeepsReadable(b, a, u);
        PassRefundsAll(c, a, winner, i + 1);
        OneMoreRefund(b, ReleaseFrom(c, a, winner, i + 1), a, winner, i);
      }
    }
  }

  lemma RefundKeepsReadable(b: Bank, a: nat, u: nat)
    requires Solvent(b) && a < |b.lots| && u in b.lots[a].seats && u < |b.wallets| && AllReadable(b)
    requires SaveSucceeds(Releasing(b.wallets[u], b.lots[a].deposit))
    ensures AllReadable(Refund(b, a, u)) && Solvent(Refund(b, a, u))
  {
    RefundEffect(b, a, u);
    var c := Refund(b, a, u);
    forall w | w in c.wallets ensures Readable(w) {
      var v :| 0 <= v < |c.wallets| && c.wallets[v] == w;
      if v != u {
        assert b.wallets[v] in b.wallets;
      }
    }
  }

  /** Everybody in the lot but the winner. */
  predicate Loses(l: Lot, winner: Option<nat>, u: nat) {
    u in l.seats && winner != Some(u)
  }

  /**
   The release pass, from balanced books, a whole deposit and nobody refunded before: everybody who joined except the
   winner gets exactly the deposit back, once; all other balances stay, the winner's among them.
   */
  lemma ReleaseOutcome(b: Bank, a: nat, winner: Option<nat>)
    requires Balanced(b) && a < |b.lots| && Whole(b.lots[a].deposit) && b.lots[a].returned == {}
    ensures var c := Step(b, ReleaseAll(a, winner)); var d := b.lots[a].deposit;
      && |c.wallets| == |b.wallets|
      && (forall u: nat :: u < |b.wallets| ==>
            c.wallets[u] == if Loses(b.lots[a], winner, u) then Wallet(b.wallets[u].main + d, b.wallets[u].held - d)
                            else b.wallets[u])
      && a < |c.lots| && (forall u: nat :: u in c.lots[a].returned <==> Loses(b.lots[a], winner, u))
      && c.lots == b.lots[a := b.lots[a].(returned := c.lots[a].returned)]
  {
    BalancedIsReadable(b);
    ReleaseSucceedsIff(b, a, winner);
    assert !Uncovered(b, a, winner);
    PassRefundsAll(b, a, winner, 0);
    forall u: nat ensures ToRefund(b.lots[a], winner, 0, u) <==> Loses(b.lots[a], winner, u) {
    }
  }

  /** Whenever the pass reaches its end, repeated or not, everybody but the winner has had the deposit moved back once. */
  lemma CompletedPassOutcome(b: Bank, a: nat, winner: Option<nat>)
    requires Balanced(b) && a < |b.lots| && PassCompletes(b, a, winner, 0)
    ensures AllRefunded(b, Step(b, ReleaseAll(a, winner)), a, winner, 0)
  {
    BalancedIsReadable(b);
    PassRefundsAll(b, a, winner, 0);
  }

  // ----- lots -----

  /** Opening, pricing and publishing: a lot starts as an empty draft, and only a draft can be given another deposit. */
  lemma LotOutcome(b: Bank, a: nat, asked: real)
    ensures Step(b, OpenLot(asked)) == if asked >= 0.0 then b.(lots := b.lots + [Lot(asked, false, [], {})]) else b
    ensures a < |b.lots| && !b.lots[a].published && asked >= 0.0 ==>
      Step(b, Reprice(a, asked)) == b.(lots := b.lots[a := b.lots[a].(deposit := asked)])
    ensures a >= |b.lots| || b.lots[a].published || asked < 0.0 ==> Step(b, Reprice(a, asked)) == b
    ensures a < |b.lots| ==> Step(b, PublishLot(a)) == b.(lots := b.lots[a := b.lots[a].(published := true)])
  {
  }
}
