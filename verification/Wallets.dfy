/**
 Wallets, and the deposits participants leave behind with the auctions they join
 (src/domain/entities/wallet/wallet.entity.ts, src/application/usecases/auction/addAuctionParticipant.usecase.ts,
 src/application/usecases/auction/releaseParticipantsWallet.usecase.ts).
 */
module Wallets {
  import opened Basics
  import opened Payments

  datatype Wallet = Wallet(main: real, held: real)

  /**
   One auction as the wallets see it: the deposit it asks (start price times the configured ratio), whether it left
   the draft stage, and its participants in joining order. `returned` is a history variable: who got a deposit back.
   */
  datatype Lot = Lot(deposit: real, published: bool, seats: seq<nat>, returned: set<nat>)

  /** User `u` owns wallet number `u`, if there is one. */
  datatype Bank = Bank(wallets: seq<Wallet>, lots: seq<Lot>)

  datatype Event =
    | OpenLot(asked: real)
    | Reprice(lot: nat, asked: real)
    | PublishLot(lot: nat)
    | Join(lot: nat, user: nat)
    | ReleaseAll(lot: nat, winner: Option<nat>)
    | Credit(user: nat, amount: real)
    | Debit(user: nat, amount: real)

  // ----- entity -----

  /** `Wallet.create` refuses negative balances, so a negative row cannot be read back. */
  predicate Readable(w: Wallet) {
    w.main >= 0.0 && w.held >= 0.0
  }

  /** The balance columns hold integers. */
  predicate Storable(w: Wallet) {
    Whole(w.main) && Whole(w.held)
  }

  class WalletEntity {
    var main: real
    var held: real

    constructor (row: Wallet)
      ensures Row() == row
    {
      main, held := row.main, row.held;
    }

    function Row(): Wallet
      reads this
    {
      Wallet(main, held)
    }

    method AddToMain(amount: real)
      modifies this
      ensures Row() == Wallet(old(main) + amount, old(held))
    {
      main := main + amount;
    }

    method DebitFromMain(amount: real)
      modifies this
      ensures Row() == Wallet(old(main) - amount, old(held))
    {
      main := main - amount;
    }

    method Hold(amount: real) returns (ok: bool)
      modifies this
      ensures ok <==> old(main) >= amount
      ensures Row() == if ok then Wallet(old(main) - amount, old(held) + amount) else old(Row())
    {
      if main < amount {
        return false;
      }
      main := main - amount;
      held := held + amount;
      return true;
    }

    method ReleaseHeld(amount: real)
      modifies this
      ensures Row() == Wallet(old(main) + amount, old(held) - amount)
    {
      held := held - amount;
      main := main + amount;
    }
  }

  // ----- use cases as functions -----

  /** `findByUserId`: nothing for a user without a wallet, a failure for a row that cannot be read; both end the call. */
  function Find(b: Bank, u: nat): Option<Wallet> {
    if u < |b.wallets| && Readable(b.wallets[u]) then Some(b.wallets[u]) else None
  }

  /** The upsert happens if the columns take the values; what it wrote is only checked afterwards. */
  function Save(b: Bank, u: nat, w: Wallet): Bank
    requires u < |b.wallets|
  {
    if Storable(w) then b.(wallets := b.wallets[u := w]) else b
  }

  predicate SaveSucceeds(w: Wallet) {
    Storable(w) && Readable(w)
  }

  function Holding(w: Wallet, amount: real): Wallet {
    Wallet(w.main - amount, w.held + amount)
  }

  function Releasing(w: Wallet, amount: real): Wallet {
    Wallet(w.main + amount, w.held - amount)
  }

  /** The unique key drops a second row of the same user. */
  function Seated(l: Lot, u: nat): Lot {
    if u in l.seats then l else l.(seats := l.seats + [u])
  }

  predicate JoinSucceeds(b: Bank, lot: nat, u: nat) {
    && lot < |b.lots| && Find(b, u).Some?
    && b.wallets[u].main >= b.lots[lot].deposit
    && SaveSucceeds(Holding(b.wallets[u], b.lots[lot].deposit))
  }

  /** Hold the deposit, save the wallet, then add the participant without looking at that save's result. */
  function DoJoin(b: Bank, lot: nat, u: nat): Bank {
    if lot < |b.lots| && Find(b, u).Some? && b.wallets[u].main >= b.lots[lot].deposit then
      var w := Holding(b.wallets[u], b.lots[lot].deposit);
      var c := Save(b, u, w);
      if SaveSucceeds(w) then c.(lots := b.lots[lot := Seated(b.lots[lot], u)]) else c
    else b
  }

  function Refund(b: Bank, lot: nat, u: nat): Bank
    requires lot < |b.lots| && u < |b.wallets|
  {
    var l := b.lots[lot];
    var w := Releasing(b.wallets[u], l.deposit);
    if Storable(w) then Save(b, u, w).(lots := b.lots[lot := l.(returned := l.returned + {u})]) else b
  }

  /** The release loop from participant `i` on: winner and unreadable wallets are skipped, a failed save ends it. */
  function ReleaseFrom(b: Bank, lot: nat, winner: Option<nat>, i: nat): Bank
    requires lot < |b.lots|
    decreases |b.lots[lot].seats| - i
  {
    var l := b.lots[lot];
    if i >= |l.seats| then b
    else
      var u := l.seats[i];
      if winner == Some(u) || Find(b, u).None? then ReleaseFrom(b, lot, winner, i + 1)
      else
        var c := Refund(b, lot, u);
        if SaveSucceeds(Releasing(b.wallets[u], l.deposit)) then ReleaseFrom(c, lot, winner, i + 1) else c
  }

  /** Does the pass from participant `i` on reach its end? */
  predicate PassCompletes(b: Bank, lot: nat, winner: Option<nat>, i: nat)
    requires lot < |b.lots|
    decreases |b.lots[lot].seats| - i
  {
    var l := b.lots[lot];
    i >= |l.seats| ||
    (var u := l.seats[i];
     if winner == Some(u) || Find(b, u).None? then PassCompletes(b, lot, winner, i + 1)
     else SaveSucceeds(Releasing(b.wallets[u], l.deposit)) && PassCompletes(Refund(b, lot, u), lot, winner, i + 1))
  }

  function DoRelease(b: Bank, lot: nat, winner: Option<nat>): Bank {
    if lot < |b.lots| then ReleaseFrom(b, lot, winner, 0) else b
  }

  function DoCredit(b: Bank, u: nat, amount: real): Bank {
    if amount >= 1.0 && Find(b, u).Some? then Save(b, u, b.wallets[u].(main := b.wallets[u].main + amount)) else b
  }

  function DoDebit(b: Bank, u: nat, amount: real): Bank {
    if amount > 0.0 && Find(b, u).Some? && b.wallets[u].main >= amount
    then Save(b, u, b.wallets[u].(main := b.wallets[u].main - amount))
    else b
  }

  function Step(b: Bank, e: Event): Bank {
    match e
    case OpenLot(d) => if d >= 0.0 then b.(lots := b.lots + [Lot(d, false, [], {})]) else b
    case Reprice(a, d) =>
      if a < |b.lots| && !b.lots[a].published && d >= 0.0 then b.(lots := b.lots[a := b.lots[a].(deposit := d)]) else b
    case PublishLot(a) => if a < |b.lots| then b.(lots := b.lots[a := b.lots[a].(published := true)]) else b
    case Join(a, u) => DoJoin(b, a, u)
    case ReleaseAll(a, w) => DoRelease(b, a, w)
    case Credit(u, m) => DoCredit(b, u, m)
    case Debit(u, m) => DoDebit(b, u, m)
  }

  function Run(b: Bank, es: seq<Event>): Bank
    decreases |es|
  {
    if es == [] then b else Run(Step(b, es[0]), es[1..])
  }

  // ----- the same use cases over stored rows -----

  class WalletDesk {
    var wallets: seq<Wallet>
    var lots: seq<Lot>

    constructor (b: Bank)
      ensures Books() == b
    {
      wallets, lots := b.wallets, b.lots;
    }

    function Books(): Bank
      reads this
    {
      Bank(wallets, lots)
    }

    method SaveWallet(u: nat, w: Wallet) returns (ok: bool)
      requires u < |wallets|
      modifies this`wallets
      ensures ok <==> SaveSucceeds(w)
      ensures Books() == Save(old(Books()), u, w)
    {
      if !Storable(w) {
        return false;
      }
      wallets := wallets[u := w];
      return Readable(w);
    }

    method AddParticipant(lot: nat, u: nat) returns (ok: bool)
      modifies this
      ensures ok <==> JoinSucceeds(old(Books()), lot, u)
      ensures Books() == DoJoin(old(Books()), lot, u)
    {
      if lot >= |lots| || Find(Books(), u).None? {
        return false;
      }
      var wallet := new WalletEntity(wallets[u]);
      ok := wallet.Hold(lots[lot].deposit);
      if !ok {
        return;
      }
      ok := SaveWallet(u, wallet.Row());
      if !ok {
        return;
      }
      lots := lots[lot := Seated(lots[lot], u)];
    }

    method ReleaseParticipants(lot: nat, winner: Option<nat>) returns (ok: bool)
      requires lot < |lots|
      modifies this
      ensures Books() == DoRelease(old(Books()), lot, winner)
      ensures ok <==> PassCompletes(old(Books()), lot, winner, 0)
    {
      var i := 0;
      while i < |lots[lot].seats|
        invariant lot < |lots| && i <= |lots[lot].seats|
        invariant ReleaseFrom(Books(), lot, winner, i) == DoRelease(old(Books()), lot, winner)
        invariant PassCompletes(Books(), lot, winner, i) <==> PassCompletes(old(Books()), lot, winner, 0)
        decreases |lots[lot].seats| - i
      {
        var u := lots[lot].seats[i];
        if winner == Some(u) || Find(Books(), u).None? {
          i := i + 1;
          continue;
        }
        var wallet := new WalletEntity(wallets[u]);
        wallet.ReleaseHeld(lots[lot].deposit);
        ok := SaveWallet(u, wallet.Row());
        if Storable(wallet.Row()) {
          lots := lots[lot := lots[lot].(returned := lots[lot].returned + {u})];
        }
        if !ok {
          return;
        }
        i := i + 1;
      }
      return true;
    }

    method CreditWallet(u: nat, amount: real) returns (ok: bool)
      requires amount >= 1.0
      modifies this`wallets
      ensures Books() == DoCredit(old(Books()), u, amount)
      ensures ok <==> Find(old(Books()), u).Some? && SaveSucceeds(Wallet(old(wallets)[u].main + amount, old(wallets)[u].held))
    {
      if Find(Books(), u).None? {
        return false;
      }
      var wallet := new WalletEntity(wallets[u]);
      wallet.AddToMain(amount);
      ok := SaveWallet(u, wallet.Row());
    }

    method DebitWallet(u: nat, amount: real) returns (ok: bool)
      modifies this`wallets
      ensures Books() == DoDebit(old(Books()), u, amount)
      ensures ok <==>
        && Find(old(Books()), u).Some? && 0.0 < amount <= old(wallets)[u].main
        && SaveSucceeds(Wallet(old(wallets)[u].main - amount, old(wallets)[u].held))
      ensures ok ==> wallets[u].main == old(wallets)[u].main - amount >= 0.0
    {
      if Find(Books(), u).None? {
        return false;
      }
      if amount <= 0.0 {
        return false;
      }
      if wallets[u].main < amount {
        return false;
      }
      var wallet := new WalletEntity(wallets[u]);
      wallet.DebitFromMain(amount);
      ok := SaveWallet(u, wallet.Row());
    }
  }
}
