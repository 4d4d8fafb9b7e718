/**
 Auction payments: the split of the winning amount, the idempotent creation of the deposit/balance pair, and the
 status of one payment (src/application/usecases/payments/createPendingPaymentForAuction.usecase.ts,
 src/application/strategies/payments/, src/domain/entities/payments/payments.entity.ts).
 */
module Payments {
  import opened Basics

  datatype Phase = Deposit | Balance
  datatype PaymentStatus = Pending | Completed | FailedPayment | Declined

  /** The unique key of a payment row within one auction (prisma/payments.prisma). */
  datatype Slot = Slot(user: UserId, phase: Phase)
  datatype Payment = Payment(amount: real, status: PaymentStatus)
  type Ledger = map<Slot, Payment>

  predicate HasSlot(ps: Ledger, user: UserId) {
    Slot(user, Deposit) in ps || Slot(user, Balance) in ps
  }

  /** The amount column holds integers. */
  predicate Whole(x: real) {
    x.Floor as real == x
  }

  // ----- entity -----

  class PaymentEntity {
    const amount: real
    var status: PaymentStatus

    constructor (row: Payment)
      ensures Row() == row
    {
      amount, status := row.amount, row.status;
    }

    function Row(): Payment
      reads this
    {
      Payment(amount, status)
    }

    method MarkAsCompleted() returns (ok: bool)
      modifies this`status
      ensures ok <==> old(status) == Pending
      ensures Row() == if ok then old(Row()).(status := Completed) else old(Row())
    {
      if status != Pending {
        return false;
      }
      status := Completed;
      return true;
    }

    method MarkAsDeclined() returns (ok: bool)
      modifies this`status
      ensures ok <==> old(status) in {Pending, Declined}
      ensures Row() == if ok then old(Row()).(status := Declined) else old(Row())
    {
      if status == Declined {
        return true;
      }
      if status != Pending {
        return false;
      }
      status := Declined;
      return true;
    }
  }

  // ----- creation -----

  /** `Payments.create` rejects a non-positive amount; the row is rejected if not whole or if the key is taken. */
  predicate Insertable(ps: Ledger, slot: Slot, amount: real) {
    amount > 0.0 && Whole(amount) && slot !in ps
  }

  function Insert(ps: Ledger, slot: Slot, amount: real): Ledger {
    if Insertable(ps, slot, amount) then ps[slot := Payment(amount, Pending)] else ps
  }

  function DepositOf(win: real, ratio: real): real {
    (win * ratio).Floor as real
  }

  /** The part of a public sale still to be paid. */
  function RemainderOf(price: real, ratio: real): real {
    price * ratio
  }

  /** It grows with the ratio, and only with it. */
  lemma RemainderGrows(price: real, ratio: real, higher: real)
    requires price > 0.0
    ensures ratio < higher <==> RemainderOf(price, ratio) < RemainderOf(price, higher)
  {
    assert price * higher - price * ratio == price * (higher - ratio);
    if ratio < higher {
      assert price * (higher - ratio) > 0.0;
    } else {
      assert price * (ratio - higher) >= 0.0;
    }
  }

  /** The instalment is that share of the price: the whole of it for a ratio of 1, less for less, and more for more. */
  lemma RemainderBounds(price: real, ratio: real, higher: real)
    requires price > 0.0
    ensures RemainderOf(price, ratio) == price * ratio && RemainderOf(price, 1.0) == price
    ensures 0.0 < ratio < 1.0 <==> 0.0 < RemainderOf(price, ratio) < price
    ensures ratio < higher <==> RemainderOf(price, ratio) < RemainderOf(price, higher)
  {
    assert RemainderOf(price, 0.0) == 0.0;
    assert RemainderOf(price, 1.0) == price;
    RemainderGrows(price, 0.0, ratio);
    RemainderGrows(price, ratio, 1.0);
    RemainderGrows(price, ratio, higher);
  }

  /** Look up, then create deposit and balance in that order, stopping at the first failure. */
  function CreatePair(ps: Ledger, user: UserId, win: real, ratio: real): Ledger {
    var deposit := DepositOf(win, ratio);
    if HasSlot(ps, user) then ps
    else if !Insertable(ps, Slot(user, Deposit), deposit) then ps
    else Insert(Insert(ps, Slot(user, Deposit), deposit), Slot(user, Balance), win - deposit)
  }

  /** The pair stands complete: both rows, both positive, together the winning amount. */
  predicate FullPair(ps: Ledger, user: UserId, win: real) {
    && Slot(user, Deposit) in ps && Slot(user, Balance) in ps
    && ps[Slot(user, Deposit)].amount > 0.0 && ps[Slot(user, Balance)].amount > 0.0
    && ps[Slot(user, Deposit)].amount + ps[Slot(user, Balance)].amount == win
  }

  lemma DepositBounds(win: real, ratio: real)
    requires win > 0.0 && 0.0 < ratio < 1.0
    ensures 0.0 <= DepositOf(win, ratio) < win
    ensures DepositOf(win, ratio) > 0.0 <==> win * ratio >= 1.0
    ensures Whole(DepositOf(win, ratio)) && DepositOf(win, ratio) <= win * ratio < DepositOf(win, ratio) + 1.0
  {
    assert 0.0 < win * ratio < win;
  }

  /**
   Exactly when a winner gets a payable pair. A win amount whose deposit share is below 1 creates nothing at all; one
   that is not whole leaves a deposit without a balance.
   */
  lemma PairCreatedExactly(ps: Ledger, user: UserId, win: real, ratio: real)
    requires !HasSlot(ps, user) && win > 0.0 && 0.0 < ratio < 1.0
    ensures var after := CreatePair(ps, user, win, ratio);
      && (FullPair(after, user, win) <==> Whole(win) && win * ratio >= 1.0)
      && (after == ps <==> win * ratio < 1.0)
      && (HasSlot(after, user) <==> win * ratio >= 1.0)
      && (forall s :: s in after && s !in ps ==> s.user == user && after[s].status == Pending)
      && (forall s :: s in ps ==> s in after && after[s] == ps[s])
      && (HasSlot(after, user) ==> Slot(user, Deposit) in after && after[Slot(user, Deposit)].amount == DepositOf(win, ratio))
  {
    DepositBounds(win, ratio);
    var d := DepositOf(win, ratio);
    assert Whole(d);
    assert Whole(win - d) <==> Whole(win) by {
      WholeShift(win, (win * ratio).Floor);
    }
    if win * ratio >= 1.0 {
      assert Slot(user, Deposit) in CreatePair(ps, user, win, ratio);
    }
  }

  /** Running the creation again, for whatever amount was given the first time, changes nothing. */
  lemma CreationIsIdempotent(ps: Ledger, user: UserId, win: real, ratio: real)
    ensures CreatePair(CreatePair(ps, user, win, ratio), user, win, ratio) == CreatePair(ps, user, win, ratio)
  {
    var deposit := DepositOf(win, ratio);
    if !HasSlot(ps, user) && Insertable(ps, Slot(user, Deposit), deposit) {
      assert Slot(user, Deposit) in CreatePair(ps, user, win, ratio);
    }
  }

  lemma WholeShift(x: real, n: int)
    ensures Whole(x - n as real) <==> Whole(x)
  {
    assert (x - n as real).Floor == x.Floor - n;
  }

  // ----- settlement -----

  /** `declineAllPendingForAuctionUser`. */
  function DeclineAll(ps: Ledger, user: UserId): Ledger {
    map s | s in ps :: if s.user == user && ps[s].status == Pending then ps[s].(status := Declined) else ps[s]
  }

  /** The cleanup settles exactly one user: nothing of theirs stays pending, and nothing else moves. */
  lemma DeclineAllSettles(ps: Ledger, user: UserId)
    ensures var after := DeclineAll(ps, user);
      && after.Keys == ps.Keys
      && (forall s <- ps :: after[s].amount == ps[s].amount)
      && (forall s <- ps :: s.user == user ==> after[s].status != Pending)
      && (forall s <- ps :: after[s] != ps[s] <==> s.user == user && ps[s].status == Pending)
      && (forall s <- ps :: after[s] != ps[s] ==> after[s].status == Declined)
      && DeclineAll(after, user) == after
  {
  }
}
