/**
 The public fallback row of an auction and the rows of users who reacted to it
 (src/domain/entities/auction/public-fallback-auction.entity.ts,
 src/domain/entities/auction/public-auction-fallback-participants.entity.ts).
 */
module PublicOffers {

  datatype OfferStatus = OfferPending | Accepted | Rejected
  datatype OfferPayment = Unpaid | Paid

  datatype PublicOffer = PublicOffer(amount: real, status: OfferStatus, payment: OfferPayment)
  datatype OfferReply = OfferReply(status: OfferStatus, payment: OfferPayment)

  class PublicOfferEntity {
    const amount: real
    var status: OfferStatus
    var payment: OfferPayment

    constructor (row: PublicOffer)
      ensures Row() == row
    {
      amount, status, payment := row.amount, row.status, row.payment;
    }

    function Row(): PublicOffer
      reads this
    {
      PublicOffer(amount, status, payment)
    }

    /** One shot: only a pending payment status may change, and paying accepts the offer. */
    method SetPaymentStatus(to: OfferPayment) returns (ok: bool)
      modifies this
      ensures ok <==> old(payment) == Unpaid
      ensures Row() == if ok then PublicOffer(amount, if to == Paid then Accepted else old(status), to) else old(Row())
    {
      if payment != Unpaid {
        return false;
      }
      if to == Paid {
        status := Accepted;
      }
      payment := to;
      return true;
    }
  }

  class OfferReplyEntity {
    const status: OfferStatus
    var payment: OfferPayment

    constructor (row: OfferReply)
      ensures Row() == row
    {
      status, payment := row.status, row.payment;
    }

    function Row(): OfferReply
      reads this
    {
      OfferReply(status, payment)
    }

    method SetPaymentStatus(to: OfferPayment) returns (ok: bool)
      modifies this
      ensures ok <==> old(payment) == Unpaid
      ensures Row() == if ok then old(Row()).(payment := to) else old(Row())
    {
      if payment != Unpaid {
        return false;
      }
      payment := to;
      return true;
    }
  }
}
