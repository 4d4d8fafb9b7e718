/** The auction record and its entity (src/domain/entities/auction/auction.entity.ts). */
module Auctions {
  import opened Basics

  datatype Status =
    | Draft | Active | Paused | Ended | Sold | Cancelled
    | FallbackEnded | Failed | FallbackPublicNotification

  datatype Kind = Long | Live | Sealed

  /** One auction row; title, description, category and assets carry no behaviour here. */
  datatype Auction = Auction(
    seller: UserId,
    kind: Kind,
    startPrice: real,
    minIncrement: real,
    startAt: int,
    endAt: int,
    status: Status,
    antiSnipSeconds: int,
    extensionCount: int,
    maxExtensionCount: int,
    bidCooldownSeconds: int,
    winnerId: Option<UserId>,
    winAmount: Option<real>)

  /** What `Auction.create` demands of every record that is built or read back. */
  predicate Creatable(a: Auction) {
    && a.extensionCount <= a.maxExtensionCount
    && (a.kind == Long ==> a.minIncrement >= 1.0)
  }

  /** The guard of `setStatus`. */
  predicate MaySetStatus(from: Status, to: Status) {
    && (from == Ended ==> to == FallbackEnded)
    && (from == FallbackEnded ==> to == Failed || to == FallbackPublicNotification)
  }

  /** The guard of `setWinner`. */
  predicate MaySetWinner(a: Auction, amount: real) {
    a.status != Sold && amount >= a.startPrice
  }

  /** The fields no status change or sale touches. */
  function Terms(a: Auction): Auction {
    a.(status := Draft, winnerId := None, winAmount := None)
  }

  /** Statuses an auction never leaves for a biddable one. */
  predicate Closed(s: Status) {
    s in {Ended, FallbackEnded, FallbackPublicNotification, Sold, Failed}
  }

  /** The in-memory entity a use case loads from a row, changes, and saves back. */
  class AuctionEntity {
    const loaded: Auction
    var status: Status
    var winnerId: Option<UserId>
    var winAmount: Option<real>

    constructor (row: Auction)
      ensures loaded == row && Row() == row
    {
      loaded := row;
      status, winnerId, winAmount := row.status, row.winnerId, row.winAmount;
    }

    function Row(): Auction
      reads this
    {
      loaded.(status := status, winnerId := winnerId, winAmount := winAmount)
    }

    method SetStatus(to: Status) returns (ok: bool)
      modifies this`status
      ensures ok == MaySetStatus(old(status), to)
      ensures Row() == if ok then old(Row()).(status := to) else old(Row())
    {
      if status == Ended && to != FallbackEnded {
        return false;
      }
      if status == FallbackEnded && to !in {Failed, FallbackPublicNotification} {
        return false;
      }
      status := to;
      return true;
    }

    method SetWinner(user: UserId, amount: real) returns (ok: bool)
      modifies this`winnerId, this`winAmount
      ensures ok == MaySetWinner(old(Row()), amount)
      ensures Row() == if ok then old(Row()).(winnerId := Some(user), winAmount := Some(amount)) else old(Row())
    {
      if status == Sold {
        return false;
      }
      if amount < loaded.startPrice {
        return false;
      }
      winnerId, winAmount := Some(user), Some(amount);
      return true;
    }
  }
}
