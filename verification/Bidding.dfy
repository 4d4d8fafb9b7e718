/** Placing one bid: the policy, the anti-snipe extension, and what the bid history then keeps. */
module Bidding {
  import opened Basics
  import opened Auctions

  /** Encryption as an ideal cipher: decrypting what was encrypted gives it back, anything else fails. */
  datatype Cipher = Encrypted(plain: real) | Corrupt

  /** A stored bid. A sealed bid keeps its amount in the cipher and stores 0 in the open. */
  datatype Bid = Bid(user: UserId, amount: real, cipher: Option<Cipher>, createdAt: int)

  /** What one auction's bidding reads and writes; `paid` are the users with a paid participant row. */
  datatype Book = Book(auction: Auction, bids: seq<Bid>, paid: set<UserId>)

  datatype Verdict =
    | Allowed | NotActive | NotStarted | AlreadyEnded | SellerCannotBid
    | CoolingDown | BelowMinimum | OnlyOneSealedBid

  // ----- repository reads -----

  /** The bid `findLatestByAuctionId` returns: one of highest amount. */
  function HighestBid(bids: seq<Bid>): (r: Option<Bid>)
    ensures r.None? <==> bids == []
    ensures r.Some? ==> r.value in bids && forall b <- bids :: b.amount <= r.value.amount
  {
    if bids == [] then
      None
    else
      assert bids == Init(bids) + [Last(bids)];
      var h := HighestBid(Init(bids));
      if h.None? || Last(bids).amount >= h.value.amount then Some(Last(bids)) else h
  }

  /** The bid `findLastBidsByUser` returns: the user's newest. */
  function NewestBidOf(bids: seq<Bid>, user: UserId): (r: Option<Bid>)
    ensures r.None? <==> forall b <- bids :: b.user != user
    ensures r.Some? ==> r.value in bids && r.value.user == user
  {
    if bids == [] then
      None
    else
      assert bids == Init(bids) + [Last(bids)];
      if Last(bids).user == user then Some(Last(bids)) else NewestBidOf(Init(bids), user)
  }

  // ----- the decision -----

  function CanPlaceBid(a: Auction, user: UserId, amount: real,
                       latest: Option<Bid>, mine: Option<Bid>, now: int): Verdict
  {
    if a.status != Active then NotActive
    else if a.startAt > now then NotStarted
    else if a.endAt <= now then AlreadyEnded
    else if a.seller == user then SellerCannotBid
    else if mine.Some? && now - mine.value.createdAt < a.bidCooldownSeconds * SECOND then CoolingDown
    else if a.kind != Sealed && amount < (if latest.Some? then latest.value.amount else 0.0) + a.minIncrement
      then BelowMinimum
    else if a.kind == Sealed && mine.Some? && mine.value.user == user then OnlyOneSealedBid
    else Allowed
  }

  predicate ShouldExtend(a: Auction, remaining: int) {
    && a.kind == Long
    && a.antiSnipSeconds * SECOND > 0
    && 0 < remaining <= a.antiSnipSeconds * SECOND
    && a.extensionCount < a.maxExtensionCount
  }

  function Extended(a: Auction): Auction {
    a.(endAt := a.endAt + a.antiSnipSeconds * SECOND, extensionCount := a.extensionCount + 1)
  }

  /** The auction a bid accepted at `now` leaves behind. */
  function AfterBid(a: Auction, now: int): Auction {
    if ShouldExtend(a, a.endAt - now) then Extended(a) else a
  }

  function NewBid(a: Auction, user: UserId, amount: real, now: int): Bid {
    if a.kind == Sealed
    then Bid(user, 0.0, Some(Encrypted(amount)), now)
    else Bid(user, amount, None, now)
  }

  /** Does a request (its amount already validated as positive) end in a stored bid? */
  predicate Accepts(b: Book, user: UserId, amount: real, now: int) {
    && amount > 0.0
    && user in b.paid
    && CanPlaceBid(b.auction, user, amount, HighestBid(b.bids), NewestBidOf(b.bids, user), now) == Allowed
    && Creatable(AfterBid(b.auction, now))
  }

  /** One `PlaceBid` request run to completion. */
  function PlaceBid(b: Book, user: UserId, amount: real, now: int): Book {
    if Accepts(b, user, amount, now)
    then Book(AfterBid(b.auction, now), b.bids + [NewBid(b.auction, user, amount, now)], b.paid)
    else b
  }

  // ----- what a history of accepted bids looks like -----

  /** The amount a bid is worth: the opened cipher of a sealed bid, the stored amount otherwise. */
  function Worth(kind: Kind, bid: Bid): real {
    if kind != Sealed then bid.amount
    else if bid.cipher.Some? && bid.cipher.value.Encrypted? then bid.cipher.value.plain
    else 0.0
  }

  predicate WellFormed(kind: Kind, bid: Bid) {
    && Worth(kind, bid) > 0.0
    && (if kind == Sealed then bid.cipher.Some? && bid.cipher.value.Encrypted? && bid.amount == 0.0 else bid.cipher.None?)
  }

  /** Who bid and when: paid participants other than the seller, while the auction was open. */
  predicate Placed(b: Book) {
    forall i :: 0 <= i < |b.bids| ==>
      && WellFormed(b.auction.kind, b.bids[i])
      && b.bids[i].user in b.paid
      && b.bids[i].user != b.auction.seller
      && b.auction.startAt <= b.bids[i].createdAt < b.auction.endAt
  }

  predicate InOrder(bids: seq<Bid>, now: int) {
    && (forall i, j :: 0 <= i < j < |bids| ==> bids[i].createdAt <= bids[j].createdAt)
    && (forall i :: 0 <= i < |bids| ==> bids[i].createdAt <= now)
  }

  /** Every open bid tops each earlier one by the minimum increment. */
  predicate Raises(kind: Kind, minIncrement: real, bids: seq<Bid>) {
    kind != Sealed ==>
      && (bids != [] ==> bids[0].amount >= minIncrement)
      && (forall i, j :: 0 <= i < j < |bids| ==> bids[j].amount >= bids[i].amount + minIncrement)
  }

  predicate Spaced(gap: int, bids: seq<Bid>) {
    forall i, j :: 0 <= i < j < |bids| && bids[i].user == bids[j].user ==>
      bids[j].createdAt - bids[i].createdAt >= gap
  }

  predicate OneEach(kind: Kind, bids: seq<Bid>) {
    kind == Sealed ==> forall i, j :: 0 <= i < j < |bids| ==> bids[i].user != bids[j].user
  }

  /** The invariant of a book at time `now`. */
  predicate Sound(b: Book, now: int) {
    && Creatable(b.auction)
    && Placed(b)
    && InOrder(b.bids, now)
    && Raises(b.auction.kind, b.auction.minIncrement, b.bids)
    && Spaced(b.auction.bidCooldownSeconds * SECOND, b.bids)
    && OneEach(b.auction.kind, b.bids)
  }

  /** What a bid must satisfy, whatever happened to the status since it was validated. */
  predicate Fits(b: Book, bid: Bid, now: int) {
    var a := b.auction;
    && WellFormed(a.kind, bid)
    && bid.user in b.paid && bid.user != a.seller
    && a.startAt <= bid.createdAt < a.endAt && bid.createdAt <= now
    && (forall i :: 0 <= i < |b.bids| ==> b.bids[i].createdAt <= bid.createdAt)
    && (a.kind != Sealed ==>
          bid.amount >= a.minIncrement && forall i :: 0 <= i < |b.bids| ==> bid.amount >= b.bids[i].amount + a.minIncrement)
    && (forall i :: 0 <= i < |b.bids| && b.bids[i].user == bid.user ==>
          bid.createdAt - b.bids[i].createdAt >= a.bidCooldownSeconds * SECOND)
    && (a.kind == Sealed ==> forall i :: 0 <= i < |b.bids| ==> b.bids[i].user != bid.user)
  }

  /** The newest bid by list position is the newest by time. */
  lemma {:induction false} NewestIsLatest(bids: seq<Bid>, user: UserId, now: int)
    requires InOrder(bids, now)
    ensures forall i :: 0 <= i < |bids| && bids[i].user == user ==>
      NewestBidOf(bids, user).Some? && bids[i].createdAt <= NewestBidOf(bids, user).value.createdAt
  {
    if bids != [] && Last(bids).user != user {
      NewestIsLatest(Init(bids), user, now);
      forall i | 0 <= i < |bids| && bids[i].user == user
        ensures NewestBidOf(bids, user).Some? && bids[i].createdAt <= NewestBidOf(bids, user).value.createdAt
      {
        assert Init(bids)[i] == bids[i];
      }
    }
  }

  /** The policy's two lookups are enough: an allowed bid relates as it should to EVERY stored bid. */
  lemma AllowedFits(b: Book, user: UserId, amount: real, now: int)
    requires Sound(b, now) && Accepts(b, user, amount, now)
    ensures Fits(b, NewBid(b.auction, user, amount, now), now)
  {
    NewestIsLatest(b.bids, user, now);
    var bid := NewBid(b.auction, user, amount, now);
    assert forall i :: 0 <= i < |b.bids| ==> b.bids[i] in b.bids;
    if b.auction.kind != Sealed && b.bids == [] {
      assert bid.amount >= b.auction.minIncrement;
    } else if b.auction.kind != Sealed {
      assert b.bids[0].amount >= b.auction.minIncrement;
      assert 0.0 < Worth(b.auction.kind, b.bids[0]) == b.bids[0].amount;
    }
  }

  /** And conversely: the policy lets through a bid that fits every stored bid while the auction is active. */
  lemma FittingIsAllowed(b: Book, user: UserId, amount: real, now: int)
    requires b.auction.status == Active && Fits(b, NewBid(b.auction, user, amount, now), now)
    ensures CanPlaceBid(b.auction, user, amount, HighestBid(b.bids), NewestBidOf(b.bids, user), now) == Allowed
  {
    var latest, mine := HighestBid(b.bids), NewestBidOf(b.bids, user);
    assert latest.Some? && b.auction.kind != Sealed ==> amount >= latest.value.amount + b.auction.minIncrement by {
      if latest.Some? {
        var i :| 0 <= i < |b.bids| && b.bids[i] == latest.value;
      }
    }
    if mine.Some? {
      var j :| 0 <= j < |b.bids| && b.bids[j] == mine.value;
    }
  }

  /**
   The policy decides exactly: looking only at the highest bid and the user's newest one, it accepts a bid if and only
   if the auction is active and the bid relates as it should to every bid ever stored.
   */
  lemma AcceptedIffFits(b: Book, user: UserId, amount: real, now: int)
    requires Sound(b, now)
    ensures Accepts(b, user, amount, now) <==>
      b.auction.status == Active && Fits(b, NewBid(b.auction, user, amount, now), now)
  {
    if Accepts(b, user, amount, now) {
      AllowedFits(b, user, amount, now);
    } else if b.auction.status == Active && Fits(b, NewBid(b.auction, user, amount, now), now) {
      FittingIsAllowed(b, user, amount, now);
    }
  }

  /** Appending a fitting bid, under a later or equal end time, keeps the book sound. */
  lemma AppendKeepsSound(b: Book, a: Auction, bid: Bid, now: int)
    requires Sound(b, now) && Fits(b, bid, now) && Creatable(a)
    requires Terms(a).(endAt := 0, extensionCount := 0) == Terms(b.auction).(endAt := 0, extensionCount := 0)
    requires a.endAt >= b.auction.endAt
    ensures Sound(Book(a, b.bids + [bid], b.paid), now)
  {
    SameTerms(a, b.auction);
  }

  lemma SameTerms(a: Auction, c: Auction)
    requires Terms(a).(endAt := 0, extensionCount := 0) == Terms(c).(endAt := 0, extensionCount := 0)
    ensures a.kind == c.kind && a.seller == c.seller && a.minIncrement == c.minIncrement && a.startAt == c.startAt
    ensures a.bidCooldownSeconds == c.bidCooldownSeconds && a.antiSnipSeconds == c.antiSnipSeconds
    ensures a.maxExtensionCount == c.maxExtensionCount && a.startPrice == c.startPrice
  {
    assert Terms(a).(endAt := 0, extensionCount := 0).kind == a.kind;
    assert Terms(c).(endAt := 0, extensionCount := 0).kind == c.kind;
  }

  /** A book stays sound, and a bid keeps fitting, when only status, clock or participants move. */
  lemma Drift(b: Book, c: Book, now: int, later: int)
    requires now <= later && b.bids == c.bids && b.paid <= c.paid && Terms(b.auction) == Terms(c.auction)
    ensures Sound(b, now) ==> Sound(c, later)
    ensures forall bid :: Fits(b, bid, now) ==> Fits(c, bid, later)
  {
    assert forall x: Auction :: Terms(x).kind == x.kind && Terms(x).seller == x.seller && Terms(x).endAt == x.endAt;
    TermsAgree(b.auction, c.auction);
  }

  lemma TermsAgree(a: Auction, c: Auction)
    requires Terms(a) == Terms(c)
    ensures c == a.(status := c.status, winnerId := c.winnerId, winAmount := c.winAmount)
  {
    assert c == Terms(c).(status := c.status, winnerId := c.winnerId, winAmount := c.winAmount);
    assert a == Terms(a).(status := a.status, winnerId := a.winnerId, winAmount := a.winAmount);
  }

  /** The row holds what was asked: the user, the time, and the amount, in the open or under the cipher. */
  predicate Records(kind: Kind, row: Bid, user: UserId, amount: real, now: int) {
    && row.user == user && row.createdAt == now
    && (if kind == Sealed then row.amount == 0.0 && row.cipher == Some(Encrypted(amount))
        else row.amount == amount && row.cipher == None)
  }

  /** An accepted request appends one row that records it and opens at the amount asked; any other changes nothing. */
  lemma AcceptedBidIsRecorded(b: Book, user: UserId, amount: real, now: int)
    ensures var c := PlaceBid(b, user, amount, now);
      if Accepts(b, user, amount, now) then
        && |c.bids| == |b.bids| + 1 && c.bids[..|b.bids|] == b.bids && c.paid == b.paid
        && Records(b.auction.kind, Last(c.bids), user, amount, now) && Worth(b.auction.kind, Last(c.bids)) == amount
        && c.auction == b.auction.(endAt := c.auction.endAt, extensionCount := c.auction.extensionCount)
      else
        c == b
  {
  }

  lemma PlaceBidKeepsSound(b: Book, user: UserId, amount: real, now: int)
    requires Sound(b, now)
    ensures Sound(PlaceBid(b, user, amount, now), now)
  {
    if Accepts(b, user, amount, now) {
      AllowedFits(b, user, amount, now);
      AppendKeepsSound(b, AfterBid(b.auction, now), NewBid(b.auction, user, amount, now), now);
    }
  }

  // ----- the end time -----

  /** The rules of the auction, everything bidding never changes. */
  predicate SameRules(a: Auction, c: Auction) {
    && a.seller == c.seller && a.kind == c.kind && a.startPrice == c.startPrice && a.minIncrement == c.minIncrement
    && a.startAt == c.startAt && a.antiSnipSeconds == c.antiSnipSeconds
    && a.maxExtensionCount == c.maxExtensionCount && a.bidCooldownSeconds == c.bidCooldownSeconds
  }

  /** The end time before any extension. */
  function BaseEnd(a: Auction): int {
    a.endAt - a.extensionCount * (a.antiSnipSeconds * SECOND)
  }

  /** The end time no extension can pass: each remaining extension adds one anti-snipe window. */
  function Deadline(a: Auction): int {
    a.endAt + (a.maxExtensionCount - a.extensionCount) * Max(0, a.antiSnipSeconds * SECOND)
  }

  /**
   An extension leaves the base end time alone and never moves the end back. It happens only inside the window, and
   afterwards more than the window is left, unless the extensions are used up.
   */
  lemma ExtensionKeepsDeadline(a: Auction, now: int)
    requires Creatable(a)
    ensures var a' := AfterBid(a, now);
      && Creatable(a')
      && BaseEnd(a') == BaseEnd(a) && Deadline(a') == Deadline(a)
      && a'.endAt >= a.endAt
      && (a' != a ==> a.kind == Long && a.endAt - now <= a.antiSnipSeconds * SECOND < a'.endAt - now)
      && (a.kind == Long && now < a.endAt ==>
            a'.endAt - now > a.antiSnipSeconds * SECOND || a'.extensionCount == a.maxExtensionCount)
  {
    var w := a.antiSnipSeconds * SECOND;
    assert (a.extensionCount + 1) * w == a.extensionCount * w + w;
    var left := a.maxExtensionCount - a.extensionCount;
    assert (left - 1) * w == left * w - w;
  }

  lemma EndBeforeDeadline(a: Auction)
    requires Creatable(a)
    ensures a.endAt <= Deadline(a)
  {
    assert (a.maxExtensionCount - a.extensionCount) * Max(0, a.antiSnipSeconds * SECOND) >= 0;
  }

  // ----- consequences for whole histories -----

  /** The n-th accepted open bid is worth at least n minimum increments. */
  lemma {:induction false} NthBidAtLeast(b: Book, now: int, n: nat)
    requires Sound(b, now) && b.auction.kind != Sealed && n < |b.bids|
    ensures b.bids[n].amount >= (n + 1) as real * b.auction.minIncrement
  {
    if n > 0 {
      NthBidAtLeast(b, now, n - 1);
      assert (n + 1) as real * b.auction.minIncrement == n as real * b.auction.minIncrement + b.auction.minIncrement;
    }
  }

  /** The times of one user's bids, oldest first. */
  function TimesOf(bids: seq<Bid>, user: UserId): seq<int> {
    if bids == [] then []
    else TimesOf(Init(bids), user) + (if Last(bids).user == user then [Last(bids).createdAt] else [])
  }

  lemma {:induction false} TimesAreSpaced(bids: seq<Bid>, user: UserId, gap: int, from: int, to: int)
    requires Spaced(gap, bids)
    requires forall i :: 0 <= i < |bids| ==> from <= bids[i].createdAt < to
    ensures forall t <- TimesOf(bids, user) :: from <= t < to && exists i :: 0 <= i < |bids| && bids[i].user == user && bids[i].createdAt == t
    ensures forall i :: 0 < i < |TimesOf(bids, user)| ==> TimesOf(bids, user)[i] - TimesOf(bids, user)[i - 1] >= gap
  {
    if bids != [] {
      TimesAreSpaced(Init(bids), user, gap, from, to);
      var before := TimesOf(Init(bids), user);
      forall t | t in TimesOf(bids, user)
        ensures from <= t < to && exists i :: 0 <= i < |bids| && bids[i].user == user && bids[i].createdAt == t
      {
        if t in before {
          var i :| 0 <= i < |Init(bids)| && Init(bids)[i].user == user && Init(bids)[i].createdAt == t;
          assert bids[i].user == user && bids[i].createdAt == t;
        } else {
          assert bids[|bids| - 1].createdAt == t;
        }
      }
      if Last(bids).user == user && before != [] {
        assert Last(before) in before;
        var i :| 0 <= i < |Init(bids)| && Init(bids)[i].user == user && Init(bids)[i].createdAt == Last(before);
        assert bids[i].user == bids[|bids| - 1].user;
      }
    }
  }

  lemma {:induction false} GapsAddUp(ts: seq<int>, gap: int)
    requires ts != [] && forall i :: 0 < i < |ts| ==> ts[i] - ts[i - 1] >= gap
    ensures Last(ts) - ts[0] >= (|ts| - 1) * gap
  {
    if |ts| > 1 {
      GapsAddUp(Init(ts), gap);
      assert (|ts| - 1) * gap == (|ts| - 2) * gap + gap;
    }
  }

  /** The cooldown bounds how often one user can bid before the hard deadline. */
  lemma CooldownBoundsBids(b: Book, user: UserId, now: int)
    requires Sound(b, now)
    ensures var n := |TimesOf(b.bids, user)|;
      n > 0 ==> (n - 1) * (b.auction.bidCooldownSeconds * SECOND) < Deadline(b.auction) - b.auction.startAt
  {
    var a := b.auction;
    var ts := TimesOf(b.bids, user);
    if ts != [] {
      TimesAreSpaced(b.bids, user, a.bidCooldownSeconds * SECOND, a.startAt, a.endAt);
      GapsAddUp(ts, a.bidCooldownSeconds * SECOND);
      EndBeforeDeadline(a);
      assert ts[0] in ts && Last(ts) in ts;
    }
  }
}
