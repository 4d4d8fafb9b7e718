/**
 The three winner selections of the source, each tied to the leaderboard of module Ranking:
 src/application/strategies/auction/long-auction-winner.strategy.ts,
 src/application/strategies/auction/sealed-auction-winner.strategy.ts and
 src/application/strategies/auction/getFallBackAuctionWinnerStartegy.ts.
 */
module WinnerSelection {
  import opened Basics
  import opened Auctions
  import opened Bidding
  import opened Ranking

  datatype Pick = Failure | NoWinner | Winner(user: UserId, amount: real)

  /** `findAllByAuctionId` lists the newest bid first. */
  function Listing(bids: seq<Bid>): seq<Bid> {
    Reverse(bids)
  }

  /** The offers in a listing; a sealed auction counts only bids it can open. */
  function Entries(kind: Kind, bids: seq<Bid>): seq<Entry> {
    if bids == [] then []
    else
      var rest := Entries(kind, Init(bids));
      var b := Last(bids);
      if kind != Sealed then rest + [Entry(b.user, b.amount)]
      else if b.cipher.Some? && b.cipher.value.Encrypted? then rest + [Entry(b.user, b.cipher.value.plain)]
      else rest
  }

  // ----- open auctions -----

  function ReduceBids(bids: seq<Bid>): Bid
    requires bids != []
  {
    if |bids| == 1 then bids[0]
    else
      var best := ReduceBids(Init(bids));
      if Last(bids).amount > best.amount then Last(bids) else best
  }

  function OpenPick(bids: seq<Bid>): Pick {
    if bids == [] then NoWinner else Winner(ReduceBids(bids).user, ReduceBids(bids).amount)
  }

  lemma {:induction false} ReduceIsLeader(kind: Kind, bids: seq<Bid>)
    requires bids != [] && kind != Sealed
    ensures Entries(kind, bids) != []
    ensures Entry(ReduceBids(bids).user, ReduceBids(bids).amount) == Leader(Entries(kind, bids))
  {
    if |bids| == 1 {
      assert Entries(kind, Init(bids)) == [];
    } else {
      ReduceIsLeader(kind, Init(bids));
      var rest := Entries(kind, Init(bids));
      assert Init(rest + [Entry(Last(bids).user, Last(bids).amount)]) == rest;
    }
  }

  // ----- sealed auctions -----

  datatype Scan = Broken | At(max: real, winner: Option<UserId>)

  function ScanSealed(bids: seq<Bid>): Scan {
    if bids == [] then At(0.0, None)
    else
      match ScanSealed(Init(bids))
      case Broken => Broken
      case At(max, winner) =>
        match Last(bids).cipher
        case None => At(max, winner)
        case Some(Corrupt) => Broken
        case Some(Encrypted(x)) => if x > max then At(x, Some(Last(bids).user)) else At(max, winner)
  }

  function SealedPick(bids: seq<Bid>): Pick {
    match ScanSealed(bids)
    case Broken => Failure
    case At(_, None) => NoWinner
    case At(max, Some(u)) => Winner(u, max)
  }

  /** The decrypting loop, with its early return on a bid that cannot be opened. */
  method ResolveSealed(bids: seq<Bid>) returns (pick: Pick)
    ensures pick == SealedPick(bids)
  {
    var maxBidAmount := 0.0;
    var winnerId: Option<UserId> := None;
    var i := 0;
    while i < |bids|
      invariant 0 <= i <= |bids|
      invariant ScanSealed(bids[..i]) == At(maxBidAmount, winnerId)
    {
      assert Init(bids[..i + 1]) == bids[..i];
      var encrypted := bids[i].cipher;
      i := i + 1;
      if encrypted.None? {
        continue;
      }
      if encrypted.value.Corrupt? {
        BrokenStaysBroken(bids, i);
        return Failure;
      }
      var amount := encrypted.value.plain;
      if amount > maxBidAmount {
        maxBidAmount, winnerId := amount, Some(bids[i - 1].user);
      }
    }
    assert bids[..|bids|] == bids;
    pick := if winnerId.None? then NoWinner else Winner(winnerId.value, maxBidAmount);
  }

  lemma {:induction false} BrokenStaysBroken(bids: seq<Bid>, i: nat)
    requires i <= |bids| && ScanSealed(bids[..i]) == Broken
    ensures ScanSealed(bids) == Broken
    decreases |bids|
  {
    if i == |bids| {
      assert bids[..i] == bids;
    } else {
      assert Init(bids)[..i] == bids[..i];
      BrokenStaysBroken(Init(bids), i);
    }
  }

  /**
   What the loop computes: it fails exactly on a bid that cannot be opened; otherwise it finds nobody exactly when no
   opened amount is positive, and else the leader of the opened amounts.
   */
  lemma {:induction false} SealedPickMeaning(bids: seq<Bid>)
    ensures var es := Entries(Sealed, bids);
      && (ScanSealed(bids) == Broken <==> exists b <- bids :: b.cipher == Some(Corrupt))
      && (ScanSealed(bids).At? ==> ScanSealed(bids).max >= 0.0)
      && (ScanSealed(bids).At? && ScanSealed(bids).winner.None? ==> ScanSealed(bids).max == 0.0 && (es != [] ==> Leader(es).amount <= 0.0))
      && (ScanSealed(bids).At? && ScanSealed(bids).winner.Some? ==>
            es != [] && Leader(es) == Entry(ScanSealed(bids).winner.value, ScanSealed(bids).max) && Leader(es).amount > 0.0)
  {
    if bids != [] {
      SealedPickMeaning(Init(bids));
      assert bids == Init(bids) + [Last(bids)];
      var rest := Entries(Sealed, Init(bids));
      if Last(bids).cipher.Some? && Last(bids).cipher.value.Encrypted? {
        assert Init(rest + [Entry(Last(bids).user, Last(bids).cipher.value.plain)]) == rest;
      }
    }
  }

  // ----- the first winner -----

  function FirstPick(kind: Kind, bids: seq<Bid>): Pick {
    if kind == Sealed then SealedPick(bids) else OpenPick(bids)
  }

  predicate AllWellFormed(kind: Kind, bids: seq<Bid>) {
    forall b <- bids :: WellFormed(kind, b)
  }

  lemma {:induction false} EntriesOfWellFormed(kind: Kind, bids: seq<Bid>)
    requires AllWellFormed(kind, bids)
    ensures |Entries(kind, bids)| == |bids|
    ensures forall i :: 0 <= i < |bids| ==> Entries(kind, bids)[i] == Entry(bids[i].user, Worth(kind, bids[i]))
  {
    if bids != [] {
      assert bids == Init(bids) + [Last(bids)];
      EntriesOfWellFormed(kind, Init(bids));
      assert Last(bids) in bids;
    }
  }

  /** Over well-formed bids both selections elect the leader of the leaderboard, and elect somebody if anybody bid. */
  lemma FirstPickIsLeader(kind: Kind, bids: seq<Bid>)
    requires AllWellFormed(kind, bids)
    ensures bids == [] ==> FirstPick(kind, bids) == NoWinner
    ensures bids != [] ==> Entries(kind, bids) != [] && Leader(Entries(kind, bids)).amount > 0.0
    ensures bids != [] ==>
      FirstPick(kind, bids) == Winner(Leader(Entries(kind, bids)).user, Leader(Entries(kind, bids)).amount)
  {
    if bids != [] {
      var es := Entries(kind, bids);
      EntriesOfWellFormed(kind, bids);
      LeaderIsFirstMax(es);
      var i :| 0 <= i < |es| && es[i] == Leader(es);
      assert bids[i] in bids;
      if kind == Sealed {
        SealedPickMeaning(bids);
      } else {
        ReduceIsLeader(kind, bids);
      }
    }
  }

  /** Every other bid of the last bid's amount is the last bidder's own. */
  predicate LastUntied(bids: seq<Bid>)
    requires bids != []
  {
    forall i :: 0 <= i < |bids| && bids[i].amount == Last(bids).amount ==> bids[i].user == Last(bids).user
  }

  ghost predicate LastAlwaysWins(bids: seq<Bid>)
    requires bids != []
  {
    forall listed: seq<Bid> :: multiset(listed) == multiset(bids) ==>
      OpenPick(listed) == Winner(Last(bids).user, Last(bids).amount)
  }

  lemma SameBids(a: seq<Bid>, b: seq<Bid>)
    requires multiset(a) == multiset(b)
    ensures |a| == |b| && forall x :: x in a <==> x in b
  {
    assert |a| == |multiset(a)| && |b| == |multiset(b)|;
    assert forall x :: x in a <==> x in multiset(a);
    assert forall x :: x in b <==> x in multiset(b);
  }

  lemma LastIsMax(b: Book, now: int)
    requires Sound(b, now) && b.auction.kind != Sealed && b.auction.minIncrement >= 0.0 && b.bids != []
    ensures forall x <- b.bids :: x.amount <= Last(b.bids).amount
  {
    forall x | x in b.bids ensures x.amount <= Last(b.bids).amount {
      var i :| 0 <= i < |b.bids| && b.bids[i] == x;
      assert i < |b.bids| - 1 ==> Last(b.bids).amount >= b.bids[i].amount + b.auction.minIncrement;
    }
  }

  lemma {:induction false} FirstMaxStays(bids: seq<Bid>)
    requires bids != [] && forall x <- bids :: x.amount <= bids[0].amount
    ensures ReduceBids(bids) == bids[0]
  {
    if |bids| > 1 {
      assert bids == Init(bids) + [Last(bids)];
      FirstMaxStays(Init(bids));
    }
  }

  lemma UntiedLastWins(b: Book, now: int, listed: seq<Bid>)
    requires Sound(b, now) && b.auction.kind != Sealed && b.auction.minIncrement >= 0.0 && b.bids != []
    requires LastUntied(b.bids) && multiset(listed) == multiset(b.bids)
    ensures OpenPick(listed) == Winner(Last(b.bids).user, Last(b.bids).amount)
  {
    SameBids(listed, b.bids);
    LastIsMax(b, now);
    ReduceIsMax(listed);
    assert Last(b.bids) in listed;
    var i :| 0 <= i < |b.bids| && b.bids[i] == ReduceBids(listed);
  }

  lemma TiedLastLoses(b: Book, now: int, i: nat) returns (listed: seq<Bid>)
    requires Sound(b, now) && b.auction.kind != Sealed && b.auction.minIncrement >= 0.0 && b.bids != []
    requires i < |b.bids| && b.bids[i].amount == Last(b.bids).amount && b.bids[i].user != Last(b.bids).user
    ensures multiset(listed) == multiset(b.bids) && OpenPick(listed) != Winner(Last(b.bids).user, Last(b.bids).amount)
  {
    listed := [b.bids[i]] + b.bids[..i] + b.bids[i + 1..];
    assert b.bids == b.bids[..i] + [b.bids[i]] + b.bids[i + 1..];
    SameBids(listed, b.bids);
    LastIsMax(b, now);
    FirstMaxStays(listed);
  }

  /**
   LONG and LIVE auctions, which share the selection: the last bidder wins in whatever order the repository lists the
   bids, if and only if nobody else has offered as much.
   */
  lemma LastWinsIffUntied(b: Book, now: int)
    requires Sound(b, now) && b.auction.kind != Sealed && b.auction.minIncrement >= 0.0 && b.bids != []
    ensures LastAlwaysWins(b.bids) <==> LastUntied(b.bids)
  {
    if LastUntied(b.bids) {
      forall listed: seq<Bid> | multiset(listed) == multiset(b.bids)
        ensures OpenPick(listed) == Winner(Last(b.bids).user, Last(b.bids).amount)
      {
        UntiedLastWins(b, now, listed);
      }
    } else {
      var i :| 0 <= i < |b.bids| && b.bids[i].amount == Last(b.bids).amount && b.bids[i].user != Last(b.bids).user;
      var listed := TiedLastLoses(b, now, i);
    }
  }

  /** With a positive increment, which every LONG auction has, nobody ever ties the last bid. */
  lemma OpenWinnerIsLastBid(b: Book, now: int, listed: seq<Bid>)
    requires Sound(b, now) && b.auction.kind != Sealed && b.auction.minIncrement > 0.0 && b.bids != []
    requires multiset(listed) == multiset(b.bids)
    ensures OpenPick(listed) == Winner(Last(b.bids).user, Last(b.bids).amount)
  {
    assert LastUntied(b.bids) by {
      assert forall j :: 0 <= j < |b.bids| - 1 ==> b.bids[j].amount < Last(b.bids).amount;
    }
    UntiedLastWins(b, now, listed);
  }

  lemma {:induction false} ReduceIsMax(bids: seq<Bid>)
    requires bids != []
    ensures ReduceBids(bids) in bids && forall x <- bids :: x.amount <= ReduceBids(bids).amount
  {
    if |bids| > 1 {
      ReduceIsMax(Init(bids));
      assert bids == Init(bids) + [Last(bids)];
    }
  }

  lemma {:induction false} ListingIsPermutation(bids: seq<Bid>)
    ensures multiset(Listing(bids)) == multiset(bids)
  {
    if bids != [] {
      ListingIsPermutation(Init(bids));
      assert bids == Init(bids) + [Last(bids)];
      assert Listing(bids) == [Last(bids)] + Listing(Init(bids));
    }
  }

  /** The newest of the bids worth most. */
  predicate NewestMax(kind: Kind, bids: seq<Bid>, i: nat) {
    && i < |bids|
    && (forall j :: 0 <= j < |bids| ==> Worth(kind, bids[j]) <= Worth(kind, bids[i]))
    && (forall j :: i < j < |bids| ==> Worth(kind, bids[j]) < Worth(kind, bids[i]))
  }

  lemma ListingEntries(kind: Kind, bids: seq<Bid>)
    requires AllWellFormed(kind, Listing(bids))
    ensures |Entries(kind, Listing(bids))| == |bids|
    ensures forall j :: 0 <= j < |bids| ==>
      Entries(kind, Listing(bids))[j] == Entry(bids[|bids| - 1 - j].user, Worth(kind, bids[|bids| - 1 - j]))
  {
    EntriesOfWellFormed(kind, Listing(bids));
  }

  /** The first maximum of a newest-first listing is the newest maximum of the bids. */
  lemma FirstOfListingIsNewest(kind: Kind, bids: seq<Bid>, es: seq<Entry>, k: nat)
    requires |es| == |bids| && k < |es|
    requires forall j :: 0 <= j < |bids| ==> es[j] == Entry(bids[|bids| - 1 - j].user, Worth(kind, bids[|bids| - 1 - j]))
    requires (forall j :: 0 <= j < |es| ==> es[j].amount <= es[k].amount) && (forall j :: 0 <= j < k ==> es[j].amount < es[k].amount)
    ensures NewestMax(kind, bids, |bids| - 1 - k)
  {
    var n := |bids|;
    forall j | 0 <= j < n
      ensures Worth(kind, bids[j]) <= Worth(kind, bids[n - 1 - k])
      ensures j > n - 1 - k ==> Worth(kind, bids[j]) < Worth(kind, bids[n - 1 - k])
    {
      assert es[n - 1 - j] == Entry(bids[j].user, Worth(kind, bids[j]));
    }
  }

  lemma LeaderOfListing(kind: Kind, bids: seq<Bid>) returns (i: nat)
    requires AllWellFormed(kind, Listing(bids)) && bids != []
    ensures NewestMax(kind, bids, i) && Entries(kind, Listing(bids)) != []
    ensures Leader(Entries(kind, Listing(bids))) == Entry(bids[i].user, Worth(kind, bids[i]))
  {
    ListingEntries(kind, bids);
    var es := Entries(kind, Listing(bids));
    LeaderIsFirstMax(es);
    var k :| 0 <= k < |es| && es[k] == Leader(es) && forall j :: 0 <= j < k ==> es[j].amount < es[k].amount;
    FirstOfListingIsNewest(kind, bids, es, k);
    i := |bids| - 1 - k;
  }

  lemma SoundMeansWellFormed(b: Book, now: int)
    requires Sound(b, now)
    ensures AllWellFormed(b.auction.kind, b.bids) && AllWellFormed(b.auction.kind, Listing(b.bids))
  {
    forall x | x in Listing(b.bids) ensures WellFormed(b.auction.kind, x) {
      var k :| 0 <= k < |Listing(b.bids)| && Listing(b.bids)[k] == x;
      assert b.bids[|b.bids| - 1 - k] == x;
    }
  }

  /**
   A sealed auction: somebody wins exactly when somebody bid, with the true maximum. Because the listing is newest
   first, a tie goes to the bid placed LAST.
   */
  lemma SealedWinnerIsNewestMax(b: Book, now: int)
    requires Sound(b, now) && b.auction.kind == Sealed
    ensures SealedPick(Listing(b.bids)) == NoWinner <==> b.bids == []
    ensures b.bids != [] ==> exists i: nat ::
      NewestMax(Sealed, b.bids, i) && SealedPick(Listing(b.bids)) == Winner(b.bids[i].user, Worth(Sealed, b.bids[i]))
  {
    SoundMeansWellFormed(b, now);
    FirstPickIsLeader(Sealed, Listing(b.bids));
    if b.bids != [] {
      var i := LeaderOfListing(Sealed, b.bids);
    }
  }

  // ----- the next winner -----

  datatype Fallback = Exhausted | Nobody | Unreadable | Next(user: UserId, amount: real, rank: int)

  function BidsOfOthers(bids: seq<Bid>, winners: set<UserId>): seq<Bid> {
    if bids == [] then []
    else
      var rest := BidsOfOthers(Init(bids), winners);
      if Last(bids).user in winners then rest else rest + [Last(bids)]
  }

  /** The fallback strategy, given the users already elected and how many winner rows there are. */
  function NextWinner(maxRank: int, kind: Kind, bids: seq<Bid>, winners: set<UserId>, rows: nat): Fallback {
    if rows >= maxRank then Exhausted
    else if rows == 0 then Nobody
    else if BidsOfOthers(bids, winners) == [] then Nobody
    else
      match FirstPick(kind, BidsOfOthers(bids, winners))
      case Failure => Unreadable
      case NoWinner => Nobody
      case Winner(u, m) => Next(u, m, rows + 1)
  }

  lemma {:induction false} OthersAreEligible(kind: Kind, bids: seq<Bid>, winners: set<UserId>)
    requires AllWellFormed(kind, bids)
    ensures AllWellFormed(kind, BidsOfOthers(bids, winners))
    ensures Entries(kind, BidsOfOthers(bids, winners)) == Eligible(Entries(kind, bids), winners)
  {
    if bids != [] {
      assert bids == Init(bids) + [Last(bids)];
      OthersAreEligible(kind, Init(bids), winners);
      assert Last(bids) in bids;
      var rest := BidsOfOthers(Init(bids), winners);
      assert Init(rest + [Last(bids)]) == rest;
      var es := Entries(kind, Init(bids));
      assert Init(es + [Entry(Last(bids).user, Worth(kind, Last(bids)))]) == es;
    }
  }

  /** The bids left after the filter are those of the bidders not yet elected. */
  lemma OthersAreTheRest(kind: Kind, bids: seq<Bid>, winners: set<UserId>)
    requires AllWellFormed(kind, bids)
    ensures var others := BidsOfOthers(bids, winners);
      && AllWellFormed(kind, others) && Entries(kind, others) == Eligible(Entries(kind, bids), winners)
      && (others == [] <==> Eligible(Entries(kind, bids), winners) == [])
      && (others == [] <==> Users(Entries(kind, bids)) <= winners)
  {
    var es := Entries(kind, bids);
    var others := BidsOfOthers(bids, winners);
    OthersAreEligible(kind, bids, winners);
    EntriesOfWellFormed(kind, others);
    EligibleUsers(es, winners);
    if others == [] {
      assert Users(Eligible(es, winners)) == {};
    } else {
      assert Eligible(es, winners)[0].user in Users(es) - winners;
    }
  }

  /**
   The fallback strategy, exactly: with ranks left it elects the next place of the leaderboard, if and only if some
   bidder has not been elected yet.
   */
  lemma NextWinnerIsNextPlace(maxRank: int, kind: Kind, bids: seq<Bid>, ranked: seq<Entry>)
    requires AllWellFormed(kind, bids) && ranked != [] && |ranked| < maxRank
    requires IsPodium(Entries(kind, bids), ranked)
    ensures var es := Entries(kind, bids);
      var r := NextWinner(maxRank, kind, bids, Users(ranked), |ranked|);
      && (r == Nobody <==> Users(es) <= Users(ranked))
      && (r != Nobody ==> r.Next? && r.rank == |ranked| + 1 && r.amount > 0.0 && IsPodium(es, ranked + [Entry(r.user, r.amount)]))
  {
    OthersAreTheRest(kind, bids, Users(ranked));
    FirstPickIsLeader(kind, BidsOfOthers(bids, Users(ranked)));
    if BidsOfOthers(bids, Users(ranked)) != [] {
      ElectionExtendsPodium(Entries(kind, bids), ranked);
    }
  }
}
