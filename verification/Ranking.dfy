/**
 The leaderboard: one specification that the three winner selections (the fold of open auctions, the decrypting loop
 of sealed ones, the re-election among bidders not yet elected) are all tied to.
 */
module Ranking {
  import opened Basics
  import opened Auctions
  import opened Bidding

  /** What a listing of bids amounts to: who offers how much, in listing order. */
  datatype Entry = Entry(user: UserId, amount: real)

  function Users(es: seq<Entry>): set<UserId> {
    set e <- es :: e.user
  }

  // ----- the leaderboard -----

  /** Index `i` holds the user's best entry, the first of them in listing order. */
  predicate IsTop(es: seq<Entry>, u: UserId, i: nat) {
    && i < |es| && es[i].user == u
    && forall j :: 0 <= j < |es| && es[j].user == u ==>
         es[j].amount <= es[i].amount && (j < i ==> es[j].amount < es[i].amount)
  }

  function Top(es: seq<Entry>, u: UserId): (i: nat)
    requires u in Users(es)
    ensures IsTop(es, u, i)
  {
    var n := |es| - 1;
    assert es == Init(es) + [Last(es)];
    if es[n].user != u then
      assert u in Users(Init(es));
      Top(Init(es), u)
    else if u in Users(Init(es)) then
      var i := Top(Init(es), u);
      if es[n].amount > es[i].amount then n else i
    else
      assert forall j :: 0 <= j < n ==> Init(es)[j].user in Users(Init(es));
      n
  }

  function Best(es: seq<Entry>, u: UserId): real
    requires u in Users(es)
  {
    es[Top(es, u)].amount
  }

  /** `u` ranks above `v`: a higher best amount, or the same one listed earlier. */
  predicate Beats(es: seq<Entry>, u: UserId, v: UserId)
    requires u in Users(es) && v in Users(es)
  {
    Best(es, u) > Best(es, v) || (Best(es, u) == Best(es, v) && Top(es, u) < Top(es, v))
  }

  /** Ranking is a strict total order on the bidders. */
  lemma BeatsIsStrictOrder(es: seq<Entry>)
    ensures forall u :: u in Users(es) ==> !Beats(es, u, u)
    ensures forall u, v :: u in Users(es) && v in Users(es) && u != v ==> Beats(es, u, v) != Beats(es, v, u)
    ensures forall u, v, w | u in Users(es) && v in Users(es) && w in Users(es) && Beats(es, u, v) && Beats(es, v, w) ::
              Beats(es, u, w)
  {
    forall u, v | u in Users(es) && v in Users(es) && u != v
      ensures Beats(es, u, v) != Beats(es, v, u)
    {
      assert es[Top(es, u)].user == u && es[Top(es, v)].user == v;
    }
  }

  /** `ranked` are the first `|ranked|` places of the leaderboard of `es`, each with its bidder's best amount. */
  predicate IsPodium(es: seq<Entry>, ranked: seq<Entry>) {
    && (forall k :: 0 <= k < |ranked| ==> ranked[k].user in Users(es) && ranked[k].amount == Best(es, ranked[k].user))
    && (forall k, l :: 0 <= k < l < |ranked| ==> Beats(es, ranked[k].user, ranked[l].user))
    && (forall k, v :: 0 <= k < |ranked| && v in Users(es) && v !in Users(ranked) ==> Beats(es, ranked[k].user, v))
  }

  lemma InUsers(es: seq<Entry>, u: UserId)
    ensures u in Users(es) <==> exists k :: 0 <= k < |es| && es[k].user == u
  {
    if u in Users(es) {
      var e :| e in es && e.user == u;
      var k :| 0 <= k < |es| && es[k] == e;
      assert es[k].user == u;
    }
  }

  /** A podium has distinct users and amounts that never rise. */
  lemma PodiumDescends(es: seq<Entry>, ranked: seq<Entry>)
    requires IsPodium(es, ranked)
    ensures forall k, l :: 0 <= k < l < |ranked| ==> ranked[k].user != ranked[l].user && ranked[k].amount >= ranked[l].amount
  {
    BeatsIsStrictOrder(es);
  }

  /** Every place of a podium beats whoever holds none of the places before it. */
  lemma PlaceBeatsLater(es: seq<Entry>, a: seq<Entry>, n: nat, v: UserId)
    requires IsPodium(es, a) && n < |a| && v in Users(es) && v != a[n].user
    requires forall k :: 0 <= k < n ==> a[k].user != v
    ensures Beats(es, a[n].user, v)
  {
    InUsers(a, v);
    if v in Users(a) {
      var k :| 0 <= k < |a| && a[k].user == v;
      assert n < k;
    }
  }

  /** Podiums that agree on the first `n` places put neither's next holder among them. */
  lemma NextIsNew(es: seq<Entry>, a: seq<Entry>, b: seq<Entry>, n: nat)
    requires IsPodium(es, a) && IsPodium(es, b) && n <= |a| && n < |b| && a[..n] == b[..n]
    ensures forall k :: 0 <= k < n ==> a[k].user != b[n].user
  {
    PodiumDescends(es, b);
    forall k | 0 <= k < n ensures a[k].user != b[n].user {
      assert a[k] == a[..n][k] == b[..n][k] == b[k];
    }
  }

  /** Podiums that agree on the first `n` places agree on the next. */
  lemma NextAgrees(es: seq<Entry>, a: seq<Entry>, b: seq<Entry>, n: nat)
    requires IsPodium(es, a) && IsPodium(es, b) && n < |a| && n < |b| && a[..n] == b[..n]
    ensures a[n] == b[n]
  {
    var u, v := a[n].user, b[n].user;
    if u != v {
      NextIsNew(es, a, b, n);
      NextIsNew(es, b, a, n);
      PlaceBeatsLater(es, a, n, v);
      PlaceBeatsLater(es, b, n, u);
      BeatsIsStrictOrder(es);
      assert false;
    }
  }

  /** The leaderboard is unique: two podiums agree place by place as far as both go. */
  lemma {:induction false} PodiumIsUnique(es: seq<Entry>, a: seq<Entry>, b: seq<Entry>, n: nat)
    requires IsPodium(es, a) && IsPodium(es, b) && n <= |a| && n <= |b|
    ensures a[..n] == b[..n]
  {
    if n > 0 {
      PodiumIsUnique(es, a, b, n - 1);
      NextAgrees(es, a, b, n - 1);
      assert a[..n] == a[..n - 1] + [a[n - 1]] && b[..n] == b[..n - 1] + [b[n - 1]];
    }
  }

  // ----- the fold -----

  /** The left fold `max, e => e > max ? e : max` from the first entry. */
  function Leader(es: seq<Entry>): Entry
    requires es != []
  {
    if |es| == 1 then es[0]
    else
      var best := Leader(Init(es));
      if Last(es).amount > best.amount then Last(es) else best
  }

  /** The entries of users not excluded, order kept. */
  function Eligible(es: seq<Entry>, excluded: set<UserId>): seq<Entry> {
    if es == [] then []
    else
      var rest := Eligible(Init(es), excluded);
      if Last(es).user in excluded then rest else rest + [Last(es)]
  }

  lemma UsersAppend(es: seq<Entry>, e: Entry)
    ensures Users(es + [e]) == Users(es) + {e.user}
  {
    assert forall x :: x in es + [e] <==> x in es || x == e;
  }

  lemma {:induction false} EligibleUsers(es: seq<Entry>, excluded: set<UserId>)
    ensures Users(Eligible(es, excluded)) == Users(es) - excluded
  {
    if es != [] {
      EligibleUsers(Init(es), excluded);
      assert es == Init(es) + [Last(es)];
      UsersAppend(Init(es), Last(es));
      UsersAppend(Eligible(Init(es), excluded), Last(es));
    }
  }

  lemma TopOfInit(es: seq<Entry>, v: UserId)
    requires es != [] && v in Users(es) && v != Last(es).user
    ensures v in Users(Init(es)) && Top(es, v) == Top(Init(es), v) && Best(es, v) == Best(Init(es), v)
  {
    assert es == Init(es) + [Last(es)];
  }

  /** `w` is the best of the eligible users, at that user's best amount. */
  predicate Elected(es: seq<Entry>, excluded: set<UserId>, w: Entry) {
    && w.user in Users(es) && w.user !in excluded && es[Top(es, w.user)] == w
    && forall v :: v in Users(es) && v !in excluded && v != w.user ==> Beats(es, w.user, v)
  }

  lemma AnExcludedBidChangesNothing(es: seq<Entry>, excluded: set<UserId>, w: Entry)
    requires es != [] && Last(es).user in excluded && Elected(Init(es), excluded, w)
    ensures Elected(es, excluded, w)
  {
    UsersAppend(Init(es), Last(es));
    assert es == Init(es) + [Last(es)];
    TopOfInit(es, w.user);
    forall v | v in Users(es) && v !in excluded && v != w.user ensures Beats(es, w.user, v) {
      TopOfInit(es, v);
    }
  }

  lemma NobodyEligibleYet(es: seq<Entry>, excluded: set<UserId>)
    requires Eligible(es, excluded) == []
    ensures Users(es) <= excluded
  {
    EligibleUsers(es, excluded);
    assert Users(es) - excluded == {};
  }

  lemma AFirstBidLeads(es: seq<Entry>, excluded: set<UserId>)
    requires es != [] && Last(es).user !in excluded && Eligible(Init(es), excluded) == []
    ensures Elected(es, excluded, Last(es)) && Eligible(es, excluded) == [Last(es)]
  {
    var e := Last(es);
    NobodyEligibleYet(Init(es), excluded);
    assert es == Init(es) + [e];
    assert Users(es) == Users(Init(es)) + {e.user} by { UsersAppend(Init(es), e); }
    assert Top(es, e.user) == |es| - 1;
  }

  lemma AHigherBidTakesTheLead(es: seq<Entry>, excluded: set<UserId>, w: Entry)
    requires es != [] && Last(es).user !in excluded && Elected(Init(es), excluded, w) && Last(es).amount > w.amount
    ensures Elected(es, excluded, Last(es))
  {
    var e := Last(es);
    UsersAppend(Init(es), e);
    assert es == Init(es) + [e];
    if e.user in Users(Init(es)) && e.user != w.user {
      assert Beats(Init(es), w.user, e.user);
    }
    assert Top(es, e.user) == |es| - 1;
    forall v | v in Users(es) && v !in excluded && v != e.user ensures Beats(es, e.user, v) {
      TopOfInit(es, v);
      assert v != w.user ==> Beats(Init(es), w.user, v);
    }
  }

  lemma ALowerBidChangesNothing(es: seq<Entry>, excluded: set<UserId>, w: Entry)
    requires es != [] && Last(es).user !in excluded && Elected(Init(es), excluded, w) && Last(es).amount <= w.amount
    ensures Elected(es, excluded, w)
  {
    var e := Last(es);
    UsersAppend(Init(es), e);
    assert es == Init(es) + [e];
    assert Top(es, w.user) == Top(Init(es), w.user);
    forall v | v in Users(es) && v !in excluded && v != w.user ensures Beats(es, w.user, v) {
      if v == e.user {
        assert v in Users(Init(es)) ==> Beats(Init(es), w.user, v);
      } else {
        TopOfInit(es, v);
        assert Beats(Init(es), w.user, v);
      }
    }
  }

  /** The fold over the eligible entries finds the eligible user who beats every other, at that user's best amount. */
  lemma {:induction false} LeaderBeatsEligible(es: seq<Entry>, excluded: set<UserId>)
    requires Eligible(es, excluded) != []
    ensures Elected(es, excluded, Leader(Eligible(es, excluded)))
  {
    var e := Last(es);
    var f := Eligible(Init(es), excluded);
    if f != [] {
      LeaderBeatsEligible(Init(es), excluded);
    }
    if e.user in excluded {
      assert Eligible(es, excluded) == f;
      AnExcludedBidChangesNothing(es, excluded, Leader(f));
    } else if f == [] {
      AFirstBidLeads(es, excluded);
    } else {
      assert Init(f + [e]) == f && Eligible(es, excluded) == f + [e];
      if e.amount > Leader(f).amount {
        AHigherBidTakesTheLead(es, excluded, Leader(f));
      } else {
        ALowerBidChangesNothing(es, excluded, Leader(f));
      }
    }
  }

  /** Electing the leader of those not yet on the podium extends the podium by one place. */
  lemma ElectionExtendsPodium(es: seq<Entry>, ranked: seq<Entry>)
    requires IsPodium(es, ranked) && Eligible(es, Users(ranked)) != []
    ensures IsPodium(es, ranked + [Leader(Eligible(es, Users(ranked)))])
  {
    var w := Leader(Eligible(es, Users(ranked)));
    LeaderBeatsEligible(es, Users(ranked));
    var next := ranked + [w];
    UsersAppend(ranked, w);
  }

  // ----- order of the listing -----

  /** Somebody's entry is a maximum of the listing. */
  predicate IsMax(es: seq<Entry>, e: Entry) {
    e in es && forall x <- es :: x.amount <= e.amount
  }

  lemma {:induction false} LeaderIsFirstMax(es: seq<Entry>)
    requires es != []
    ensures IsMax(es, Leader(es))
    ensures exists i :: 0 <= i < |es| && es[i] == Leader(es) && forall j :: 0 <= j < i ==> es[j].amount < es[i].amount
  {
    if |es| > 1 {
      LeaderIsFirstMax(Init(es));
      assert es == Init(es) + [Last(es)];
      var i :| 0 <= i < |Init(es)| && Init(es)[i] == Leader(Init(es)) && forall j :: 0 <= j < i ==> Init(es)[j].amount < Init(es)[i].amount;
      if Last(es).amount > Leader(Init(es)).amount {
        assert forall j :: 0 <= j < |es| - 1 ==> es[j] in Init(es);
        assert es[|es| - 1] == Leader(es);
      } else {
        assert es[i] == Leader(es);
        assert forall j :: 0 <= j < i ==> es[j] == Init(es)[j];
      }
    } else {
      assert es[0] == Leader(es);
    }
  }

  lemma SameMembers(a: seq<Entry>, b: seq<Entry>)
    requires multiset(a) == multiset(b)
    ensures forall e :: e in a <==> e in b
  {
    assert forall e :: e in a <==> e in multiset(a);
    assert forall e :: e in b <==> e in multiset(b);
  }

  ghost predicate SingleMax(es: seq<Entry>) {
    forall d, e :: IsMax(es, d) && IsMax(es, e) ==> d == e
  }

  ghost predicate OrderIrrelevant(es: seq<Entry>)
    requires es != []
  {
    forall p: seq<Entry> :: multiset(p) == multiset(es) && p != [] ==> Leader(p) == Leader(es)
  }

  lemma AnotherOrder(es: seq<Entry>, x: Entry) returns (p: seq<Entry>)
    requires es != [] && IsMax(es, x)
    ensures multiset(p) == multiset(es) && p != [] && Leader(p) == x
  {
    p := MoveToFront(es, x);
    SameMembers(p, es);
    LeaderIsFirstMax(p);
    assert p[0].amount == Leader(p).amount;
  }

  /** The winner is the same in every order of the listing exactly when the maximum has a single holder. */
  lemma OrderIrrelevantIffSingleMax(es: seq<Entry>)
    requires es != []
    ensures OrderIrrelevant(es) <==> SingleMax(es)
  {
    LeaderIsFirstMax(es);
    if SingleMax(es) {
      forall p: seq<Entry> | multiset(p) == multiset(es) && p != [] ensures Leader(p) == Leader(es) {
        SameMembers(p, es);
        LeaderIsFirstMax(p);
        assert IsMax(es, Leader(p));
      }
    } else {
      var d, e :| IsMax(es, d) && IsMax(es, e) && d != e;
      var p := AnotherOrder(es, if Leader(es) == d then e else d);
    }
  }

  lemma MoveToFront(es: seq<Entry>, e: Entry) returns (p: seq<Entry>)
    requires e in es
    ensures multiset(p) == multiset(es) && p != [] && p[0] == e
  {
    var i :| 0 <= i < |es| && es[i] == e;
    p := [e] + es[..i] + es[i + 1..];
    assert es == es[..i] + [e] + es[i + 1..];
  }
}
