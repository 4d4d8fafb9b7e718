/**
 The home feed's list of long and sealed auctions
 (src/application/usecases/auction/getUserHomeAuctionFeed.usecase.ts): the first k of each source, concatenated,
 sorted by end time and cut to k.
 */
module HomeFeed {

  datatype Item = Item(id: int, endAt: int)

  /** `slice(0, k)`, and the repository's limit. */
  function Take(s: seq<Item>, k: nat): (r: seq<Item>)
    ensures r <= s && |r| == if k < |s| then k else |s|
  {
    if |s| <= k then s else s[..k]
  }

  predicate Sorted(s: seq<Item>) {
    forall i, j :: 0 <= i < j < |s| ==> s[i].endAt <= s[j].endAt
  }

  /** The items ending at `t`, in order. */
  function EndingAt(s: seq<Item>, t: int): seq<Item> {
    if s == [] then []
    else if s[0].endAt == t then [s[0]] + EndingAt(s[1..], t)
    else EndingAt(s[1..], t)
  }

  /** What a stable sort by end time promises: sorted, and items of equal end time are the same ones in the same order. */
  ghost predicate StablySorted(src: seq<Item>, out: seq<Item>) {
    Sorted(out) && forall t :: EndingAt(out, t) == EndingAt(src, t)
  }

  /** The list shown, for any stable sort. */
  ghost predicate IsFeed(long: seq<Item>, sealed: seq<Item>, k: nat, shown: seq<Item>) {
    exists out :: StablySorted(Take(long, k) + Take(sealed, k), out) && shown == Take(out, k)
  }

  // ----- a stable sort has one result -----

  lemma {:induction false} EndingAtConcat(a: seq<Item>, b: seq<Item>, t: int)
    ensures EndingAt(a + b, t) == EndingAt(a, t) + EndingAt(b, t)
  {
    if a == [] {
      assert a + b == b;
    } else {
      assert (a + b)[0] == a[0] && (a + b)[1..] == a[1..] + b;
      EndingAtConcat(a[1..], b, t);
    }
  }

  lemma {:induction false} EndingAtMember(s: seq<Item>, t: int)
    ensures EndingAt(s, t) != [] ==> exists x <- s :: x.endAt == t
  {
    if s != [] {
      EndingAtMember(s[1..], t);
    }
  }

  lemma SortedHead(s: seq<Item>, t: int)
    requires Sorted(s) && EndingAt(s, t) != []
    ensures s != [] && s[0].endAt <= t
  {
    EndingAtMember(s, t);
    var x :| x in s && x.endAt == t;
    var i :| 0 <= i < |s| && s[i] == x;
  }

  lemma EmptyShowsNothing(s: seq<Item>)
    ensures s == [] <==> forall t :: EndingAt(s, t) == []
  {
    if s != [] {
      assert EndingAt(s, s[0].endAt) != [];
    }
  }

  lemma {:induction false} StableSortIsUnique(x: seq<Item>, y: seq<Item>)
    requires Sorted(x) && StablySorted(x, y)
    ensures x == y
  {
    EmptyShowsNothing(x);
    EmptyShowsNothing(y);
    if x != [] {
      var t := x[0].endAt;
      assert EndingAt(y, t) == EndingAt(x, t);
      SortedHead(y, t);
      assert EndingAt(x, y[0].endAt) == EndingAt(y, y[0].endAt);
      SortedHead(x, y[0].endAt);
      assert x[0] == EndingAt(x, t)[0] == EndingAt(y, t)[0] == y[0];
      forall u ensures EndingAt(y[1..], u) == EndingAt(x[1..], u) {
        assert EndingAt(y, u) == EndingAt(x, u);
        if x[0].endAt == u {
          assert EndingAt(x, u)[1..] == EndingAt(x[1..], u) && EndingAt(y, u)[1..] == EndingAt(y[1..], u);
        }
      }
      StableSortIsUnique(x[1..], y[1..]);
      assert x == [x[0]] + x[1..] && y == [y[0]] + y[1..];
    }
  }

  // ----- merging two sorted sources -----

  /** Merge, the first source going first on ties. */
  function Merge(a: seq<Item>, b: seq<Item>): seq<Item>
    decreases |a| + |b|
  {
    if a == [] then b
    else if b == [] then a
    else if a[0].endAt <= b[0].endAt then [a[0]] + Merge(a[1..], b)
    else [b[0]] + Merge(a, b[1..])
  }

  lemma {:induction false} MergeIsSorted(a: seq<Item>, b: seq<Item>, low: int)
    requires Sorted(a) && Sorted(b) && (a != [] ==> low <= a[0].endAt) && (b != [] ==> low <= b[0].endAt)
    ensures Sorted(Merge(a, b)) && (Merge(a, b) != [] ==> low <= Merge(a, b)[0].endAt)
    decreases |a| + |b|
  {
    if a != [] && b != [] {
      if a[0].endAt <= b[0].endAt {
        MergeIsSorted(a[1..], b, a[0].endAt);
      } else {
        MergeIsSorted(a, b[1..], b[0].endAt);
      }
    }
  }

  lemma {:induction false} NothingEarlier(s: seq<Item>, t: int)
    requires Sorted(s) && (s != [] ==> t < s[0].endAt)
    ensures EndingAt(s, t) == []
  {
    if s != [] {
      NothingEarlier(s[1..], t);
    }
  }

  lemma {:induction false} MergeKeepsItems(a: seq<Item>, b: seq<Item>, t: int)
    requires Sorted(a) && Sorted(b)
    ensures EndingAt(Merge(a, b), t) == EndingAt(a, t) + EndingAt(b, t)
    decreases |a| + |b|
  {
    if a != [] && b != [] {
      var m := Merge(a, b);
      if a[0].endAt <= b[0].endAt {
        MergeKeepsItems(a[1..], b, t);
        assert m[1..] == Merge(a[1..], b);
      } else {
        MergeKeepsItems(a, b[1..], t);
        assert m[1..] == Merge(a, b[1..]);
        if b[0].endAt == t {
          NothingEarlier(a, t);
        }
      }
    }
  }

  lemma MergeSortsBoth(a: seq<Item>, b: seq<Item>)
    requires Sorted(a) && Sorted(b)
    ensures StablySorted(a + b, Merge(a, b))
  {
    var low := if a == [] then (if b == [] then 0 else b[0].endAt)
               else if b == [] || a[0].endAt <= b[0].endAt then a[0].endAt else b[0].endAt;
    MergeIsSorted(a, b, low);
    forall t ensures EndingAt(Merge(a, b), t) == EndingAt(a + b, t) {
      MergeKeepsItems(a, b, t);
      EndingAtConcat(a, b, t);
    }
  }

  /** The first k items of a merge, found without merging the rest. */
  function FirstMerged(a: seq<Item>, b: seq<Item>, k: nat): seq<Item> {
    if k == 0 then []
    else if a == [] then Take(b, k)
    else if b == [] then Take(a, k)
    else if a[0].endAt <= b[0].endAt then [a[0]] + FirstMerged(a[1..], b, k - 1)
    else [b[0]] + FirstMerged(a, b[1..], k - 1)
  }

  lemma TakeCons(x: Item, s: seq<Item>, k: nat)
    requires k > 0
    ensures Take([x] + s, k) == [x] + Take(s, k - 1)
  {
  }

  lemma {:induction false} FirstMergedIsPrefix(a: seq<Item>, b: seq<Item>, k: nat)
    ensures Take(Merge(a, b), k) == FirstMerged(a, b, k)
    decreases k
  {
    if k == 0 {
      assert Take(Merge(a, b), 0) == [];
    } else if a != [] && b != [] {
      if a[0].endAt <= b[0].endAt {
        var rest := Merge(a[1..], b);
        assert Merge(a, b) == [a[0]] + rest;
        TakeCons(a[0], rest, k);
        FirstMergedIsPrefix(a[1..], b, k - 1);
      } else {
        var rest := Merge(a, b[1..]);
        assert Merge(a, b) == [b[0]] + rest;
        TakeCons(b[0], rest, k);
        FirstMergedIsPrefix(a, b[1..], k - 1);
      }
    }
  }

  lemma TakeHead(s: seq<Item>, k: nat)
    requires k > 0 && s != []
    ensures Take(s, k) != [] && Take(s, k)[0] == s[0] && Take(s, k)[1..] == Take(s[1..], k - 1)
  {
  }

  lemma TakeTake(s: seq<Item>, n: nat, k: nat)
    requires k <= n
    ensures Take(Take(s, n), k) == Take(s, k)
  {
  }

  /** They only depend on the first k (or more) of each source. */
  lemma {:induction false} FirstMergedOfPrefixes(a: seq<Item>, b: seq<Item>, m: nat, n: nat, k: nat)
    requires k <= m && k <= n
    ensures FirstMerged(Take(a, m), Take(b, n), k) == FirstMerged(a, b, k)
    decreases k
  {
    if k > 0 {
      TakeTake(a, m, k);
      TakeTake(b, n, k);
      if a != [] && b != [] {
        TakeHead(a, m);
        TakeHead(b, n);
        if a[0].endAt <= b[0].endAt {
          FirstMergedOfPrefixes(a[1..], b, m - 1, n, k - 1);
        } else {
          FirstMergedOfPrefixes(a, b[1..], m, n - 1, k - 1);
        }
      }
    }
  }

  /** The first k of a merge only need the first k of each source. */
  lemma MergePrefix(a: seq<Item>, b: seq<Item>, k: nat)
    ensures Take(Merge(Take(a, k), Take(b, k)), k) == Take(Merge(a, b), k)
  {
    FirstMergedIsPrefix(a, b, k);
    FirstMergedIsPrefix(Take(a, k), Take(b, k), k);
    FirstMergedOfPrefixes(a, b, k, k, k);
  }

  lemma StableResult(a: seq<Item>, b: seq<Item>, out: seq<Item>)
    requires Sorted(a) && Sorted(b) && StablySorted(a + b, out)
    ensures out == Merge(a, b)
  {
    MergeSortsBoth(a, b);
    assert forall t :: EndingAt(out, t) == EndingAt(a + b, t) == EndingAt(Merge(a, b), t);
    StableSortIsUnique(Merge(a, b), out);
  }

  /**
   Cutting each source to k before sorting loses nothing: the feed exists, and it is item for item the first k of the
   two full sources sorted together.
   */
  lemma FeedIsFirstOfEverything(long: seq<Item>, sealed: seq<Item>, k: nat, shown: seq<Item>)
    requires Sorted(long) && Sorted(sealed)
    ensures IsFeed(long, sealed, k, shown) <==> exists all :: StablySorted(long + sealed, all) && shown == Take(all, k)
  {
    MergePrefix(long, sealed, k);
    MergeSortsBoth(long, sealed);
    MergeSortsBoth(Take(long, k), Take(sealed, k));
    if IsFeed(long, sealed, k, shown) {
      var out :| StablySorted(Take(long, k) + Take(sealed, k), out) && shown == Take(out, k);
      StableResult(Take(long, k), Take(sealed, k), out);
    }
    if all :| StablySorted(long + sealed, all) && shown == Take(all, k) {
      StableResult(long, sealed, all);
    }
  }
}
