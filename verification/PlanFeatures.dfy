/** Change detection and rebuilding of a plan's features (src/application/usecases/admin/updateSubscriptionPlan.usecase.ts). */
module PlanFeatures {
  import opened Basics

  datatype Feature = Feature(id: int, value: string)

  /** A stored feature row; the database keeps one row per plan and feature. */
  datatype Row = Row(key: int, feature: Feature)

  function Features(rows: seq<Row>): (r: seq<Feature>)
    ensures |r| == |rows| && forall i :: 0 <= i < |rows| ==> r[i] == rows[i].feature
  {
    if rows == [] then [] else [rows[0].feature] + Features(rows[1..])
  }

  predicate DistinctIds(fs: seq<Feature>) {
    forall i, j :: 0 <= i < j < |fs| ==> fs[i].id != fs[j].id
  }

  /** `find` by feature id: the first match. */
  function Lookup(fs: seq<Feature>, id: int): (r: Option<string>)
    ensures r.None? <==> forall f <- fs :: f.id != id
    ensures r.Some? ==> Feature(id, r.value) in fs
  {
    if fs == [] then None else if fs[0].id == id then Some(fs[0].value) else Lookup(fs[1..], id)
  }

  predicate Changed(stored: seq<Feature>, incoming: seq<Feature>) {
    || |stored| != |incoming|
    || exists f <- stored :: Lookup(incoming, f.id) != Some(f.value)
  }

  // ----- what the test decides -----

  function Ids(fs: seq<Feature>): set<int> {
    set f <- fs :: f.id
  }

  lemma IdsOfCons(f: Feature, fs: seq<Feature>)
    ensures Ids([f] + fs) == {f.id} + Ids(fs)
  {
    assert forall x :: x in [f] + fs <==> x == f || x in fs;
  }

  lemma InIds(fs: seq<Feature>, id: int)
    ensures id in Ids(fs) <==> exists j :: 0 <= j < |fs| && fs[j].id == id
  {
    if id in Ids(fs) {
      var f :| f in fs && f.id == id;
      var j :| 0 <= j < |fs| && fs[j] == f;
      assert fs[j].id == id;
    }
  }

  lemma DistinctCons(f: Feature, fs: seq<Feature>)
    ensures DistinctIds([f] + fs) <==> DistinctIds(fs) && f.id !in Ids(fs)
  {
    InIds(fs, f.id);
    var all := [f] + fs;
    assert all[0] == f && forall i :: 0 <= i < |fs| ==> all[i + 1] == fs[i];
    if DistinctIds(all) {
      forall i, j | 0 <= i < j < |fs| ensures fs[i].id != fs[j].id {
        assert all[i + 1].id != all[j + 1].id;
      }
    }
  }

  lemma {:induction false} CountIds(fs: seq<Feature>)
    ensures |Ids(fs)| <= |fs|
    ensures |Ids(fs)| == |fs| <==> DistinctIds(fs)
  {
    if fs != [] {
      var rest := fs[1..];
      assert fs == [fs[0]] + rest;
      CountIds(rest);
      IdsOfCons(fs[0], rest);
      DistinctCons(fs[0], rest);
      if fs[0].id in Ids(rest) {
        assert Ids(fs) == Ids(rest);
      }
    }
  }

  lemma {:induction false} SubsetSize<T>(a: set<T>, b: set<T>)
    requires a <= b
    ensures |a| <= |b|
    ensures |b| <= |a| ==> a == b
    decreases |a|
  {
    if x :| x in a {
      SubsetSize(a - {x}, b - {x});
      assert |b| <= |a| ==> a - {x} == b - {x};
      assert a == (a - {x}) + {x} && b == (b - {x}) + {x};
    }
  }

  /** The two lists say the same about every feature id. */
  ghost predicate SameMapping(a: seq<Feature>, b: seq<Feature>) {
    forall id :: Lookup(a, id) == Lookup(b, id)
  }

  lemma {:induction false} LookupOfMember(fs: seq<Feature>, f: Feature)
    requires DistinctIds(fs) && f in fs
    ensures Lookup(fs, f.id) == Some(f.value)
  {
    var i :| 0 <= i < |fs| && fs[i] == f;
    var g := Feature(f.id, Lookup(fs, f.id).value);
    var j :| 0 <= j < |fs| && fs[j] == g;
    assert i == j;
  }

  /** Matching lengths and matching look-ups leave no room for an unmatched or repeated incoming id. */
  lemma UnchangedCoversIncoming(stored: seq<Feature>, incoming: seq<Feature>)
    requires DistinctIds(stored) && !Changed(stored, incoming)
    ensures Ids(stored) == Ids(incoming) && DistinctIds(incoming)
  {
    forall id | id in Ids(stored) ensures id in Ids(incoming) {
      var f :| f in stored && f.id == id;
      assert Lookup(incoming, f.id) == Some(f.value);
    }
    CountIds(stored);
    CountIds(incoming);
    SubsetSize(Ids(stored), Ids(incoming));
  }

  /**
   With one stored row per feature, the length-and-lookup test reports "unchanged" exactly when the incoming list has
   distinct ids and is the same mapping from ids to values, although it never looks for ids that are only incoming.
   */
  lemma UnchangedIffSameMapping(stored: seq<Feature>, incoming: seq<Feature>)
    requires DistinctIds(stored)
    ensures !Changed(stored, incoming) <==> DistinctIds(incoming) && SameMapping(stored, incoming)
  {
    if !Changed(stored, incoming) {
      UnchangedCoversIncoming(stored, incoming);
      forall id ensures Lookup(stored, id) == Lookup(incoming, id) {
        if id in Ids(stored) {
          var f :| f in stored && f.id == id;
          LookupOfMember(stored, f);
        }
      }
    } else if DistinctIds(incoming) && SameMapping(stored, incoming) {
      forall id ensures id in Ids(stored) <==> id in Ids(incoming) {
        assert Lookup(stored, id) == Lookup(incoming, id);
      }
      CountIds(stored);
      CountIds(incoming);
      assert Ids(stored) == Ids(incoming);
      var f :| f in stored && Lookup(incoming, f.id) != Some(f.value);
      LookupOfMember(stored, f);
      assert false;
    }
  }

  // ----- rebuilding the features -----

  function KeyOf(rows: seq<Row>, id: int): (r: Option<int>)
    ensures r.None? <==> forall x <- rows :: x.feature.id != id
    ensures r.Some? ==> exists x <- rows :: x.key == r.value && x.feature.id == id
  {
    if rows == [] then None else if rows[0].feature.id == id then Some(rows[0].key) else KeyOf(rows[1..], id)
  }

  /** `rows` follow the incoming list; an existing feature keeps its key, new ones get distinct keys from `firstKey` on. */
  predicate Rebuilt(stored: seq<Row>, incoming: seq<Feature>, firstKey: int, rows: seq<Row>) {
    && Features(rows) == incoming
    && (forall i :: 0 <= i < |rows| ==>
          match KeyOf(stored, rows[i].feature.id)
          case Some(key) => rows[i].key == key
          case None => firstKey <= rows[i].key < firstKey + |rows|)
    && (forall i, j :: 0 <= i < j < |rows| && KeyOf(stored, rows[i].feature.id).None? && KeyOf(stored, rows[j].feature.id).None? ==>
          rows[i].key != rows[j].key)
  }

  /** Rebuild the rows from the incoming list. `accepts` says which features exist and take the value. */
  method Rebuild(stored: seq<Row>, incoming: seq<Feature>, accepts: Feature -> bool, firstKey: int)
      returns (rows: Option<seq<Row>>)
    ensures rows.Some? <==> forall f <- incoming :: accepts(f)
    ensures rows.Some? ==> Rebuilt(stored, incoming, firstKey, rows.value)
  {
    var built: seq<Row> := [];
    var nextKey := firstKey;
    for n := 0 to |incoming|
      invariant |built| == n && firstKey <= nextKey <= firstKey + n
      invariant forall i :: 0 <= i < n ==> accepts(incoming[i]) && built[i].feature == incoming[i]
      invariant forall i :: 0 <= i < n && KeyOf(stored, incoming[i].id).Some? ==> built[i].key == KeyOf(stored, incoming[i].id).value
      invariant forall i :: 0 <= i < n && KeyOf(stored, incoming[i].id).None? ==> firstKey <= built[i].key < nextKey
      invariant forall i, j :: 0 <= i < j < n && KeyOf(stored, incoming[i].id).None? && KeyOf(stored, incoming[j].id).None? ==>
        built[i].key != built[j].key
    {
      if !accepts(incoming[n]) {
        return None;
      }
      var existing := KeyOf(stored, incoming[n].id);
      if existing.Some? {
        built := built + [Row(existing.value, incoming[n])];
      } else {
        built := built + [Row(nextKey, incoming[n])];
        nextKey := nextKey + 1;
      }
    }
    return Some(built);
  }

  // ----- storing them -----

  /** The two keys of the feature table: the row's own, and one row per plan and feature. */
  predicate Storable(rows: seq<Row>) {
    && (forall i, j :: 0 <= i < j < |rows| ==> rows[i].key != rows[j].key)
    && DistinctIds(Features(rows))
  }

  /** Different features have rows, and so keys, of their own. */
  lemma KeysFollowIds(stored: seq<Row>, a: int, b: int)
    requires forall i, j :: 0 <= i < j < |stored| ==> stored[i].key != stored[j].key
    requires a != b
    ensures KeyOf(stored, a).Some? && KeyOf(stored, b).Some? ==> KeyOf(stored, a) != KeyOf(stored, b)
  {
    if KeyOf(stored, a).Some? && KeyOf(stored, b).Some? {
      var x :| x in stored && x.key == KeyOf(stored, a).value && x.feature.id == a;
      var y :| y in stored && y.key == KeyOf(stored, b).value && y.feature.id == b;
      var m :| 0 <= m < |stored| && stored[m] == x;
      var n :| 0 <= n < |stored| && stored[n] == y;
      assert m != n;
    }
  }

  /** A kept key is one of the stored keys. */
  lemma KeptKeyIsOld(stored: seq<Row>, id: int, firstKey: int)
    requires forall x <- stored :: x.key < firstKey
    ensures KeyOf(stored, id).Some? ==> KeyOf(stored, id).value < firstKey
  {
  }

  /**
   An update can be stored exactly when it names no feature twice. Stored, it is recognised when sent again; naming a
   feature twice, it counts as a change of anything stored and is refused by the table every time.
   */
  lemma StoredIffDistinct(stored: seq<Row>, incoming: seq<Feature>, firstKey: int, rows: seq<Row>)
    requires Storable(stored) && (forall x <- stored :: x.key < firstKey)
    requires Rebuilt(stored, incoming, firstKey, rows)
    ensures Storable(rows) <==> DistinctIds(incoming)
    ensures Storable(rows) ==> !Changed(Features(rows), incoming)
    ensures !Storable(rows) ==> Changed(Features(stored), incoming)
  {
    if DistinctIds(incoming) {
      forall i, j | 0 <= i < j < |rows| ensures rows[i].key != rows[j].key {
        assert Features(rows)[i].id != Features(rows)[j].id;
        KeysFollowIds(stored, rows[i].feature.id, rows[j].feature.id);
        KeptKeyIsOld(stored, rows[i].feature.id, firstKey);
        KeptKeyIsOld(stored, rows[j].feature.id, firstKey);
      }
      UnchangedIffSameMapping(incoming, incoming);
    } else {
      UnchangedIffSameMapping(Features(stored), incoming);
    }
  }
}
