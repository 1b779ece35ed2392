/** Tables with a unique key: writing rows one by one, and writing each key once in bulk. */
module Upserts {
  import opened Wrappers

  function Get<K, V>(t: map<K, V>, k: K): Option<V> { if k in t then Some(t[k]) else None }

  /** update_or_create for each datum in order; w gives the row from the stored one, if any, and the datum. */
  function Fold<K, V, D>(t: map<K, V>, ds: seq<D>, key: D -> K, w: (Option<V>, D) -> V): map<K, V> {
    if ds == [] then t
    else var before := Fold(t, ds[..|ds| - 1], key, w);
         var d := ds[|ds| - 1];
         before[key(d) := w(Get(before, key(d)), d)]
  }

  /** The last datum of each key. */
  function Latest<K, D>(ds: seq<D>, key: D -> K): map<K, D> {
    if ds == [] then map[] else Latest(ds[..|ds| - 1], key)[key(ds[|ds| - 1]) := ds[|ds| - 1]]
  }

  /** Each key written once. */
  function Bulk<K, V, D>(t: map<K, V>, latest: map<K, D>, w: (Option<V>, D) -> V): map<K, V> {
    map k | k in t.Keys + latest.Keys :: if k in latest then w(Get(t, k), latest[k]) else t[k]
  }

  /** Writing a key again forgets the earlier datum. */
  ghost predicate Overwrites<V(!new), D(!new)>(w: (Option<V>, D) -> V) {
    forall o: Option<V>, d: D, e: D :: w(Some(w(o, d)), e) == w(o, e)
  }

  lemma BulkNext<K, V(!new), D(!new)>(t: map<K, V>, latest: map<K, D>, k: K, d: D, w: (Option<V>, D) -> V)
    requires Overwrites(w)
    ensures Bulk(t, latest[k := d], w) == Bulk(t, latest, w)[k := w(Get(Bulk(t, latest, w), k), d)]
    ensures Bulk(t, latest[k := d], w) == Bulk(t, latest, w)[k := w(Get(t, k), d)]
  {
    var before := Bulk(t, latest, w);
    if k in latest { assert before[k] == w(Get(t, k), latest[k]); }
    assert w(Get(before, k), d) == w(Get(t, k), d);
  }

  /** Row by row and in bulk leave the same table. */
  lemma {:induction false} FoldIsBulk<K, V(!new), D(!new)>(t: map<K, V>, ds: seq<D>, key: D -> K,
                                                           w: (Option<V>, D) -> V)
    requires Overwrites(w)
    ensures Fold(t, ds, key, w) == Bulk(t, Latest(ds, key), w)
  {
    if ds != [] {
      var d := ds[|ds| - 1];
      FoldIsBulk(t, ds[..|ds| - 1], key, w);
      BulkNext(t, Latest(ds[..|ds| - 1], key), key(d), d, w);
    }
  }

  lemma {:induction false} LatestKeys<K(!new), D(!new)>(ds: seq<D>, key: D -> K)
    ensures Latest(ds, key).Keys == set d | d in ds :: key(d)
    ensures forall k :: k in Latest(ds, key) ==> key(Latest(ds, key)[k]) == k && Latest(ds, key)[k] in ds
  {
    if ds != [] {
      LatestKeys(ds[..|ds| - 1], key);
      assert ds == ds[..|ds| - 1] + [ds[|ds| - 1]];
    }
  }

  /** bulk_create or bulk_update of a list of rows. */
  function Put<K, V>(t: map<K, V>, rows: seq<(K, V)>): map<K, V> {
    if rows == [] then t else Put(t, rows[..|rows| - 1])[rows[|rows| - 1].0 := rows[|rows| - 1].1]
  }

  lemma PutAppend<K, V>(t: map<K, V>, rows: seq<(K, V)>, k: K, v: V)
    ensures Put(t, rows + [(k, v)]) == Put(t, rows)[k := v]
  {
    assert (rows + [(k, v)])[..|rows|] == rows;
  }

  lemma {:induction false} PutCommutes<K, V>(t: map<K, V>, k: K, v: V, rows: seq<(K, V)>)
    requires forall r :: r in rows ==> r.0 != k
    ensures Put(t[k := v], rows) == Put(t, rows)[k := v]
  {
    if rows != [] {
      assert rows[|rows| - 1] in rows;
      PutCommutes(t, k, v, rows[..|rows| - 1]);
    }
  }

  /** The rows collected so far, split into those to create and those to update, write what Bulk writes. */
  ghost predicate Collected<K(!new), V(!new), D>(t: map<K, V>, create: seq<(K, V)>, update: seq<(K, V)>,
                                                 latest: map<K, D>, w: (Option<V>, D) -> V)
  {
    && Put(Put(t, create), update) == Bulk(t, latest, w)
    && forall r :: r in update ==> r.0 in latest
  }

  lemma CollectNext<K(!new), V(!new), D(!new)>(t: map<K, V>, create: seq<(K, V)>, update: seq<(K, V)>,
                                               latest: map<K, D>, k: K, d: D, w: (Option<V>, D) -> V)
    requires Overwrites(w) && Collected(t, create, update, latest, w) && k !in latest
    ensures Collected(t, create + [(k, w(Get(t, k), d))], update, latest[k := d], w)
    ensures Collected(t, create, update + [(k, w(Get(t, k), d))], latest[k := d], w)
  {
    var v := w(Get(t, k), d);
    BulkNext(t, latest, k, d, w);
    PutAppend(t, create, k, v);
    PutCommutes(Put(t, create), k, v, update);
    PutAppend(Put(t, create), update, k, v);
  }

  /** The keys of a dictionary, each once. */
  ghost predicate Lists<K(!new), D>(order: seq<K>, latest: map<K, D>) {
    && (forall k :: k in order <==> k in latest)
    && forall i, j :: 0 <= i < j < |order| ==> order[i] != order[j]
  }

  /** The part of a dictionary listed so far. */
  ghost predicate SeenUpTo<K(!new), D>(order: seq<K>, latest: map<K, D>, i: nat, seen: map<K, D>) {
    && i <= |order|
    && (forall k :: k in seen <==> k in order[..i])
    && forall k :: k in seen ==> k in latest && seen[k] == latest[k]
  }

  lemma SeenNext<K(!new), D>(order: seq<K>, latest: map<K, D>, i: nat, seen: map<K, D>)
    requires Lists(order, latest) && SeenUpTo(order, latest, i, seen) && i < |order|
    ensures order[i] in latest && order[i] !in seen
            && SeenUpTo(order, latest, i + 1, seen[order[i] := latest[order[i]]])
  {
    assert order[..i + 1] == order[..i] + [order[i]];
  }

  lemma SeenAll<K(!new), D>(order: seq<K>, latest: map<K, D>, seen: map<K, D>)
    requires Lists(order, latest) && SeenUpTo(order, latest, |order|, seen)
    ensures seen == latest
  {
    assert order[..|order|] == order;
    assert seen.Keys == latest.Keys;
  }

  /** Where the bulk loop stands after i keys. */
  ghost predicate Progress<K(!new), V(!new), D(!new)>(t: map<K, V>, order: seq<K>, latest: map<K, D>,
                                                      w: (Option<V>, D) -> V, i: nat, seen: map<K, D>,
                                                        create: seq<(K, V)>, update: seq<(K, V)>)
  {
    && Lists(order, latest) && SeenUpTo(order, latest, i, seen)
    && Collected(t, create, update, seen, w) && Counted(|create|, |update|, seen, t)
  }

  lemma ProgressNext<K(!new), V(!new), D(!new)>(t: map<K, V>, order: seq<K>, latest: map<K, D>, w: (Option<V>, D) -> V,
                                          i: nat, seen: map<K, D>, create: seq<(K, V)>, update: seq<(K, V)>)
    requires Overwrites(w) && Progress(t, order, latest, w, i, seen, create, update) && i < |order|
    ensures order[i] in latest
    ensures var k, d := order[i], latest[order[i]];
            var row := (k, w(Get(t, k), d));
            if k in t then Progress(t, order, latest, w, i + 1, seen[k := d], create, update + [row])
            else Progress(t, order, latest, w, i + 1, seen[k := d], create + [row], update)
  {
    hide Collected, Counted, Lists, SeenUpTo, Overwrites;
    SeenNext(order, latest, i, seen);
    CollectNext(t, create, update, seen, order[i], latest[order[i]], w);
    CountNext(|create|, |update|, seen, latest[order[i]], t, order[i]);
  }

  lemma ProgressStart<K(!new), V(!new), D(!new)>(t: map<K, V>, order: seq<K>, latest: map<K, D>, w: (Option<V>, D) -> V)
    requires Lists(order, latest)
    ensures Progress(t, order, latest, w, 0, map[], [], [])
  {
    CollectNone(t, map[], w);
  }

  lemma ProgressEnd<K(!new), V(!new), D(!new)>(t: map<K, V>, order: seq<K>, latest: map<K, D>, w: (Option<V>, D) -> V,
                                         seen: map<K, D>, create: seq<(K, V)>, update: seq<(K, V)>)
    requires Progress(t, order, latest, w, |order|, seen, create, update)
    ensures Put(Put(t, create), update) == Bulk(t, latest, w) && Counted(|create|, |update|, latest, t)
  {
    SeenAll(order, latest, seen);
  }

  /** Splitting the data of distinct keys into rows to create and rows to update. */
  method CollectWrites<K(!new, ==), V(!new), D(!new)>(t: map<K, V>, order: seq<K>, latest: map<K, D>,
                                                      w: (Option<V>, D) -> V)
    returns (create: seq<(K, V)>, update: seq<(K, V)>)
    requires Overwrites(w) && Lists(order, latest)
    ensures Put(Put(t, create), update) == Bulk(t, latest, w)
    ensures Counted(|create|, |update|, latest, t)
  {
    hide *;
    create, update := [], [];
    ghost var seen: map<K, D> := map[];
    ProgressStart(t, order, latest, w);
    for i := 0 to |order|
      invariant Progress(t, order, latest, w, i, seen, create, update)
    {
      ProgressNext(t, order, latest, w, i, seen, create, update);
      var k := order[i];
      var row := w(Get(t, k), latest[k]);
      if k in t { update := update + [(k, row)]; } else { create := create + [(k, row)]; }
      seen := seen[k := latest[k]];
    }
    ProgressEnd(t, order, latest, w, seen, create, update);
  }

  lemma CollectNone<K(!new), V(!new), D>(t: map<K, V>, none: map<K, D>, w: (Option<V>, D) -> V)
    requires none == map[]
    ensures Collected(t, [], [], none, w) && Counted(0, 0, none, t)
  {
    assert Bulk(t, none, w) == t;
    assert none.Keys - t.Keys == {} && none.Keys * t.Keys == {};
  }

  /** Of the keys seen, this many are new and this many are stored already. */
  ghost predicate Counted<K, V, D>(created: nat, updated: nat, seen: map<K, D>, stored: map<K, V>) {
    created == |seen.Keys - stored.Keys| && updated == |seen.Keys * stored.Keys|
  }

  lemma CountNext<K, V, D>(created: nat, updated: nat, seen: map<K, D>, d: D, stored: map<K, V>, k: K)
    requires k !in seen && Counted(created, updated, seen, stored)
    ensures k in stored ==> Counted(created, updated + 1, seen[k := d], stored)
    ensures k !in stored ==> Counted(created + 1, updated, seen[k := d], stored)
  {
    assert seen[k := d].Keys == seen.Keys + {k};
    OneKeyMore(seen.Keys, stored.Keys, k);
  }

  lemma OneKeyMore<K>(seen: set<K>, stored: set<K>, k: K)
    requires k !in seen
    ensures |(seen + {k}) - stored| == |seen - stored| + if k in stored then 0 else 1
    ensures |(seen + {k}) * stored| == |seen * stored| + if k in stored then 1 else 0
  {
    if k in stored {
      assert (seen + {k}) - stored == seen - stored && (seen + {k}) * stored == seen * stored + {k};
    } else {
      assert (seen + {k}) - stored == (seen - stored) + {k} && (seen + {k}) * stored == seen * stored;
    }
  }
}
