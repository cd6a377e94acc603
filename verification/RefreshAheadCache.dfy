/** The cache object itself: its critical sections and loops, proved against the model. */
module RefreshAheadCache {
  import opened Common
  import opened CacheModel

  datatype Error = ErrInvalid | ErrNotFound(index: string) | ErrConflict(index: string) | ErrRefresh

  datatype Snapshot<T> = Snapshot(epoch: nat, item: T)

  lemma SubsetOfSameSize<K>(a: set<K>, b: set<K>)
    requires a <= b && |a| == |b|
    ensures a == b
  {
    assert b == a + (b - a);
    assert |b| == |a| + |b - a|;
  }

  /** cacheMap.Equal: sizes first, then key by key from the left map only. */
  method CacheMapEqual<T(!new)>(o: Ops<T>, m: map<string, T>, n: map<string, T>) returns (same: bool)
    ensures same <==> MapEqual(o, m, n)
  {
    if |m| != |n| {
      assert |m.Keys| == |m| && |n.Keys| == |n|;
      return false;
    }
    var todo := m.Keys;
    while todo != {}
      invariant todo <= m.Keys
      invariant forall k | k in m && k !in todo :: k in n && o.equal(m[k], n[k])
      decreases |todo|
    {
      var k :| k in todo;
      if k !in n || !o.equal(m[k], n[k]) { return false; }
      todo := todo - {k};
    }
    assert m.Keys <= n.Keys;
    SubsetOfSameSize(m.Keys, n.Keys);
    return true;
  }

  lemma IndexOneMore<T>(o: Ops<T>, data: seq<T>, i: nat)
    requires i < |data|
    ensures Indexed(o, data[..i + 1]) == Indexed(o, data[..i])[o.index(data[i]) := data[i]]
  {
    assert data[..i + 1][..i] == data[..i];
  }

  lemma DistinctOneMore<T>(o: Ops<T>, data: seq<T>, i: nat)
    requires i < |data| && Distinct(o, data[..i])
    requires forall a | 0 <= a < i :: o.index(data[a]) != o.index(data[i])
    ensures Distinct(o, data[..i + 1])
  {
    var shorter, longer := data[..i], data[..i + 1];
    forall a, b | 0 <= a < b < |longer| ensures o.index(longer[a]) != o.index(longer[b]) {
      assert longer[a] == shorter[a];
      if b < i { assert longer[b] == shorter[b]; }
    }
  }

  /** The keys of an index are the indexes of the data. */
  lemma {:induction false} IndexedKeys<T>(o: Ops<T>, data: seq<T>, i: nat, k: string) returns (at: nat)
    requires i <= |data|
    ensures forall a | 0 <= a < i :: o.index(data[a]) in Indexed(o, data[..i])
    ensures k in Indexed(o, data[..i]) ==> at < i && o.index(data[at]) == k
  {
    at := 0;
    if i > 0 {
      IndexOneMore(o, data, i - 1);
      at := IndexedKeys(o, data, i - 1, k);
      if o.index(data[i - 1]) == k { at := i - 1; }
    }
  }

  /** Data without a repeated index are indexed item by item, and by nothing else. */
  lemma {:induction false} IndexedMeans<T>(o: Ops<T>, data: seq<T>, i: nat)
    requires i <= |data| && Distinct(o, data)
    ensures forall a | 0 <= a < i ::
              o.index(data[a]) in Indexed(o, data[..i]) && Indexed(o, data[..i])[o.index(data[a])] == data[a]
    ensures forall k | k in Indexed(o, data[..i]) :: exists a :: 0 <= a < i && o.index(data[a]) == k
  {
    if i > 0 {
      IndexedMeans(o, data, i - 1);
      IndexOneMore(o, data, i - 1);
    }
  }

  /** Builds the index of fetched data; the first index met again is a conflict. */
  method BuildIndex<T(!new)>(o: Ops<T>, data: seq<T>) returns (r: Option<map<string, T>>, offending: string)
    ensures r.Some? <==> Distinct(o, data)
    ensures r.Some? ==> r.value == Indexed(o, data)
    ensures r.Some? ==>
              forall i | 0 <= i < |data| :: o.index(data[i]) in r.value && r.value[o.index(data[i])] == data[i]
    ensures r.Some? ==> forall k | k in r.value :: exists i :: 0 <= i < |data| && o.index(data[i]) == k
    ensures r.None? ==> exists i, j :: 0 <= i < j < |data| && o.index(data[i]) == offending == o.index(data[j])
  {
    var cache: map<string, T> := map[];
    offending := "";
    for i := 0 to |data|
      invariant Distinct(o, data[..i]) && cache == Indexed(o, data[..i])
    {
      var index := o.index(data[i]);
      ghost var at := IndexedKeys(o, data, i, index);
      if index in cache {
        assert o.index(data[at]) == index == o.index(data[i]) && 0 <= at < i < |data|;
        return None, index;
      }
      DistinctOneMore(o, data, i);
      IndexOneMore(o, data, i);
      cache := cache[index := data[i]];
    }
    assert data[..|data|] == data;
    IndexedMeans(o, data, |data|);
    return Some(cache), "";
  }

  lemma MergeNothing<T>(base: map<string, T>)
    ensures Merge(base, map[]) == base
  {
  }

  lemma MergeOneMore<T>(base: map<string, T>, kept: map<string, Entry<T>>, k: string, entry: Entry<T>)
    ensures Merge(base, kept[k := entry]) == Merge(base, kept)[k := entry.item]
  {
  }

  /** One walk over the overlay, in any order, keeping what was written after `refreshEpoch`. */
  method Prune<T>(base: map<string, T>, overlay: map<string, Entry<T>>, refreshEpoch: nat)
    returns (effective: map<string, T>, kept: map<string, Entry<T>>)
    ensures kept == Survivors(overlay, refreshEpoch)
    ensures effective == Merge(base, kept)
  {
    effective, kept := base, map[];
    MergeNothing(base);
    var todo := overlay.Keys;
    while todo != {}
      invariant todo <= overlay.Keys
      invariant forall k :: k in kept <==> k in overlay && k !in todo && overlay[k].epoch > refreshEpoch
      invariant forall k | k in kept :: kept[k] == overlay[k]
      invariant effective == Merge(base, kept)
      decreases |todo|
    {
      var index :| index in todo;
      todo := todo - {index};
      if overlay[index].epoch > refreshEpoch {
        MergeOneMore(base, kept, index, overlay[index]);
        kept := kept[index := overlay[index]];
        effective := effective[index := overlay[index].item];
      }
    }
  }

  ghost predicate EnumeratesBy<T(!new)>(keys: seq<string>, items: seq<T>, m: map<string, T>) {
    && |keys| == |items|
    && (forall i, j | 0 <= i < j < |keys| :: keys[i] != keys[j])
    && (forall i | 0 <= i < |keys| :: keys[i] in m && items[i] == m[keys[i]])
    && (forall k | k in m :: k in keys)
  }

  /** The items of a map, one for each key, in no particular order. */
  ghost predicate Enumerates<T(!new)>(items: seq<T>, m: map<string, T>) {
    exists keys: seq<string> :: EnumeratesBy(keys, items, m)
  }

  class Cache<T(!new)> {
    const o: Ops<T>
    var nextEpoch: nat
    var epoch: nat
    var cache: Option<map<string, T>>
    var overlay: map<string, Entry<T>>

    ghost function Now(): View<T>
      reads this
    {
      View(nextEpoch, epoch, cache, overlay)
    }

    constructor (o: Ops<T>)
      ensures Now() == View(0, 0, None, map[]) && this.o == o
    {
      this.o := o;
      nextEpoch, epoch, cache, overlay := 0, 0, None, map[];
    }

    /** Also the start of a refresh: its epoch is allocated before the fetch. */
    method NewEpoch() returns (e: nat)
      modifies this`nextEpoch
      ensures e == nextEpoch == old(nextEpoch) + 1
    {
      nextEpoch := nextEpoch + 1;
      e := nextEpoch;
    }

    method InsertIfAbsent(item: T) returns (err: Option<Error>)
      modifies this
      ensures Now() == Inserted(o, old(Now()), item)
      ensures err == if old(cache).None? then Some(ErrInvalid) else None
    {
      if cache.None? { return Some(ErrInvalid); }
      var index := o.index(item);
      if index in cache.value { return None; }
      var writeEpoch := NewEpoch();
      overlay := overlay[index := Entry(item, writeEpoch)];
      cache := Some(cache.value[index := item]);
      epoch := writeEpoch;
      return None;
    }

    method Upsert(item: T) returns (err: Option<Error>)
      modifies this
      ensures Now() == Upserted(o, old(Now()), item)
      ensures err == if old(cache).None? then Some(ErrInvalid) else None
    {
      if cache.None? { return Some(ErrInvalid); }
      var index := o.index(item);
      var writeEpoch := NewEpoch();
      overlay := overlay[index := Entry(item, writeEpoch)];
      cache := Some(cache.value[index := item]);
      epoch := writeEpoch;
      return None;
    }

    method MergeAndPruneOverlay(base: map<string, T>, refreshEpoch: nat) returns (effective: map<string, T>)
      modifies this`overlay
      ensures overlay == Survivors(old(overlay), refreshEpoch)
      ensures effective == Merge(base, overlay)
    {
      if |overlay| == 0 {
        assert Survivors(overlay, refreshEpoch) == overlay && Merge(base, overlay) == base;
        return base;
      }
      effective, overlay := Prune(base, overlay, refreshEpoch);
    }

    /** The part of a refresh under the lock: merge, and publish a new epoch if the view changed. */
    method Commit(refreshEpoch: nat, base: map<string, T>)
      modifies this
      ensures Now() == Committed(o, old(Now()), refreshEpoch, base)
    {
      var effective := MergeAndPruneOverlay(base, refreshEpoch);
      var same := CacheMapEqual(o, effective, if cache.Some? then cache.value else map[]);
      if !same {
        if |overlay| == 0 {
          epoch := refreshEpoch;
        } else {
          epoch := NewEpoch();
        }
      }
      cache := Some(effective);
    }

    /** The rest of a refresh, once the callback has returned `fetch`: nothing happens unless the
        data index cleanly, and then the view is merged under the lock. */
    method FinishRefresh(refreshEpoch: nat, fetch: Fetch<T>) returns (err: Option<Error>)
      modifies this
      ensures Now() == Refreshed(o, old(Now()), refreshEpoch, fetch)
      ensures err.None? <==> ReportsNil(o, fetch)
      ensures !Commits(o, fetch) ==> Now() == old(Now())
      ensures fetch.Failed? <==> err == Some(ErrRefresh)
      ensures fetch.Items? && !Distinct(o, fetch.data) ==>
                && err.Some? && err.value.ErrConflict?
                && exists i, j :: 0 <= i < j < |fetch.data|
                               && o.index(fetch.data[i]) == err.value.index == o.index(fetch.data[j])
    {
      match fetch
      case Failed => return Some(ErrRefresh);
      case Panicked => return None;
      case Items(data) =>
        var fetched, offending := BuildIndex(o, data);
        if fetched.None? { return Some(ErrConflict(offending)); }
        Commit(refreshEpoch, fetched.value);
        return None;
    }

    method Get(index: string) returns (snapshot: Option<Snapshot<T>>, err: Option<Error>)
      ensures snapshot.Some? <==> cache.Some? && index in cache.value
      ensures snapshot.Some? ==> snapshot.value == Snapshot(epoch, cache.value[index]) && err.None?
      ensures snapshot.None? ==> err == Some(if cache.None? then ErrInvalid else ErrNotFound(index))
    {
      if cache.None? { return None, Some(ErrInvalid); }
      if index !in cache.value { return None, Some(ErrNotFound(index)); }
      return Some(Snapshot(epoch, cache.value[index])), None;
    }

    method List() returns (at: nat, items: seq<T>, err: Option<Error>)
      ensures at == epoch
      ensures err == if cache.None? then Some(ErrInvalid) else None
      ensures cache.Some? ==> Enumerates(items, cache.value)
    {
      at, items, err := epoch, [], None;
      if cache.None? { return epoch, [], Some(ErrInvalid); }
      var m := cache.value;
      var todo := m.Keys;
      ghost var keys: seq<string> := [];
      while todo != {}
        invariant todo <= m.Keys && forall k | k in keys :: k !in todo
        invariant EnumeratesBy(keys, items, map k | k in m && k !in todo :: m[k])
        decreases |todo|
      {
        var k :| k in todo;
        todo := todo - {k};
        items := items + [m[k]];
        keys := keys + [k];
      }
      assert (map k | k in m && k !in todo :: m[k]) == m;
    }
  }
}
