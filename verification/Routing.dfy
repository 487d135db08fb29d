/** Client routing: the descriptor cache (pkg/kvclient/rangecache.go) and the
    lookup in the addressing records (lookupMeta in pkg/kvclient/db.go). */
module Routing {
  import opened Keys
  import opened Mvcc
  import opened Topology

  ghost predicate Proper(descs: seq<Desc>) {
    forall i :: 0 <= i < |descs| ==> descs[i].start < descs[i].end
  }

  ghost predicate Disjoint(descs: seq<Desc>) {
    forall i, j :: 0 <= i < j < |descs| ==> !descs[i].Overlaps(descs[j])
  }

  ghost predicate ByEnd(descs: seq<Desc>) {
    forall i, j :: 0 <= i < j < |descs| ==> descs[i].end < descs[j].end
  }

  /** The cached descriptor is at least as fresh as d. */
  predicate Fresher(cur: Desc, d: Desc) {
    cur.Overlaps(d) && cur.gen >= d.gen && cur.id == d.id
  }

  class RangeCache {
    var descs: seq<Desc>
    var lastMeta: Option<Desc>

    ghost predicate Valid()
      reads this
    {
      Proper(descs) && Disjoint(descs) && ByEnd(descs)
    }

    constructor ()
      ensures Valid() && descs == [] && lastMeta == None
    {
      descs, lastMeta := [], None;
    }

    /** The binary search over end keys. */
    static method Search(ds: seq<Desc>, key: Key) returns (i: nat)
      requires ByEnd(ds)
      ensures i <= |ds|
      ensures forall j :: 0 <= j < i ==> ds[j].end <= key
      ensures forall j :: i <= j < |ds| ==> key < ds[j].end
    {
      var lo, hi := 0, |ds|;
      while lo < hi
        invariant 0 <= lo <= hi <= |ds|
        invariant forall j :: 0 <= j < lo ==> ds[j].end <= key
        invariant forall j :: hi <= j < |ds| ==> key < ds[j].end
      {
        var mid := (lo + hi) / 2;
        if key < ds[mid].end {
          hi := mid;
        } else {
          lo := mid + 1;
        }
      }
      i := lo;
    }

    /** The search finds the covering descriptor exactly when one is cached,
        and only then does the remembered meta descriptor answer. */
    method Lookup(key: Key) returns (d: Option<Desc>)
      requires Valid()
      ensures (exists i :: 0 <= i < |descs| && descs[i].Contains(key)) <==> d.Some? && d.value in descs && d.value.Contains(key)
      ensures (forall i :: 0 <= i < |descs| ==> !descs[i].Contains(key)) ==>
                d == if lastMeta.Some? && lastMeta.value.Contains(key) then lastMeta else None
    {
      var i := Search(descs, key);
      CoverIsFirst(descs, key, i);
      if i < |descs| && descs[i].Contains(key) {
        return Some(descs[i]);
      }
      if lastMeta.Some? && lastMeta.value.Contains(key) {
        return lastMeta;
      }
      d := None;
    }

    /** Only the first descriptor that ends beyond the key can cover it. */
    static lemma CoverIsFirst(ds: seq<Desc>, key: Key, i: nat)
      requires Proper(ds) && Disjoint(ds) && ByEnd(ds) && i <= |ds|
      requires forall j :: 0 <= j < i ==> ds[j].end <= key
      requires forall j :: i <= j < |ds| ==> key < ds[j].end
      ensures forall j :: 0 <= j < |ds| && ds[j].Contains(key) ==> j == i
    {
      forall j | i < j < |ds| ensures !ds[j].Contains(key) {
        assert !ds[i].Overlaps(ds[j]);
      }
    }

    /** The filter of Insert: overlapping descriptors go, except the first that
        is at least as fresh; then d itself is not inserted. */
    static method Filter(ds: seq<Desc>, d: Desc) returns (kept: seq<Desc>, skip: bool)
      requires Proper(ds) && Disjoint(ds)
      ensures Proper(kept) && Disjoint(kept)
      ensures forall x :: x in kept ==> x in ds && (x.Overlaps(d) ==> skip && Fresher(x, d))
      ensures forall x :: x in ds && !x.Overlaps(d) ==> x in kept
      ensures skip <==> exists x :: x in ds && Fresher(x, d)
      ensures skip ==> exists x :: x in kept && Fresher(x, d)
    {
      kept, skip := [], false;
      ghost var at: seq<nat> := [];
      for n := 0 to |ds|
        invariant |at| == |kept| && forall i :: 0 <= i < |kept| ==> at[i] < n && kept[i] == ds[at[i]]
        invariant forall i, j :: 0 <= i < j < |at| ==> at[i] < at[j]
        invariant forall x :: x in kept ==> x in ds && (x.Overlaps(d) ==> skip && Fresher(x, d))
        invariant forall i :: 0 <= i < n && !ds[i].Overlaps(d) ==> ds[i] in kept
        invariant skip <==> exists i :: 0 <= i < n && Fresher(ds[i], d)
        invariant skip ==> exists x :: x in kept && Fresher(x, d)
      {
        var cur := ds[n];
        if cur.Overlaps(d) {
          if cur.gen >= d.gen && cur.id == d.id && !skip {
            skip := true;
            kept, at := kept + [cur], at + [n];
          }
        } else {
          kept, at := kept + [cur], at + [n];
        }
      }
    }

    /** The sort by end key, of descriptors that are disjoint. */
    static method SortByEnd(ds: seq<Desc>) returns (r: seq<Desc>)
      requires Proper(ds) && Disjoint(ds)
      ensures Proper(r) && Disjoint(r) && ByEnd(r) && forall x :: x in r <==> x in ds
    {
      r := [];
      for n := 0 to |ds|
        invariant Proper(r) && Disjoint(r) && ByEnd(r) && forall x :: x in r <==> x in ds[..n]
      {
        assert forall x :: x in r ==> !x.Overlaps(ds[n]) && !ds[n].Overlaps(x);
        r := Place(r, ds[n]);
        assert ds[..n + 1] == ds[..n] + [ds[n]];
      }
    }

    static method Place(ds: seq<Desc>, d: Desc) returns (r: seq<Desc>)
      requires Proper(ds) && Disjoint(ds) && ByEnd(ds) && d.start < d.end
      requires forall x :: x in ds ==> !x.Overlaps(d) && !d.Overlaps(x)
      ensures Proper(r) && Disjoint(r) && ByEnd(r) && forall x :: x in r <==> x == d || x in ds
    {
      var i := Search(ds, d.end);
      forall j | 0 <= j < |ds| ensures ds[j].end != d.end {
        assert ds[j] in ds;
      }
      r := ds[..i] + [d] + ds[i..];
      Placed(ds, d, i, r);
    }

    static lemma Placed(ds: seq<Desc>, d: Desc, i: nat, r: seq<Desc>)
      requires i <= |ds| && r == ds[..i] + [d] + ds[i..]
      requires Proper(ds) && Disjoint(ds) && ByEnd(ds) && d.start < d.end
      requires forall x :: x in ds ==> !x.Overlaps(d) && !d.Overlaps(x)
      requires forall j :: 0 <= j < i ==> ds[j].end < d.end
      requires forall j :: i <= j < |ds| ==> d.end < ds[j].end
      ensures Proper(r) && Disjoint(r) && ByEnd(r) && forall x :: x in r <==> x == d || x in ds
    {
      PlacedPairs(ds, d, i, r);
      assert forall x :: x in ds <==> x in ds[..i] || x in ds[i..] by {
        assert ds == ds[..i] + ds[i..];
      }
    }

    static lemma PlacedPairs(ds: seq<Desc>, d: Desc, i: nat, r: seq<Desc>)
      requires i <= |ds| && r == ds[..i] + [d] + ds[i..]
      requires Proper(ds) && Disjoint(ds) && ByEnd(ds) && d.start < d.end
      requires forall x :: x in ds ==> !x.Overlaps(d) && !d.Overlaps(x)
      requires forall j :: 0 <= j < i ==> ds[j].end < d.end
      requires forall j :: i <= j < |ds| ==> d.end < ds[j].end
      ensures Proper(r) && Disjoint(r) && ByEnd(r)
    {
      forall j | 0 <= j < |r| ensures r[j].start < r[j].end {
        assert r[j] == if j < i then ds[j] else if j == i then d else ds[j - 1];
      }
      forall j, k | 0 <= j < k < |r| ensures !r[j].Overlaps(r[k]) && r[j].end < r[k].end {
        assert r[j] == if j < i then ds[j] else if j == i then d else ds[j - 1];
        assert r[k] == if k < i then ds[k] else if k == i then d else ds[k - 1];
      }
    }

    /** One descriptor: it is cached afterwards, or a fresher one of its range
        is; what does not overlap it stays; nothing else appears. A descriptor
        that was not inserted is remembered without its range id, which marks
        it in the source. */
    method InsertOne(d: Desc)
      requires Valid() && d.start < d.end
      modifies this
      ensures Valid()
      ensures d.id != 0 ==> d in descs || exists x :: x in descs && Fresher(x, d)
      ensures d in descs && d !in old(descs) ==> forall x :: x in old(descs) ==> !Fresher(x, d)
      ensures forall x :: x in old(descs) && !x.Overlaps(d) ==> x in descs
      ensures forall x :: x in descs ==> x == d || x in old(descs)
      ensures lastMeta == if d.Contains(Lo) && (old(lastMeta).None? || d.gen >= old(lastMeta).value.gen)
                          then Some(if exists x :: x in old(descs) && Fresher(x, d) then d.(id := 0) else d)
                          else old(lastMeta)
    {
      var kept, skip := Filter(descs, d);
      if !skip && d.id != 0 {
        assert forall i :: 0 <= i < |kept| ==> kept[i] in kept;
        assert Disjoint(kept + [d]);
        kept := kept + [d];
      }
      var sorted := SortByEnd(kept);
      descs := sorted;
      if d.Contains(Lo) && (lastMeta.None? || d.gen >= lastMeta.value.gen) {
        lastMeta := Some(if skip then d.(id := 0) else d);
      }
    }

    /** Evict: the first descriptor of the range goes, the rest stays. */
    method Evict(id: RangeId)
      requires Valid()
      modifies `descs
      ensures Valid()
      ensures forall x :: x in descs ==> x in old(descs)
      ensures forall x :: x in old(descs) && x.id != id ==> x in descs
      ensures |descs| == |old(descs)| || |descs| == |old(descs)| - 1
      ensures |descs| == |old(descs)| <==> forall x :: x in old(descs) ==> x.id != id
    {
      var i := 0;
      while i < |descs| && descs[i].id != id
        invariant i <= |descs| && descs == old(descs) && Valid() && forall j :: 0 <= j < i ==> descs[j].id != id
      {
        i := i + 1;
      }
      if i < |descs| {
        Without(descs, i);
        descs := descs[..i] + descs[i + 1..];
      }
    }

    static lemma Without(ds: seq<Desc>, i: nat)
      requires Proper(ds) && Disjoint(ds) && ByEnd(ds) && i < |ds|
      ensures var r := ds[..i] + ds[i + 1..];
              Proper(r) && Disjoint(r) && ByEnd(r) && forall x :: x in ds <==> x in r || x == ds[i]
    {
      var r := ds[..i] + ds[i + 1..];
      assert forall j :: 0 <= j < |r| ==> r[j] == if j < i then ds[j] else ds[j + 1];
      assert ds == ds[..i] + [ds[i]] + ds[i + 1..];
    }

    /** Insert: each in turn. */
    method Insert(ds: seq<Desc>)
      requires Valid() && Proper(ds)
      modifies this
      ensures Valid()
      ensures forall x :: x in descs ==> x in ds || x in old(descs)
      ensures forall x :: x in old(descs) && (forall d :: d in ds ==> !x.Overlaps(d)) ==> x in descs
      ensures ds != [] && ds[|ds| - 1].id != 0 ==> var d := ds[|ds| - 1]; d in descs || exists x :: x in descs && Fresher(x, d)
    {
      for n := 0 to |ds|
        invariant Valid()
        invariant forall x :: x in descs ==> x in ds[..n] || x in old(descs)
        invariant forall x :: x in old(descs) && (forall d :: d in ds ==> !x.Overlaps(d)) ==> x in descs
        invariant n > 0 && ds[n - 1].id != 0 ==> ds[n - 1] in descs || exists x :: x in descs && Fresher(x, ds[n - 1])
      {
        InsertOne(ds[n]);
        assert ds[..n + 1] == ds[..n] + [ds[n]] && ds[n] in ds;
      }
    }
  }

  // ---- the lookup in /meta ----

  /** When the records mirror the partition, the record that ends first beyond
      a key is that of the range holding it. */
  lemma FirstBeyondCovers(live: map<RangeId, Desc>, c: RangeId, k: Key, i: RangeId)
    requires Partition(live) && c in live && live[c].Contains(k) && i in live
    ensures k < live[c].end
    ensures i != c && k < live[i].end ==> live[c].end < live[i].end
  {
    assert live[i].Overlaps(live[c]) ==> i == c;
  }

  /** And so it is in the bytes the scan sees: of the records at or after the
      successor of the key's own meta key, the covering range's comes first. */
  lemma MetaScanFinds(live: map<RangeId, Desc>, ends: map<RangeId, RawKey>, k: RawKey, c: RangeId, i: RangeId)
    requires Partition(live) && (forall i :: i in live ==> i in ends && Rank(ends[i]) == live[i].end)
    requires c in live && live[c].Contains(Rank(k)) && i in live
    ensures !Less(RangeMetaKey(ends[c]), Keys.Next(RangeMetaKey(k)))
    ensures i != c && !Less(RangeMetaKey(ends[i]), Keys.Next(RangeMetaKey(k))) ==>
              Less(RangeMetaKey(ends[c]), RangeMetaKey(ends[i]))
  {
    FirstBeyondCovers(live, c, Rank(k), i);
    MetaKeyOrder(k, ends[c], ends[i]);
    MetaKeyOrder(k, ends[i], ends[c]);
    RankOrder(k, ends[c]);
    RankOrder(k, ends[i]);
    RankOrder(ends[c], ends[i]);
  }
}
