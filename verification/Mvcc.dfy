/** One key's versions (pkg/storage/mvcc.go), newest first as the engine sorts
    them, with the intent a transaction may hold on the key. */
module Mvcc {
  import opened Hlc

  datatype Option<+T> = None | Some(value: T)

  datatype Value = Live(data: nat) | Tombstone

  datatype Version = Version(ts: Timestamp, value: Value)

  predicate Descending(vs: seq<Version>) {
    forall i, j :: 0 <= i < j < |vs| ==> vs[i].ts > vs[j].ts
  }

  /** The read rule: the newest version at or below t, deleted or missing both
      reading as Tombstone. */
  function Visible(vs: seq<Version>, t: Timestamp): Value {
    if vs == [] then Tombstone
    else if vs[0].ts <= t then vs[0].value
    else Visible(vs[1..], t)
  }

  /** Puts a version in its place, replacing one at the same timestamp. */
  function Insert(vs: seq<Version>, v: Version): seq<Version> {
    if vs == [] || vs[0].ts < v.ts then [v] + vs
    else if vs[0].ts == v.ts then [v] + vs[1..]
    else [vs[0]] + Insert(vs[1..], v)
  }

  function Remove(vs: seq<Version>, ts: Timestamp): seq<Version> {
    if vs == [] then []
    else if vs[0].ts == ts then vs[1..]
    else [vs[0]] + Remove(vs[1..], ts)
  }

  lemma {:induction false} InsertMembers(vs: seq<Version>, v: Version, x: Version)
    requires Descending(vs)
    ensures x in Insert(vs, v) <==> x == v || (x in vs && x.ts != v.ts)
  {
    if vs != [] {
      assert x in vs <==> x == vs[0] || x in vs[1..];
      if v.ts < vs[0].ts {
        InsertMembers(vs[1..], v, x);
      }
    }
  }

  lemma {:induction false} InsertDescends(vs: seq<Version>, v: Version)
    requires Descending(vs)
    ensures Descending(Insert(vs, v))
  {
    if vs != [] && v.ts < vs[0].ts {
      var rest := Insert(vs[1..], v);
      InsertDescends(vs[1..], v);
      forall i | 0 <= i < |rest| ensures rest[i].ts < vs[0].ts {
        InsertMembers(vs[1..], v, rest[i]);
      }
    }
  }

  lemma {:induction false} RemoveMembers(vs: seq<Version>, ts: Timestamp, x: Version)
    requires Descending(vs)
    ensures x in Remove(vs, ts) <==> x in vs && x.ts != ts
  {
    if vs != [] {
      assert x in vs <==> x == vs[0] || x in vs[1..];
      if vs[0].ts != ts {
        RemoveMembers(vs[1..], ts, x);
      }
    }
  }

  lemma {:induction false} RemoveDescends(vs: seq<Version>, ts: Timestamp)
    requires Descending(vs)
    ensures Descending(Remove(vs, ts))
  {
    if vs != [] && vs[0].ts != ts {
      var rest := Remove(vs[1..], ts);
      RemoveDescends(vs[1..], ts);
      forall i | 0 <= i < |rest| ensures rest[i].ts < vs[0].ts {
        RemoveMembers(vs[1..], ts, rest[i]);
      }
    }
  }

  /** What is visible at t depends on the versions at or below t only. */
  lemma {:induction false} VisibleBelow(a: seq<Version>, b: seq<Version>, t: Timestamp)
    requires Descending(a) && Descending(b)
    requires forall x: Version :: x.ts <= t ==> (x in a <==> x in b)
    ensures Visible(a, t) == Visible(b, t)
    decreases |a| + |b|
  {
    if a != [] && a[0].ts > t {
      assert forall x :: x in a[1..] ==> x in a;
      assert forall x: Version :: x in a && x.ts <= t ==> x in a[1..];
      VisibleBelow(a[1..], b, t);
    } else if b != [] && b[0].ts > t {
      assert forall x :: x in b[1..] ==> x in b;
      assert forall x: Version :: x in b && x.ts <= t ==> x in b[1..];
      VisibleBelow(a, b[1..], t);
    } else {
      assert a != [] ==> a[0] in b;
      assert b != [] ==> b[0] in a;
    }
  }
}
