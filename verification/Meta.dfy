/** Range addressing records (evalUpdateMeta in pkg/kvserver/apply.go): one
    record per range end key, updated by requests that arrive late, twice or
    out of order. */
module Meta {
  import opened Keys
  import opened Mvcc
  import opened Topology

  datatype Update = Put(desc: Desc) | Delete(end: Key, ifId: RangeId, ifGen: nat) {
    function At(): Key { if Put? then desc.end else end }
  }

  /** metaUpdateApplies. */
  predicate Applies(existing: Option<Desc>, u: Update) {
    match u
    case Delete(_, ifId, ifGen) => existing.Some? && existing.value.id == ifId && existing.value.gen <= ifGen
    case Put(d) =>
      || existing.None? || existing.value.gen < d.gen
      || (existing.value.id == d.id && existing.value.gen == d.gen)
  }

  function Lookup(records: map<Key, Desc>, k: Key): Option<Desc> {
    if k in records then Some(records[k]) else None
  }

  function Updated(records: map<Key, Desc>, u: Update): map<Key, Desc> {
    if !Applies(Lookup(records, u.At()), u) then records
    else if u.Put? then records[u.At() := u.desc]
    else records - {u.At()}
  }

  function Deliver(records: map<Key, Desc>, us: seq<Update>): map<Key, Desc>
    decreases |us|
  {
    if us == [] then records else Deliver(Updated(records, us[0]), us[1..])
  }

  class MetaRange {
    var records: map<Key, Desc>

    constructor ()
      ensures records == map[]
    {
      records := map[];
    }

    method UpdateMeta(u: Update) returns (applied: bool)
      modifies this
      ensures applied == Applies(Lookup(old(records), u.At()), u)
      ensures records == Updated(old(records), u)
    {
      var key := u.At();
      var existing: Option<Desc> := None;
      if key in records {
        existing := Some(records[key]);
      }
      if !Applies(existing, u) {
        return false;
      }
      if u.Delete? {
        records := records - {key};
      } else {
        records := records[key := u.desc];
      }
      applied := true;
    }
  }

  /** Every update is a put of a descriptor from the history. */
  ghost predicate PutsOf(us: seq<Update>, history: set<Desc>) {
    forall i :: 0 <= i < |us| ==> us[i].Put? && us[i].desc in history && us[i].desc.start < us[i].desc.end
  }

  ghost predicate RecordsOf(records: map<Key, Desc>, history: set<Desc>) {
    forall k :: k in records ==> records[k].end == k && records[k] in history && records[k].start < records[k].end
  }

  /** d was there or was delivered. */
  ghost predicate Offered(records: map<Key, Desc>, us: seq<Update>, d: Desc) {
    (d.end in records && records[d.end] == d) || Put(d) in us
  }

  /** Puts leave at each end key the newest descriptor delivered for it. */
  lemma {:induction false} PutsLeaveNewest(records: map<Key, Desc>, us: seq<Update>, history: set<Desc>, k: Key)
    requires PutsOf(us, history) && RecordsOf(records, history) && Ordered(history)
    ensures var after := Lookup(Deliver(records, us), k);
            && (after.Some? <==> exists d :: Offered(records, us, d) && d.end == k)
            && (after.Some? ==> after.value.end == k && Offered(records, us, after.value))
            && (after.Some? ==> forall d :: Offered(records, us, d) && d.end == k ==>
                  d.gen < after.value.gen || d == after.value)
    decreases |us|
  {
    if us == [] {
      assert forall d :: Offered(records, us, d) && d.end == k ==> k in records && records[k] == d;
      assert k in records ==> Offered(records, us, records[k]);
    } else {
      var next := Updated(records, us[0]);
      assert us[0].Put? && us[0].desc in history;
      assert forall i :: 0 <= i < |us[1..]| ==> us[1..][i] == us[i + 1];
      PutsLeaveNewest(next, us[1..], history, k);
      OfferedBack(records, us, history);
      OfferedOn(records, us, history);
    }
  }

  /** What the rest of the deliveries can choose from was offered before. */
  lemma OfferedBack(records: map<Key, Desc>, us: seq<Update>, history: set<Desc>)
    requires us != [] && PutsOf(us, history) && RecordsOf(records, history)
    ensures forall d :: Offered(Updated(records, us[0]), us[1..], d) ==> Offered(records, us, d)
  {
    assert us[0] in us && us[0].Put?;
    assert forall u :: u in us[1..] ==> u in us;
  }

  /** And what was offered before still is, or lost to something newer. */
  lemma OfferedOn(records: map<Key, Desc>, us: seq<Update>, history: set<Desc>)
    requires us != [] && PutsOf(us, history) && RecordsOf(records, history) && Ordered(history)
    ensures forall d :: Offered(records, us, d) ==>
              || Offered(Updated(records, us[0]), us[1..], d)
              || (exists e :: Offered(Updated(records, us[0]), us[1..], e) && e.end == d.end && d.gen < e.gen)
  {
    var next := Updated(records, us[0]);
    var p := us[0].desc;
    assert us[0] == Put(p);
    forall d | Offered(records, us, d)
      ensures || Offered(next, us[1..], d)
              || (exists e :: Offered(next, us[1..], e) && e.end == d.end && d.gen < e.gen)
    {
      if d.end == p.end && p.end in next {
        assert next[p.end] == p || next[p.end] == records[p.end];
        assert Offered(next, us[1..], next[p.end]);
        SameEnd(history, p, next[p.end]);
        if p.end in records {
          SameEnd(history, p, records[p.end]);
        }
      }
      assert Put(d) in us ==> Put(d) == us[0] || Put(d) in us[1..];
    }
  }

  /** Descriptors that end at the same key share keys, so their generations
      tell them apart. */
  lemma SameEnd(history: set<Desc>, d: Desc, e: Desc)
    requires Ordered(history) && d in history && e in history && d.end == e.end
    requires d.start < d.end && e.start < e.end
    ensures d.gen == e.gen ==> d == e
  {
    assert Distinct(d, e);
  }

  /** The order and the repetition of puts do not matter. */
  lemma PutOrderIrrelevant(us: seq<Update>, vs: seq<Update>, history: set<Desc>)
    requires PutsOf(us, history) && PutsOf(vs, history) && Ordered(history)
    requires forall u :: u in us <==> u in vs
    ensures Deliver(map[], us) == Deliver(map[], vs)
  {
    var a, b := Deliver(map[], us), Deliver(map[], vs);
    forall k ensures Lookup(a, k) == Lookup(b, k) {
      PutsLeaveNewest(map[], us, history, k);
      PutsLeaveNewest(map[], vs, history, k);
      assert forall d :: Offered(map[], us, d) <==> Offered(map[], vs, d);
    }
    SameRecords(a, b);
  }

  lemma SameRecords(a: map<Key, Desc>, b: map<Key, Desc>)
    requires forall k :: Lookup(a, k) == Lookup(b, k)
    ensures a == b
  {
    forall k | k in a ensures k in b && a[k] == b[k] {
      assert Lookup(a, k) == Lookup(b, k);
    }
    forall k | k in b ensures k in a {
      assert Lookup(a, k) == Lookup(b, k);
    }
  }

  /** The batch of puts for everything a run ever adopted, in any order, leaves
      each live range's record at its end key. */
  lemma LiveRangesAddressed(st: State, steps: seq<Step>, us: seq<Update>, i: RangeId)
    requires Start(st) && Runs(st, steps) && PutsOf(us, After(st, steps).history)
    requires i in After(st, steps).live && Put(After(st, steps).live[i]) in us
    ensures Lookup(Deliver(map[], us), After(st, steps).live[i].end) == Some(After(st, steps).live[i])
  {
    var end := After(st, steps);
    StartHolds(st);
    RunKeeps(st, steps);
    assert steps + [] == steps;
    LaterIsNewer(st, steps, []);
    var cur := end.live[i];
    PutsLeaveNewest(map[], us, end.history, cur.end);
    assert Offered(map[], us, cur);
    var rec := Lookup(Deliver(map[], us), cur.end).value;
    assert Put(rec) in us;
    assert rec in end.history && Precedes(rec, cur);
  }

  /** The delete a merge sends for its old left record: it never removes a
      record of a descriptor adopted after that merge. */
  lemma DeleteSparesLater(st: State, a: seq<Step>, b: seq<Step>, left: Desc, later: Desc)
    requires Start(st) && Runs(st, a + b)
    requires Runs(st, a) && left in After(st, a).history
    requires later in After(st, a + b).history && later !in After(st, a).history && later.end == left.end
    ensures !Applies(Some(later), Delete(left.end, left.id, left.gen))
  {
    LaterIsNewer(st, a, b);
    AfterConcat(st, a, b);
    StartHolds(st);
    RunKeeps(st, a);
    RunKeeps(st, a + b);
    assert Rises(left, later);
  }

  // ---- a put that comes after the delete ----

  /** A record of a descriptor that is no longer any range's. */
  ghost predicate Outdated(live: map<RangeId, Desc>, rec: Option<Desc>) {
    rec.Some? && !(rec.value.id in live && live[rec.value.id] == rec.value)
  }

  ghost predicate NewestPut(us: seq<Update>, d: Desc) {
    Put(d) in us && forall e :: Put(e) in us && e.end == d.end ==> e.gen < d.gen || e == d
  }

  /** The delete of left's record between us and vs leaves d in the running for
      its end key: d was put after it, or was the record before it and no
      older form of left. */
  ghost predicate Stands(us: seq<Update>, left: Desc, vs: seq<Update>, d: Desc) {
    d.end == left.end && (Put(d) in vs || (NewestPut(us, d) && !(d.id == left.id && d.gen <= left.gen)))
  }

  lemma {:induction false} DeliverConcat(records: map<Key, Desc>, us: seq<Update>, vs: seq<Update>)
    ensures Deliver(records, us + vs) == Deliver(Deliver(records, us), vs)
    decreases |us|
  {
    if us == [] {
      assert us + vs == vs;
    } else {
      assert (us + vs)[1..] == us[1..] + vs;
      DeliverConcat(Updated(records, us[0]), us[1..], vs);
    }
  }

  lemma {:induction false} DeliverRecordsOf(records: map<Key, Desc>, us: seq<Update>, history: set<Desc>)
    requires PutsOf(us, history) && RecordsOf(records, history)
    ensures RecordsOf(Deliver(records, us), history)
    decreases |us|
  {
    if us != [] {
      DeliverRecordsOf(Updated(records, us[0]), us[1..], history);
    }
  }

  /** What is left of the puts before the delete. */
  lemma BeforeDelete(us: seq<Update>, left: Desc, history: set<Desc>, d: Desc)
    requires PutsOf(us, history) && Ordered(history) && d.end == left.end
    ensures var records := Updated(Deliver(map[], us), Delete(left.end, left.id, left.gen));
            && RecordsOf(records, history)
            && (Lookup(records, left.end) == Some(d) <==> NewestPut(us, d) && !(d.id == left.id && d.gen <= left.gen))
  {
    var before := Deliver(map[], us);
    DeliverRecordsOf(map[], us, history);
    PutsLeaveNewest(map[], us, history, left.end);
    assert forall e :: Offered(map[], us, e) <==> Put(e) in us;
    if NewestPut(us, d) {
      assert Lookup(before, left.end) == Some(d);
    }
  }

  /** Over every run, and for puts delivered in any order before and after the
      delete of a record: an outdated record is left at its key if and only if
      some descriptor stands and no live one does. */
  lemma OutdatedRecordIff(st: State, steps: seq<Step>, us: seq<Update>, left: Desc, vs: seq<Update>)
    requires Start(st) && Runs(st, steps) && PutsOf(us, After(st, steps).history) && PutsOf(vs, After(st, steps).history)
    ensures var live := After(st, steps).live;
            var rec := Lookup(Deliver(map[], us + [Delete(left.end, left.id, left.gen)] + vs), left.end);
            Outdated(live, rec) <==>
              (exists d :: Stands(us, left, vs, d)) && (forall i :: i in live ==> !Stands(us, left, vs, live[i]))
  {
    var end, del := After(st, steps), Delete(left.end, left.id, left.gen);
    StartHolds(st);
    RunKeeps(st, steps);
    assert steps + [] == steps;
    LaterIsNewer(st, steps, []);
    DeliverConcat(map[], us + [del], vs);
    DeliverConcat(map[], us, [del]);
    var records := Updated(Deliver(map[], us), del);
    assert Deliver(Deliver(map[], us), [del]) == records;
    BeforeDelete(us, left, end.history, left);
    forall d: Desc | d.end == left.end ensures Offered(records, vs, d) <==> Stands(us, left, vs, d) {
      BeforeDelete(us, left, end.history, d);
    }
    PutsLeaveNewest(records, vs, end.history, left.end);
    NewestIsLive(end, records, vs, left.end);
  }

  /** A live range's descriptor is the newest offered for its end key, if it is
      offered at all. */
  lemma NewestIsLive(st: State, records: map<Key, Desc>, vs: seq<Update>, k: Key)
    requires Inv(st) && PutsOf(vs, st.history) && RecordsOf(records, st.history)
    ensures forall i, d: Desc :: i in st.live && st.live[i].end == k && d.end == k && Offered(records, vs, d) ==>
              d.gen < st.live[i].gen || d == st.live[i]
  {
    forall i, d: Desc | i in st.live && st.live[i].end == k && d.end == k && Offered(records, vs, d)
      ensures d.gen < st.live[i].gen || d == st.live[i] {
      assert d in st.history && Precedes(d, st.live[i]);
      assert d.Overlaps(st.live[i]);
    }
  }

  /** It does happen, from every start and for every split key: the batch that
      puts both halves is delivered after the one in which the merge puts the
      whole and deletes the left half's record. */
  lemma LatePutReturns(st: State, key: Key) returns (steps: seq<Step>, split: SplitTrigger, merge: MergeTrigger)
    requires Start(st) && Lo < key < Hi
    ensures Runs(st, steps) && merge == MergeOf(split.left, split.right) && split.left.end == key
    ensures {split.left, split.right, merge.merged} <= After(st, steps).history
    ensures var merging := [Put(merge.merged), Delete(key, split.left.id, split.left.gen)];
            var splitting := [Put(split.left), Put(split.right)];
            var rec := Lookup(Deliver(map[], merging + splitting), key);
            rec == Some(split.left) && Outdated(After(st, steps).live, rec)
  {
    var d: Desc :| d.start == Lo && d.end == Hi && st.live == map[d.id := d] && st.history == {d} && d.id < st.nextId
                   && st.splits == {} && st.merges == {} && st.changes == {};
    split := SplitOf(d, key, st.nextId);
    merge := MergeOf(split.left, split.right);
    SplitAndMerge(st, d, key);
    steps := [BuildSplit(d, key), DeliverSplit(split), BuildMerge(split.left, split.right), DeliverMerge(merge)];
    DeliverLate(split.left, split.right, merge.merged);
  }

  lemma DeliverLate(left: Desc, right: Desc, merged: Desc)
    requires left.end < right.end == merged.end && right.gen < merged.gen
    ensures Lookup(Deliver(map[], [Put(merged), Delete(left.end, left.id, left.gen)] + [Put(left), Put(right)]), left.end)
            == Some(left)
  {
    var a, b := [Put(merged), Delete(left.end, left.id, left.gen)], [Put(left), Put(right)];
    DeliverConcat(map[], a, b);
    assert a[1..] == [Delete(left.end, left.id, left.gen)] && b[1..] == [Put(right)];
    var whole := map[merged.end := merged];
    assert Updated(map[], a[0]) == whole && Updated(whole, a[1]) == whole;
    assert Deliver(map[], a) == Deliver(whole, a[1..]) == whole;
    var both := whole[left.end := left];
    assert Updated(whole, b[0]) == both && Updated(both, b[1]) == both;
    assert Deliver(whole, b) == Deliver(both, b[1..]) == both;
  }

  lemma SplitAndMerge(st: State, d: Desc, key: Key)
    requires st.live == map[d.id := d] && st.history == {d} && d.id < st.nextId && d.start < key < d.end
    ensures var t := SplitOf(d, key, st.nextId);
            var m := MergeOf(t.left, t.right);
            var steps := [BuildSplit(d, key), DeliverSplit(t), BuildMerge(t.left, t.right), DeliverMerge(m)];
            && Runs(st, steps) && {t.left, t.right, m.merged} <= After(st, steps).history
            && d.id in After(st, steps).live && After(st, steps).live[d.id] == m.merged
  {
    var t := SplitOf(d, key, st.nextId);
    var m := MergeOf(t.left, t.right);
    var steps := [BuildSplit(d, key), DeliverSplit(t), BuildMerge(t.left, t.right), DeliverMerge(m)];
    var s1 := Do(st, steps[0]);
    var s2 := Do(s1, steps[1]);
    var s3 := Do(s2, steps[2]);
    assert s3.live == map[d.id := t.left, st.nextId := t.right];
    var s4 := Do(s3, steps[3]);
    assert Runs(s4, steps[4..]) && After(s4, steps[4..]) == s4;
    assert steps[3..][1..] == steps[4..] && steps[2..][1..] == steps[3..] && steps[1..][1..] == steps[2..];
    assert Runs(s3, steps[3..]) && After(s3, steps[3..]) == s4;
    assert Runs(s2, steps[2..]) && After(s2, steps[2..]) == s4;
    assert Runs(s1, steps[1..]) && After(s1, steps[1..]) == s4;
  }
}
