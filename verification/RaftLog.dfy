/** The raft log's storage (pkg/kvserver/raft_storage.go): per-index keys on an
    engine and the cached positions, proved against a log that is a base and a
    sequence of entries. */
module RaftLog {

  datatype Entry = Entry(index: nat, term: nat, size: nat)

  /** Everything up to the base is gone; entry k has index base + 1 + k. */
  datatype Log = Log(base: nat, baseTerm: nat, entries: seq<Entry>) {
    predicate Wellformed() {
      forall k :: 0 <= k < |entries| ==> entries[k].index == base + 1 + k
    }

    function Last(): nat { base + |entries| }

    function At(i: nat): Entry
      requires base < i <= Last()
    {
      entries[i - base - 1]
    }
  }

  predicate Consecutive(ents: seq<Entry>) {
    forall k :: 0 <= k < |ents| ==> ents[k].index == ents[0].index + k
  }

  /** Section 5.3 of the Raft paper: new entries replace whatever the log holds
      from their first index on. */
  function Appended(l: Log, ents: seq<Entry>): (r: Log)
    requires l.Wellformed() && ents != [] && Consecutive(ents) && l.base < ents[0].index <= l.Last() + 1
    ensures r.Wellformed()
  {
    Log(l.base, l.baseTerm, l.entries[..ents[0].index - l.base - 1] + ents)
  }

  function Cut(l: Log, index: nat, term: nat): (r: Log)
    requires l.Wellformed() && l.base < index <= l.Last()
    ensures r.Wellformed() && r.Last() == l.Last()
  {
    Log(index, term, l.entries[index - l.base..])
  }

  datatype Result<T> = Ok(value: T) | Compacted | Unavailable | OutOfRange

  // ---- any sequence of changes ----

  datatype Op =
    | AppendOp(ents: seq<Entry>)
    | TruncateOp(index: nat, term: nat)
    | SnapshotOp(index: nat, term: nat)
    | CommitOp(index: nat)

  function TermAt(l: Log, i: nat): nat
    requires l.base <= i <= l.Last()
  {
    if i == l.base then l.baseTerm else l.At(i).term
  }

  /** A log and how far it is known to be committed. */
  datatype Node = Node(log: Log, commit: nat)

  /** Log matching, for one incoming entry. */
  predicate Matches(n: Node, e: Entry) {
    n.log.base < e.index <= n.log.Last() && e.index <= n.commit ==> e == n.log.At(e.index)
  }

  /** What raft guarantees of a change: the entries it appends match what is
      committed, one by one, and reach as far as that does; it truncates with
      the entry's own term, restores a snapshot that is newer, or the same, and
      never takes back a commit. */
  ghost predicate Sound(n: Node, op: Op) {
    match op
    case AppendOp(ents) =>
      ents != [] ==>
        && Consecutive(ents) && n.log.base < ents[0].index <= n.log.Last() + 1
        && (forall k :: 0 <= k < |ents| ==> Matches(n, ents[k]))
        && (n.commit < ents[0].index + |ents| || n.log.Last() < ents[0].index + |ents|)
    case TruncateOp(index, term) => n.log.base < index <= n.log.Last() ==> term == TermAt(n.log, index)
    case SnapshotOp(index, term) =>
      && n.log.base <= index && n.commit <= index
      && (index == n.commit && n.log.base <= index <= n.log.Last() ==> term == TermAt(n.log, index))
    case CommitOp(index) => n.commit <= index <= n.log.Last()
  }

  function Changed(n: Node, op: Op): (r: Node)
    requires n.log.Wellformed()
    requires op.AppendOp? && op.ents != [] ==> Consecutive(op.ents) && n.log.base < op.ents[0].index <= n.log.Last() + 1
    ensures r.log.Wellformed()
  {
    match op
    case AppendOp(ents) => if ents == [] then n else n.(log := Appended(n.log, ents))
    case TruncateOp(index, term) =>
      if n.log.base < index <= n.log.Last() then n.(log := Cut(n.log, index, term)) else n
    case SnapshotOp(index, term) => Node(Log(index, term, []), if n.commit < index then index else n.commit)
    case CommitOp(index) => n.(commit := index)
  }

  ghost predicate SoundRun(n: Node, ops: seq<Op>)
    requires n.log.Wellformed()
    decreases |ops|
  {
    ops != [] ==> Sound(n, ops[0]) && SoundRun(Changed(n, ops[0]), ops[1..])
  }

  ghost function AfterOps(n: Node, ops: seq<Op>): (r: Node)
    requires n.log.Wellformed() && SoundRun(n, ops)
    ensures r.log.Wellformed()
    decreases |ops|
  {
    if ops == [] then n else AfterOps(Changed(n, ops[0]), ops[1..])
  }

  /** What l and its successor agree on at index i. */
  ghost predicate Agree(l: Log, after: Log, i: nat)
    requires l.base <= i <= l.Last()
  {
    && (after.base <= i ==> i <= after.Last() && TermAt(after, i) == TermAt(l, i))
    && (l.base < i && after.base < i ==> after.At(i) == l.At(i))
  }

  lemma AppendAgrees(n: Node, ents: seq<Entry>, i: nat)
    requires n.log.Wellformed() && ents != [] && Sound(n, AppendOp(ents))
    requires n.log.base <= i <= n.commit && i <= n.log.Last()
    ensures Agree(n.log, Appended(n.log, ents), i)
  {
    var first, r := ents[0].index, Appended(n.log, ents);
    if first <= i {
      assert ents[i - first].index == i;
      assert Matches(n, ents[i - first]);
      assert r.At(i) == ents[i - first];
    } else if n.log.base < i {
      assert r.At(i) == n.log.At(i);
    }
  }

  lemma ChangeAgrees(n: Node, op: Op, i: nat)
    requires n.log.Wellformed() && Sound(n, op) && n.log.base <= i <= n.commit && i <= n.log.Last()
    ensures Agree(n.log, Changed(n, op).log, i)
  {
    if op.AppendOp? && op.ents != [] {
      AppendAgrees(n, op.ents, i);
    }
  }

  lemma {:induction false} BaseGrows(n: Node, ops: seq<Op>)
    requires n.log.Wellformed() && SoundRun(n, ops)
    ensures n.log.base <= AfterOps(n, ops).log.base
    decreases |ops|
  {
    if ops != [] {
      BaseGrows(Changed(n, ops[0]), ops[1..]);
    }
  }

  /** Over any such sequence the committed part of the log is only ever cut
      from the front: what remains of it, the truncation point included, has
      the terms and the entries it had. */
  lemma {:induction false} CommittedStays(n: Node, ops: seq<Op>, i: nat)
    requires n.log.Wellformed() && SoundRun(n, ops) && n.log.base <= i <= n.commit && i <= n.log.Last()
    ensures Agree(n.log, AfterOps(n, ops).log, i)
    decreases |ops|
  {
    if ops != [] {
      var next := Changed(n, ops[0]);
      ChangeAgrees(n, ops[0], i);
      BaseGrows(next, ops[1..]);
      if next.log.base <= i {
        CommittedStays(next, ops[1..], i);
      }
    }
  }

  lemma {:induction false} SoundConcat(n: Node, ops: seq<Op>, more: seq<Op>)
    requires n.log.Wellformed() && SoundRun(n, ops + more)
    ensures SoundRun(n, ops) && SoundRun(AfterOps(n, ops), more)
    ensures AfterOps(n, ops + more) == AfterOps(AfterOps(n, ops), more)
    decreases |ops|
  {
    if ops == [] {
      assert ops + more == more;
    } else {
      assert (ops + more)[0] == ops[0] && (ops + more)[1..] == ops[1..] + more;
      SoundConcat(Changed(n, ops[0]), ops[1..], more);
    }
  }

  /** Between any two points of a run: whatever was committed at the first. */
  lemma CommittedStaysThroughout(n: Node, ops: seq<Op>, more: seq<Op>, i: nat)
    requires n.log.Wellformed() && SoundRun(n, ops + more)
    ensures SoundRun(n, ops)
    ensures var was, now := AfterOps(n, ops), AfterOps(n, ops + more).log;
            was.log.base <= i <= was.commit && i <= was.log.Last() ==> Agree(was.log, now, i)
  {
    SoundConcat(n, ops, more);
    var was := AfterOps(n, ops);
    if was.log.base <= i <= was.commit && i <= was.log.Last() {
      CommittedStays(was, more, i);
    }
  }

  /** The size of n entries from a position on. */
  ghost function SizeOf(all: seq<Entry>, at: nat, n: nat): nat
    requires at + n <= |all|
  {
    if n == 0 then 0 else SizeOf(all, at, n - 1) + all[at + n - 1].size
  }

  lemma OneMore(all: seq<Entry>, at: nat, n: nat)
    requires at + n < |all|
    ensures all[at..at + n] + [all[at + n]] == all[at..at + n + 1]
    ensures SizeOf(all, at, n + 1) == SizeOf(all, at, n) + all[at + n].size
  {
  }

  /** The longest non-empty run of entries from a position on, at most n of
      them, that fits the cap; the first is taken whatever its size. */
  ghost predicate Filled(all: seq<Entry>, at: int, n: int, cap: nat, ents: seq<Entry>) {
    && 0 <= at && 0 < |ents| <= n && at + n <= |all| && ents == all[at..at + |ents|]
    && (|ents| == 1 || SizeOf(all, at, |ents|) <= cap)
    && (|ents| < n ==> SizeOf(all, at, |ents| + 1) > cap)
  }

  ghost predicate Contiguous(disk: map<nat, Entry>, trunc: nat, last: nat) {
    && trunc <= last
    && (forall i :: i in disk <==> trunc < i <= last)
    && (forall i :: i in disk ==> disk[i].index == i)
  }

  /** The entries on disk, in order. */
  ghost function Stored(disk: map<nat, Entry>, trunc: nat, last: nat): (r: seq<Entry>)
    requires Contiguous(disk, trunc, last)
    ensures |r| == last - trunc && forall k :: 0 <= k < |r| ==> r[k].index == trunc + 1 + k
  {
    seq(last - trunc, k requires 0 <= k < last - trunc => disk[trunc + 1 + k])
  }

  lemma StoredAt(disk: map<nat, Entry>, trunc: nat, last: nat, k: nat)
    requires Contiguous(disk, trunc, last) && k < last - trunc
    ensures Stored(disk, trunc, last)[k] == disk[trunc + 1 + k]
  {
  }

  /** Deleting the entries up to an index cuts the sequence at the front. */
  lemma CutStored(d: map<nat, Entry>, trunc: nat, last: nat, index: nat, r: map<nat, Entry>)
    requires Contiguous(d, trunc, last) && trunc < index <= last
    requires forall i :: i in r <==> i in d && !(trunc + 1 <= i <= index)
    requires forall i :: i in r ==> r[i] == d[i]
    ensures Contiguous(r, index, last) && Stored(r, index, last) == Stored(d, trunc, last)[index - trunc..]
  {
    var a, b := Stored(r, index, last), Stored(d, trunc, last)[index - trunc..];
    forall k | 0 <= k < last - index ensures a[k] == b[k] {
      StoredAt(r, index, last, k);
      StoredAt(d, trunc, last, k + (index - trunc));
    }
  }

  /** Index i is on disk as entry i of a log with this base. */
  ghost predicate Holds(disk: map<nat, Entry>, base: nat, all: seq<Entry>, i: nat) {
    base < i <= base + |all| && i in disk && disk[i] == all[i - base - 1]
  }

  lemma StoredHolds(disk: map<nat, Entry>, trunc: nat, last: nat, i: nat)
    requires Contiguous(disk, trunc, last) && trunc < i <= last
    ensures Holds(disk, trunc, Stored(disk, trunc, last), i)
  {
    StoredAt(disk, trunc, last, i - trunc - 1);
  }

  class RaftStorage {
    /** The engine's keys for this range's log, by index. */
    var disk: map<nat, Entry>
    var lastIndex: nat
    var truncIndex: nat
    var truncTerm: nat
    var applied: nat

    /** Disk holds exactly the contiguous indices above the truncation point. */
    ghost predicate Valid()
      reads this
    {
      Contiguous(disk, truncIndex, lastIndex)
    }

    ghost function Contents(): (l: Log)
      requires Valid()
      reads this
      ensures l.Wellformed() && l.Last() == lastIndex
    {
      Log(truncIndex, truncTerm, Stored(disk, truncIndex, lastIndex))
    }

    constructor ()
      ensures Valid() && Contents() == Log(0, 0, []) && applied == 0
    {
      disk := map[];
      lastIndex, truncIndex, truncTerm, applied := 0, 0, 0, 0;
    }

    /** append: puts the entries, then deletes the divergent suffix. */
    method Append(ents: seq<Entry>)
      requires Valid()
      requires ents != [] ==> Consecutive(ents) && truncIndex < ents[0].index <= lastIndex + 1
      modifies this
      ensures Valid() && applied == old(applied)
      ensures Contents() == if ents == [] then old(Contents()) else Appended(old(Contents()), ents)
    {
      if |ents| == 0 {
        return;
      }
      var staged := Put(disk, ents);
      var newLast := ents[|ents| - 1].index;
      staged := DeleteAll(staged, newLast + 1, lastIndex);
      SpliceStored(disk, truncIndex, lastIndex, ents, staged);
      disk := staged;
      lastIndex := newLast;
    }

    /** Overwriting from the first new index and dropping what lies behind the
        last one is the conflicting-suffix rule. */
    static lemma SpliceStored(d: map<nat, Entry>, trunc: nat, last: nat, ents: seq<Entry>, r: map<nat, Entry>)
      requires Contiguous(d, trunc, last) && ents != [] && Consecutive(ents) && trunc < ents[0].index <= last + 1
      requires forall i :: i in r <==> trunc < i < ents[0].index + |ents|
      requires forall i :: i in r ==> r[i] == if ents[0].index <= i then ents[i - ents[0].index] else d[i]
      ensures Contiguous(r, trunc, ents[|ents| - 1].index)
      ensures Stored(r, trunc, ents[|ents| - 1].index) == Stored(d, trunc, last)[..ents[0].index - trunc - 1] + ents
    {
      var cut, end := ents[0].index - trunc - 1, ents[|ents| - 1].index;
      var a, b := Stored(r, trunc, end), Stored(d, trunc, last)[..cut] + ents;
      forall k | 0 <= k < |a| ensures a[k] == b[k] {
        StoredAt(r, trunc, end, k);
        if k < cut {
          StoredAt(d, trunc, last, k);
        }
      }
    }

    static method Put(d: map<nat, Entry>, ents: seq<Entry>) returns (r: map<nat, Entry>)
      requires Consecutive(ents)
      ensures forall i :: i in r <==> i in d || (ents != [] && ents[0].index <= i < ents[0].index + |ents|)
      ensures forall i :: i in r ==>
                r[i] == if ents != [] && ents[0].index <= i < ents[0].index + |ents| then ents[i - ents[0].index] else d[i]
    {
      r := d;
      for n := 0 to |ents|
        invariant forall i :: i in r <==> i in d || (n > 0 && ents[0].index <= i < ents[0].index + n)
        invariant forall i :: i in r ==>
                    r[i] == if n > 0 && ents[0].index <= i < ents[0].index + n then ents[i - ents[0].index] else d[i]
      {
        r := r[ents[n].index := ents[n]];
      }
    }

    static method DeleteAll(d: map<nat, Entry>, lo: nat, hi: nat) returns (r: map<nat, Entry>)
      ensures forall i :: i in r <==> i in d && !(lo <= i <= hi)
      ensures forall i :: i in r ==> r[i] == d[i]
    {
      r := d;
      var i := lo;
      while i <= hi
        invariant i == lo || lo < i <= hi + 1
        invariant forall j :: j in r <==> j in d && !(lo <= j < i)
        invariant forall j :: j in r ==> r[j] == d[j]
      {
        r := r - {i};
        i := i + 1;
      }
    }

    /** stageTruncate: stale truncations are no-ops, one past the end fails. */
    method StageTruncate(index: nat, term: nat) returns (ok: bool)
      requires Valid()
      modifies this
      ensures Valid() && applied == old(applied)
      ensures ok == (index <= old(truncIndex) || index <= old(lastIndex))
      ensures Contents() == if old(truncIndex) < index <= old(lastIndex) then Cut(old(Contents()), index, term)
                            else old(Contents())
    {
      if index <= truncIndex {
        return true;
      }
      if index > lastIndex {
        return false;
      }
      var staged := DeleteAll(disk, truncIndex + 1, index);
      CutStored(disk, truncIndex, lastIndex, index, staged);
      disk := staged;
      truncIndex, truncTerm := index, term;
      ok := true;
    }

    /** applyIncomingSnapshot, with the wipe of the log its callers stage. */
    method ResetToSnapshot(index: nat, term: nat)
      modifies this
      ensures Valid() && Contents() == Log(index, term, [])
      ensures applied == if old(applied) < index then index else old(applied)
    {
      disk := map[];
      truncIndex, truncTerm := index, term;
      lastIndex := index;
      if applied < index {
        applied := index;
      }
    }

    method Term(i: nat) returns (r: Result<nat>)
      requires Valid()
      ensures var l := Contents();
              r == if i == l.base then Ok(l.baseTerm)
                   else if i < l.base then Compacted
                   else if i > l.Last() then Unavailable
                   else Ok(l.At(i).term)
    {
      if i == truncIndex {
        return Ok(truncTerm);
      }
      if i < truncIndex {
        return Compacted;
      }
      if i > lastIndex {
        return Unavailable;
      }
      if i !in disk {
        return Unavailable;
      }
      r := Ok(disk[i].term);
    }

    /** Entries: the longest non-empty prefix of the slice within the cap. */
    method Entries(lo: nat, hi: nat, maxSize: nat) returns (r: Result<seq<Entry>>)
      requires Valid()
      ensures lo <= truncIndex <==> r == Compacted
      ensures truncIndex < lo && lastIndex + 1 < hi <==> r == OutOfRange
      ensures truncIndex < lo && hi <= lastIndex + 1 && hi <= lo <==> r == Unavailable
      ensures r.Ok? ==> Filled(Contents().entries, lo - Contents().base - 1, hi - lo, maxSize, r.value)
    {
      if lo <= truncIndex {
        return Compacted;
      }
      if hi > lastIndex + 1 {
        return OutOfRange;
      }
      var ents: seq<Entry> := [];
      if lo < hi {
        ghost var all := Stored(disk, truncIndex, lastIndex);
        forall i: nat | lo <= i < hi ensures Holds(disk, truncIndex, all, i) {
          StoredHolds(disk, truncIndex, lastIndex, i);
        }
        ents := Fill(disk, lo, hi, maxSize, truncIndex, all);
      }
      if |ents| == 0 {
        return Unavailable;
      }
      r := Ok(ents);
    }

    /** The iterator over [lo, hi): the first entry always, then up to the cap. */
    static method Fill(d: map<nat, Entry>, lo: nat, hi: nat, maxSize: nat, ghost base: nat, ghost all: seq<Entry>)
      returns (ents: seq<Entry>)
      requires base < lo < hi <= base + |all| + 1 && forall i: nat :: lo <= i < hi ==> Holds(d, base, all, i)
      ensures Filled(all, lo - base - 1, hi - lo, maxSize, ents)
    {
      ghost var at := lo - base - 1;
      ents := [];
      var size := 0;
      var i := lo;
      while i < hi
        invariant lo <= i <= hi && |ents| == i - lo && ents == all[at..at + |ents|]
        invariant size == SizeOf(all, at, |ents|) && (|ents| <= 1 || size <= maxSize)
      {
        assert Holds(d, base, all, i);
        var ent := d[i];
        OneMore(all, at, |ents|);
        if |ents| > 0 && size + ent.size > maxSize {
          return;
        }
        size := size + ent.size;
        ents := ents + [ent];
        i := i + 1;
      }
    }
  }
}
