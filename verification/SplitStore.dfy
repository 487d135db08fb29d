/** Crash recovery on a split store (pkg/kvserver/raftengine.go, apply.go,
    catchup.go): the log lives on an engine that syncs its appends, the state
    machine on one without a write-ahead log, and a crash loses whatever the
    state engine had not flushed.

    The machine's state is taken to be the sequence of commands it consumed:
    evaluation is deterministic, so any real state is a function of it. */
module SplitStore {
  import opened Mvcc

  /** Index i of the log holds command i; the first index is 1. */
  datatype Cmd = Data(v: nat) | TruncateLog(index: nat)

  // ---- which applied index is durable ----

  datatype AppliedSeq = AppliedSeq(index: nat, seqno: nat)

  const AppliedSeqSpacing: nat := 32

  ghost predicate Ascending(s: seq<AppliedSeq>) {
    forall i, j :: 0 <= i < j < |s| ==> s[i].index < s[j].index && s[i].seqno < s[j].seqno
  }

  /** The unsigned difference is below the spacing. */
  predicate Near(idx: nat, index: nat) { index <= idx < index + AppliedSeqSpacing }

  /** noteAppliedSeq: samples are spaced, and the newest is exact. */
  function Noted(s: seq<AppliedSeq>, idx: nat, seqno: nat): seq<AppliedSeq> {
    var n := |s|;
    if n > 1 && Near(idx, s[n - 1].index) && Near(idx, s[n - 2].index)
    then s[..n - 1] + [AppliedSeq(idx, seqno)]
    else s + [AppliedSeq(idx, seqno)]
  }

  /** Samples two apart in the list are the spacing apart in the log. */
  ghost predicate Spaced(s: seq<AppliedSeq>) {
    forall i, j :: 0 <= i && i + 2 <= j < |s| ==> s[i].index + AppliedSeqSpacing <= s[j].index
  }

  ghost predicate Samples(s: seq<AppliedSeq>) { Ascending(s) && Spaced(s) }

  /** A batch later than every sample. */
  predicate IsLater(s: seq<AppliedSeq>, idx: nat, seqno: nat) {
    s != [] ==> s[|s| - 1].index < idx && s[|s| - 1].seqno < seqno
  }

  /** What noting a batch means: it is the newest sample, exactly; of the older
      ones all stay, or all but the one it took the place of; and they stay
      spaced. */
  lemma NotedMeans(s: seq<AppliedSeq>, idx: nat, seqno: nat)
    ensures var n := Noted(s, idx, seqno);
            && n != [] && n[|n| - 1] == AppliedSeq(idx, seqno) && n[..|n| - 1] <= s && |s| <= |n|
            && (Samples(s) && IsLater(s, idx, seqno) ==>
                  Samples(n) && (|n| == |s| <==> |s| > 1 && idx < s[|s| - 2].index + AppliedSeqSpacing))
  {
    if Samples(s) && IsLater(s, idx, seqno) {
      NotedAscends(s, idx, seqno);
      NotedSpaced(s, idx, seqno);
    }
  }

  lemma NotedAscends(s: seq<AppliedSeq>, idx: nat, seqno: nat)
    requires Ascending(s) && IsLater(s, idx, seqno)
    ensures Ascending(Noted(s, idx, seqno))
  {
    var n := Noted(s, idx, seqno);
    forall i, j | 0 <= i < j < |n| ensures n[i].index < n[j].index && n[i].seqno < n[j].seqno {
      assert n[i] == s[i] && (j < |n| - 1 ==> n[j] == s[j]);
      assert i < |s| - 1 ==> s[i].index < s[|s| - 1].index && s[i].seqno < s[|s| - 1].seqno;
    }
  }

  lemma NotedSpaced(s: seq<AppliedSeq>, idx: nat, seqno: nat)
    requires Ascending(s) && Spaced(s) && IsLater(s, idx, seqno)
    ensures Spaced(Noted(s, idx, seqno))
  {
    var n := Noted(s, idx, seqno);
    forall i, j | 0 <= i && i + 2 <= j < |n| ensures n[i].index + AppliedSeqSpacing <= n[j].index {
      assert n[i] == s[i];
      if j < |n| - 1 {
        assert n[j] == s[j];
      } else if |n| == |s| {
        assert s[i].index + AppliedSeqSpacing <= s[j].index < idx;
      } else {
        assert s[|s| - 2].index < s[|s| - 1].index && (i < |s| - 2 ==> s[i].index < s[|s| - 2].index);
      }
    }
  }

  /** So the list is at most two samples for each spacing of the log it spans. */
  lemma {:induction false} SamplesAreFew(s: seq<AppliedSeq>)
    requires Samples(s) && s != []
    ensures (|s| - 1) / 2 * AppliedSeqSpacing <= s[|s| - 1].index - s[0].index
    decreases |s|
  {
    if |s| > 2 {
      var t := s[..|s| - 2];
      SamplesAreFew(t);
      assert t[|t| - 1] == s[|s| - 3] && t[0] == s[0];
      assert (|s| - 1) / 2 == (|t| - 1) / 2 + 1;
    } else if |s| == 2 {
      assert s[0].index < s[1].index;
    }
  }

  /** The samples a flush up to the watermark covers. */
  function Covered(s: seq<AppliedSeq>, flushed: nat): (n: nat)
    ensures n <= |s|
  {
    if s == [] || s[0].seqno > flushed then 0 else 1 + Covered(s[1..], flushed)
  }

  /** durableAppliedLocked's answer. */
  function Durable(s: seq<AppliedSeq>, durable: nat, flushed: nat): nat
    decreases |s|
  {
    if s == [] || s[0].seqno > flushed then durable
    else Durable(s[1..], if s[0].index > durable then s[0].index else durable, flushed)
  }

  lemma {:induction false} CoveredPrefix(s: seq<AppliedSeq>, flushed: nat)
    ensures forall i :: 0 <= i < Covered(s, flushed) ==> s[i].seqno <= flushed
    ensures Covered(s, flushed) < |s| ==> s[Covered(s, flushed)].seqno > flushed
  {
    if s != [] && s[0].seqno <= flushed {
      CoveredPrefix(s[1..], flushed);
      assert forall i :: 1 <= i < |s| ==> s[i] == s[1..][i - 1];
    }
  }

  /** The answer is the old one or the index of a sample that was flushed, and
      no flushed sample is above it. */
  lemma {:induction false} DurableIsFlushed(s: seq<AppliedSeq>, durable: nat, flushed: nat)
    requires Ascending(s)
    ensures var d := Durable(s, durable, flushed);
            && (d == durable || exists i :: 0 <= i < |s| && s[i].index == d && s[i].seqno <= flushed)
            && d >= durable
            && forall i :: 0 <= i < |s| && s[i].seqno <= flushed ==> s[i].index <= d
    decreases |s|
  {
    if s != [] && s[0].seqno <= flushed {
      var d' := if s[0].index > durable then s[0].index else durable;
      DurableIsFlushed(s[1..], d', flushed);
      assert forall i :: 1 <= i < |s| ==> s[i] == s[1..][i - 1];
      var d := Durable(s[1..], d', flushed);
      if d != d' {
        var i :| 0 <= i < |s[1..]| && s[1..][i].index == d && s[1..][i].seqno <= flushed;
        assert s[i + 1].index == d;
      }
    }
  }

  class AppliedSeqs {
    var applySeqs: seq<AppliedSeq>
    var durableApplied: nat

    constructor ()
      ensures applySeqs == [] && durableApplied == 0
    {
      applySeqs := [];
      durableApplied := 0;
    }

    /** The newest sample is exact, the others are old ones, and samples two
        apart stay the spacing apart. */
    method NoteAppliedSeq(idx: nat, seqno: nat)
      modifies `applySeqs
      ensures applySeqs != [] && applySeqs[|applySeqs| - 1] == AppliedSeq(idx, seqno)
      ensures applySeqs[..|applySeqs| - 1] <= old(applySeqs) && |old(applySeqs)| <= |applySeqs|
      ensures old(Samples(applySeqs)) && IsLater(old(applySeqs), idx, seqno) ==> Samples(applySeqs)
      ensures applySeqs == Noted(old(applySeqs), idx, seqno)
    {
      NotedMeans(applySeqs, idx, seqno);
      var n := |applySeqs|;
      if n > 0 && Near(idx, applySeqs[n - 1].index) && n > 1 && Near(idx, applySeqs[n - 2].index) {
        applySeqs := applySeqs[..n - 1] + [AppliedSeq(idx, seqno)];
        return;
      }
      applySeqs := applySeqs + [AppliedSeq(idx, seqno)];
    }

    method DurableAppliedLocked(flushed: nat) returns (durable: nat)
      modifies this
      ensures durable == Durable(old(applySeqs), old(durableApplied), flushed) && durableApplied == durable
      ensures applySeqs == old(applySeqs)[Covered(old(applySeqs), flushed)..]
    {
      ghost var seqs, was := applySeqs, durableApplied;
      CoveredPrefix(seqs, flushed);
      durable := durableApplied;
      var keep := 0;
      while keep < |applySeqs| && applySeqs[keep].seqno <= flushed
        invariant keep <= |applySeqs| && applySeqs == seqs && durableApplied == was
        invariant Durable(seqs, was, flushed) == Durable(seqs[keep..], durable, flushed)
        invariant Covered(seqs, flushed) == keep + Covered(seqs[keep..], flushed)
      {
        if applySeqs[keep].index > durable {
          durable := applySeqs[keep].index;
        }
        assert seqs[keep..][1..] == seqs[keep + 1..];
        keep := keep + 1;
      }
      applySeqs := applySeqs[keep..];
      durableApplied := durable;
    }
  }

  // ---- the store as a protocol ----

  /** The raft engine: entries above the truncation point. */
  datatype Disk = Disk(trunc: nat, last: nat, log: map<nat, Cmd>)

  /** A batch committed on the state engine: the applied index and the state
      it leaves, at the engine's sequence number. */
  datatype Batch = Batch(index: nat, seqno: nat, machine: seq<Cmd>)

  /** Survivors are the raft engine's contents a crash may fall back to, its
      deletions being unsynced. Resetting is the index of a catch-up snapshot
      whose state is written but whose log is not yet reset. */
  datatype State = State(
    hist: seq<Cmd>, disk: Disk, survivors: set<Disk>, batches: seq<Batch>, flushed: nat, nextSeq: nat,
    applied: nat, seqs: seq<AppliedSeq>, durable: nat, pending: nat, resetting: Option<nat>)

  datatype Step =
    | Elsewhere(cmd: Cmd)
    | Append(cmd: Cmd)
    | Apply(skip: nat, noted: bool)
    | Flush(upTo: nat)
    | Truncate
    | SnapshotState(index: nat)
    | SnapshotReset
    | Crash(keep: nat, disk: Disk)

  function Applied(batches: seq<Batch>): nat {
    if batches == [] then 0 else batches[|batches| - 1].index
  }

  function LastSeq(batches: seq<Batch>): nat {
    if batches == [] then 0 else batches[|batches| - 1].seqno
  }

  function Machine(batches: seq<Batch>): seq<Cmd> {
    if batches == [] then [] else batches[|batches| - 1].machine
  }

  /** The batches at or below a sequence number. */
  function UpTo(batches: seq<Batch>, seqno: nat): seq<Batch> {
    if batches == [] then []
    else if batches[|batches| - 1].seqno <= seqno then batches
    else UpTo(batches[..|batches| - 1], seqno)
  }

  ghost predicate Enabled(st: State, step: Step) {
    match step
    case Elsewhere(cmd) => cmd.TruncateLog? ==> cmd.index <= |st.hist|
    case Append(cmd) =>
      && st.resetting.None? && st.disk.last <= |st.hist|
      && (st.disk.last < |st.hist| ==> cmd == st.hist[st.disk.last])
      && (cmd.TruncateLog? ==> cmd.index <= st.disk.last)
    case Apply(_, _) => st.resetting.None? && st.applied < st.disk.last && st.applied + 1 in st.disk.log
    case Flush(upTo) => st.flushed <= upTo < st.nextSeq
    case Truncate =>
      st.resetting.None? && st.pending != 0 && st.pending <= Durable(st.seqs, st.durable, st.flushed)
    case SnapshotState(s) => st.resetting.None? && st.applied < s <= |st.hist|
    case SnapshotReset => st.resetting.Some? && LastSeq(st.batches) <= st.flushed
    case Crash(keep, disk) => st.flushed <= keep && (disk == st.disk || disk in st.survivors)
  }

  /** stageTruncate: deletes the entries up to index. */
  function Truncated(d: Disk, index: nat): Disk {
    if index <= d.trunc || index > d.last then d
    else Disk(index, d.last, map i | i in d.log && i > index :: d.log[i])
  }

  ghost function Do(st: State, step: Step): State
    requires Enabled(st, step)
  {
    match step
    case Elsewhere(cmd) => st.(hist := st.hist + [cmd])
    case Append(cmd) =>
      var last := st.disk.last + 1;
      st.(hist := if st.disk.last < |st.hist| then st.hist else st.hist + [cmd],
          disk := st.disk.(last := last, log := st.disk.log[last := cmd]), survivors := {})
    case Apply(skip, noted) =>
      var idx, seqno := st.applied + 1, st.nextSeq + skip;
      var cmd := st.disk.log[idx];
      st.(batches := st.batches + [Batch(idx, seqno, Machine(st.batches) + [cmd])], nextSeq := seqno + 1,
          applied := idx, seqs := if noted then Noted(st.seqs, idx, seqno) else st.seqs,
          pending := if cmd.TruncateLog? && cmd.index > st.pending then cmd.index else st.pending)
    case Flush(upTo) => st.(flushed := upTo)
    case Truncate =>
      st.(durable := Durable(st.seqs, st.durable, st.flushed), seqs := st.seqs[Covered(st.seqs, st.flushed)..],
          pending := 0, disk := Truncated(st.disk, st.pending), survivors := st.survivors + {st.disk})
    case SnapshotState(s) =>
      st.(batches := st.batches + [Batch(s, st.nextSeq, st.hist[..s])], nextSeq := st.nextSeq + 1,
          applied := s, resetting := Some(s))
    case SnapshotReset =>
      st.(disk := Disk(st.resetting.value, st.resetting.value, map[]), survivors := {}, resetting := None,
          seqs := Noted(st.seqs, st.applied, LastSeq(st.batches)))
    case Crash(keep, disk) =>
      var kept := UpTo(st.batches, keep);
      st.(disk := disk, survivors := {}, batches := kept, nextSeq := if st.nextSeq > keep + 1 then keep + 1 else st.nextSeq,
          applied := Applied(kept), seqs := [], durable := 0, pending := 0, resetting := None)
  }

  ghost predicate Start(st: State) {
    && st.hist == [] && st.disk == Disk(0, 0, map[]) && st.survivors == {} && st.batches == [] && st.flushed == 0
    && st.nextSeq == 1 && st.applied == 0 && st.seqs == [] && st.durable == 0 && st.pending == 0 && st.resetting == None
  }

  ghost predicate Runs(st: State, steps: seq<Step>)
    decreases |steps|
  {
    steps != [] ==> Enabled(st, steps[0]) && Runs(Do(st, steps[0]), steps[1..])
  }

  ghost function After(st: State, steps: seq<Step>): State
    requires Runs(st, steps)
    decreases |steps|
  {
    if steps == [] then st else After(Do(st, steps[0]), steps[1..])
  }

  // ---- the invariant ----

  ghost predicate Rising(bs: seq<Batch>) {
    forall i, j :: 0 <= i < j < |bs| ==> bs[i].index < bs[j].index && bs[i].seqno < bs[j].seqno
  }

  lemma RisingAppend(bs: seq<Batch>, b: Batch)
    requires Rising(bs) && (bs != [] ==> Applied(bs) < b.index && LastSeq(bs) < b.seqno)
    ensures Rising(bs + [b]) && Applied(bs + [b]) == b.index && LastSeq(bs + [b]) == b.seqno
  {
  }

  lemma UpToAppend(bs: seq<Batch>, b: Batch, s: nat)
    requires Rising(bs) && (bs != [] ==> Applied(bs) < b.index)
    ensures Applied(UpTo(bs, s)) <= Applied(UpTo(bs + [b], s))
  {
    var all := bs + [b];
    assert all[..|all| - 1] == bs;
    UpToIs(bs, s);
    var u := UpTo(bs, s);
    if u != [] {
      assert u[|u| - 1] == bs[|u| - 1];
    }
  }

  ghost predicate BatchesInv(st: State) {
    && Rising(st.batches)
    && (forall i :: 0 <= i < |st.batches| ==> BatchOk(st, st.batches[i]))
    && st.applied == Applied(st.batches) && st.flushed < st.nextSeq
  }

  ghost predicate BatchOk(st: State, b: Batch) {
    0 < b.index <= |st.hist| && b.machine == st.hist[..b.index] && b.seqno < st.nextSeq
  }

  /** The log holds exactly the indices above its truncation point. */
  ghost predicate DiskOk(hist: seq<Cmd>, d: Disk) {
    && d.trunc <= d.last <= |hist|
    && (forall i :: i in d.log <==> d.trunc < i <= d.last)
    && (forall i :: d.trunc < i <= d.last ==> d.log[i] == hist[i - 1])
  }

  ghost predicate DisksInv(st: State) {
    && DiskOk(st.hist, st.disk)
    && forall d :: d in st.survivors ==> DiskOk(st.hist, d) && d.trunc <= st.disk.trunc && d.last == st.disk.last
  }

  ghost predicate Sampled(st: State, a: AppliedSeq) {
    exists i :: 0 <= i < |st.batches| && st.batches[i].index == a.index && st.batches[i].seqno == a.seqno
  }

  /** What the log has dropped, the state engine has flushed. */
  ghost predicate DurableInv(st: State) {
    && st.disk.trunc <= Applied(UpTo(st.batches, st.flushed))
    && st.durable <= Applied(UpTo(st.batches, st.flushed))
  }

  ghost predicate SeqsInv(st: State) {
    && Ascending(st.seqs)
    && (st.seqs != [] ==> st.seqs[|st.seqs| - 1].index <= st.applied)
    && (st.resetting.Some? && st.seqs != [] ==> st.seqs[|st.seqs| - 1].index < st.applied)
    && (forall i :: 0 <= i < |st.seqs| ==> Sampled(st, st.seqs[i]))
    && (st.resetting.Some? ==> st.batches != [] && st.resetting.value == st.applied)
  }

  ghost predicate Inv(st: State) {
    BatchesInv(st) && DisksInv(st) && DurableInv(st) && SeqsInv(st)
  }

  // ---- flushed prefixes ----

  lemma {:induction false} UpToIs(batches: seq<Batch>, seqno: nat)
    requires Rising(batches)
    ensures UpTo(batches, seqno) <= batches
    ensures forall i :: 0 <= i < |batches| ==> (i < |UpTo(batches, seqno)| <==> batches[i].seqno <= seqno)
  {
    if batches != [] && batches[|batches| - 1].seqno > seqno {
      UpToIs(batches[..|batches| - 1], seqno);
    }
  }

  /** Everything a flush covers is at or below the prefix's applied index. */
  lemma FlushedBelow(batches: seq<Batch>, seqno: nat, i: nat)
    requires Rising(batches)
    requires i < |batches| && batches[i].seqno <= seqno
    ensures batches[i].index <= Applied(UpTo(batches, seqno))
  {
    UpToIs(batches, seqno);
    var u := UpTo(batches, seqno);
    assert u[|u| - 1] == batches[|u| - 1];
  }

  /** More batches or a later watermark never lower what is durable. */
  lemma DurableGrows(a: seq<Batch>, s: nat, b: seq<Batch>, t: nat)
    requires Rising(b)
    requires a <= b && s <= t
    ensures Applied(UpTo(a, s)) <= Applied(UpTo(b, t))
  {
    assert Rising(a) by {
      assert forall i :: 0 <= i < |a| ==> a[i] == b[i];
    }
    UpToIs(a, s);
    var u := UpTo(a, s);
    if u != [] {
      assert u[|u| - 1] == a[|u| - 1] == b[|u| - 1];
      FlushedBelow(b, t, |u| - 1);
    }
  }

  /** A crash keeps at least what was flushed. */
  lemma CrashKeepsFlushed(batches: seq<Batch>, s: nat, keep: nat)
    requires Rising(batches)
    requires s <= keep
    ensures Applied(UpTo(UpTo(batches, keep), s)) == Applied(UpTo(batches, s))
    ensures Applied(UpTo(batches, s)) <= Applied(UpTo(batches, keep))
  {
    UpToIs(batches, s);
    UpToIs(batches, keep);
    var k := UpTo(batches, keep);
    assert forall i :: 0 <= i < |k| ==> k[i] == batches[i];
    UpToIs(k, s);
    var a, b := |UpTo(k, s)|, |UpTo(batches, s)|;
    assert a > 0 ==> batches[a - 1].seqno <= s;
    assert b > 0 ==> batches[b - 1].seqno <= s <= keep;
    assert a == b && UpTo(k, s) == UpTo(batches, s);
    DurableGrows(batches, s, batches, keep);
  }

  // ---- every step keeps the invariant ----

  lemma NotedOk(s: seq<AppliedSeq>, idx: nat, seqno: nat)
    requires Ascending(s) && IsLater(s, idx, seqno)
    ensures Ascending(Noted(s, idx, seqno)) && Noted(s, idx, seqno) != []
    ensures var n := Noted(s, idx, seqno);
            && n[|n| - 1] == AppliedSeq(idx, seqno)
            && forall i :: 0 <= i < |n| - 1 ==> n[i] in s
  {
    NotedAscends(s, idx, seqno);
  }

  /** The engine after one more batch. */
  lemma AddBatch(st: State, next: State, b: Batch)
    requires BatchesInv(st) && next.batches == st.batches + [b] && next.hist == st.hist && next.applied == b.index
    requires next.flushed == st.flushed && st.nextSeq <= b.seqno < next.nextSeq
    requires st.applied < b.index <= |st.hist| && b.machine == st.hist[..b.index]
    ensures BatchesInv(next) && Applied(UpTo(st.batches, st.flushed)) <= Applied(UpTo(next.batches, next.flushed))
  {
    if st.batches != [] {
      assert BatchOk(st, st.batches[|st.batches| - 1]);
    }
    RisingAppend(st.batches, b);
    UpToAppend(st.batches, b, st.flushed);
    BatchesOk(st, next, b);
  }

  lemma BatchesOk(st: State, next: State, b: Batch)
    requires forall i :: 0 <= i < |st.batches| ==> BatchOk(st, st.batches[i])
    requires next.batches == st.batches + [b] && next.hist == st.hist && st.nextSeq <= next.nextSeq && BatchOk(next, b)
    ensures forall i :: 0 <= i < |next.batches| ==> BatchOk(next, next.batches[i])
  {
    forall i | 0 <= i < |next.batches| ensures BatchOk(next, next.batches[i]) {
      if i < |st.batches| {
        assert BatchOk(st, st.batches[i]);
      }
    }
  }

  lemma AddApplied(st: State, skip: nat, noted: bool)
    requires BatchesInv(st) && DisksInv(st) && Enabled(st, Apply(skip, noted))
    ensures var next := Do(st, Apply(skip, noted));
            BatchesInv(next) && Applied(UpTo(st.batches, st.flushed)) <= Applied(UpTo(next.batches, next.flushed))
  {
    var idx := st.applied + 1;
    var b := Batch(idx, st.nextSeq + skip, Machine(st.batches) + [st.disk.log[idx]]);
    if st.batches != [] {
      assert BatchOk(st, st.batches[|st.batches| - 1]);
    }
    assert st.hist[..idx] == st.hist[..st.applied] + [st.hist[st.applied]];
    AddBatch(st, Do(st, Apply(skip, noted)), b);
  }

  lemma AddSnapshot(st: State, s: nat)
    requires BatchesInv(st) && Enabled(st, SnapshotState(s))
    ensures var next := Do(st, SnapshotState(s));
            BatchesInv(next) && Applied(UpTo(st.batches, st.flushed)) <= Applied(UpTo(next.batches, next.flushed))
  {
    AddBatch(st, Do(st, SnapshotState(s)), Batch(s, st.nextSeq, st.hist[..s]));
  }

  lemma BatchesStep(st: State, step: Step)
    requires BatchesInv(st) && DisksInv(st) && Enabled(st, step)
    ensures BatchesInv(Do(st, step))
  {
    match step {
      case Elsewhere(_) =>
        forall i | 0 <= i < |st.batches| ensures BatchOk(Do(st, step), st.batches[i]) {
          assert BatchOk(st, st.batches[i]);
        }
      case Append(_) =>
        forall i | 0 <= i < |st.batches| ensures BatchOk(Do(st, step), st.batches[i]) {
          assert BatchOk(st, st.batches[i]);
        }
      case Apply(skip, noted) => AddApplied(st, skip, noted);
      case Flush(_) =>
      case Truncate =>
      case SnapshotState(s) => AddSnapshot(st, s);
      case SnapshotReset =>
      case Crash(keep, disk) => BatchesCrash(st, keep, disk);
    }
  }

  lemma BatchesCrash(st: State, keep: nat, disk: Disk)
    requires BatchesInv(st) && Enabled(st, Crash(keep, disk))
    ensures BatchesInv(Do(st, Crash(keep, disk)))
  {
    UpToIs(st.batches, keep);
    var next := Do(st, Crash(keep, disk));
    forall i | 0 <= i < |next.batches| ensures BatchOk(next, next.batches[i]) {
      assert next.batches[i] == st.batches[i] && BatchOk(st, st.batches[i]);
    }
  }

  lemma DiskStays(hist: seq<Cmd>, more: seq<Cmd>, d: Disk)
    requires DiskOk(hist, d) && hist <= more
    ensures DiskOk(more, d)
  {
    forall i | d.trunc < i <= d.last ensures d.log[i] == more[i - 1] {
      assert more[i - 1] == hist[i - 1];
    }
  }

  lemma DisksElsewhere(st: State, cmd: Cmd)
    requires DisksInv(st) && Enabled(st, Elsewhere(cmd))
    ensures DisksInv(Do(st, Elsewhere(cmd)))
  {
    var next := Do(st, Elsewhere(cmd));
    forall d | d == st.disk || d in st.survivors ensures DiskOk(next.hist, d) {
      DiskStays(st.hist, next.hist, d);
    }
  }

  lemma DisksStep(st: State, step: Step)
    requires Inv(st) && Enabled(st, step)
    ensures DisksInv(Do(st, step))
  {
    match step {
      case Elsewhere(cmd) =>
        DisksElsewhere(st, cmd);
      case Append(cmd) => DiskStays(st.hist, Do(st, step).hist, st.disk);
      case Apply(_, _) =>
      case Flush(_) =>
      case Truncate =>
      case SnapshotState(_) =>
      case SnapshotReset =>
      case Crash(_, _) =>
    }
  }

  lemma SampledStays(st: State, next: State, a: AppliedSeq)
    requires Sampled(st, a) && st.batches <= next.batches
    ensures Sampled(next, a)
  {
    var i :| 0 <= i < |st.batches| && st.batches[i].index == a.index && st.batches[i].seqno == a.seqno;
    assert next.batches[i] == st.batches[i];
  }

  /** A sample's sequence number is below that of any later batch. */
  lemma SampleBelow(st: State, a: AppliedSeq)
    requires BatchesInv(st) && Sampled(st, a)
    ensures a.seqno < st.nextSeq && (a.index < st.applied ==> a.seqno < LastSeq(st.batches))
  {
    var i :| 0 <= i < |st.batches| && st.batches[i].index == a.index && st.batches[i].seqno == a.seqno;
    assert BatchOk(st, st.batches[i]);
  }

  lemma NotedSamples(st: State, next: State, a: AppliedSeq)
    requires SeqsInv(st) && BatchesInv(st) && st.batches <= next.batches && Sampled(next, a)
    requires st.seqs != [] ==> st.seqs[|st.seqs| - 1].index < a.index && st.seqs[|st.seqs| - 1].seqno < a.seqno
    requires next.seqs == Noted(st.seqs, a.index, a.seqno) && next.applied == a.index && next.resetting.None?
    ensures SeqsInv(next)
  {
    NotedOk(st.seqs, a.index, a.seqno);
    forall i | 0 <= i < |next.seqs| ensures Sampled(next, next.seqs[i]) {
      if i < |next.seqs| - 1 {
        assert next.seqs[i] in st.seqs;
        SampledStays(st, next, next.seqs[i]);
      }
    }
  }

  /** Dropping samples from the front keeps the rest. */
  lemma SamplesStay(st: State, next: State, n: nat)
    requires SeqsInv(st) && st.batches <= next.batches && n <= |st.seqs| && next.seqs == st.seqs[n..]
    requires next.applied >= st.applied && (next.resetting.Some? ==> next.batches != [] && next.resetting == Some(next.applied))
    requires next.resetting == st.resetting || next.applied > st.applied
    ensures SeqsInv(next)
  {
    forall i | 0 <= i < |next.seqs| ensures Sampled(next, next.seqs[i]) {
      SampledStays(st, next, next.seqs[i]);
    }
  }

  lemma SeqsApply(st: State, skip: nat)
    requires Inv(st) && Enabled(st, Apply(skip, true))
    ensures SeqsInv(Do(st, Apply(skip, true)))
  {
    var next := Do(st, Apply(skip, true));
    var a := AppliedSeq(st.applied + 1, st.nextSeq + skip);
    assert next.batches[|st.batches|].index == a.index && next.batches[|st.batches|].seqno == a.seqno;
    if st.seqs != [] {
      SampleBelow(st, st.seqs[|st.seqs| - 1]);
    }
    NotedSamples(st, next, a);
  }

  lemma SeqsReset(st: State)
    requires Inv(st) && Enabled(st, SnapshotReset)
    ensures SeqsInv(Do(st, SnapshotReset))
  {
    var a := AppliedSeq(st.applied, LastSeq(st.batches));
    assert st.batches[|st.batches| - 1].index == a.index;
    if st.seqs != [] {
      SampleBelow(st, st.seqs[|st.seqs| - 1]);
    }
    NotedSamples(st, Do(st, SnapshotReset), a);
  }

  lemma SeqsStep(st: State, step: Step)
    requires Inv(st) && Enabled(st, step)
    ensures SeqsInv(Do(st, step))
  {
    match step {
      case Elsewhere(_) => SamplesStay(st, Do(st, step), 0);
      case Append(_) => SamplesStay(st, Do(st, step), 0);
      case Apply(skip, noted) => if noted { SeqsApply(st, skip); } else { SamplesStay(st, Do(st, step), 0); }
      case Flush(_) => SamplesStay(st, Do(st, step), 0);
      case Truncate => SamplesStay(st, Do(st, step), Covered(st.seqs, st.flushed));
      case SnapshotState(_) => SamplesStay(st, Do(st, step), 0);
      case SnapshotReset => SeqsReset(st);
      case Crash(_, _) =>
    }
  }

  /** durableApplied never exceeds what is flushed. */
  lemma DurableCovered(st: State)
    requires BatchesInv(st) && DurableInv(st) && SeqsInv(st)
    ensures Durable(st.seqs, st.durable, st.flushed) <= Applied(UpTo(st.batches, st.flushed))
  {
    DurableIsFlushed(st.seqs, st.durable, st.flushed);
    var d := Durable(st.seqs, st.durable, st.flushed);
    if d != st.durable {
      var i :| 0 <= i < |st.seqs| && st.seqs[i].index == d && st.seqs[i].seqno <= st.flushed;
      assert Sampled(st, st.seqs[i]);
      var j :| 0 <= j < |st.batches| && st.batches[j].index == d && st.batches[j].seqno == st.seqs[i].seqno;
      FlushedBelow(st.batches, st.flushed, j);
    }
  }

  lemma DurableStep(st: State, step: Step)
    requires Inv(st) && Enabled(st, step)
    ensures DurableInv(Do(st, step))
  {
    match step {
      case Elsewhere(_) =>
      case Append(_) =>
      case Apply(skip, noted) => AddApplied(st, skip, noted);
      case Flush(upTo) => DurableGrows(st.batches, st.flushed, st.batches, upTo);
      case Truncate => DurableCovered(st);
      case SnapshotState(s) => AddSnapshot(st, s);
      case SnapshotReset => FlushedBelow(st.batches, st.flushed, |st.batches| - 1);
      case Crash(keep, _) => CrashKeepsFlushed(st.batches, st.flushed, keep);
    }
  }

  lemma StepKeeps(st: State, step: Step)
    requires Inv(st) && Enabled(st, step)
    ensures Inv(Do(st, step))
  {
    BatchesStep(st, step);
    DisksStep(st, step);
    DurableStep(st, step);
    SeqsStep(st, step);
  }

  lemma {:induction false} RunKeeps(st: State, steps: seq<Step>)
    requires Inv(st) && Runs(st, steps)
    ensures Inv(After(st, steps))
    decreases |steps|
  {
    if steps != [] {
      StepKeeps(st, steps[0]);
      RunKeeps(Do(st, steps[0]), steps[1..]);
    }
  }

  // ---- the theorems ----

  /** After any run, crashes included, the log starts at or below the applied
      index, holds every index above its start, and the machine is where that
      index says. */
  lemma CrashRefinement(st: State, steps: seq<Step>)
    requires Start(st) && Runs(st, steps)
    ensures var end := After(st, steps);
            && end.disk.trunc <= end.applied <= |end.hist| && DiskOk(end.hist, end.disk)
            && Machine(end.batches) == end.hist[..end.applied]
  {
    RunKeeps(st, steps);
    var end := After(st, steps);
    DurableGrows(end.batches, end.flushed, end.batches, LastSeq(end.batches) + end.flushed);
    UpToIs(end.batches, LastSeq(end.batches) + end.flushed);
    if end.batches != [] {
      assert BatchOk(end, end.batches[|end.batches| - 1]);
    }
  }

  lemma ReplayOne(st: State)
    requires Inv(st) && st.resetting.None? && st.disk.trunc <= st.applied < st.disk.last
    ensures Enabled(st, Apply(0, true)) && Inv(Do(st, Apply(0, true)))
    ensures var next := Do(st, Apply(0, true));
            next.disk == st.disk && next.hist == st.hist && next.applied == st.applied + 1 && next.resetting.None?
  {
    StepKeeps(st, Apply(0, true));
  }

  /** Replay then never misses an entry, and rebuilds the state every replica
      has at the same index. */
  lemma {:induction false} ReplayRebuilds(st: State, to: nat) returns (steps: seq<Step>)
    requires Inv(st) && st.resetting.None? && st.disk.trunc <= st.applied <= to <= st.disk.last
    ensures Runs(st, steps) && After(st, steps).applied == to && After(st, steps).hist == st.hist
    ensures Machine(After(st, steps).batches) == st.hist[..to]
    decreases (to as int) - st.applied
  {
    steps := [];
    if st.applied < to {
      ReplayOne(st);
      var rest := ReplayRebuilds(Do(st, Apply(0, true)), to);
      steps := [Apply(0, true)] + rest;
      assert steps[1..] == rest;
    } else if st.batches != [] {
      assert BatchOk(st, st.batches[|st.batches| - 1]);
    }
  }

  // ---- where the log may end short of the state ----

  /** A crash between a snapshot's flush and its log reset that keeps the
      snapshot's state, when the log does not reach that far. */
  ghost predicate Torn(st: State, step: Step) {
    step.Crash? && st.resetting.Some? && LastSeq(st.batches) <= step.keep && step.disk.last < st.resetting.value
  }

  ghost predicate NoTornReset(st: State, steps: seq<Step>)
    requires Runs(st, steps)
    decreases |steps|
  {
    steps != [] ==> !Torn(st, steps[0]) && NoTornReset(Do(st, steps[0]), steps[1..])
  }

  /** The log reaches the applied index; during a reset, that before it. */
  ghost predicate Reaches(st: State) {
    if st.resetting.None? then st.applied <= st.disk.last
    else st.batches != [] && Applied(st.batches[..|st.batches| - 1]) <= st.disk.last
  }

  lemma CrashReaches(st: State, keep: nat, disk: Disk)
    requires Inv(st) && Reaches(st) && Enabled(st, Crash(keep, disk))
    ensures var next := Do(st, Crash(keep, disk));
            next.applied <= next.disk.last <==> !Torn(st, Crash(keep, disk))
  {
    if st.resetting.None? {
      AppliedUpTo(st, keep);
    } else {
      UpToIs(st.batches, keep);
      var u, n := UpTo(st.batches, keep), |st.batches|;
      assert st.batches[n - 1].seqno == LastSeq(st.batches);
      if LastSeq(st.batches) <= keep {
        assert |u| == n && u == st.batches;
      } else if u != [] {
        assert |u| <= n - 1 && u[|u| - 1] == st.batches[|u| - 1] && st.batches[..n - 1][n - 2] == st.batches[n - 2];
      }
    }
  }

  lemma ReachesStep(st: State, step: Step)
    requires Inv(st) && Reaches(st) && Enabled(st, step) && !Torn(st, step)
    ensures Reaches(Do(st, step))
  {
    match step {
      case Elsewhere(_) =>
      case Append(_) =>
      case Apply(_, _) =>
      case Flush(_) =>
      case Truncate =>
      case SnapshotState(s) =>
        var next := Do(st, step).batches;
        assert next[..|next| - 1] == st.batches;
      case SnapshotReset =>
      case Crash(keep, disk) => CrashReaches(st, keep, disk);
    }
  }

  lemma {:induction false} ReachesRun(st: State, steps: seq<Step>)
    requires Inv(st) && Reaches(st) && Runs(st, steps) && NoTornReset(st, steps)
    ensures Inv(After(st, steps)) && Reaches(After(st, steps))
    decreases |steps|
  {
    if steps != [] {
      StepKeeps(st, steps[0]);
      ReachesStep(st, steps[0]);
      ReachesRun(Do(st, steps[0]), steps[1..]);
    }
  }

  lemma AppliedUpTo(st: State, keep: nat)
    requires BatchesInv(st)
    ensures Applied(UpTo(st.batches, keep)) <= st.applied
  {
    UpToIs(st.batches, keep);
    var u := UpTo(st.batches, keep);
    if u != [] {
      assert u[|u| - 1] == st.batches[|u| - 1];
    }
  }

  /** Without a torn reset the log also reaches the applied index, and a crash
      then leaves it doing so if and only if that crash tears no reset. */
  lemma LogReachesApplied(st: State, steps: seq<Step>, keep: nat, disk: Disk)
    requires Start(st) && Runs(st, steps) && NoTornReset(st, steps)
    ensures After(st, steps).resetting.None? ==> After(st, steps).applied <= After(st, steps).disk.last
    ensures Enabled(After(st, steps), Crash(keep, disk)) ==>
              var next := Do(After(st, steps), Crash(keep, disk));
              next.applied <= next.disk.last <==> !Torn(After(st, steps), Crash(keep, disk))
  {
    ReachesRun(st, steps);
    if Enabled(After(st, steps), Crash(keep, disk)) {
      CrashReaches(After(st, steps), keep, disk);
    }
  }

  const Empty: State := State([], Disk(0, 0, map[]), {}, [], 0, 1, 0, [], 0, 0, None)

  /** A crash between the two leaves a state past the end of the log: nothing
      is lost, but there is no entry for raft to resume from. */
  lemma TornResetLeavesGap()
    ensures var steps := [Elsewhere(Data(0)), SnapshotState(1), Flush(1), Crash(1, Disk(0, 0, map[]))];
            && Start(Empty) && Runs(Empty, steps)
            && After(Empty, steps).resetting.None? && After(Empty, steps).disk.last < After(Empty, steps).applied
  {
    var steps := [Elsewhere(Data(0)), SnapshotState(1), Flush(1), Crash(1, Disk(0, 0, map[]))];
    var s1 := Empty.(hist := [Data(0)]);
    var s2 := s1.(batches := [Batch(1, 1, [Data(0)])], nextSeq := 2, applied := 1, resetting := Some(1));
    var s3 := s2.(flushed := 1);
    assert Do(Empty, steps[0]) == s1;
    assert s1.hist[..1] == [Data(0)];
    assert Do(s1, steps[1]) == s2 && Do(s2, steps[2]) == s3;
    var s4 := Do(s3, steps[3]);
    assert UpTo(s3.batches, 1) == s3.batches;
    assert Runs(s4, steps[4..]) && After(s4, steps[4..]) == s4;
    assert steps[3..][1..] == steps[4..] && steps[2..][1..] == steps[3..] && steps[1..][1..] == steps[2..];
    assert Runs(s3, steps[3..]) && After(s3, steps[3..]) == s4;
    assert Runs(s2, steps[2..]) && After(s2, steps[2..]) == s4;
    assert Runs(s1, steps[1..]) && After(s1, steps[1..]) == s4;
  }
}
