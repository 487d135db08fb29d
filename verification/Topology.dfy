/** Range topology (pkg/kvserver/split.go, merge.go, apply.go, replicate.go):
    splits, merges and replica changes are built from a descriptor that may be
    stale by the time they apply, and are refused then by comparing
    generations. One logical copy of every range is modelled, with a pool of
    built changes that never empties: any of them may be delivered at any
    time, in any order, any number of times. */
module Topology {
  import opened Keys

  type RangeId = nat

  /** The keyspace ends. */
  const Lo: Key := Rank(MinKey)
  const Hi: Key := Rank(MaxKey)

  datatype Desc = Desc(id: RangeId, start: Key, end: Key, replicas: set<nat>, gen: nat) {
    predicate Contains(k: Key) { start <= k < end }

    predicate Overlaps(d: Desc) { start < d.end && d.start < end }
  }

  datatype SplitTrigger = SplitTrigger(left: Desc, right: Desc)
  datatype MergeTrigger = MergeTrigger(left: Desc, right: Desc, merged: Desc)

  // ---- what is proposed ----

  /** adminSplit's trigger from the descriptor it saw. */
  function SplitOf(d: Desc, key: Key, newId: RangeId): SplitTrigger {
    SplitTrigger(d.(end := key, gen := d.gen + 1), Desc(newId, key, d.end, d.replicas, d.gen + 1))
  }

  function MergeOf(left: Desc, right: Desc): MergeTrigger {
    var gen := if right.gen > left.gen then right.gen else left.gen;
    MergeTrigger(left, right, left.(end := right.end, gen := gen + 1))
  }

  function ChangeOf(d: Desc, replicas: set<nat>): Desc {
    d.(replicas := replicas, gen := d.gen + 1)
  }

  // ---- what applies ----

  predicate Stale(current: nat, produced: nat) { produced != current + 1 }

  datatype Verdict = Applied | Refused | Fatal

  /** stageSplit and finishSplit. */
  function JudgeSplit(live: map<RangeId, Desc>, t: SplitTrigger): Verdict
    requires t.left.id in live
  {
    if Stale(live[t.left.id].gen, t.left.gen) then Refused else Applied
  }

  /** stageMerge: the base generation on the left; on the right the absorbed
      range must be there, and be what the trigger was built from. */
  function JudgeMerge(live: map<RangeId, Desc>, t: MergeTrigger): Verdict
    requires t.left.id in live
  {
    if live[t.left.id].gen != t.left.gen then Refused
    else if t.right.id !in live then Fatal
    else if live[t.right.id].gen != t.right.gen || live[t.right.id].end != t.merged.end then Refused
    else Applied
  }

  /** The conf-change rule: a repeat of the current descriptor is adopted too. */
  function JudgeChange(live: map<RangeId, Desc>, d: Desc): Verdict
    requires d.id in live
  {
    if Stale(live[d.id].gen, d.gen) && live[d.id] != d then Refused else Applied
  }

  /** A node's replicas, as the three applications change them. */
  class RangeStore {
    var live: map<RangeId, Desc>

    constructor (initial: map<RangeId, Desc>)
      ensures live == initial
    {
      live := initial;
    }

    method ApplySplit(t: SplitTrigger) returns (v: Verdict)
      requires t.left.id in live
      modifies this
      ensures v == JudgeSplit(old(live), t)
      ensures live == if v == Applied then old(live)[t.left.id := t.left][t.right.id := t.right] else old(live)
    {
      if Stale(live[t.left.id].gen, t.left.gen) {
        return Refused;
      }
      live := live[t.left.id := t.left];
      live := live[t.right.id := t.right];
      v := Applied;
    }

    method ApplyMerge(t: MergeTrigger) returns (v: Verdict)
      requires t.left.id in live && t.left.id != t.right.id
      modifies this
      ensures v == JudgeMerge(old(live), t)
      ensures live == if v == Applied then (old(live) - {t.right.id})[t.left.id := t.merged] else old(live)
    {
      if live[t.left.id].gen != t.left.gen {
        return Refused;
      }
      if t.right.id !in live {
        return Fatal;
      }
      var rd := live[t.right.id];
      if rd.gen != t.right.gen || rd.end != t.merged.end {
        return Refused;
      }
      live := live - {t.right.id};
      live := live[t.left.id := t.merged];
      v := Applied;
    }

    method ApplyChange(d: Desc) returns (v: Verdict)
      requires d.id in live
      modifies this
      ensures v == JudgeChange(old(live), d)
      ensures live == if v == Applied then old(live)[d.id := d] else old(live)
    {
      var cur := live[d.id];
      if Stale(cur.gen, d.gen) && cur != d {
        return Refused;
      }
      live := live[d.id := d];
      v := Applied;
    }
  }

  // ---- the protocol ----

  /** History holds every descriptor a range ever had; the rest are the built
      changes, still deliverable, and the replicated id counter. */
  datatype State = State(live: map<RangeId, Desc>, history: set<Desc>, nextId: RangeId,
                         splits: set<SplitTrigger>, merges: set<MergeTrigger>, changes: set<Desc>)

  datatype Step =
    | BuildSplit(base: Desc, key: Key)
    | BuildMerge(left: Desc, right: Desc)
    | BuildChange(base: Desc, replicas: set<nat>)
    | DeliverSplit(split: SplitTrigger)
    | DeliverMerge(merge: MergeTrigger)
    | DeliverChange(change: Desc)

  /** A change is built from any descriptor its range ever had. A merge reads
      the left descriptor first, then finds the right range still present. A
      removed range's log is gone, so nothing is delivered to it. */
  ghost predicate Enabled(st: State, step: Step) {
    match step
    case BuildSplit(base, key) => base in st.history && base.start < key < base.end
    case BuildMerge(left, right) =>
      left in st.history && right in st.history && right.id in st.live && right.start == left.end
    case BuildChange(base, _) => base in st.history
    case DeliverSplit(t) => t in st.splits && t.left.id in st.live
    case DeliverMerge(t) => t in st.merges && t.left.id in st.live
    case DeliverChange(d) => d in st.changes && d.id in st.live
  }

  ghost function Do(st: State, step: Step): State
    requires Enabled(st, step)
  {
    match step
    case BuildSplit(base, key) =>
      st.(nextId := st.nextId + 1, splits := st.splits + {SplitOf(base, key, st.nextId)})
    case BuildMerge(left, right) => st.(merges := st.merges + {MergeOf(left, right)})
    case BuildChange(base, replicas) => st.(changes := st.changes + {ChangeOf(base, replicas)})
    case DeliverSplit(t) =>
      if JudgeSplit(st.live, t) != Applied then st
      else st.(live := st.live[t.left.id := t.left][t.right.id := t.right], history := st.history + {t.left, t.right})
    case DeliverMerge(t) =>
      if JudgeMerge(st.live, t) != Applied then st
      else st.(live := (st.live - {t.right.id})[t.left.id := t.merged], history := st.history + {t.merged})
    case DeliverChange(d) =>
      if JudgeChange(st.live, d) != Applied then st
      else st.(live := st.live[d.id := d], history := st.history + {d})
  }

  /** One range over the whole keyspace. */
  ghost predicate Start(st: State) {
    exists d: Desc ::
      && d.start == Lo && d.end == Hi && st.live == map[d.id := d] && st.history == {d} && d.id < st.nextId
      && st.splits == {} && st.merges == {} && st.changes == {}
  }

  ghost predicate Runs(st: State, steps: seq<Step>)
    decreases |steps|
  {
    steps != [] ==> Enabled(st, steps[0]) && Runs(Do(st, steps[0]), steps[1..])
  }

  ghost function After(st: State, steps: seq<Step>): State
    requires Runs(st, steps)
    decreases |steps|
  {
    if steps == [] then st else After(Do(st, steps[0]), steps[1..])
  }

  // ---- the invariant ----

  /** The live ranges are disjoint and cover the keyspace. */
  ghost predicate Partition(live: map<RangeId, Desc>) {
    && (forall i :: i in live ==> live[i].id == i && Lo <= live[i].start < live[i].end <= Hi)
    && (forall i, j :: i in live && j in live && live[i].Overlaps(live[j]) ==> i == j)
    && (forall k :: Lo <= k < Hi ==> Owned(live, k))
  }

  ghost predicate Owned(live: map<RangeId, Desc>, k: Key) {
    exists i :: i in live && live[i].Contains(k)
  }

  /** Of all descriptors that ever shared a key with a live range, its own has
      the highest generation, and no other has that one. A range keeps its
      start key for life. */
  ghost predicate Newest(st: State) {
    && (forall i :: i in st.live ==> st.live[i] in st.history)
    && (forall d :: d in st.history ==> d.start < d.end && d.id < st.nextId)
    && (forall d, i :: d in st.history && i in st.live ==> Precedes(d, st.live[i]))
  }

  predicate Precedes(d: Desc, cur: Desc) {
    && (d.Overlaps(cur) ==> d.gen < cur.gen || d == cur)
    && (d.id == cur.id ==> d.start == cur.start)
  }

  ghost predicate SplitOk(st: State, t: SplitTrigger) {
    && t.left.id != t.right.id && t.right.id < st.nextId
    && (exists base :: base in st.history && base.start < t.right.start < base.end
                       && t == SplitOf(base, t.right.start, t.right.id))
    // once applied it is stale forever
    && (forall d :: d in st.history && d.id == t.right.id ==>
          t.left.id !in st.live || t.left.gen <= st.live[t.left.id].gen)
  }

  /** While the left range is what the merge was built from, the right range
      is still there. */
  ghost predicate MergeOk(st: State, t: MergeTrigger) {
    && t.left in st.history && t.right in st.history && t == MergeOf(t.left, t.right)
    && t.left.id != t.right.id && t.right.start == t.left.end
    && (t.left.id in st.live && st.live[t.left.id] == t.left ==> t.right.id in st.live)
  }

  ghost predicate ChangeOk(st: State, d: Desc) {
    exists base :: base in st.history && d == ChangeOf(base, d.replicas)
  }

  ghost predicate Pooled(st: State) {
    && (forall t :: t in st.splits ==> SplitOk(st, t))
    && (forall t, u :: t in st.splits && u in st.splits && t.right.id == u.right.id ==> t == u)
    && (forall t :: t in st.merges ==> MergeOk(st, t))
    && (forall d :: d in st.changes ==> ChangeOk(st, d))
  }

  ghost predicate Inv(st: State) {
    Partition(st.live) && Newest(st) && Pooled(st)
  }

  // ---- the generation identifies the descriptor ----

  lemma SameGeneration(st: State, d: Desc)
    requires Partition(st.live) && Newest(st) && d in st.history && d.id in st.live
    ensures d.gen <= st.live[d.id].gen && (d.gen == st.live[d.id].gen ==> d == st.live[d.id])
  {
    assert Precedes(d, st.live[d.id]);
  }

  /** An accepted split was built from the current descriptor, and its right
      side is a range nobody ever had. */
  lemma AcceptedSplit(st: State, t: SplitTrigger)
    requires Inv(st) && Enabled(st, DeliverSplit(t)) && JudgeSplit(st.live, t) == Applied
    ensures var cur := st.live[t.left.id];
            t == SplitOf(cur, t.right.start, t.right.id) && cur.start < t.right.start < cur.end
    ensures t.right.id < st.nextId && t.right.id !in st.live && forall d :: d in st.history ==> d.id != t.right.id
  {
    assert SplitOk(st, t);
    var base :| base in st.history && base.start < t.right.start < base.end
                && t == SplitOf(base, t.right.start, t.right.id);
    SameGeneration(st, base);
  }

  lemma AcceptedMerge(st: State, t: MergeTrigger)
    requires Inv(st) && Enabled(st, DeliverMerge(t)) && JudgeMerge(st.live, t) == Applied
    ensures t.right.id in st.live && t.left == st.live[t.left.id] && t.right == st.live[t.right.id]
    ensures t == MergeOf(t.left, t.right) && t.left.id != t.right.id && t.right.start == t.left.end
  {
    assert MergeOk(st, t);
    SameGeneration(st, t.left);
    SameGeneration(st, t.right);
  }

  lemma AcceptedChange(st: State, d: Desc)
    requires Inv(st) && Enabled(st, DeliverChange(d)) && JudgeChange(st.live, d) == Applied
    ensures d == st.live[d.id] || d == ChangeOf(st.live[d.id], d.replicas)
  {
    assert ChangeOk(st, d);
    var base :| base in st.history && d == ChangeOf(base, d.replicas);
    SameGeneration(st, base);
  }

  // ---- every step keeps the invariant ----

  lemma SplitPartition(live: map<RangeId, Desc>, id: RangeId, key: Key, newId: RangeId)
    requires Partition(live) && id in live && newId !in live && live[id].start < key < live[id].end
    ensures var t := SplitOf(live[id], key, newId);
            Partition(live[id := t.left][newId := t.right])
  {
    var t := SplitOf(live[id], key, newId);
    var next := live[id := t.left][newId := t.right];
    forall k | Lo <= k < Hi ensures Owned(next, k) {
      assert Owned(live, k);
      var i :| i in live && live[i].Contains(k);
      var j := if i != id then i else if k < key then id else newId;
      assert j in next && next[j].Contains(k);
    }
    forall i, j | i in next && j in next && next[i].Overlaps(next[j]) ensures i == j {
      var i' := if i == newId then id else i;
      var j' := if j == newId then id else j;
      assert live[i'].Overlaps(live[j']);
    }
  }

  lemma MergePartition(live: map<RangeId, Desc>, l: RangeId, r: RangeId)
    requires Partition(live) && l in live && r in live && l != r && live[l].end == live[r].start
    ensures Partition((live - {r})[l := MergeOf(live[l], live[r]).merged])
  {
    var merged := MergeOf(live[l], live[r]).merged;
    var next := (live - {r})[l := merged];
    forall k | Lo <= k < Hi ensures Owned(next, k) {
      assert Owned(live, k);
      var i :| i in live && live[i].Contains(k);
      var j := if i == r then l else i;
      assert j in next && next[j].Contains(k);
    }
    forall j | j in next && j != l ensures !merged.Overlaps(next[j]) && !next[j].Overlaps(merged) {
      assert !live[l].Overlaps(live[j]) && !live[r].Overlaps(live[j]);
    }
  }

  lemma ChangePartition(live: map<RangeId, Desc>, d: Desc)
    requires Partition(live) && d.id in live && d.start == live[d.id].start && d.end == live[d.id].end
    ensures Partition(live[d.id := d])
  {
    var next := live[d.id := d];
    forall k | Lo <= k < Hi ensures Owned(next, k) {
      assert Owned(live, k);
      var i :| i in live && live[i].Contains(k);
      assert next[i].Contains(k);
    }
  }

  lemma PartitionStep(st: State, step: Step)
    requires Inv(st) && Enabled(st, step)
    ensures Partition(Do(st, step).live)
  {
    match step {
      case BuildSplit(_, _) =>
      case BuildMerge(_, _) =>
      case BuildChange(_, _) =>
      case DeliverSplit(t) =>
        if JudgeSplit(st.live, t) == Applied {
          AcceptedSplit(st, t);
          SplitPartition(st.live, t.left.id, t.right.start, t.right.id);
        }
      case DeliverMerge(t) =>
        if JudgeMerge(st.live, t) == Applied {
          AcceptedMerge(st, t);
          MergePartition(st.live, t.left.id, t.right.id);
        }
      case DeliverChange(d) =>
        if JudgeChange(st.live, d) == Applied {
          AcceptedChange(st, d);
          ChangePartition(st.live, d);
        }
    }
  }

  lemma SplitNewest(st: State, t: SplitTrigger, d: Desc, i: RangeId)
    requires Inv(st) && Enabled(st, DeliverSplit(t)) && JudgeSplit(st.live, t) == Applied
    requires d in st.history + {t.left, t.right} && i in st.live[t.left.id := t.left][t.right.id := t.right]
    ensures Precedes(d, st.live[t.left.id := t.left][t.right.id := t.right][i])
  {
    AcceptedSplit(st, t);
    var cur := st.live[t.left.id];
    if i == t.left.id || i == t.right.id {
      if d in st.history {
        assert Precedes(d, cur);
      }
    } else {
      assert !cur.Overlaps(st.live[i]);
      if d in st.history {
        assert Precedes(d, st.live[i]);
      }
    }
  }

  lemma MergeNewest(st: State, t: MergeTrigger, d: Desc, i: RangeId)
    requires Inv(st) && Enabled(st, DeliverMerge(t)) && JudgeMerge(st.live, t) == Applied
    requires d in st.history + {t.merged} && i in (st.live - {t.right.id})[t.left.id := t.merged]
    ensures Precedes(d, (st.live - {t.right.id})[t.left.id := t.merged][i])
  {
    AcceptedMerge(st, t);
    if i == t.left.id {
      if d in st.history {
        assert Precedes(d, t.left) && Precedes(d, t.right);
      }
    } else {
      assert !t.left.Overlaps(st.live[i]) && !t.right.Overlaps(st.live[i]);
      if d in st.history {
        assert Precedes(d, st.live[i]);
      }
    }
  }

  lemma ChangeNewest(st: State, c: Desc, d: Desc, i: RangeId)
    requires Inv(st) && Enabled(st, DeliverChange(c)) && JudgeChange(st.live, c) == Applied
    requires d in st.history + {c} && i in st.live[c.id := c]
    ensures Precedes(d, st.live[c.id := c][i])
  {
    AcceptedChange(st, c);
    var cur := st.live[c.id];
    if i == c.id {
      if d in st.history {
        assert Precedes(d, cur);
      }
    } else {
      assert !cur.Overlaps(st.live[i]);
      if d in st.history {
        assert Precedes(d, st.live[i]);
      }
    }
  }

  lemma NewestPair(st: State, step: Step, d: Desc, i: RangeId)
    requires Inv(st) && Enabled(st, step) && d in Do(st, step).history && i in Do(st, step).live
    ensures Precedes(d, Do(st, step).live[i])
  {
    if d in st.history && i in st.live {
      assert Precedes(d, st.live[i]);
    }
    match step {
      case BuildSplit(_, _) =>
      case BuildMerge(_, _) =>
      case BuildChange(_, _) =>
      case DeliverSplit(t) => if JudgeSplit(st.live, t) == Applied { SplitNewest(st, t, d, i); }
      case DeliverMerge(t) => if JudgeMerge(st.live, t) == Applied { MergeNewest(st, t, d, i); }
      case DeliverChange(c) => if JudgeChange(st.live, c) == Applied { ChangeNewest(st, c, d, i); }
    }
  }

  /** How a step changes the live ranges: generations rise, removed ids stay
      removed, and a new descriptor is at once the live one. */
  ghost predicate Advances(st: State, next: State) {
    && st.history <= next.history && st.nextId <= next.nextId
    && (forall i :: i in next.live && i in st.live ==> next.live[i] == st.live[i] || next.live[i].gen > st.live[i].gen)
    && (forall i, d :: i in next.live && i !in st.live && d in st.history ==> d.id != i)
    && (forall d :: d in next.history && d !in st.history ==> d.id in next.live && next.live[d.id] == d)
  }

  lemma AdvanceSplit(st: State, t: SplitTrigger)
    requires Inv(st) && Enabled(st, DeliverSplit(t)) && JudgeSplit(st.live, t) == Applied
    ensures Advances(st, Do(st, DeliverSplit(t)))
  {
    AcceptedSplit(st, t);
    assert SplitOk(st, t);
    SplitAdvances(st, t, Do(st, DeliverSplit(t)));
  }

  lemma SplitAdvances(st: State, t: SplitTrigger, next: State)
    requires t.left.id in st.live && st.live[t.left.id].gen < t.left.gen && t.left.id != t.right.id
    requires t.right.id !in st.live && forall d :: d in st.history ==> d.id != t.right.id
    requires next.live == st.live[t.left.id := t.left][t.right.id := t.right] && next.nextId == st.nextId
    requires next.history == st.history + {t.left, t.right}
    ensures Advances(st, next)
  {
  }

  lemma AdvanceMerge(st: State, t: MergeTrigger)
    requires Inv(st) && Enabled(st, DeliverMerge(t)) && JudgeMerge(st.live, t) == Applied
    ensures Advances(st, Do(st, DeliverMerge(t)))
  {
    AcceptedMerge(st, t);
  }

  lemma AdvanceChange(st: State, d: Desc)
    requires Inv(st) && Enabled(st, DeliverChange(d)) && JudgeChange(st.live, d) == Applied
    ensures Advances(st, Do(st, DeliverChange(d)))
  {
    AcceptedChange(st, d);
  }

  lemma Advance(st: State, step: Step)
    requires Inv(st) && Enabled(st, step)
    ensures Advances(st, Do(st, step))
  {
    match step {
      case BuildSplit(_, _) =>
      case BuildMerge(_, _) =>
      case BuildChange(_, _) =>
      case DeliverSplit(t) => if JudgeSplit(st.live, t) == Applied { AdvanceSplit(st, t); }
      case DeliverMerge(t) => if JudgeMerge(st.live, t) == Applied { AdvanceMerge(st, t); }
      case DeliverChange(d) => if JudgeChange(st.live, d) == Applied { AdvanceChange(st, d); }
    }
  }

  lemma NewestStep(st: State, step: Step)
    requires Inv(st) && Enabled(st, step)
    ensures Newest(Do(st, step))
  {
    var next := Do(st, step);
    PartitionStep(st, step);
    Advance(st, step);
    forall d, i | d in next.history && i in next.live ensures Precedes(d, next.live[i]) {
      NewestPair(st, step, d, i);
    }
    forall i | i in next.live ensures next.live[i] in next.history {
      LiveIsKnown(st, step, i);
    }
    forall d | d in next.history ensures d.start < d.end && d.id < next.nextId {
      if d !in st.history {
        NewIdIsKnown(st, step, d);
      }
    }
  }

  lemma LiveIsKnown(st: State, step: Step, i: RangeId)
    requires Inv(st) && Enabled(st, step) && i in Do(st, step).live
    ensures Do(st, step).live[i] in Do(st, step).history
  {
  }

  lemma NewIdIsKnown(st: State, step: Step, d: Desc)
    requires Inv(st) && Enabled(st, step) && d in Do(st, step).history && d !in st.history
    ensures d.id < Do(st, step).nextId && (d.id in st.live || (step.DeliverSplit? && d == step.split.right))
  {
    match step {
      case DeliverSplit(t) => AcceptedSplit(st, t); assert st.live[t.left.id] in st.history;
      case DeliverMerge(t) => AcceptedMerge(st, t); assert st.live[t.left.id] in st.history;
      case DeliverChange(c) => assert st.live[c.id] in st.history;
    }
  }

  lemma SplitOkStays(st: State, step: Step, t: SplitTrigger)
    requires Inv(st) && Enabled(st, step) && t in st.splits
    ensures SplitOk(Do(st, step), t)
  {
    var next := Do(st, step);
    assert SplitOk(st, t);
    Advance(st, step);
    var base :| base in st.history && base.start < t.right.start < base.end
                && t == SplitOf(base, t.right.start, t.right.id);
    assert base in next.history;
    forall d | d in next.history && d.id == t.right.id
      ensures t.left.id !in next.live || t.left.gen <= next.live[t.left.id].gen {
      if d !in st.history {
        NewRightIsApplied(st, step, t, d);
      }
    }
  }

  /** A descriptor with a trigger's right id appears when that trigger applies. */
  lemma NewRightIsApplied(st: State, step: Step, t: SplitTrigger, d: Desc)
    requires Inv(st) && Enabled(st, step) && t in st.splits
    requires d in Do(st, step).history && d !in st.history && d.id == t.right.id
    ensures var next := Do(st, step);
            t.left.id !in next.live || t.left.gen <= next.live[t.left.id].gen
  {
    assert SplitOk(st, t);
    Advance(st, step);
    NewIdIsKnown(st, step, d);
    if d.id in st.live {
      assert st.live[d.id] in st.history && st.live[d.id].id == t.right.id;
    } else {
      assert t == step.split;
    }
  }

  lemma MergeOkStays(st: State, step: Step, t: MergeTrigger)
    requires Inv(st) && Enabled(st, step) && t in st.merges
    ensures MergeOk(Do(st, step), t)
  {
    var next := Do(st, step);
    assert MergeOk(st, t);
    Advance(st, step);
    if t.left.id in next.live && next.live[t.left.id] == t.left {
      assert t.left.id in st.live;
      SameGeneration(st, t.left);
      RightStays(st, step, t);
    }
  }

  lemma RightStays(st: State, step: Step, t: MergeTrigger)
    requires Inv(st) && Enabled(st, step) && t in st.merges
    requires t.left.id in st.live && st.live[t.left.id] == t.left
    requires t.left.id in Do(st, step).live && Do(st, step).live[t.left.id] == t.left
    ensures t.right.id in Do(st, step).live
  {
    assert MergeOk(st, t);
    if step.DeliverMerge? && step.merge.right.id == t.right.id {
      AbsorberIsLeft(st, step.merge, t);
      if JudgeMerge(st.live, step.merge) == Applied {
        AcceptedMerge(st, step.merge);
      }
    }
  }

  /** Only the range that ends where the right range starts can absorb it. */
  lemma AbsorberIsLeft(st: State, u: MergeTrigger, t: MergeTrigger)
    requires Inv(st) && Enabled(st, DeliverMerge(u)) && t in st.merges && u.right.id == t.right.id
    requires t.left.id in st.live && st.live[t.left.id] == t.left && t.right.id in st.live
    ensures JudgeMerge(st.live, u) == Applied ==> u.left.id == t.left.id
  {
    assert MergeOk(st, t) && MergeOk(st, u);
    if JudgeMerge(st.live, u) == Applied {
      AcceptedMerge(st, u);
      assert Precedes(t.right, st.live[t.right.id]);
      assert st.live[u.left.id].Overlaps(st.live[t.left.id]);
    }
  }

  lemma SplitsStep(st: State, step: Step)
    requires Inv(st) && Enabled(st, step)
    ensures var next := Do(st, step);
            && (forall t :: t in next.splits ==> SplitOk(next, t))
            && (forall t, u :: t in next.splits && u in next.splits && t.right.id == u.right.id ==> t == u)
  {
    var next := Do(st, step);
    forall t | t in next.splits ensures SplitOk(next, t) {
      if t in st.splits {
        SplitOkStays(st, step, t);
      } else {
        SplitOkNew(st, step, t);
      }
    }
    SplitsDistinct(st, step);
  }

  lemma SplitOkNew(st: State, step: Step, t: SplitTrigger)
    requires Newest(st) && Enabled(st, step) && t in Do(st, step).splits && t !in st.splits
    ensures SplitOk(Do(st, step), t) && t.right.id == st.nextId
  {
    assert step.BuildSplit? && t == SplitOf(step.base, step.key, st.nextId) && step.base in Do(st, step).history;
  }

  lemma SplitsDistinct(st: State, step: Step)
    requires Inv(st) && Enabled(st, step)
    ensures var next := Do(st, step);
            forall t, u :: t in next.splits && u in next.splits && t.right.id == u.right.id ==> t == u
  {
    var next := Do(st, step);
    if step.BuildSplit? {
      forall t | t in st.splits ensures t.right.id < st.nextId {
        assert SplitOk(st, t);
      }
    } else {
      assert next.splits == st.splits;
    }
  }

  lemma ChangeOkStays(st: State, step: Step, d: Desc)
    requires Inv(st) && Enabled(st, step) && d in Do(st, step).changes
    ensures ChangeOk(Do(st, step), d)
  {
    Advance(st, step);
    if d in st.changes {
      assert ChangeOk(st, d);
      var base :| base in st.history && d == ChangeOf(base, d.replicas);
      assert base in Do(st, step).history;
    } else {
      assert step.base in Do(st, step).history && d == ChangeOf(step.base, d.replicas);
    }
  }

  lemma PooledStep(st: State, step: Step)
    requires Inv(st) && Enabled(st, step)
    ensures Pooled(Do(st, step))
  {
    var next := Do(st, step);
    SplitsStep(st, step);
    forall t | t in next.merges ensures MergeOk(next, t) {
      if t in st.merges {
        MergeOkStays(st, step, t);
      }
    }
    forall d | d in next.changes ensures ChangeOk(next, d) {
      ChangeOkStays(st, step, d);
    }
  }

  lemma StepKeeps(st: State, step: Step)
    requires Inv(st) && Enabled(st, step)
    ensures Inv(Do(st, step))
  {
    PartitionStep(st, step);
    NewestStep(st, step);
    PooledStep(st, step);
  }

  lemma {:induction false} RunKeeps(st: State, steps: seq<Step>)
    requires Inv(st) && Runs(st, steps)
    ensures Inv(After(st, steps))
    decreases |steps|
  {
    if steps != [] {
      StepKeeps(st, steps[0]);
      RunKeeps(Do(st, steps[0]), steps[1..]);
    }
  }

  lemma StartHolds(st: State)
    requires Start(st)
    ensures Inv(st)
  {
    var d: Desc :| d.start == Lo && d.end == Hi && st.live == map[d.id := d] && st.history == {d} && d.id < st.nextId
                   && st.splits == {} && st.merges == {} && st.changes == {};
    RankOrder(MinKey, MaxKey);
    forall k | Lo <= k < Hi ensures Owned(st.live, k) {
      assert d.id in st.live && st.live[d.id].Contains(k);
    }
  }

  // ---- the theorems ----

  ghost predicate SoleOwner(live: map<RangeId, Desc>, i: RangeId, k: Key) {
    i in live && live[i].Contains(k) && forall j :: j in live && live[j].Contains(k) ==> j == i
  }

  lemma SoleOwnerOf(live: map<RangeId, Desc>, i: RangeId, k: Key)
    requires Partition(live) && i in live && live[i].Contains(k)
    ensures SoleOwner(live, i, k)
  {
    forall j | j in live && live[j].Contains(k) ensures j == i {
      assert live[j].Overlaps(live[i]);
    }
  }

  /** Over every run of stale and reordered changes the live ranges partition
      the keyspace: each key is in exactly one of them. */
  lemma KeyspacePartition(st: State, steps: seq<Step>, k: Key)
    requires Start(st) && Runs(st, steps) && Lo <= k < Hi
    ensures exists i :: SoleOwner(After(st, steps).live, i, k)
  {
    StartHolds(st);
    RunKeeps(st, steps);
    var live := After(st, steps).live;
    assert Owned(live, k);
    var i :| i in live && live[i].Contains(k);
    SoleOwnerOf(live, i, k);
  }

  /** A merge that passes the generation check always finds the range it
      absorbs: the fatal branch is dead. */
  lemma MergeNeverFatal(st: State, steps: seq<Step>, t: MergeTrigger)
    requires Start(st) && Runs(st, steps) && Enabled(After(st, steps), DeliverMerge(t))
    ensures JudgeMerge(After(st, steps).live, t) != Fatal
  {
    StartHolds(st);
    RunKeeps(st, steps);
    var end := After(st, steps);
    assert MergeOk(end, t);
    SameGeneration(end, t.left);
  }

  // ---- generations ----

  /** The step's effect on the range that covers a key. */
  lemma OwnerStep(st: State, step: Step, i: RangeId, j: RangeId, k: Key)
    requires Inv(st) && Enabled(st, step) && i in st.live && st.live[i].Contains(k)
    requires j in Do(st, step).live && Do(st, step).live[j].Contains(k)
    ensures Do(st, step).live[j] == st.live[i] || Do(st, step).live[j].gen > st.live[i].gen
  {
    StepKeeps(st, step);
    Advance(st, step);
    var next := Do(st, step);
    assert st.live[i] in next.history;
    assert Precedes(st.live[i], next.live[j]);
  }

  ghost function Owner(live: map<RangeId, Desc>, k: Key): Desc
    requires Partition(live) && Lo <= k < Hi
  {
    assert Owned(live, k);
    var i :| i in live && live[i].Contains(k);
    live[i]
  }

  lemma {:induction false} OwnerRun(st: State, steps: seq<Step>, k: Key)
    requires Inv(st) && Runs(st, steps) && Lo <= k < Hi && Partition(After(st, steps).live)
    ensures Owner(After(st, steps).live, k) == Owner(st.live, k) ||
            Owner(After(st, steps).live, k).gen > Owner(st.live, k).gen
    decreases |steps|
  {
    if steps != [] {
      StepKeeps(st, steps[0]);
      var next := Do(st, steps[0]);
      OwnerStep(st, steps[0], Owner(st.live, k).id, Owner(next.live, k).id, k);
      OwnerRun(next, steps[1..], k);
    }
  }

  lemma {:induction false} AfterConcat(st: State, a: seq<Step>, b: seq<Step>)
    requires Runs(st, a + b)
    ensures Runs(st, a) && Runs(After(st, a), b) && After(st, a + b) == After(After(st, a), b)
    decreases |a|
  {
    if a == [] {
      assert a + b == b;
    } else {
      assert (a + b)[1..] == a[1..] + b && (a + b)[0] == a[0];
      AfterConcat(Do(st, a[0]), a[1..], b);
    }
  }

  /** Between any two points of any run, the generation of the range covering
      a key never falls, and it rises if that range's descriptor changed. */
  lemma GenerationMonotone(st: State, a: seq<Step>, b: seq<Step>, k: Key)
    requires Start(st) && Runs(st, a + b) && Lo <= k < Hi
    ensures Runs(st, a) && Partition(After(st, a).live) && Partition(After(st, a + b).live)
    ensures var before, after := Owner(After(st, a).live, k), Owner(After(st, a + b).live, k);
            before.gen <= after.gen && (before != after ==> before.gen < after.gen)
  {
    AfterConcat(st, a, b);
    StartHolds(st);
    RunKeeps(st, a);
    RunKeeps(After(st, a), b);
    OwnerRun(After(st, a), b, k);
  }

  /** Every two descriptors that ever shared a key have different generations. */
  ghost predicate Ordered(history: set<Desc>) {
    forall d, e :: d in history && e in history ==> Distinct(d, e)
  }

  predicate Distinct(d: Desc, e: Desc) {
    d.Overlaps(e) && d.gen == e.gen ==> d == e
  }

  ghost predicate AllRise(before: set<Desc>, after: set<Desc>) {
    forall d, e :: d in before && e in after && e !in before ==> Rises(d, e)
  }

  lemma OrderedStep(st: State, step: Step)
    requires Inv(st) && Ordered(st.history) && Enabled(st, step)
    ensures Ordered(Do(st, step).history) && AllRise(st.history, Do(st, step).history)
  {
    var next := Do(st, step);
    StepKeeps(st, step);
    Advance(st, step);
    forall d, e | d in next.history && e in next.history && e !in st.history ensures Rises(d, e) || d == e {
      assert Precedes(d, next.live[e.id]);
    }
    forall d, e | d in next.history && e in next.history ensures Distinct(d, e) {
      assert e !in st.history ==> Rises(d, e) || d == e;
      assert d !in st.history ==> Rises(e, d) || d == e;
    }
  }

  lemma {:induction false} OrderedRun(st: State, steps: seq<Step>)
    requires Inv(st) && Ordered(st.history) && Runs(st, steps)
    ensures Ordered(After(st, steps).history) && st.history <= After(st, steps).history
    ensures AllRise(st.history, After(st, steps).history)
    decreases |steps|
  {
    if steps != [] {
      var next := Do(st, steps[0]);
      StepKeeps(st, steps[0]);
      OrderedStep(st, steps[0]);
      assert st.history <= next.history by { Advance(st, steps[0]); }
      OrderedRun(next, steps[1..]);
    }
  }

  /** e is newer than d where they meet. */
  predicate Rises(d: Desc, e: Desc) { d.Overlaps(e) ==> d.gen < e.gen }

  /** Over every run, generations order the descriptors that ever covered a
      common key, and one adopted later is newer. */
  lemma LaterIsNewer(st: State, a: seq<Step>, b: seq<Step>)
    requires Start(st) && Runs(st, a + b)
    ensures Runs(st, a) && Ordered(After(st, a + b).history)
    ensures AllRise(After(st, a).history, After(st, a + b).history)
  {
    AfterConcat(st, a, b);
    StartHolds(st);
    RunKeeps(st, a);
    OrderedRun(st, a);
    OrderedRun(After(st, a), b);
  }

  /** The wait in proposeConfChange: a range seen at the produced generation
      with the produced membership has adopted the change, so the removal that
      may follow is built from an adopted descriptor too. */
  lemma SeenChangeIsAdopted(st: State, steps: seq<Step>, base: Desc, replicas: set<nat>, cur: Desc)
    requires Start(st) && Runs(st, steps)
    requires base in After(st, steps).history && cur in After(st, steps).history && base.replicas != replicas
    requires cur.id == base.id && cur.gen == base.gen + 1 && cur.replicas == replicas
    ensures cur == ChangeOf(base, replicas)
  {
    StartHolds(st);
    LinkedRun(st, steps);
    assert Linked(base, cur);
  }

  /** Consecutive generations of one range: a split and a merge keep the
      membership, a replica change keeps the bounds. */
  predicate Linked(d: Desc, e: Desc) {
    d.id == e.id && e.gen == d.gen + 1 ==> e.replicas == d.replicas || e == ChangeOf(d, e.replicas)
  }

  ghost predicate AllLinked(history: set<Desc>) {
    forall d, e :: d in history && e in history ==> Linked(d, e)
  }

  lemma LinkedStep(st: State, step: Step, d: Desc, e: Desc)
    requires Inv(st) && Enabled(st, step) && d in st.history && e in Do(st, step).history && e !in st.history
    ensures d.id == e.id && e.gen == d.gen + 1 ==> e.replicas == d.replicas || e == ChangeOf(d, e.replicas)
  {
    if d.id in st.live {
      SameGeneration(st, d);
    }
    match step {
      case DeliverSplit(t) => AcceptedSplit(st, t);
      case DeliverMerge(t) => AcceptedMerge(st, t);
      case DeliverChange(c) => AcceptedChange(st, c);
    }
  }

  lemma {:induction false} LinkedRun(st: State, steps: seq<Step>)
    requires Inv(st) && AllLinked(st.history) && Runs(st, steps)
    ensures AllLinked(After(st, steps).history)
    decreases |steps|
  {
    if steps != [] {
      var next := Do(st, steps[0]);
      StepKeeps(st, steps[0]);
      Advance(st, steps[0]);
      forall d, e | d in next.history && e in next.history ensures Linked(d, e) {
        if d !in st.history {
          assert Precedes(e, next.live[d.id]);
        } else if e !in st.history {
          LinkedStep(st, steps[0], d, e);
        } else {
          assert Linked(d, e);
        }
      }
      LinkedRun(next, steps[1..]);
    }
  }
}
