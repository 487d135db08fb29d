/** How a range's leader serves reads and writes (pkg/kvserver/replica.go,
    Execute and proposeCmd; closedts.go, publishClosedTimestamp), as
    interleaved steps: acquire a latch, bump or check the timestamp cache,
    evaluate or propose, apply, release.

    The cache decides by TsCaches.Allows, which TsCache.AllowsWrite is proved
    to compute, and latches by the conflict rule Latches.Conflict states.

    Hypotheses of the run, both from the source's own comments: a new leader's
    cache floor is at or above every timestamp served or promised before it
    (the HLC of the new leader), and it serves only after applying the log it
    inherited. A caller whose context ends leaves its proposal behind
    (Abandon); the theorems say exactly what that costs. */
module Serving {
  import opened Keys
  import opened Hlc
  import opened Spans
  import opened TsCaches

  type OpId = nat

  datatype Phase = Latched | Bumped | Checked | Proposed | Done

  /** A request holding its latch. writes are the MVCC write spans, all of them
      latched; ts of a write is the timestamp it was admitted at once checked. */
  datatype Op =
    | ReadOp(spans: seq<Span>, ts: Timestamp, txn: TxnId, phase: Phase)
    | WriteOp(spans: seq<Span>, writes: seq<Span>, ts: Timestamp, txn: TxnId, phase: Phase)
    | CloseOp(t: Timestamp, phase: Phase)
  {
    function Held(): seq<Span> {
      if CloseOp? then [WholeRange] else spans
    }
  }

  /** Log entries: MVCC writes, closed-timestamp promises, and commands that
      write no MVCC version and skip the cache (EndTxn, pushes, resolves). */
  datatype Entry =
    | Write(id: OpId, writes: seq<Span>, ts: Timestamp, txn: TxnId)
    | Closed(t: Timestamp)
    | Exempt

  /** A read that was evaluated, after `at` entries had applied. orphans are
      the proposals that were abandoned but still in flight at that moment. */
  datatype Served = Served(spans: seq<Span>, ts: Timestamp, txn: TxnId, at: nat, orphans: set<OpId>)

  datatype State = State(
    ops: map<OpId, Op>,
    used: set<OpId>,
    floor: Timestamp,
    history: set<Read>,
    log: seq<Entry>,
    applied: nat,
    served: set<Served>,
    orphaned: set<OpId>,
    promises: set<Timestamp>)  // bumped, released, not yet proposed

  const Start := State(map[], {}, 0, {}, [], 0, {}, {}, {})

  datatype Step =
    | Acquire(id: OpId, op: Op)
    | Bump(id: OpId)
    | Evaluate(id: OpId)
    | Check(id: OpId, at: Timestamp)
    | Propose(id: OpId)
    | ProposeClosed(t: Timestamp)
    | ProposeExempt
    | Apply
    | Release(id: OpId)
    | Abandon(id: OpId)
    | NewLeader(keep: nat, newFloor: Timestamp)

  // ---- what the steps compare ----

  ghost predicate Meet(a: seq<Span>, b: seq<Span>) {
    exists i, j :: 0 <= i < |a| && 0 <= j < |b| && Overlaps(a[i], b[j])
  }

  predicate Exclusive(op: Op) { op.WriteOp? }

  ghost predicate OpsConflict(a: Op, b: Op) {
    (Exclusive(a) || Exclusive(b)) && Meet(a.Held(), b.Held())
  }

  /** checkKeyBounds: a span of the addressable keyspace. */
  predicate InKeyspace(s: Span) {
    WholeRange.start <= s.start < WholeRange.end && Proper(s)
  }

  ghost predicate WellFormed(op: Op) {
    && op.phase == Latched
    && (op.WriteOp? ==>
          && (forall i :: 0 <= i < |op.writes| ==> op.writes[i] in op.spans)
          && (forall i :: 0 <= i < |op.spans| ==> InKeyspace(op.spans[i]))
          && op.spans != [])
  }

  ghost predicate Enabled(st: State, step: Step) {
    match step
    case Acquire(id, op) =>
      && id !in st.used && WellFormed(op)
      && forall o :: o in st.ops ==> !OpsConflict(op, st.ops[o])
    case Bump(id) =>
      id in st.ops && !st.ops[id].WriteOp? && st.ops[id].phase == Latched
    case Evaluate(id) =>
      id in st.ops && st.ops[id].ReadOp? && st.ops[id].phase == Bumped
    case Check(id, at) =>
      && id in st.ops && st.ops[id].WriteOp? && st.ops[id].phase == Latched
      && st.ops[id].ts <= at
      && Allows(st.floor, st.history, st.ops[id].writes, at, st.ops[id].txn)
    case Propose(id) =>
      id in st.ops && st.ops[id].WriteOp? && st.ops[id].phase == Checked
    case ProposeClosed(t) =>
      t in st.promises
    case ProposeExempt =>
      true
    case Apply =>
      st.applied < |st.log|
    case Release(id) =>
      id in st.ops && st.ops[id].phase != Proposed
    case Abandon(id) =>
      id in st.ops && st.ops[id].phase == Proposed
    case NewLeader(keep, newFloor) =>
      && st.applied <= keep <= |st.log|
      && (forall s :: s in st.served ==> s.ts <= newFloor)
      && (forall i :: 0 <= i < |st.log| && st.log[i].Closed? ==> st.log[i].t <= newFloor)
  }

  function WithPhase(op: Op, p: Phase): Op {
    match op
    case ReadOp(s, ts, x, _) => ReadOp(s, ts, x, p)
    case WriteOp(s, w, ts, x, _) => WriteOp(s, w, ts, x, p)
    case CloseOp(t, _) => CloseOp(t, p)
  }

  function Admitted(op: Op, at: Timestamp): Op
    requires op.WriteOp?
  {
    WriteOp(op.spans, op.writes, at, op.txn, Checked)
  }

  ghost function Do(st: State, step: Step): State
    requires Enabled(st, step)
  {
    match step
    case Acquire(id, op) =>
      st.(ops := st.ops[id := op], used := st.used + {id})
    case Bump(id) =>
      var op := st.ops[id];
      if op.ReadOp? then
        st.(ops := st.ops[id := WithPhase(op, Bumped)],
            history := st.history + SpanReads(op.spans, op.ts, op.txn))
      else
        st.(ops := st.ops[id := WithPhase(op, Bumped)],
            floor := Forward(st.floor, op.t))
    case Evaluate(id) =>
      var op := st.ops[id];
      st.(ops := st.ops[id := WithPhase(op, Done)],
          served := st.served + {Served(op.spans, op.ts, op.txn, st.applied, st.orphaned)})
    case Check(id, at) =>
      st.(ops := st.ops[id := Admitted(st.ops[id], at)])
    case Propose(id) =>
      var op := st.ops[id];
      st.(ops := st.ops[id := WithPhase(op, Proposed)],
          log := st.log + [Write(id, op.writes, op.ts, op.txn)])
    case ProposeClosed(t) =>
      st.(log := st.log + [Closed(t)], promises := st.promises - {t})
    case ProposeExempt =>
      st.(log := st.log + [Exempt])
    case Apply =>
      var e := st.log[st.applied];
      st.(applied := st.applied + 1,
          ops := if e.Write? && e.id in st.ops then st.ops[e.id := WithPhase(st.ops[e.id], Done)] else st.ops)
    case Release(id) =>
      var op := st.ops[id];
      st.(ops := st.ops - {id},
          promises := if op.CloseOp? && op.phase == Bumped then st.promises + {op.t} else st.promises)
    case Abandon(id) =>
      st.(ops := st.ops - {id}, orphaned := st.orphaned + {id})
    case NewLeader(keep, newFloor) =>
      st.(ops := map[], floor := newFloor, history := {}, log := st.log[..keep], applied := keep, promises := {})
  }

  // ---- what every reachable state keeps ----

  /** The entry's write lies above the read: later, or at the same timestamp
      and by the same transaction. */
  predicate Above(wts: Timestamp, wtxn: TxnId, s: Served) {
    s.ts < wts || (s.ts == wts && wtxn != NoTxn && wtxn == s.txn)
  }

  ghost predicate LatchesExclude(st: State) {
    forall a, b :: a in st.ops && b in st.ops && a != b ==> !OpsConflict(st.ops[a], st.ops[b])
  }

  ghost predicate OpsShaped(st: State) {
    forall o :: o in st.ops ==> o in st.used && o !in st.orphaned && WellFormed(WithPhase(st.ops[o], Latched))
  }

  ghost predicate InFlightLatched(st: State) {
    && st.applied <= |st.log|
    && forall i :: st.applied <= i < |st.log| && st.log[i].Write? ==>
         st.log[i].id in st.orphaned ||
         (st.log[i].id in st.ops && st.ops[st.log[i].id].WriteOp? && st.ops[st.log[i].id].writes == st.log[i].writes)
  }

  /** Every served read is remembered by the cache. */
  ghost predicate ServedRemembered(st: State) {
    && (forall s :: s in st.served ==> s.ts <= st.floor || SpanReads(s.spans, s.ts, s.txn) <= st.history)
    && (forall o :: o in st.ops && st.ops[o].ReadOp? && st.ops[o].phase == Bumped ==>
          SpanReads(st.ops[o].spans, st.ops[o].ts, st.ops[o].txn) <= st.history)
  }

  /** Writes admitted but not yet proposed are above every read served on
      their spans. */
  ghost predicate AdmittedAbove(st: State) {
    forall s, o :: s in st.served && o in st.ops && st.ops[o].WriteOp? && st.ops[o].phase == Checked &&
                   Meet(s.spans, st.ops[o].writes) ==>
                   Above(st.ops[o].ts, st.ops[o].txn, s)
  }

  /** Writes logged after a read was served are above it, orphans aside. */
  ghost predicate LoggedAbove(st: State) {
    forall s, i :: s in st.served && s.at <= i < |st.log| && st.log[i].Write? &&
                   st.log[i].id !in s.orphans && Meet(s.spans, st.log[i].writes) ==>
                   Above(st.log[i].ts, st.log[i].txn, s)
  }

  ghost predicate ServedPlaced(st: State) {
    && st.orphaned <= st.used
    && forall s :: s in st.served ==> s.at <= st.applied && s.orphans <= st.orphaned
  }

  /** A timestamp that no later write may reach: promised in the log, or about
      to be. */
  ghost predicate Promised(st: State, t: Timestamp) {
    || t in st.promises
    || (exists i :: 0 <= i < |st.log| && st.log[i] == Closed(t))
    || (exists o :: o in st.ops && st.ops[o] == CloseOp(t, Bumped))
  }

  ghost predicate PromisesHeld(st: State) {
    && (forall t: Timestamp :: Promised(st, t) ==> t <= st.floor)
    && (forall t: Timestamp, o :: Promised(st, t) && o in st.ops && st.ops[o].WriteOp? && st.ops[o].phase == Checked ==>
          t < st.ops[o].ts)
  }

  ghost predicate ClosedRespected(log: seq<Entry>) {
    forall i, j :: 0 <= i < j < |log| && log[i].Closed? && log[j].Write? ==> log[i].t < log[j].ts
  }

  // ---- steps ----

  lemma MeetSymmetric(a: seq<Span>, b: seq<Span>)
    ensures Meet(a, b) <==> Meet(b, a)
  {
    if Meet(a, b) {
      var i, j :| 0 <= i < |a| && 0 <= j < |b| && Overlaps(a[i], b[j]);
      assert Overlaps(b[j], a[i]);
    }
    if Meet(b, a) {
      var i, j :| 0 <= i < |b| && 0 <= j < |a| && Overlaps(b[i], a[j]);
      assert Overlaps(a[j], b[i]);
    }
  }

  /** A write meeting held spans with its writes meets them with its latch. */
  lemma WritesAreLatched(held: seq<Span>, op: Op)
    requires op.WriteOp? && WellFormed(WithPhase(op, Latched)) && Meet(held, op.writes)
    ensures Meet(held, op.Held())
  {
    var i, j :| 0 <= i < |held| && 0 <= j < |op.writes| && Overlaps(held[i], op.writes[j]);
    var k :| 0 <= k < |op.spans| && op.spans[k] == op.writes[j];
    assert Overlaps(held[i], op.spans[k]);
  }

  /** The cache rule applied to a served read. */
  lemma AllowedIsAbove(st: State, s: Served, writes: seq<Span>, ts: Timestamp, txn: TxnId)
    requires Allows(st.floor, st.history, writes, ts, txn)
    requires s.ts <= st.floor || SpanReads(s.spans, s.ts, s.txn) <= st.history
    requires Meet(s.spans, writes)
    ensures Above(ts, txn, s)
  {
    if st.floor < s.ts {
      var i, j :| 0 <= i < |s.spans| && 0 <= j < |writes| && Overlaps(s.spans[i], writes[j]);
      var r := Read(s.spans[i], s.ts, s.txn);
      assert r in SpanReads(s.spans, s.ts, s.txn);
      assert OverlapsAny(r.span, writes);
      assert Clear(r, ts, txn);
    }
  }

  // Each step is taken through three groups of the invariant.

  ghost predicate LatchInv(st: State) {
    LatchesExclude(st) && OpsShaped(st) && InFlightLatched(st) && InFlightProposed(st) && IdsDistinct(st)
  }

  ghost predicate ReadInv(st: State) {
    ServedRemembered(st) && AdmittedAbove(st) && LoggedAbove(st) && ServedPlaced(st)
  }

  ghost predicate PromiseInv(st: State) {
    PromisesHeld(st) && ClosedRespected(st.log)
  }

  /** Every unapplied write that still holds its latch is Proposed. */
  ghost predicate InFlightProposed(st: State) {
    forall i :: st.applied <= i < |st.log| && st.log[i].Write? && st.log[i].id in st.ops ==>
      st.ops[st.log[i].id].phase == Proposed
  }

  /** Entry ids are distinct, and an op that has not proposed has no entry. */
  ghost predicate IdsDistinct(st: State) {
    && (forall i, j :: 0 <= i < j < |st.log| && st.log[i].Write? && st.log[j].Write? ==> st.log[i].id != st.log[j].id)
    && (forall i :: 0 <= i < |st.log| && st.log[i].Write? ==>
          st.log[i].id in st.used &&
          (st.log[i].id in st.ops ==> st.ops[st.log[i].id].phase in {Proposed, Done}))
  }

  ghost predicate Good(st: State) {
    LatchInv(st) && ReadInv(st) && PromiseInv(st)
  }

  // -- latches --

  /** Steps other than Acquire leave no op with other spans than it had. */
  ghost predicate OpsNarrow(st: State, st': State) {
    forall o :: o in st'.ops ==> o in st.ops && st'.ops[o].Held() == st.ops[o].Held() &&
                                 (Exclusive(st'.ops[o]) <==> Exclusive(st.ops[o]))
  }

  lemma NarrowKeepsExclusion(st: State, st': State)
    requires LatchesExclude(st) && OpsNarrow(st, st')
    ensures LatchesExclude(st')
  {
    forall a, b | a in st'.ops && b in st'.ops && a != b ensures !OpsConflict(st'.ops[a], st'.ops[b]) {
      assert !OpsConflict(st.ops[a], st.ops[b]);
    }
  }

  lemma AcquireKeepsExclusion(st: State, id: OpId, op: Op)
    requires LatchesExclude(st) && Enabled(st, Acquire(id, op))
    ensures LatchesExclude(Do(st, Acquire(id, op)))
  {
    forall o | o in st.ops ensures !OpsConflict(st.ops[o], op) {
      MeetSymmetric(op.Held(), st.ops[o].Held());
    }
  }

  lemma ShapesKeep(st: State, step: Step)
    requires LatchInv(st) && ServedPlaced(st) && Enabled(st, step)
    ensures OpsShaped(Do(st, step))
  {
    match step {
      case Acquire(_, op) => assert WithPhase(op, Latched) == op;
      case Bump(_) =>
      case Evaluate(_) =>
      case Check(_, _) =>
      case Propose(_) =>
      case ProposeClosed(_) =>
      case ProposeExempt =>
      case Apply =>
      case Release(_) =>
      case Abandon(_) =>
      case NewLeader(_, _) =>
    }
  }

  lemma LogGrows(st: State, step: Step, i: nat)
    requires Enabled(st, step) && i < |Do(st, step).log|
    ensures i < |st.log| ==> Do(st, step).log[i] == st.log[i]
    ensures i >= |st.log| && Do(st, step).log[i].Write? ==>
            i == |st.log| && step == Propose(Do(st, step).log[i].id)
  {
  }

  lemma InFlightKeeps(st: State, step: Step)
    requires LatchInv(st) && Enabled(st, step)
    ensures InFlightLatched(Do(st, step)) && InFlightProposed(Do(st, step))
  {
    var st' := Do(st, step);
    forall i | st'.applied <= i < |st'.log| && st'.log[i].Write?
      ensures st'.log[i].id in st'.orphaned ||
              (st'.log[i].id in st'.ops && st'.ops[st'.log[i].id].WriteOp? &&
               st'.ops[st'.log[i].id].writes == st'.log[i].writes)
      ensures st'.log[i].id in st'.ops ==> st'.ops[st'.log[i].id].phase == Proposed
    {
      LogGrows(st, step, i);
      if i < |st.log| && step.Apply? {
        assert st.log[st.applied].Write? ==> st.log[st.applied].id != st.log[i].id;
      }
    }
  }

  lemma IdsKeep(st: State, step: Step)
    requires LatchInv(st) && Enabled(st, step)
    ensures IdsDistinct(Do(st, step))
  {
    var st' := Do(st, step);
    forall i | 0 <= i < |st'.log| && st'.log[i].Write?
      ensures st'.log[i].id in st'.used
      ensures st'.log[i].id in st'.ops ==> st'.ops[st'.log[i].id].phase in {Proposed, Done}
    {
      LogGrows(st, step, i);
    }
    forall i, j | 0 <= i < j < |st'.log| && st'.log[i].Write? && st'.log[j].Write?
      ensures st'.log[i].id != st'.log[j].id
    {
      LogGrows(st, step, i);
      LogGrows(st, step, j);
    }
  }

  lemma StepNarrows(st: State, step: Step)
    requires Enabled(st, step) && !step.Acquire?
    ensures OpsNarrow(st, Do(st, step))
  {
  }

  lemma ExclusionKeeps(st: State, step: Step)
    requires LatchesExclude(st) && Enabled(st, step)
    ensures LatchesExclude(Do(st, step))
  {
    if step.Acquire? {
      AcquireKeepsExclusion(st, step.id, step.op);
    } else {
      StepNarrows(st, step);
      NarrowKeepsExclusion(st, Do(st, step));
    }
  }

  lemma LatchesKeep(st: State, step: Step)
    requires LatchInv(st) && ServedPlaced(st) && Enabled(st, step)
    ensures LatchInv(Do(st, step))
  {
    ExclusionKeeps(st, step);
    ShapesKeep(st, step);
    InFlightKeeps(st, step);
    IdsKeep(st, step);
  }

  // -- served reads --

  /** While a read holds its latch no write to its spans is admitted, proposed
      or waiting to apply. */
  lemma NoWriteUnderRead(st: State, r: OpId, o: OpId)
    requires LatchesExclude(st) && OpsShaped(st)
    requires r in st.ops && st.ops[r].ReadOp? && o in st.ops && st.ops[o].WriteOp?
    ensures !Meet(st.ops[r].spans, st.ops[o].writes)
  {
    assert !OpsConflict(st.ops[r], st.ops[o]);
    if Meet(st.ops[r].spans, st.ops[o].writes) {
      WritesAreLatched(st.ops[r].Held(), st.ops[o]);
    }
  }

  lemma EvaluateKeepsReads(st: State, id: OpId)
    requires LatchInv(st) && ReadInv(st) && Enabled(st, Evaluate(id))
    ensures ReadInv(Do(st, Evaluate(id)))
  {
    var op := st.ops[id];
    var st' := Do(st, Evaluate(id));
    var s := Served(op.spans, op.ts, op.txn, st.applied, st.orphaned);
    forall o | o in st.ops && st.ops[o].WriteOp? ensures !Meet(s.spans, st.ops[o].writes) {
      NoWriteUnderRead(st, id, o);
    }
    assert AdmittedAbove(st') by {
      forall x, o | x in st'.served && o in st'.ops && st'.ops[o].WriteOp? && st'.ops[o].phase == Checked &&
                    Meet(x.spans, st'.ops[o].writes)
        ensures Above(st'.ops[o].ts, st'.ops[o].txn, x)
      {
        assert o != id && st'.ops[o] == st.ops[o];
      }
    }
    assert LoggedAbove(st') by {
      forall x, i | x in st'.served && x.at <= i < |st'.log| && st'.log[i].Write? &&
                    st'.log[i].id !in x.orphans && Meet(x.spans, st'.log[i].writes)
        ensures Above(st'.log[i].ts, st'.log[i].txn, x)
      {
        assert x in st.served;
      }
    }
  }

  lemma CheckKeepsReads(st: State, id: OpId, at: Timestamp)
    requires ReadInv(st) && Enabled(st, Check(id, at))
    ensures ReadInv(Do(st, Check(id, at)))
  {
    var op := st.ops[id];
    var st' := Do(st, Check(id, at));
    forall s | s in st.served && Meet(s.spans, op.writes) ensures Above(at, op.txn, s) {
      AllowedIsAbove(st, s, op.writes, at, op.txn);
    }
    assert forall o :: o in st'.ops && o != id ==> st'.ops[o] == st.ops[o];
  }

  lemma ProposeKeepsReads(st: State, id: OpId)
    requires LatchInv(st) && ReadInv(st) && Enabled(st, Propose(id))
    ensures ReadInv(Do(st, Propose(id)))
  {
    var st' := Do(st, Propose(id));
    assert forall o :: o in st'.ops && o != id ==> st'.ops[o] == st.ops[o];
    assert LoggedAbove(st') by {
      forall x, i | x in st'.served && x.at <= i < |st'.log| && st'.log[i].Write? &&
                    st'.log[i].id !in x.orphans && Meet(x.spans, st'.log[i].writes)
        ensures Above(st'.log[i].ts, st'.log[i].txn, x)
      {
        if i < |st.log| {
          assert st'.log[i] == st.log[i];
        }
      }
    }
  }

  predicate Quiet(step: Step) {
    !step.Evaluate? && !step.Check? && !step.Propose?
  }

  lemma QuietLog(st: State, step: Step)
    requires Enabled(st, step) && Quiet(step) && LoggedAbove(st)
    ensures LoggedAbove(Do(st, step))
  {
    var st' := Do(st, step);
    assert forall i :: 0 <= i < |st'.log| && st'.log[i].Write? ==> i < |st.log| && st'.log[i] == st.log[i];
  }

  lemma QuietAdmission(st: State, step: Step)
    requires Enabled(st, step) && Quiet(step) && AdmittedAbove(st)
    ensures AdmittedAbove(Do(st, step))
  {
    var st' := Do(st, step);
    assert forall o :: o in st'.ops && st'.ops[o].WriteOp? && st'.ops[o].phase == Checked ==>
                       o in st.ops && st'.ops[o] == st.ops[o];
  }

  lemma QuietMemory(st: State, step: Step)
    requires Enabled(st, step) && Quiet(step) && ServedRemembered(st)
    ensures ServedRemembered(Do(st, step))
  {
    var st' := Do(st, step);
    assert forall o :: o in st'.ops && st'.ops[o].ReadOp? && st'.ops[o].phase == Bumped ==>
                       o in st.ops && (st'.ops[o] == st.ops[o] || step == Bump(o));
  }

  lemma QuietPlaces(st: State, step: Step)
    requires Enabled(st, step) && Quiet(step) && ServedPlaced(st) && OpsShaped(st)
    ensures ServedPlaced(Do(st, step))
  {
  }

  lemma ReadsKeep(st: State, step: Step)
    requires LatchInv(st) && ReadInv(st) && Enabled(st, step)
    ensures ReadInv(Do(st, step))
  {
    match step
    case Evaluate(id) => EvaluateKeepsReads(st, id);
    case Check(id, at) => CheckKeepsReads(st, id, at);
    case Propose(id) => ProposeKeepsReads(st, id);
    case _ =>
      QuietLog(st, step);
      QuietAdmission(st, step);
      QuietMemory(st, step);
      QuietPlaces(st, step);
  }

  // -- promises --

  /** A whole-range latch is met by every write. */
  lemma WholeRangeMeets(op: Op)
    requires op.WriteOp? && WellFormed(WithPhase(op, Latched))
    ensures Meet([WholeRange], op.Held())
  {
    assert InKeyspace(op.spans[0]);
    assert Overlaps([WholeRange][0], op.spans[0]);
  }

  /** Taking the whole-range latch drains every write. */
  lemma CloseDrains(st: State, id: OpId, o: OpId)
    requires LatchesExclude(st) && OpsShaped(st) && id in st.ops && st.ops[id].CloseOp? && o in st.ops
    ensures !st.ops[o].WriteOp?
  {
    assert id != o ==> !OpsConflict(st.ops[id], st.ops[o]);
    if st.ops[o].WriteOp? {
      WholeRangeMeets(st.ops[o]);
    }
  }

  lemma BumpKeepsPromises(st: State, id: OpId)
    requires LatchInv(st) && PromiseInv(st) && Enabled(st, Bump(id))
    ensures PromiseInv(Do(st, Bump(id)))
  {
    var st' := Do(st, Bump(id));
    if st.ops[id].CloseOp? {
      forall o | o in st'.ops ensures !st'.ops[o].WriteOp? {
        CloseDrains(st, id, o);
      }
    }
    forall t: Timestamp | Promised(st', t)
      ensures Promised(st, t) || (st.ops[id].CloseOp? && t == st.ops[id].t)
    {
      if o :| o in st'.ops && st'.ops[o] == CloseOp(t, Bumped) {
        assert o == id || st.ops[o] == CloseOp(t, Bumped);
      }
    }
  }

  /** No other step makes a promise of its own. */
  lemma OthersPromiseNothing(st: State, step: Step, t: Timestamp)
    requires LatchInv(st) && Enabled(st, step) && !step.Bump?
    ensures Promised(Do(st, step), t) ==> Promised(st, t)
  {
    var st' := Do(st, step);
    if t in st'.promises && t !in st.promises {
      assert st.ops[step.id] == CloseOp(t, Bumped);
    } else if i :| 0 <= i < |st'.log| && st'.log[i] == Closed(t) {
      if i < |st.log| {
        assert st.log[i] == Closed(t);
      }
    } else if o :| o in st'.ops && st'.ops[o] == CloseOp(t, Bumped) {
      assert o in st.ops && st.ops[o] == CloseOp(t, Bumped);
    }
  }

  lemma ProposeKeepsClosed(st: State, id: OpId)
    requires PromiseInv(st) && Enabled(st, Propose(id))
    ensures ClosedRespected(Do(st, Propose(id)).log)
  {
    forall i | 0 <= i < |st.log| && st.log[i].Closed? ensures st.log[i].t < st.ops[id].ts {
      assert Promised(st, st.log[i].t);
    }
  }

  lemma CheckKeepsPromises(st: State, id: OpId, at: Timestamp)
    requires LatchInv(st) && PromiseInv(st) && Enabled(st, Check(id, at))
    ensures PromisesHeld(Do(st, Check(id, at)))
  {
    var st' := Do(st, Check(id, at));
    forall t: Timestamp | Promised(st', t) ensures Promised(st, t) {
      OthersPromiseNothing(st, Check(id, at), t);
    }
  }

  lemma NewLeaderKeepsPromises(st: State, keep: nat, newFloor: Timestamp)
    requires PromiseInv(st) && Enabled(st, NewLeader(keep, newFloor))
    ensures PromiseInv(Do(st, NewLeader(keep, newFloor)))
  {
    var st' := Do(st, NewLeader(keep, newFloor));
    assert forall i :: 0 <= i < keep ==> st'.log[i] == st.log[i];
  }

  lemma OthersKeepPromises(st: State, step: Step)
    requires LatchInv(st) && PromiseInv(st) && Enabled(st, step)
    requires !step.Bump? && !step.Check? && !step.NewLeader?
    ensures PromiseInv(Do(st, step))
  {
    var st' := Do(st, step);
    forall t: Timestamp | Promised(st', t) ensures Promised(st, t) {
      OthersPromiseNothing(st, step, t);
    }
    assert forall o :: o in st'.ops && st'.ops[o].WriteOp? && st'.ops[o].phase == Checked ==>
                       o in st.ops && st'.ops[o] == st.ops[o];
    if step.Propose? {
      ProposeKeepsClosed(st, step.id);
    }
  }

  lemma PromisesKeep(st: State, step: Step)
    requires LatchInv(st) && PromiseInv(st) && Enabled(st, step)
    ensures PromiseInv(Do(st, step))
  {
    match step
    case Bump(id) => BumpKeepsPromises(st, id);
    case Check(id, at) => CheckKeepsPromises(st, id, at);
    case NewLeader(keep, newFloor) => NewLeaderKeepsPromises(st, keep, newFloor);
    case _ => OthersKeepPromises(st, step);
  }

  /** What every step of the serving path keeps. */
  lemma StepKeeps(st: State, step: Step)
    requires Good(st) && Enabled(st, step)
    ensures Good(Do(st, step))
  {
    LatchesKeep(st, step);
    ReadsKeep(st, step);
    PromisesKeep(st, step);
  }

  // ---- whole runs ----

  ghost predicate Runs(st: State, steps: seq<Step>)
    decreases |steps|
  {
    steps == [] || (Enabled(st, steps[0]) && Runs(Do(st, steps[0]), steps[1..]))
  }

  ghost function After(st: State, steps: seq<Step>): State
    requires Runs(st, steps)
    decreases |steps|
  {
    if steps == [] then st else After(Do(st, steps[0]), steps[1..])
  }

  lemma {:induction false} RunKeeps(st: State, steps: seq<Step>)
    requires Good(st) && Runs(st, steps)
    ensures Good(After(st, steps))
    decreases |steps|
  {
    if steps != [] {
      StepKeeps(st, steps[0]);
      RunKeeps(Do(st, steps[0]), steps[1..]);
    }
  }

  lemma StartIsGood()
    ensures Good(Start)
  {
  }

  /** No write of another transaction that applies after the read lands at or
      below it. */
  ghost predicate Stable(st: State, s: Served) {
    forall i :: s.at <= i < st.applied && i < |st.log| && st.log[i].Write? && Meet(s.spans, st.log[i].writes) ==>
      Above(st.log[i].ts, st.log[i].txn, s)
  }

  /** The read a leader is about to serve. */
  function Serves(st: State, id: OpId): Served
    requires Enabled(st, Evaluate(id))
  {
    var op := st.ops[id];
    Served(op.spans, op.ts, op.txn, st.applied, st.orphaned)
  }

  /** No abandoned proposal still to apply touches its spans at or below it. */
  ghost predicate NoneBeneath(st: State, s: Served) {
    forall i :: st.applied <= i < |st.log| ==> !Beneath(st.log[i], st.orphaned, s)
  }

  ghost predicate Beneath(e: Entry, ids: set<OpId>, s: Served) {
    e.Write? && e.id in ids && Meet(s.spans, e.writes) && !Above(e.ts, e.txn, s)
  }

  /** An abandoned proposal is in the log already: whatever follows, its entry
      is where it was, or lost. */
  lemma {:induction false} OrphansStay(st: State, steps: seq<Step>, ids: set<OpId>, i: nat)
    requires Good(st) && Runs(st, steps) && ids <= st.orphaned && i < |After(st, steps).log|
    requires After(st, steps).log[i].Write? && After(st, steps).log[i].id in ids
    ensures i < |st.log| && st.log[i] == After(st, steps).log[i]
    decreases |steps|
  {
    if steps != [] {
      StepKeeps(st, steps[0]);
      OrphansStay(Do(st, steps[0]), steps[1..], ids, i);
      LogGrows(st, steps[0], i);
    }
  }

  lemma {:induction false} ServedStays(st: State, steps: seq<Step>, s: Served)
    requires Runs(st, steps) && s in st.served
    ensures s in After(st, steps).served
    decreases |steps|
  {
    if steps != [] {
      ServedStays(Do(st, steps[0]), steps[1..], s);
    }
  }

  function Applies(n: nat): seq<Step> { if n == 0 then [] else [Apply] + Applies(n - 1) }

  lemma {:induction false} ApplyMany(st: State, n: nat)
    requires st.applied + n <= |st.log|
    ensures Runs(st, Applies(n))
    ensures After(st, Applies(n)).applied == st.applied + n && After(st, Applies(n)).log == st.log
    decreases n
  {
    if n > 0 {
      assert Applies(n)[1..] == Applies(n - 1);
      ApplyMany(Do(st, Apply), n - 1);
    }
  }

  lemma NoneBeneathIsStable(st: State, id: OpId, b: seq<Step>)
    requires Good(st) && Enabled(st, Evaluate(id)) && NoneBeneath(st, Serves(st, id)) && Runs(Do(st, Evaluate(id)), b)
    ensures Stable(After(Do(st, Evaluate(id)), b), Serves(st, id))
  {
    var s, next := Serves(st, id), Do(st, Evaluate(id));
    var end := After(next, b);
    StepKeeps(st, Evaluate(id));
    RunKeeps(next, b);
    ServedStays(next, b, s);
    forall i | s.at <= i < end.applied && i < |end.log| && end.log[i].Write? && Meet(s.spans, end.log[i].writes)
      ensures Above(end.log[i].ts, end.log[i].txn, s) {
      if end.log[i].id in s.orphans {
        OrphansStay(next, b, s.orphans, i);
        assert !Beneath(st.log[i], st.orphaned, s);
      }
    }
  }

  lemma BeneathBreaks(st: State, id: OpId, i: nat) returns (b: seq<Step>)
    requires Good(st) && Enabled(st, Evaluate(id)) && st.applied <= i < |st.log|
    requires Beneath(st.log[i], st.orphaned, Serves(st, id))
    ensures Runs(Do(st, Evaluate(id)), b) && !Stable(After(Do(st, Evaluate(id)), b), Serves(st, id))
  {
    var next, n := Do(st, Evaluate(id)), i + 1 - st.applied;
    ApplyMany(next, n);
    b := Applies(n);
    assert After(next, b).log[i] == st.log[i];
  }

  /** In every reachable state: a read the leader serves now is stable in every
      continuation if and only if no abandoned proposal in the unapplied log
      lies beneath it. */
  lemma ServedReadsStableIff(a: seq<Step>, id: OpId)
    requires Runs(Start, a) && Enabled(After(Start, a), Evaluate(id))
    ensures var st := After(Start, a);
            (forall b :: Runs(Do(st, Evaluate(id)), b) ==> Stable(After(Do(st, Evaluate(id)), b), Serves(st, id))) <==>
            NoneBeneath(st, Serves(st, id))
  {
    var st := After(Start, a);
    StartIsGood();
    RunKeeps(Start, a);
    if NoneBeneath(st, Serves(st, id)) {
      forall b | Runs(Do(st, Evaluate(id)), b) ensures Stable(After(Do(st, Evaluate(id)), b), Serves(st, id)) {
        NoneBeneathIsStable(st, id, b);
      }
    } else {
      var i :| st.applied <= i < |st.log| && Beneath(st.log[i], st.orphaned, Serves(st, id));
      var b := BeneathBreaks(st, id, i);
    }
  }

  lemma {:induction false} NothingOrphaned(st: State, steps: seq<Step>)
    requires Good(st) && Runs(st, steps) && st.orphaned == {}
    requires forall i :: 0 <= i < |steps| ==> !steps[i].Abandon?
    ensures After(st, steps).orphaned == {}
    decreases |steps|
  {
    if steps != [] {
      StepKeeps(st, steps[0]);
      assert !steps[0].Abandon?;
      NothingOrphaned(Do(st, steps[0]), steps[1..]);
    }
  }

  /** Without abandoned proposals every served read is stable. */
  lemma ReadsStableUnabandoned(steps: seq<Step>, s: Served)
    requires Runs(Start, steps) && s in After(Start, steps).served
    requires forall i :: 0 <= i < |steps| ==> !steps[i].Abandon?
    ensures Stable(After(Start, steps), s)
  {
    StartIsGood();
    NothingOrphaned(Start, steps);
    RunKeeps(Start, steps);
    assert s.orphans == {};
  }

  /** Once a closed-timestamp command is in the log, every write after it is
      above it: abandoned proposals cannot break this, they are logged
      already. */
  lemma ClosedTimestampsHold(steps: seq<Step>)
    requires Runs(Start, steps)
    ensures ClosedRespected(After(Start, steps).log)
  {
    StartIsGood();
    RunKeeps(Start, steps);
  }

  // ---- an abandoned proposal under a served read ----

  const K: Span := Point(Rank(MinKey))

  const Lost := WriteOp([K], [K], 5, 7, Latched)
  const Reader := ReadOp([K], 9, 0, Latched)
  const Unlucky := Served([K], 9, 0, 0, {1})

  function GivenUp(): seq<Step> {
    [Acquire(1, Lost), Check(1, 5), Propose(1), Abandon(1)]
  }

  function ThenRead(): seq<Step> {
    [Acquire(2, Reader), Bump(2), Evaluate(2), Apply]
  }

  ghost function Orphan(): State {
    Start.(used := {1}, log := [Write(1, [K], 5, 7)], orphaned := {1})
  }

  ghost function Broken(): State {
    Orphan().(used := {1, 2}, ops := map[2 := WithPhase(Reader, Done)], history := SpanReads([K], 9, 0),
              served := {Unlucky}, applied := 1)
  }

  lemma {:induction false} RunsConcat(st: State, a: seq<Step>, b: seq<Step>)
    requires Runs(st, a) && Runs(After(st, a), b)
    ensures Runs(st, a + b) && After(st, a + b) == After(After(st, a), b)
    decreases |a|
  {
    if a == [] {
      assert a + b == b;
    } else {
      assert (a + b)[1..] == a[1..] + b;
      RunsConcat(Do(st, a[0]), a[1..], b);
    }
  }

  lemma RunOfFour(s0: State, steps: seq<Step>, s1: State, s2: State, s3: State, s4: State)
    requires |steps| == 4
    requires Enabled(s0, steps[0]) && Do(s0, steps[0]) == s1
    requires Enabled(s1, steps[1]) && Do(s1, steps[1]) == s2
    requires Enabled(s2, steps[2]) && Do(s2, steps[2]) == s3
    requires Enabled(s3, steps[3]) && Do(s3, steps[3]) == s4
    ensures Runs(s0, steps) && After(s0, steps) == s4
  {
    assert Runs(s3, steps[3..]) && After(s3, steps[3..]) == s4;
    assert steps[2..][1..] == steps[3..] && steps[1..][1..] == steps[2..];
    assert Runs(s2, steps[2..]) && After(s2, steps[2..]) == s4;
    assert Runs(s1, steps[1..]) && After(s1, steps[1..]) == s4;
  }

  lemma WriteGivenUp()
    ensures Runs(Start, GivenUp()) && After(Start, GivenUp()) == Orphan()
  {
    var steps := GivenUp();
    var s1 := Start.(ops := map[1 := Lost], used := {1});
    var s2 := s1.(ops := map[1 := WithPhase(Lost, Checked)]);
    var s3 := s2.(ops := map[1 := WithPhase(Lost, Proposed)], log := [Write(1, [K], 5, 7)]);
    assert Enabled(Start, steps[0]) && Do(Start, steps[0]) == s1 by {
      RankOrder(MinKey, MaxKey);
      assert InKeyspace(K);
    }
    assert Enabled(s1, steps[1]) && Do(s1, steps[1]) == s2;
    assert Enabled(s2, steps[2]) && Do(s2, steps[2]) == s3;
    assert Enabled(s3, steps[3]) && Do(s3, steps[3]) == Orphan();
    RunOfFour(Start, steps, s1, s2, s3, Orphan());
  }

  lemma ReadOverIt()
    ensures Runs(Orphan(), ThenRead()) && After(Orphan(), ThenRead()) == Broken()
  {
    var steps := ThenRead();
    var s0 := Orphan();
    var s1 := s0.(ops := map[2 := Reader], used := {1, 2});
    var s2 := s1.(ops := map[2 := WithPhase(Reader, Bumped)], history := SpanReads([K], 9, 0));
    var s3 := s2.(ops := map[2 := WithPhase(Reader, Done)], served := {Unlucky});
    assert Enabled(s0, steps[0]) && Do(s0, steps[0]) == s1;
    assert Enabled(s1, steps[1]) && Do(s1, steps[1]) == s2;
    assert Enabled(s2, steps[2]) && Do(s2, steps[2]) == s3;
    assert Enabled(s3, steps[3]) && Do(s3, steps[3]) == Broken();
    RunOfFour(s0, steps, s1, s2, s3, Broken());
  }

  /** The run in which a caller gives up on its write, a reader of the key is
      then served above it, and the write applies beneath the read. */
  lemma AbandonmentBreaksStability()
    ensures Runs(Start, GivenUp() + ThenRead())
    ensures Unlucky in After(Start, GivenUp() + ThenRead()).served
    ensures !Stable(After(Start, GivenUp() + ThenRead()), Unlucky)
  {
    WriteGivenUp();
    ReadOverIt();
    RunsConcat(Start, GivenUp(), ThenRead());
    var st := Broken();
    assert Overlaps([K][0], st.log[0].writes[0]);
    assert Meet(Unlucky.spans, st.log[0].writes) && !Above(st.log[0].ts, st.log[0].txn, Unlucky);
  }
}
