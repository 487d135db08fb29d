/** The raft scheduler (pkg/kvserver/scheduler.go): raft workers take replicas
    from one queue and run their passes, apply workers take replicas from
    another and apply their committed entries, all under one mutex.

    Every step below is one critical section of the source, or the application
    of one entry. Workers are not limited in number, and the members of a pass
    group end one by one: the source's behaviours are among those allowed. */
module Scheduler {
  import opened Mvcc

  datatype Flag = TickFlag | ReadyFlag

  /** A command, a conf change that is adopted, or one refused as stale. */
  datatype Kind = Command | Change | StaleChange

  datatype Ent = Ent(index: nat, size: nat, kind: Kind)

  /** Where a replica's pass stands. */
  datatype Phase =
    | Idle
    | Taken                                   // by a worker
    | Holding(ents: seq<Ent>, inline: bool)   // raft's Ready taken and staged
    | Waiting(ents: seq<Ent>)                 // in drainApply
    | Inlining(ents: seq<Ent>)                // applying in the pass itself
    | Finished(found: bool)

  datatype Run = Run(ents: seq<Ent>, bytes: nat, live: bool, failed: bool)

  /** applyState. */
  datatype ApplyState = ApplyState(pending: seq<Ent>, bytes: int, queued: bool, run: Option<Run>, deferred: set<Flag>)

  /** A replica as the scheduler and its own apply path see it. The counts of
      passes and apply runs under way, the entries applied, the flags raised
      and not yet handed to a pass, and whether queued entries were ever
      dropped are kept for the proof. */
  datatype Replica = Replica(
    flags: set<Flag>, queued: bool, running: bool, phase: Phase, apply: Option<ApplyState>,
    handed: nat, applied: nat, stopped: bool, held: bool,
    passes: int, runs: int, log: seq<nat>, owed: set<Flag>, broken: bool)

  datatype Action =
    | Enqueue(flag: Flag)
    | Defer
    | Take
    | NoReady
    | GetReady(ents: seq<Ent>, inline: bool)
    | Skip
    | HandOver
    | Await
    | Drained
    | AbortDrain
    | InlineOne
    | InlineFail
    | InlineDone
    | EndPass
    | StartRun
    | RunOne
    | RunFail
    | EndRun
    | StopReplica
    | StopAll
    | Remove

  function EntriesBytes(ents: seq<Ent>): nat {
    if ents == [] then 0 else ents[0].size + 32 + EntriesBytes(ents[1..])
  }

  /** Raft hands out committed entries in log order. */
  predicate Consecutive(ents: seq<Ent>, from: nat) {
    forall i :: 0 <= i < |ents| ==> ents[i].index == from + i
  }

  predicate Over(r: Replica, bound: nat) { r.apply.Some? && r.apply.value.bytes > bound }

  predicate RunOver(r: Replica) {
    r.apply.Some? && r.apply.value.run.Some? &&
    (r.apply.value.run.value.ents == [] || !r.apply.value.run.value.live || r.apply.value.run.value.failed)
  }

  predicate RunGoing(r: Replica) {
    r.apply.Some? && r.apply.value.run.Some? && !RunOver(r)
  }

  /** What the code allows a replica to do; being at the head of a queue is
      tested where the queues are. */
  predicate Can(r: Replica, a: Action, bound: nat, stopping: bool) {
    match a
    case Enqueue(_) => true
    case Defer => r.queued && Over(r, bound) && !stopping
    case Take => r.queued && !Over(r, bound) && !stopping
    case NoReady => r.phase == Taken
    case GetReady(ents, inline) =>
      && r.phase == Taken && r.held && !r.stopped && Consecutive(ents, r.handed)
      && (inline || forall i :: 0 <= i < |ents| ==> ents[i].kind == Command)
    case Skip => r.phase.Holding? && r.stopped
    case HandOver => r.phase.Holding? && !r.phase.inline
    case Await => r.phase.Holding? && r.phase.inline && !r.stopped
    case Drained =>
      r.phase.Waiting? && (r.apply.None? || (r.apply.value.run.None? && r.apply.value.pending == []))
    case AbortDrain => r.phase.Waiting? && stopping
    case InlineOne =>
      r.phase.Inlining? && r.phase.ents != [] && (r.phase.ents[0].kind == Change ==> !r.stopped)
    case InlineFail => r.phase.Inlining? && r.phase.ents != []
    case InlineDone => r.phase.Inlining? && r.phase.ents == []
    case EndPass => r.phase.Finished?
    case StartRun => r.apply.Some? && r.apply.value.queued && !stopping
    case RunOne => RunGoing(r)
    case RunFail => RunGoing(r)
    case EndRun => RunOver(r)
    case StopReplica => !r.running && (r.apply.None? || r.apply.value.run.None?)
    case StopAll => true
    case Remove => r.stopped && !r.running && (r.apply.None? || r.apply.value.run.None?)
  }

  /** applyEntry: an entry at or below the applied index is skipped. */
  function Apply(r: Replica, e: Ent): Replica {
    if e.index < r.applied then r else r.(applied := e.index + 1, log := r.log + [e.index])
  }

  function EnqueueLocked(r: Replica, fs: set<Flag>): Replica {
    r.(flags := r.flags + fs, queued := r.queued || !r.running)
  }

  function EnqueueApply(r: Replica, ents: seq<Ent>): Replica {
    var s := if r.apply.Some? then r.apply.value else ApplyState([], 0, false, None, {});
    r.(apply := Some(s.(pending := s.pending + ents, bytes := s.bytes + EntriesBytes(ents),
                        queued := s.queued || s.run.None?)))
  }

  /** The end of an apply run: deferred flags go back to the pass queue, and
      the replica to the apply queue if more arrived and nothing failed. */
  function FinishRun(r: Replica, bound: nat): Replica
    requires r.apply.Some? && r.apply.value.run.Some?
  {
    var s := r.apply.value;
    var bytes := s.bytes - s.run.value.bytes;
    var wake := s.deferred != {} && bytes <= bound;
    var r1 := if wake then EnqueueLocked(r, s.deferred) else r;
    var s1 := s.(run := None, bytes := bytes, deferred := if wake then {} else s.deferred);
    if !s.run.value.failed && r.held && s.pending != [] then
      r1.(apply := Some(s1.(queued := true)), runs := r.runs - 1)
    else
      r1.(apply := None, runs := r.runs - 1, broken := r.broken || s.pending != [])
  }

  function Act(r: Replica, a: Action, bound: nat): Replica
    requires Can(r, a, bound, false) || Can(r, a, bound, true)
  {
    match a
    case Enqueue(f) => EnqueueLocked(r, {f}).(owed := r.owed + {f})
    case Defer =>
      r.(apply := Some(r.apply.value.(deferred := r.apply.value.deferred + r.flags)), flags := {}, queued := false)
    case Take =>
      r.(flags := {}, queued := false, running := true, phase := Taken, passes := r.passes + 1, owed := r.owed - r.flags)
    case NoReady => r.(phase := Finished(r.held))
    case GetReady(ents, inline) => r.(phase := Holding(ents, inline), handed := r.handed + |ents|)
    case Skip => r.(phase := Finished(true), broken := r.broken || r.phase.ents != [])
    case HandOver =>
      if r.phase.ents == [] then r.(phase := Finished(true)) else EnqueueApply(r, r.phase.ents).(phase := Finished(true))
    case Await => r.(phase := Waiting(r.phase.ents))
    case Drained => r.(phase := Inlining(r.phase.ents), runs := r.runs + 1)
    case AbortDrain => r.(phase := Finished(true), stopped := true, broken := true)
    case InlineOne => Apply(r, r.phase.ents[0]).(phase := Inlining(r.phase.ents[1..]))
    case InlineFail => r.(phase := Finished(true), stopped := true, broken := true, runs := r.runs - 1)
    case InlineDone => r.(phase := Finished(true), runs := r.runs - 1)
    case EndPass =>
      r.(running := false, phase := Idle, passes := r.passes - 1,
         queued := r.queued || (r.flags != {} && r.phase.found), flags := if r.phase.found then r.flags else {})
    case StartRun =>
      var s := r.apply.value;
      r.(apply := Some(s.(queued := false, pending := [],
                          run := Some(Run(s.pending, EntriesBytes(s.pending), r.held && !r.stopped, false)))),
         runs := r.runs + 1, broken := r.broken || (!(r.held && !r.stopped) && s.pending != []))
    case RunOne =>
      var s := r.apply.value;
      Apply(r, s.run.value.ents[0]).(apply := Some(s.(run := Some(s.run.value.(ents := s.run.value.ents[1..])))))
    case RunFail =>
      var s := r.apply.value;
      r.(apply := Some(s.(run := Some(s.run.value.(failed := true)))), stopped := true, broken := true)
    case EndRun => FinishRun(r, bound)
    case StopReplica =>
      r.(stopped := true, broken := r.broken || (r.apply.Some? && r.apply.value.pending != []),
         apply := if r.apply.Some? then Some(r.apply.value.(pending := [], bytes := 0)) else None)
    case StopAll => r.(stopped := true)
    case Remove => r.(held := false)
  }

  // ---- the queues ----

  datatype State = State(reps: map<nat, Replica>, queue: seq<nat>, applyQueue: seq<nat>, stopping: bool, bound: nat)

  datatype Step = Does(id: nat, action: Action) | Shutdown

  predicate InApplyQueue(r: Replica) { r.apply.Some? && r.apply.value.queued }

  /** A replica newly marked queued goes to the end; one no longer marked was
      the head. */
  function Requeue(queue: seq<nat>, id: nat, before: bool, after: bool): seq<nat> {
    if after && !before then queue + [id] else if before && !after && queue != [] then queue[1..] else queue
  }

  ghost predicate Enabled(st: State, step: Step) {
    match step
    case Shutdown => true
    case Does(id, a) =>
      && id in st.reps && Can(st.reps[id], a, st.bound, st.stopping)
      && (a.Defer? || a.Take? ==> st.queue != [] && st.queue[0] == id)
      && (a.StartRun? ==> st.applyQueue != [] && st.applyQueue[0] == id)
  }

  ghost function Do(st: State, step: Step): State
    requires Enabled(st, step)
  {
    match step
    case Shutdown => st.(stopping := true)
    case Does(id, a) =>
      var r := st.reps[id];
      var r' := Act(r, a, st.bound);
      st.(reps := st.reps[id := r'],
          queue := Requeue(st.queue, id, r.queued, r'.queued),
          applyQueue := Requeue(st.applyQueue, id, InApplyQueue(r), InApplyQueue(r')))
  }

  ghost predicate Start(st: State) {
    && st.queue == [] && st.applyQueue == [] && !st.stopping
    && forall id :: id in st.reps ==> st.reps[id] == Fresh
  }

  const Fresh: Replica := Replica({}, false, false, Idle, None, 0, 0, false, true, 0, 0, [], {}, false)

  ghost predicate Runs(st: State, steps: seq<Step>)
    decreases |steps|
  {
    steps != [] ==> Enabled(st, steps[0]) && Runs(Do(st, steps[0]), steps[1..])
  }

  ghost function After(st: State, steps: seq<Step>): State
    requires Runs(st, steps)
    decreases |steps|
  {
    if steps == [] then st else After(Do(st, steps[0]), steps[1..])
  }

  // ---- one replica's invariant ----

  /** One pass, one apply run, and the two never at once: a replica with apply
      work is queued for it or in it, and a pass applies only when there is
      none. */
  ghost predicate Exclusive(r: Replica) {
    && (r.running <==> r.phase != Idle) && r.passes == (if r.running then 1 else 0)
    && (r.queued ==> !r.running)
    && (r.flags != {} ==> r.queued || r.running)
    && (r.apply.Some? ==> (r.apply.value.queued <==> r.apply.value.run.None?))
    && (r.phase.Inlining? ==> r.apply == None)
    && r.runs == (if r.phase.Inlining? || (r.apply.Some? && r.apply.value.run.Some?) then 1 else 0)
    && (r.apply.Some? && r.apply.value.queued && r.apply.value.pending == [] ==>
          r.stopped && (r.phase == Idle || r.phase == Taken || r.phase.Finished?))
  }

  /** The byte count is that of what is still to apply. */
  ghost predicate Counted(r: Replica) {
    r.apply.Some? ==>
      var s := r.apply.value;
      s.bytes == EntriesBytes(s.pending) + (if s.run.Some? then s.run.value.bytes else 0)
  }

  /** No flag of a replica in service is lost. */
  ghost predicate Remembered(r: Replica) {
    r.held && !r.stopped ==> r.owed <= r.flags + (if r.apply.Some? then r.apply.value.deferred else {})
  }

  predicate PassAction(a: Action) {
    a.Enqueue? || a.Defer? || a.Take? || a.NoReady? || a.GetReady? || a.Skip? || a.HandOver? || a.Await? || a.EndPass?
  }

  lemma ExclusivePass(r: Replica, a: Action, bound: nat, stopping: bool)
    requires Exclusive(r) && Can(r, a, bound, stopping)
    requires PassAction(a)
    ensures Exclusive(Act(r, a, bound))
  {
    match a {
      case Enqueue(_) =>
      case Defer =>
      case Take =>
      case NoReady =>
      case GetReady(_, _) =>
      case Skip =>
      case HandOver =>
      case Await =>
      case EndPass =>
    }
  }

  lemma ExclusiveApply(r: Replica, a: Action, bound: nat, stopping: bool)
    requires Exclusive(r) && Can(r, a, bound, stopping)
    requires !PassAction(a)
    ensures Exclusive(Act(r, a, bound))
  {
    match a {
      case Drained =>
      case AbortDrain =>
      case InlineOne =>
      case InlineFail =>
      case InlineDone =>
      case StartRun =>
      case RunOne =>
      case RunFail =>
      case EndRun =>
      case StopReplica =>
      case StopAll =>
      case Remove =>
    }
  }

  lemma ExclusiveStep(r: Replica, a: Action, bound: nat, stopping: bool)
    requires Exclusive(r) && Can(r, a, bound, stopping)
    ensures Exclusive(Act(r, a, bound))
  {
    if PassAction(a) {
      ExclusivePass(r, a, bound, stopping);
    } else {
      ExclusiveApply(r, a, bound, stopping);
    }
  }

  lemma {:induction false} BytesAppend(a: seq<Ent>, b: seq<Ent>)
    ensures EntriesBytes(a + b) == EntriesBytes(a) + EntriesBytes(b)
  {
    if a == [] {
      assert a + b == b;
    } else {
      assert (a + b)[1..] == a[1..] + b;
      BytesAppend(a[1..], b);
    }
  }

  lemma CountedStep(r: Replica, a: Action, bound: nat, stopping: bool)
    requires Exclusive(r) && Counted(r) && Can(r, a, bound, stopping)
    ensures Counted(Act(r, a, bound))
  {
    match a {
      case Enqueue(_) =>
      case Defer =>
      case Take =>
      case NoReady =>
      case GetReady(_, _) =>
      case Skip =>
      case HandOver => CountedHandOver(r, bound);
      case Await =>
      case Drained =>
      case AbortDrain =>
      case InlineOne =>
      case InlineFail =>
      case InlineDone =>
      case EndPass =>
      case StartRun =>
      case RunOne =>
      case RunFail =>
      case EndRun =>
      case StopReplica =>
      case StopAll =>
      case Remove =>
    }
  }

  lemma CountedHandOver(r: Replica, bound: nat)
    requires Counted(r) && Can(r, HandOver, bound, false)
    ensures Counted(Act(r, HandOver, bound))
  {
    if r.phase.ents != [] {
      CountedEnqueue(r, r.phase.ents);
    }
  }

  lemma CountedEnqueue(r: Replica, ents: seq<Ent>)
    requires Counted(r)
    ensures Counted(EnqueueApply(r, ents))
  {
    if r.apply.Some? {
      BytesAppend(r.apply.value.pending, ents);
    } else {
      assert [] + ents == ents;
    }
  }

  /** How a replica came to be out of service. */
  ghost predicate Service(r: Replica) {
    && (!r.held ==> r.stopped && (r.phase == Idle || r.phase == Taken || r.phase.Finished?))
    && (r.phase.Finished? && !r.phase.found ==> !r.held)
    && (r.broken ==> r.stopped)
    && (r.apply.Some? && r.apply.value.run.Some? ==>
          var run := r.apply.value.run.value;
          (run.failed ==> r.broken) && (!run.live && run.ents != [] ==> r.broken))
  }

  lemma ServicePass(r: Replica, a: Action, bound: nat, stopping: bool)
    requires Exclusive(r) && Service(r) && Can(r, a, bound, stopping) && PassAction(a)
    ensures Service(Act(r, a, bound))
  {
    match a {
      case Enqueue(_) =>
      case Defer =>
      case Take =>
      case NoReady =>
      case GetReady(_, _) =>
      case Skip =>
      case HandOver =>
      case Await =>
      case EndPass =>
    }
  }

  lemma ServiceApply(r: Replica, a: Action, bound: nat, stopping: bool)
    requires Exclusive(r) && Service(r) && Can(r, a, bound, stopping) && !PassAction(a)
    ensures Service(Act(r, a, bound))
  {
    match a {
      case Drained =>
      case AbortDrain =>
      case InlineOne =>
      case InlineFail =>
      case InlineDone =>
      case StartRun =>
      case RunOne =>
      case RunFail =>
      case EndRun =>
      case StopReplica =>
      case StopAll =>
      case Remove =>
    }
  }

  lemma ServiceStep(r: Replica, a: Action, bound: nat, stopping: bool)
    requires Exclusive(r) && Service(r) && Can(r, a, bound, stopping)
    ensures Service(Act(r, a, bound))
  {
    if PassAction(a) {
      ServicePass(r, a, bound, stopping);
    } else {
      ServiceApply(r, a, bound, stopping);
    }
  }

  lemma RememberedStep(r: Replica, a: Action, bound: nat, stopping: bool)
    requires Exclusive(r) && Counted(r) && Service(r) && Remembered(r) && Can(r, a, bound, stopping)
    ensures Remembered(Act(r, a, bound))
  {
  }

  // ---- apply order ----

  function RunEnts(r: Replica): seq<Ent> {
    if r.apply.Some? && r.apply.value.run.Some? then r.apply.value.run.value.ents else []
  }

  function Pending(r: Replica): seq<Ent> {
    if r.apply.Some? then r.apply.value.pending else []
  }

  function PassEnts(r: Replica): seq<Ent> {
    if r.phase.Holding? || r.phase.Waiting? || r.phase.Inlining? then r.phase.ents else []
  }

  /** Everything raft handed out and not yet applied, in order: the run, the
      queue, the pass. */
  ghost predicate Chained(r: Replica) {
    var a, b := r.applied + |RunEnts(r)|, |Pending(r)|;
    && Consecutive(RunEnts(r), r.applied) && Consecutive(Pending(r), a) && Consecutive(PassEnts(r), a + b)
    && a + b + |PassEnts(r)| == r.handed
  }

  /** Entries are applied in log order without gaps or repeats. */
  ghost predicate InOrder(r: Replica) {
    |r.log| == r.applied && forall i :: 0 <= i < |r.log| ==> r.log[i] == i
  }

  /** A pass that waits or applies on a replica whose queued entries were
      dropped has its own entries beyond a gap, and nothing more will fill it. */
  ghost predicate GapAhead(r: Replica) {
    && (PassEnts(r) != [] ==> r.applied < PassEnts(r)[0].index)
    && (r.apply.Some? ==> RunOver(r) && (r.apply.value.run.value.failed || r.apply.value.pending == []))
  }

  ghost predicate Ordered(r: Replica) {
    && InOrder(r)
    && (!r.broken ==> Chained(r))
    && (r.broken && (r.phase.Waiting? || r.phase.Inlining?) ==> GapAhead(r))
    && (RunGoing(r) ==> Consecutive(RunEnts(r), r.applied))
  }

  /** The pass itself applies an entry after its replica dropped some. */
  predicate SkipsGap(r: Replica, a: Action) { a.InlineOne? && r.broken }

  lemma OrderedPass(r: Replica, a: Action, bound: nat, stopping: bool)
    requires Exclusive(r) && Service(r) && Ordered(r) && Can(r, a, bound, stopping) && PassAction(a)
    ensures Ordered(Act(r, a, bound))
  {
    match a {
      case Enqueue(_) =>
      case Defer =>
      case Take =>
      case NoReady =>
      case GetReady(_, _) =>
      case Skip =>
      case HandOver => OrderedHandOver(r, bound);
      case Await =>
      case EndPass =>
    }
  }

  lemma OrderedHandOver(r: Replica, bound: nat)
    requires Exclusive(r) && Ordered(r) && Can(r, HandOver, bound, false)
    ensures Ordered(Act(r, HandOver, bound))
  {
    var next := Act(r, HandOver, bound);
    assert Pending(next) == Pending(r) + PassEnts(r) && PassEnts(next) == [] && RunEnts(next) == RunEnts(r);
  }

  lemma OrderedRunOne(r: Replica, bound: nat)
    requires Exclusive(r) && Ordered(r) && Can(r, RunOne, bound, false)
    ensures Ordered(Act(r, RunOne, bound))
  {
    var next := Act(r, RunOne, bound);
    assert RunEnts(r)[0].index == r.applied;
    assert RunEnts(next) == RunEnts(r)[1..] && next.applied == r.applied + 1;
  }

  lemma OrderedEndRun(r: Replica, bound: nat)
    requires Exclusive(r) && Service(r) && Ordered(r) && Can(r, EndRun, bound, false)
    ensures Ordered(Act(r, EndRun, bound))
  {
    EndRunLeaves(r, bound);
    var next := Act(r, EndRun, bound);
    if !next.broken {
      assert RunEnts(r) == [];
    }
  }

  /** The end of a run touches neither the pass nor what was applied, and drops
      what is queued only when that is noted. */
  lemma EndRunLeaves(r: Replica, bound: nat)
    requires Service(r) && Can(r, EndRun, bound, false)
    ensures var next := Act(r, EndRun, bound);
            && next.phase == r.phase && next.applied == r.applied && next.handed == r.handed && next.log == r.log
            && RunEnts(next) == [] && !RunGoing(next)
            && (if next.broken then (r.broken || Pending(r) != []) && (next.apply.Some? ==> !r.apply.value.run.value.failed)
                else !r.broken && RunEnts(r) == [] && Pending(next) == Pending(r))
  {
  }

  lemma OrderedRun(r: Replica, a: Action, bound: nat, stopping: bool)
    requires Exclusive(r) && Service(r) && Ordered(r) && Can(r, a, bound, stopping)
    requires a.StartRun? || a.RunOne? || a.RunFail? || a.EndRun?
    ensures Ordered(Act(r, a, bound))
  {
    match a {
      case StartRun =>
      case RunOne => OrderedRunOne(r, bound);
      case RunFail =>
      case EndRun => OrderedEndRun(r, bound);
    }
  }

  lemma OrderedRest(r: Replica, a: Action, bound: nat, stopping: bool)
    requires Exclusive(r) && Service(r) && Ordered(r) && Can(r, a, bound, stopping) && !SkipsGap(r, a)
    requires !PassAction(a) && !(a.StartRun? || a.RunOne? || a.RunFail? || a.EndRun?)
    ensures Ordered(Act(r, a, bound))
  {
    match a {
      case Drained =>
      case AbortDrain =>
      case InlineOne =>
      case InlineFail =>
      case InlineDone =>
      case StopReplica =>
      case StopAll =>
      case Remove =>
    }
  }

  // ---- every step, every run ----

  ghost predicate RepInv(r: Replica) {
    Exclusive(r) && Counted(r) && Service(r) && Remembered(r)
  }

  /** A queue holds each id at most once, exactly those marked. */
  ghost predicate QueueOk(queue: seq<nat>, marked: set<nat>) {
    && (forall i, j :: 0 <= i < j < |queue| ==> queue[i] != queue[j])
    && (forall id :: id in queue <==> id in marked)
  }

  ghost function Queued(st: State): set<nat> { set id | id in st.reps && st.reps[id].queued }

  ghost function ApplyQueued(st: State): set<nat> { set id | id in st.reps && InApplyQueue(st.reps[id]) }

  ghost predicate Inv(st: State) {
    && (forall id :: id in st.reps ==> RepInv(st.reps[id]))
    && QueueOk(st.queue, Queued(st)) && QueueOk(st.applyQueue, ApplyQueued(st))
  }

  lemma RequeueOk(queue: seq<nat>, marked: set<nat>, id: nat, before: bool, after: bool)
    requires QueueOk(queue, marked) && (id in marked <==> before)
    requires before && !after ==> queue != [] && queue[0] == id
    ensures QueueOk(Requeue(queue, id, before, after), if after then marked + {id} else marked - {id})
  {
    var next := Requeue(queue, id, before, after);
    if before && !after {
      assert queue == [id] + next;
      assert forall x :: x in queue <==> x == id || x in next;
      assert id !in next;
    }
  }

  lemma OrderedStep(r: Replica, a: Action, bound: nat, stopping: bool)
    requires Exclusive(r) && Service(r) && Ordered(r) && Can(r, a, bound, stopping) && !SkipsGap(r, a)
    ensures Ordered(Act(r, a, bound))
  {
    if PassAction(a) {
      OrderedPass(r, a, bound, stopping);
    } else if a.StartRun? || a.RunOne? || a.RunFail? || a.EndRun? {
      OrderedRun(r, a, bound, stopping);
    } else {
      OrderedRest(r, a, bound, stopping);
    }
  }

  /** A replica leaves a queue only as the worker that takes it. */
  lemma LeavesQueue(r: Replica, a: Action, bound: nat, stopping: bool)
    requires Exclusive(r) && Can(r, a, bound, stopping)
    ensures r.queued && !Act(r, a, bound).queued ==> a.Defer? || a.Take?
    ensures InApplyQueue(r) && !InApplyQueue(Act(r, a, bound)) ==> a.StartRun?
  {
  }

  lemma RepStep(r: Replica, a: Action, bound: nat, stopping: bool)
    requires RepInv(r) && Can(r, a, bound, stopping)
    ensures RepInv(Act(r, a, bound))
  {
    ExclusiveStep(r, a, bound, stopping);
    CountedStep(r, a, bound, stopping);
    ServiceStep(r, a, bound, stopping);
    RememberedStep(r, a, bound, stopping);
  }

  lemma QueuesStep(st: State, id: nat, a: Action)
    requires Inv(st) && Enabled(st, Does(id, a))
    ensures var next := Do(st, Does(id, a));
            QueueOk(next.queue, Queued(next)) && QueueOk(next.applyQueue, ApplyQueued(next))
  {
    var r := st.reps[id];
    var r' := Act(r, a, st.bound);
    var next := Do(st, Does(id, a));
    LeavesQueue(r, a, st.bound, st.stopping);
    RequeueOk(st.queue, Queued(st), id, r.queued, r'.queued);
    RequeueOk(st.applyQueue, ApplyQueued(st), id, InApplyQueue(r), InApplyQueue(r'));
    MarkedAfter(st, id, r', next);
  }

  lemma MarkedAfter(st: State, id: nat, r': Replica, next: State)
    requires id in st.reps && next.reps == st.reps[id := r']
    ensures Queued(next) == if r'.queued then Queued(st) + {id} else Queued(st) - {id}
    ensures ApplyQueued(next) == if InApplyQueue(r') then ApplyQueued(st) + {id} else ApplyQueued(st) - {id}
  {
  }

  lemma StepKeeps(st: State, step: Step)
    requires Inv(st) && Enabled(st, step)
    ensures Inv(Do(st, step))
  {
    if step.Does? {
      RepStep(st.reps[step.id], step.action, st.bound, st.stopping);
      QueuesStep(st, step.id, step.action);
    } else {
      assert Queued(Do(st, step)) == Queued(st) && ApplyQueued(Do(st, step)) == ApplyQueued(st);
    }
  }

  /** In no step of the run does a pass of this replica apply past dropped
      entries. */
  ghost predicate GapFree(st: State, steps: seq<Step>, id: nat)
    requires Runs(st, steps)
    decreases |steps|
  {
    steps != [] ==>
      && !(steps[0].Does? && steps[0].id == id && SkipsGap(st.reps[id], steps[0].action))
      && GapFree(Do(st, steps[0]), steps[1..], id)
  }

  lemma {:induction false} RunKeeps(st: State, steps: seq<Step>)
    requires Inv(st) && Runs(st, steps)
    ensures Inv(After(st, steps))
    decreases |steps|
  {
    if steps != [] {
      StepKeeps(st, steps[0]);
      RunKeeps(Do(st, steps[0]), steps[1..]);
    }
  }

  lemma {:induction false} OrderedRuns(st: State, steps: seq<Step>, id: nat)
    requires Inv(st) && Runs(st, steps) && GapFree(st, steps, id) && id in st.reps && Ordered(st.reps[id])
    ensures id in After(st, steps).reps && Ordered(After(st, steps).reps[id])
    decreases |steps|
  {
    if steps != [] {
      StepKeeps(st, steps[0]);
      if steps[0].Does? && steps[0].id == id {
        OrderedStep(st.reps[id], steps[0].action, st.bound, st.stopping);
      }
      OrderedRuns(Do(st, steps[0]), steps[1..], id);
    }
  }

  ghost predicate OutOfOrder(r: Replica) { exists i :: 0 <= i < |r.log| && r.log[i] != i }

  /** An entry applied past dropped ones is out of order. */
  lemma SkipLeavesGap(r: Replica, bound: nat)
    requires Ordered(r) && Can(r, InlineOne, bound, false) && SkipsGap(r, InlineOne)
    ensures OutOfOrder(Act(r, InlineOne, bound))
  {
    var next := Act(r, InlineOne, bound);
    assert next.log[|r.log|] == r.phase.ents[0].index;
  }

  lemma GapStays(r: Replica, a: Action, bound: nat, stopping: bool)
    requires OutOfOrder(r) && Can(r, a, bound, stopping)
    ensures OutOfOrder(Act(r, a, bound))
  {
    var i :| 0 <= i < |r.log| && r.log[i] != i;
    LogGrows(r, a, bound, stopping);
    assert Act(r, a, bound).log[i] == r.log[i];
  }

  lemma LogGrows(r: Replica, a: Action, bound: nat, stopping: bool)
    requires Can(r, a, bound, stopping)
    ensures r.log <= Act(r, a, bound).log
  {
    match a {
      case Enqueue(_) =>
      case Defer =>
      case Take =>
      case NoReady =>
      case GetReady(_, _) =>
      case Skip =>
      case HandOver =>
      case Await =>
      case Drained =>
      case AbortDrain =>
      case InlineOne => ApplyGrows(r, r.phase.ents[0]);
      case InlineFail =>
      case InlineDone =>
      case EndPass =>
      case StartRun =>
      case RunOne => ApplyGrows(r, RunEnts(r)[0]);
      case RunFail =>
      case EndRun =>
      case StopReplica =>
      case StopAll =>
      case Remove =>
    }
  }

  lemma ApplyGrows(r: Replica, e: Ent)
    ensures r.log <= Apply(r, e).log
  {
  }

  lemma {:induction false} GapStaysRun(st: State, steps: seq<Step>, id: nat)
    requires Runs(st, steps) && id in st.reps && OutOfOrder(st.reps[id])
    ensures id in After(st, steps).reps && OutOfOrder(After(st, steps).reps[id])
    decreases |steps|
  {
    if steps != [] {
      if steps[0].Does? && steps[0].id == id {
        GapStays(st.reps[id], steps[0].action, st.bound, st.stopping);
      }
      GapStaysRun(Do(st, steps[0]), steps[1..], id);
    }
  }

  /** The first entry applied past dropped ones leaves a gap for good. */
  lemma {:induction false} GapRuns(st: State, steps: seq<Step>, id: nat)
    requires Inv(st) && Runs(st, steps) && !GapFree(st, steps, id) && id in st.reps && Ordered(st.reps[id])
    ensures id in After(st, steps).reps && OutOfOrder(After(st, steps).reps[id])
    decreases |steps|
  {
    var r := st.reps[id];
    StepKeeps(st, steps[0]);
    if steps[0].Does? && steps[0].id == id {
      if SkipsGap(r, steps[0].action) {
        SkipLeavesGap(r, st.bound);
        GapStaysRun(Do(st, steps[0]), steps[1..], id);
        return;
      }
      OrderedStep(r, steps[0].action, st.bound, st.stopping);
    }
    GapRuns(Do(st, steps[0]), steps[1..], id);
  }

  /** In every run no replica is in two passes, nor in two apply runs, whether
      of a worker or of its own pass; each queue holds an id at most once. */
  lemma OneAtATime(st: State, steps: seq<Step>, id: nat)
    requires Start(st) && Runs(st, steps) && id in After(st, steps).reps
    ensures var end := After(st, steps);
            && end.reps[id].passes <= 1 && end.reps[id].runs <= 1
            && (forall i, j :: 0 <= i < j < |end.queue| ==> end.queue[i] != end.queue[j])
            && (forall i, j :: 0 <= i < j < |end.applyQueue| ==> end.applyQueue[i] != end.applyQueue[j])
  {
    StartHolds(st);
    RunKeeps(st, steps);
  }

  lemma StartHolds(st: State)
    requires Start(st)
    ensures Inv(st) && forall id :: id in st.reps ==> Ordered(st.reps[id])
  {
    assert Queued(st) == {} && ApplyQueued(st) == {};
  }

  /** And the flags of a replica in service that no pass has taken yet are held
      by a queued or running replica, or wait behind apply work that is itself
      queued or running. */
  lemma FlagsNeverLost(st: State, steps: seq<Step>, id: nat, f: Flag)
    requires Start(st) && Runs(st, steps) && id in After(st, steps).reps
    requires After(st, steps).reps[id].held && !After(st, steps).reps[id].stopped && f in After(st, steps).reps[id].owed
    ensures var end := After(st, steps);
            var r := end.reps[id];
            || (f in r.flags && (id in end.queue || r.running))
            || (r.apply.Some? && f in r.apply.value.deferred && (id in end.applyQueue || r.apply.value.run.Some?))
  {
    StartHolds(st);
    RunKeeps(st, steps);
    var end := After(st, steps);
    assert RepInv(end.reps[id]);
    assert end.reps[id].queued ==> id in Queued(end);
    assert InApplyQueue(end.reps[id]) ==> id in ApplyQueued(end);
  }

  /** Over every run, a replica has applied exactly a prefix of its log, in
      order, if and only if no pass of it applied an entry itself after a run
      it waited for had failed or been skipped. */
  lemma AppliedInOrderIff(st: State, steps: seq<Step>, id: nat)
    requires Start(st) && Runs(st, steps) && id in st.reps
    ensures id in After(st, steps).reps
    ensures InOrder(After(st, steps).reps[id]) <==> GapFree(st, steps, id)
  {
    StartHolds(st);
    if GapFree(st, steps, id) {
      OrderedRuns(st, steps, id);
    } else {
      GapRuns(st, steps, id);
    }
  }

  // ---- a run with a gap ----

  function World(r: Replica, queue: seq<nat>, applyQueue: seq<nat>): State {
    State(map[0 := r], queue, applyQueue, false, 1000)
  }

  lemma {:induction false} Join(st: State, a: seq<Step>, b: seq<Step>)
    requires Runs(st, a) && Runs(After(st, a), b)
    ensures Runs(st, a + b) && After(st, a + b) == After(After(st, a), b)
    decreases |a|
  {
    if a == [] {
      assert a + b == b;
    } else {
      assert (a + b)[1..] == a[1..] + b;
      Join(Do(st, a[0]), a[1..], b);
    }
  }

  lemma Four(s0: State, a: Action, s1: State, b: Action, s2: State, c: Action, s3: State, d: Action, s4: State)
    requires Enabled(s0, Does(0, a)) && Do(s0, Does(0, a)) == s1 && Enabled(s1, Does(0, b)) && Do(s1, Does(0, b)) == s2
    requires Enabled(s2, Does(0, c)) && Do(s2, Does(0, c)) == s3 && Enabled(s3, Does(0, d)) && Do(s3, Does(0, d)) == s4
    ensures var steps := [Does(0, a), Does(0, b), Does(0, c), Does(0, d)];
            Runs(s0, steps) && After(s0, steps) == s4
  {
    var steps := [Does(0, a), Does(0, b), Does(0, c), Does(0, d)];
    assert Runs(s4, steps[4..]) && After(s4, steps[4..]) == s4;
    assert steps[3..][1..] == steps[4..] && steps[2..][1..] == steps[3..] && steps[1..][1..] == steps[2..];
    assert Runs(s3, steps[3..]) && After(s3, steps[3..]) == s4;
    assert Runs(s2, steps[2..]) && After(s2, steps[2..]) == s4;
    assert Runs(s1, steps[1..]) && After(s1, steps[1..]) == s4;
  }

  lemma One(r: Replica, q: seq<nat>, aq: seq<nat>, a: Action, r': Replica, q': seq<nat>, aq': seq<nat>)
    requires Can(r, a, 1000, false) && Act(r, a, 1000) == r'
    requires (a.Defer? || a.Take? ==> q != [] && q[0] == 0) && (a.StartRun? ==> aq != [] && aq[0] == 0)
    requires Requeue(q, 0, r.queued, r'.queued) == q' && Requeue(aq, 0, InApplyQueue(r), InApplyQueue(r')) == aq'
    ensures Enabled(World(r, q, aq), Does(0, a)) && Do(World(r, q, aq), Does(0, a)) == World(r', q', aq')
  {
    assert map[0 := r][0 := r'] == map[0 := r'];
  }

  const E0 := Ent(0, 0, Command)
  const E1 := Ent(1, 0, Command)
  const E2 := Ent(2, 0, Command)
  const E3 := Ent(3, 0, Change)

  lemma TwoEntries()
    ensures EntriesBytes([E0, E1]) == 64
  {
    assert [E0, E1][1..] == [E1] && [E1][1..] == [];
    assert EntriesBytes([E1]) == 32;
  }

  const Raised: Replica := Fresh.(flags := {ReadyFlag}, queued := true, owed := {ReadyFlag})
  const TakenOnce: Replica := Fresh.(running := true, phase := Taken, passes := 1)
  const Held: Replica := TakenOnce.(phase := Holding([E0, E1], false), handed := 2)
  const Queue2 := ApplyState([E0, E1], 64, true, None, {})
  const HandedOver: Replica := Held.(phase := Finished(true), apply := Some(Queue2))

  lemma Raise()
    ensures Enabled(World(Fresh, [], []), Does(0, Enqueue(ReadyFlag)))
    ensures Do(World(Fresh, [], []), Does(0, Enqueue(ReadyFlag))) == World(Raised, [0], [])
    ensures Enabled(World(Raised, [0], []), Does(0, Take))
    ensures Do(World(Raised, [0], []), Does(0, Take)) == World(TakenOnce, [], [])
  {
    assert Act(Fresh, Enqueue(ReadyFlag), 1000) == Raised;
    One(Fresh, [], [], Enqueue(ReadyFlag), Raised, [0], []);
    assert Raised.owed - Raised.flags == {};
    One(Raised, [0], [], Take, TakenOnce, [], []);
  }

  lemma HandEntriesOver()
    ensures Enabled(World(TakenOnce, [], []), Does(0, GetReady([E0, E1], false)))
    ensures Do(World(TakenOnce, [], []), Does(0, GetReady([E0, E1], false))) == World(Held, [], [])
    ensures Enabled(World(Held, [], []), Does(0, HandOver))
    ensures Do(World(Held, [], []), Does(0, HandOver)) == World(HandedOver, [], [0])
  {
    TwoEntries();
    One(TakenOnce, [], [], GetReady([E0, E1], false), Held, [], []);
    assert [] + [E0, E1] == [E0, E1];
    One(Held, [], [], HandOver, HandedOver, [], [0]);
  }

  /** A pass hands two entries to the apply workers. */
  lemma FirstPass() returns (steps: seq<Step>)
    ensures Runs(World(Fresh, [], []), steps) && After(World(Fresh, [], []), steps) == World(HandedOver, [], [0])
  {
    Raise();
    HandEntriesOver();
    Four(World(Fresh, [], []), Enqueue(ReadyFlag), World(Raised, [0], []), Take, World(TakenOnce, [], []),
         GetReady([E0, E1], false), World(Held, [], []), HandOver, World(HandedOver, [], [0]));
    steps := [Does(0, Enqueue(ReadyFlag)), Does(0, Take), Does(0, GetReady([E0, E1], false)), Does(0, HandOver)];
  }

  const Going := ApplyState([], 64, false, Some(Run([E0, E1], 64, true, false)), {})
  const Ended: Replica := HandedOver.(phase := Idle, running := false, passes := 0)
  const Applying: Replica := Ended.(apply := Some(Going), runs := 1)
  const RaisedAgain: Replica := Applying.(flags := {ReadyFlag}, queued := true, owed := {ReadyFlag})
  const TakenAgain: Replica := Applying.(running := true, phase := Taken, passes := 1)

  /** The apply run begins, and the next pass is taken. */
  lemma RunStarts() returns (steps: seq<Step>)
    ensures Runs(World(HandedOver, [], [0]), steps)
    ensures After(World(HandedOver, [], [0]), steps) == World(TakenAgain, [], [])
  {
    TwoEntries();
    One(HandedOver, [], [0], EndPass, Ended, [], [0]);
    One(Ended, [], [0], StartRun, Applying, [], []);
    assert Act(Applying, Enqueue(ReadyFlag), 1000) == RaisedAgain;
    One(Applying, [], [], Enqueue(ReadyFlag), RaisedAgain, [0], []);
    assert RaisedAgain.owed - RaisedAgain.flags == {};
    One(RaisedAgain, [0], [], Take, TakenAgain, [], []);
    Four(World(HandedOver, [], [0]), EndPass, World(Ended, [], [0]), StartRun, World(Applying, [], []),
         Enqueue(ReadyFlag), World(RaisedAgain, [0], []), Take, World(TakenAgain, [], []));
    steps := [Does(0, EndPass), Does(0, StartRun), Does(0, Enqueue(ReadyFlag)), Does(0, Take)];
  }

  const HeldInline: Replica := TakenAgain.(phase := Holding([E2, E3], true), handed := 4)
  const Waits: Replica := HeldInline.(phase := Waiting([E2, E3]))
  const OneDone: Replica :=
    Waits.(applied := 1, log := [0], apply := Some(Going.(run := Some(Run([E1], 64, true, false)))))
  const RunFailed: Replica :=
    OneDone.(stopped := true, broken := true, apply := Some(Going.(run := Some(Run([E1], 64, true, true)))))

  /** A conf change makes it apply entries 2 and 3 itself, so it waits; the run
      applies entry 0 and fails at entry 1. */
  lemma FailsWhileWaiting() returns (steps: seq<Step>)
    ensures Runs(World(TakenAgain, [], []), steps)
    ensures After(World(TakenAgain, [], []), steps) == World(RunFailed, [], [])
  {
    One(TakenAgain, [], [], GetReady([E2, E3], true), HeldInline, [], []);
    One(HeldInline, [], [], Await, Waits, [], []);
    assert [E0, E1][1..] == [E1] && [] + [0] == [0];
    One(Waits, [], [], RunOne, OneDone, [], []);
    One(OneDone, [], [], RunFail, RunFailed, [], []);
    Four(World(TakenAgain, [], []), GetReady([E2, E3], true), World(HeldInline, [], []), Await, World(Waits, [], []), RunOne,
         World(OneDone, [], []), RunFail, World(RunFailed, [], []));
    steps := [Does(0, GetReady([E2, E3], true)), Does(0, Await), Does(0, RunOne), Does(0, RunFail)];
  }

  const Dropped: Replica := RunFailed.(apply := None, runs := 0)
  const Inlines: Replica := Dropped.(phase := Inlining([E2, E3]), runs := 1)
  const Gap: Replica := Inlines.(phase := Inlining([E3]), applied := 3, log := [0, 2])
  const GapDone: Replica := Gap.(phase := Finished(true), runs := 0)

  lemma WaitEnds() returns (steps: seq<Step>)
    ensures Runs(World(RunFailed, [], []), steps)
    ensures After(World(RunFailed, [], []), steps) == World(GapDone, [], [])
  {
    One(RunFailed, [], [], EndRun, Dropped, [], []);
    One(Dropped, [], [], Drained, Inlines, [], []);
    assert [0] + [2] == [0, 2] && [E2, E3][1..] == [E3];
    One(Inlines, [], [], InlineOne, Gap, [], []);
    One(Gap, [], [], InlineFail, GapDone, [], []);
    Four(World(RunFailed, [], []), EndRun, World(Dropped, [], []), Drained, World(Inlines, [], []), InlineOne,
         World(Gap, [], []), InlineFail, World(GapDone, [], []));
    steps := [Does(0, EndRun), Does(0, Drained), Does(0, InlineOne), Does(0, InlineFail)];
  }

  /** The failed run drops the queue, so the wait ends, and the pass applies
      command 2 past the missing entry 1; the conf change behind it then fails,
      the group being stopped. */
  lemma FailedRunLeavesGap() returns (steps: seq<Step>)
    ensures Start(World(Fresh, [], [])) && Runs(World(Fresh, [], []), steps)
    ensures After(World(Fresh, [], []), steps).reps == map[0 := GapDone] && !InOrder(GapDone)
  {
    var s0 := World(Fresh, [], []);
    var a := FirstPass();
    var b := RunStarts();
    Join(s0, a, b);
    var c := FailsWhileWaiting();
    Join(s0, a + b, c);
    var d := WaitEnds();
    Join(s0, a + b + c, d);
    steps := a + b + c + d;
    assert GapDone.log[1] == 2;
  }
}
