/** The off-log closed-timestamp transport (pkg/kvserver/closedts.go and
    quiesce.go): a sleeping range registers once with a follower, and from then
    on one group entry per round closes every registered range.

    One range and one follower are followed through one leadership term. The
    channel between the two stores is ordered and loses nothing; a wake is one
    step, as is the start of a round (the promise is advanced, then the woken
    set collected). A proposal whose client gives up leaves its latch while its
    entry is still in raft's log, perhaps not yet on disk, and the indexes that
    promises carry are read from disk. Other ranges and followers only add entries that say
    nothing about this pair, apart from the group entries themselves. */
module GroupPromise {
  import opened Hlc
  import opened Mvcc

  datatype Entry = Write(ts: Timestamp) | Other

  /** A write holds its latch from its cache check until it applied or its
      client gave up. */
  datatype Op = Checked(ts: Timestamp) | Proposed(index: nat)

  datatype Leader = Leader(
    quiescent: bool, registered: bool, floor: Timestamp, ops: map<nat, Op>, applied: nat, stable: nat,
    logged: nat, groupTS: Timestamp, woken: bool, round: Option<Timestamp>, pending: Option<nat>)

  /** Off-log entries in their order: a registration, an awake range's promise,
      a wake, a group promise. */
  datatype Msg = Reg(index: nat, ts: Timestamp) | Side(index: nat, ts: Timestamp) | Wake | Group(ts: Timestamp)

  datatype Follower = Follower(applied: nat, closed: Timestamp, reg: Option<nat>)

  /** Enrols tells whether an awake range's promise registers it as well, as
      the source does. */
  datatype State = State(enrols: bool, log: seq<Entry>, l: Leader, channel: seq<Msg>, f: Follower)

  datatype Step =
    | Rouse
    | Check(id: nat, ts: Timestamp)
    | Propose(id: nat)
    | Persist
    | LeaderApply
    | Release(id: nat)
    | Abandon(id: nat)
    | Quiesce
    | RoundStart(ts: Timestamp)
    | RegisterBump
    | RegisterSend
    | SidePublish
    | LogPublish
    | RoundEnd
    | Deliver
    | FollowerApply

  function Max(a: Timestamp, b: Timestamp): Timestamp { if a < b then b else a }

  /** unquiesce. */
  function Awake(l: Leader): Leader {
    if !l.quiescent then l.(registered := false)
    else l.(quiescent := false, woken := l.woken || l.registered, registered := false, floor := Max(l.floor, l.groupTS))
  }

  predicate Enabled(st: State, step: Step) {
    match step
    case Rouse => true
    case Check(id, ts) => id !in st.l.ops && st.l.floor < ts
    case Propose(id) => id in st.l.ops && st.l.ops[id].Checked?
    case Persist => st.l.stable < |st.log|
    case LeaderApply => st.l.applied < st.l.stable
    case Release(id) => id in st.l.ops && st.l.ops[id].Proposed? && st.l.ops[id].index < st.l.applied
    case Abandon(id) => id in st.l.ops && st.l.ops[id].Proposed?
    case Quiesce => !st.l.quiescent && st.l.applied == st.l.stable == |st.log|
    case RoundStart(_) => st.l.round.None?
    case RegisterBump =>
      st.l.round.Some? && st.l.quiescent && !st.l.registered && st.l.pending.None? && st.l.ops == map[]
    case RegisterSend => st.l.round.Some? && st.l.pending.Some?
    case SidePublish => st.l.round.Some? && !st.l.quiescent && st.l.ops == map[] && st.l.logged == st.l.stable
    case LogPublish => st.l.round.Some? && !st.l.quiescent && st.l.ops == map[]
    case RoundEnd => st.l.round.Some? && st.l.pending.None?
    case Deliver => st.channel != []
    case FollowerApply => st.f.applied < |st.log|
  }

  /** acceptClosedTimestamp's index test. */
  predicate Accepts(f: Follower, index: nat) { index <= f.applied }

  function Adopt(f: Follower, ts: Timestamp): Follower { f.(closed := Max(f.closed, ts)) }

  /** handleClosedTimestamps, one entry. */
  function Handled(enrols: bool, f: Follower, m: Msg): Follower {
    match m
    case Reg(index, ts) =>
      if !Accepts(f, index) then f else Adopt(f, ts).(reg := if index > 0 then Some(index) else f.reg)
    case Side(index, ts) =>
      if !Accepts(f, index) then f else Adopt(f, ts).(reg := if enrols && index > 0 then Some(index) else f.reg)
    case Wake => f.(reg := None)
    case Group(ts) =>
      if f.reg.None? then f else if Accepts(f, f.reg.value) then Adopt(f, ts) else f.(reg := None)
  }

  function Do(st: State, step: Step): State
    requires Enabled(st, step)
  {
    var l := st.l;
    match step
    case Rouse => st.(l := Awake(l))
    case Check(id, ts) => st.(l := l.(ops := l.ops[id := Checked(ts)]))
    case Propose(id) =>
      st.(l := Awake(l).(ops := l.ops[id := Proposed(|st.log|)]), log := st.log + [Write(l.ops[id].ts)])
    case Persist => st.(l := l.(stable := l.stable + 1))
    case LeaderApply => st.(l := l.(applied := l.applied + 1))
    case Release(id) => st.(l := l.(ops := l.ops - {id}))
    case Abandon(id) => st.(l := l.(ops := l.ops - {id}))
    case Quiesce => st.(l := l.(quiescent := true))
    case RoundStart(ts) =>
      st.(l := l.(groupTS := Max(l.groupTS, ts), round := Some(ts), woken := false),
          channel := if l.woken then st.channel + [Wake] else st.channel)
    case RegisterBump => st.(l := l.(floor := Max(l.floor, l.round.value), pending := Some(l.stable)))
    case RegisterSend =>
      if !l.quiescent then st.(l := l.(pending := None))
      else st.(l := l.(pending := None, registered := true), channel := st.channel + [Reg(l.pending.value, l.round.value)])
    case SidePublish =>
      st.(l := l.(floor := Max(l.floor, l.round.value)), channel := st.channel + [Side(l.stable, l.round.value)])
    case LogPublish =>
      st.(l := l.(floor := Max(l.floor, l.round.value), logged := |st.log| + 1), log := st.log + [Other])
    case RoundEnd => st.(l := l.(round := None), channel := st.channel + [Group(l.round.value)])
    case Deliver => st.(channel := st.channel[1..], f := Handled(st.enrols, st.f, st.channel[0]))
    case FollowerApply => st.(f := st.f.(applied := st.f.applied + 1))
  }

  /** Just after a promise that rode the log, and has applied everywhere. */
  ghost predicate Start(st: State) {
    var n := |st.log|;
    && n > 0 && st.channel == [] && st.f == Follower(n, st.f.closed, None) && st.f.closed <= st.l.floor
    && st.l == Leader(false, false, st.l.floor, map[], n, n, n, 0, false, None, None)
  }

  ghost predicate Runs(st: State, steps: seq<Step>)
    decreases |steps|
  {
    steps != [] ==> Enabled(st, steps[0]) && Runs(Do(st, steps[0]), steps[1..])
  }

  ghost function After(st: State, steps: seq<Step>): State
    requires Runs(st, steps)
    decreases |steps|
  {
    if steps == [] then st else After(Do(st, steps[0]), steps[1..])
  }

  /** What the argument needs beyond the code: a cache check is made while the
      range is awake, the range does not fall asleep between the two halves of
      a registration, awake promises do not register, and an awake promise is
      made when all of raft's log is on disk. */
  datatype Rule = AwakeChecks | WholeRegistrations | NoEnrolment | WholeLog

  predicate Obeys(st: State, step: Step, rule: Rule) {
    match rule
    case AwakeChecks => step.Check? ==> !st.l.quiescent
    case WholeRegistrations => step.Quiesce? ==> st.l.pending.None?
    case NoEnrolment => step.SidePublish? ==> !st.enrols
    case WholeLog => step.SidePublish? ==> st.l.stable == |st.log|
  }

  predicate Disciplined(st: State, step: Step) {
    && Obeys(st, step, AwakeChecks) && Obeys(st, step, WholeRegistrations)
    && Obeys(st, step, NoEnrolment) && Obeys(st, step, WholeLog)
  }

  ghost predicate ObeysRun(st: State, steps: seq<Step>, rule: Rule)
    requires Runs(st, steps)
    decreases |steps|
  {
    steps != [] ==> Obeys(st, steps[0], rule) && ObeysRun(Do(st, steps[0]), steps[1..], rule)
  }

  ghost predicate DisciplinedRun(st: State, steps: seq<Step>)
    requires Runs(st, steps)
  {
    && ObeysRun(st, steps, AwakeChecks) && ObeysRun(st, steps, WholeRegistrations)
    && ObeysRun(st, steps, NoEnrolment) && ObeysRun(st, steps, WholeLog)
  }

  /** The promise: no write at or below what the follower adopted is unapplied
      there, on its way into the log, or still admissible. */
  ghost predicate PromiseKept(st: State) {
    && (forall j :: st.f.applied <= j < |st.log| && st.log[j].Write? ==> st.f.closed < st.log[j].ts)
    && (forall id :: id in st.l.ops && st.l.ops[id].Checked? ==> st.f.closed < st.l.ops[id].ts)
    && (forall id, ts :: Enabled(st, Check(id, ts)) && Disciplined(st, Check(id, ts)) ==> st.f.closed < ts)
  }

  // ---- the invariant ----

  /** The leader keeps a promise ts made when its log ended at index: a
      sleeping range needs no raised floor yet, since waking raises it. */
  ghost predicate Kept(st: State, ts: Timestamp, index: nat) {
    && (ts <= st.l.floor || (st.l.quiescent && ts <= st.l.groupTS))
    && (forall id :: id in st.l.ops && st.l.ops[id].Checked? ==> ts < st.l.ops[id].ts)
    && (forall j :: index <= j < |st.log| && st.log[j].Write? ==> ts < st.log[j].ts)
  }

  predicate Registers(enrols: bool, m: Msg) { (m.Reg? || (m.Side? && enrols)) && m.index > 0 }

  /** No wake among the channel's entries from lo up to hi. */
  ghost predicate NoWake(channel: seq<Msg>, lo: nat, hi: nat) {
    forall q :: lo <= q < hi && q < |channel| ==> channel[q] != Wake
  }

  /** The follower may hold a registration at index when it comes to entry p. */
  ghost predicate Possible(st: State, p: nat, index: nat) {
    || (st.f.reg == Some(index) && NoWake(st.channel, 0, p))
    || Sent(st, p, index)
  }

  ghost predicate Sent(st: State, p: nat, index: nat) {
    exists q :: 0 <= q < p && q < |st.channel| && Registers(st.enrols, st.channel[q]) && st.channel[q].index == index
                && NoWake(st.channel, q + 1, p)
  }

  ghost predicate ChannelInv(st: State) {
    && (forall q :: 0 <= q < |st.channel| && (st.channel[q].Reg? || st.channel[q].Side?) ==>
          Kept(st, st.channel[q].ts, st.channel[q].index))
    && (forall p, i: nat :: 0 <= p < |st.channel| && st.channel[p].Group? && Possible(st, p, i) ==>
          Kept(st, st.channel[p].ts, i))
  }

  /** A registration the follower may end up with: cut off by the next round's
      wake, or of a range asleep since with nothing under way. */
  ghost predicate RegisteredInv(st: State) {
    forall i: nat :: Possible(st, |st.channel|, i) ==>
      || st.l.woken
      || (st.l.registered && st.l.quiescent && st.l.ops == map[] && forall j :: i <= j < |st.log| ==> st.log[j] == Other)
  }

  ghost predicate RoundInv(st: State) {
    && (st.l.round.Some? ==> st.l.round.value <= st.l.groupTS)
    && (st.l.round.Some? ==> forall i: nat :: Possible(st, |st.channel|, i) ==> Kept(st, st.l.round.value, i))
    && (st.l.pending.Some? ==> st.l.round.Some? && !st.l.registered)
    && (st.l.pending.Some? && st.l.quiescent ==>
          st.l.pending == Some(|st.log|) && st.l.ops == map[] && st.l.round.value <= st.l.floor)
    && (st.l.registered ==> st.l.quiescent)
    && (st.l.quiescent ==> st.l.stable == |st.log|)
  }

  ghost predicate Inv(st: State) {
    Kept(st, st.f.closed, st.f.applied) && ChannelInv(st) && RegisteredInv(st) && RoundInv(st)
  }

  // ---- every disciplined step keeps it ----

  lemma KeptStays(st: State, step: Step, ts: Timestamp, index: nat)
    requires Enabled(st, step) && Disciplined(st, step) && Kept(st, ts, index)
    ensures Kept(Do(st, step), ts, index)
  {
  }

  lemma KeptClosed(st: State, step: Step)
    requires Inv(st) && Enabled(st, step) && Disciplined(st, step)
    ensures Kept(Do(st, step), Do(st, step).f.closed, Do(st, step).f.applied)
  {
    KeptStays(st, step, st.f.closed, st.f.applied);
    if step.Deliver? && st.channel[0].Group? && st.f.reg.Some? {
      assert Possible(st, 0, st.f.reg.value);
    }
  }

  /** An entry handled leaves no registration possible that was not before. */
  lemma DeliverPossible(st: State, p: nat, i: nat)
    requires st.channel != [] && p <= |st.channel| - 1 && Possible(Do(st, Deliver), p, i)
    ensures Possible(st, p + 1, i)
  {
    var next := Do(st, Deliver);
    assert forall q :: 0 <= q < |next.channel| ==> next.channel[q] == st.channel[q + 1];
    if next.f.reg == Some(i) && NoWake(next.channel, 0, p) {
      assert st.channel[0] != Wake;
      assert NoWake(st.channel, 1, p + 1) by {
        forall q | 1 <= q < p + 1 && q < |st.channel| ensures st.channel[q] != Wake {
          assert st.channel[q] == next.channel[q - 1];
        }
      }
      if st.f.reg != Some(i) {
        assert Registers(st.enrols, st.channel[0]) && st.channel[0].index == i;
        assert Sent(st, p + 1, i);
      }
    } else {
      var q :| 0 <= q < p && q < |next.channel| && Registers(st.enrols, next.channel[q]) && next.channel[q].index == i
               && NoWake(next.channel, q + 1, p);
      assert NoWake(st.channel, q + 2, p + 1) by {
        forall r | q + 2 <= r < p + 1 && r < |st.channel| ensures st.channel[r] != Wake {
          assert st.channel[r] == next.channel[r - 1];
        }
      }
      assert Registers(st.enrols, st.channel[q + 1]);
    }
  }

  /** Sending leaves the earlier part of the channel as it is. */
  lemma SendPossible(st: State, next: State, p: nat, i: nat)
    requires next.enrols == st.enrols && next.f.reg == st.f.reg && st.channel <= next.channel && p <= |st.channel|
    ensures Possible(next, p, i) <==> Possible(st, p, i)
  {
    assert forall q :: 0 <= q < |st.channel| ==> next.channel[q] == st.channel[q];
    assert NoWake(next.channel, 0, p) <==> NoWake(st.channel, 0, p);
    if Sent(next, p, i) {
      var q :| 0 <= q < p && q < |next.channel| && Registers(next.enrols, next.channel[q]) && next.channel[q].index == i
               && NoWake(next.channel, q + 1, p);
      assert Registers(st.enrols, st.channel[q]) && NoWake(st.channel, q + 1, p);
    }
    if Sent(st, p, i) {
      var q :| 0 <= q < p && q < |st.channel| && Registers(st.enrols, st.channel[q]) && st.channel[q].index == i
               && NoWake(st.channel, q + 1, p);
      assert Registers(next.enrols, next.channel[q]) && NoWake(next.channel, q + 1, p);
    }
  }

  /** The last entry decides what it adds: a wake clears, a registration adds
      itself, anything else changes nothing. */
  lemma LastPossible(st: State, m: Msg, i: nat)
    requires Possible(st.(channel := st.channel + [m]), |st.channel| + 1, i)
    ensures m != Wake
    ensures Possible(st, |st.channel|, i) || (Registers(st.enrols, m) && m.index == i)
  {
    var next := st.(channel := st.channel + [m]);
    var n := |st.channel|;
    assert next.channel[n] == m;
    if st.f.reg == Some(i) && NoWake(next.channel, 0, n + 1) {
      assert NoWake(next.channel, 0, n);
      SendPossible(st, next, n, i);
    } else {
      var q :| 0 <= q < n + 1 && q < |next.channel| && Registers(next.enrols, next.channel[q]) && next.channel[q].index == i
               && NoWake(next.channel, q + 1, n + 1);
      if q < n {
        assert NoWake(next.channel, q + 1, n);
        assert Sent(next, n, i);
        SendPossible(st, next, n, i);
      }
    }
  }

  /** The registrations possible after a step, at the channel's end. */
  lemma EndPossible(st: State, step: Step, i: nat)
    requires Enabled(st, step) && Possible(Do(st, step), |Do(st, step).channel|, i)
    ensures Possible(st, |st.channel|, i) || (step.RegisterSend? && st.l.quiescent && i == st.l.pending.value)
            || (step.SidePublish? && st.enrols)
    ensures step.RoundStart? ==> !st.l.woken
  {
    var next := Do(st, step);
    if step.Deliver? {
      DeliverPossible(st, |next.channel|, i);
    } else if next.channel == st.channel {
      SendPossible(st, next, |st.channel|, i);
    } else {
      var m := next.channel[|st.channel|];
      SendPossible(st.(channel := st.channel + [m]), next, |st.channel| + 1, i);
      LastPossible(st, m, i);
    }
  }

  lemma RegisteredStep(st: State, step: Step)
    requires Inv(st) && Enabled(st, step) && Disciplined(st, step)
    ensures RegisteredInv(Do(st, step))
  {
    var next := Do(st, step);
    forall i: nat | Possible(next, |next.channel|, i)
      ensures || next.l.woken
              || (next.l.registered && next.l.quiescent && next.l.ops == map[]
                  && forall j :: i <= j < |next.log| ==> next.log[j] == Other)
    {
      EndPossible(st, step, i);
    }
  }

  lemma RoundStep(st: State, step: Step)
    requires Inv(st) && Enabled(st, step) && Disciplined(st, step)
    ensures RoundInv(Do(st, step))
  {
    var next := Do(st, step);
    if next.l.round.Some? {
      forall i: nat | Possible(next, |next.channel|, i) ensures Kept(next, next.l.round.value, i) {
        EndPossible(st, step, i);
        if Possible(st, |st.channel|, i) && st.l.round == next.l.round {
          KeptStays(st, step, st.l.round.value, i);
        }
      }
    }
  }

  lemma GroupsStep(st: State, step: Step, p: nat, i: nat)
    requires Inv(st) && Enabled(st, step) && Disciplined(st, step)
    requires p < |Do(st, step).channel| && Do(st, step).channel[p].Group? && Possible(Do(st, step), p, i)
    ensures Kept(Do(st, step), Do(st, step).channel[p].ts, i)
  {
    var next := Do(st, step);
    if step.Deliver? {
      DeliverPossible(st, p, i);
      KeptStays(st, step, st.channel[p + 1].ts, i);
    } else {
      SendPossible(st, next, p, i);
      if p < |st.channel| {
        KeptStays(st, step, st.channel[p].ts, i);
      } else {
        KeptStays(st, step, st.l.round.value, i);
      }
    }
  }

  lemma PromisesStep(st: State, step: Step, q: nat)
    requires Inv(st) && Enabled(st, step) && Disciplined(st, step)
    requires q < |Do(st, step).channel| && (Do(st, step).channel[q].Reg? || Do(st, step).channel[q].Side?)
    ensures Kept(Do(st, step), Do(st, step).channel[q].ts, Do(st, step).channel[q].index)
  {
    var next := Do(st, step);
    if step.Deliver? {
      assert next.channel[q] == st.channel[q + 1];
      KeptStays(st, step, st.channel[q + 1].ts, st.channel[q + 1].index);
    } else if q < |st.channel| {
      KeptStays(st, step, st.channel[q].ts, st.channel[q].index);
    }
  }

  lemma StepKeeps(st: State, step: Step)
    requires Inv(st) && Enabled(st, step) && Disciplined(st, step)
    ensures Inv(Do(st, step))
  {
    var next := Do(st, step);
    KeptClosed(st, step);
    RegisteredStep(st, step);
    RoundStep(st, step);
    forall p, i: nat | 0 <= p < |next.channel| && next.channel[p].Group? && Possible(next, p, i)
      ensures Kept(next, next.channel[p].ts, i) {
      GroupsStep(st, step, p, i);
    }
    forall q | 0 <= q < |next.channel| && (next.channel[q].Reg? || next.channel[q].Side?)
      ensures Kept(next, next.channel[q].ts, next.channel[q].index) {
      PromisesStep(st, step, q);
    }
  }

  lemma {:induction false} RunKeeps(st: State, steps: seq<Step>)
    requires Inv(st) && Runs(st, steps) && DisciplinedRun(st, steps)
    ensures Inv(After(st, steps))
    decreases |steps|
  {
    if steps != [] {
      StepKeeps(st, steps[0]);
      RunKeeps(Do(st, steps[0]), steps[1..]);
    }
  }

  /** Whether a wake falls before, during or after a round, the follower never
      adopts a promise the leader does not keep. */
  lemma GroupPromisesHold(st: State, steps: seq<Step>)
    requires Start(st) && Runs(st, steps) && DisciplinedRun(st, steps)
    ensures PromiseKept(After(st, steps))
  {
    assert forall p, i: nat :: !Possible(st, p, i);
    RunKeeps(st, steps);
  }
}
