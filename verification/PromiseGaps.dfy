/** The exact rules behind the group promise. The code enforces none of them:
    for each of them, from every initial state it is about, a run that obeys the
    other three and ends with a promise broken. */
module PromiseGaps {
  import opened Hlc
  import opened Mvcc
  import opened GroupPromise

  ghost predicate ObeysAll(st: State, steps: seq<Step>, rules: set<Rule>)
    requires Runs(st, steps)
  {
    forall r :: r in rules ==> ObeysRun(st, steps, r)
  }

  ghost predicate Leg(s0: State, steps: seq<Step>, s1: State, rules: set<Rule>) {
    Runs(s0, steps) && After(s0, steps) == s1 && ObeysAll(s0, steps, rules)
  }

  lemma {:induction false} Join(s0: State, a: seq<Step>, s1: State, b: seq<Step>, s2: State, rules: set<Rule>)
    requires Leg(s0, a, s1, rules) && Leg(s1, b, s2, rules)
    ensures Leg(s0, a + b, s2, rules)
    decreases |a|
  {
    if a == [] {
      assert a + b == b;
    } else {
      assert (a + b)[1..] == a[1..] + b;
      forall r | r in rules ensures ObeysRun(Do(s0, a[0]), a[1..], r) {
        assert ObeysRun(s0, a, r);
      }
      Join(Do(s0, a[0]), a[1..], s1, b, s2, rules);
      forall r | r in rules ensures ObeysRun(s0, a + b, r) {
        assert ObeysRun(s0, a, r) && ObeysRun(Do(s0, a[0]), a[1..] + b, r);
      }
    }
  }

  lemma One(s0: State, step: Step, s1: State, rules: set<Rule>)
    requires Enabled(s0, step) && Do(s0, step) == s1 && forall r :: r in rules ==> Obeys(s0, step, r)
    ensures Leg(s0, [step], s1, rules)
  {
  }

  lemma Two(s0: State, a: Step, s1: State, b: Step, s2: State, rules: set<Rule>)
    requires Enabled(s0, a) && Do(s0, a) == s1 && Enabled(s1, b) && Do(s1, b) == s2
    requires forall r :: r in rules ==> Obeys(s0, a, r) && Obeys(s1, b, r)
    ensures Leg(s0, [a, b], s2, rules)
  {
    One(s0, a, s1, rules);
    One(s1, b, s2, rules);
    Join(s0, [a], s1, [b], s2, rules);
    assert [a] + [b] == [a, b];
  }

  lemma Four(s0: State, a: Step, s1: State, b: Step, s2: State, c: Step, s3: State, d: Step, s4: State,
             rules: set<Rule>)
    requires Enabled(s0, a) && Do(s0, a) == s1 && Enabled(s1, b) && Do(s1, b) == s2
    requires Enabled(s2, c) && Do(s2, c) == s3 && Enabled(s3, d) && Do(s3, d) == s4
    requires forall r :: r in rules ==> Obeys(s0, a, r) && Obeys(s1, b, r) && Obeys(s2, c, r) && Obeys(s3, d, r)
    ensures Leg(s0, [a, b, c, d], s4, rules)
  {
    Two(s0, a, s1, b, s2, rules);
    Two(s2, c, s3, d, s4, rules);
    Join(s0, [a, b], s2, [c, d], s4, rules);
    assert [a, b] + [c, d] == [a, b, c, d];
  }

  // ---- a check while asleep ----

  const Sleepy: set<Rule> := {WholeRegistrations, NoEnrolment, WholeLog}

  /** Asleep and registered, floor and promise at b + 1. */
  function Registered(e: bool, log: seq<Entry>, b: Timestamp, channel: seq<Msg>, closed: Timestamp, reg: Option<nat>): State {
    var n := |log|;
    State(e, log, Leader(true, true, b + 1, map[], n, n, n, b + 1, false, None, None), channel, Follower(n, closed, reg))
  }

  lemma FallAsleep(s0: State) returns (steps: seq<Step>)
    requires Start(s0)
    ensures Leg(s0, steps,
                Registered(s0.enrols, s0.log, s0.l.floor, [Reg(|s0.log|, s0.l.floor + 1), Group(s0.l.floor + 1)],
                           s0.f.closed, None), Sleepy)
  {
    var e, b, n := s0.enrols, s0.l.floor, |s0.log|;
    var s1 := s0.(l := s0.l.(quiescent := true));
    var s2 := s1.(l := s1.l.(groupTS := b + 1, round := Some(b + 1)));
    var s3 := s2.(l := s2.l.(floor := b + 1, pending := Some(n)));
    var s4 := s3.(l := s3.l.(pending := None, registered := true), channel := [Reg(n, b + 1)]);
    Four(s0, Quiesce, s1, RoundStart(b + 1), s2, RegisterBump, s3, RegisterSend, s4, Sleepy);
    var s5 := Registered(e, s0.log, b, [Reg(n, b + 1), Group(b + 1)], s0.f.closed, None);
    One(s4, RoundEnd, s5, Sleepy);
    Join(s0, [Quiesce, RoundStart(b + 1), RegisterBump, RegisterSend], s4, [RoundEnd], s5, Sleepy);
    steps := [Quiesce, RoundStart(b + 1), RegisterBump, RegisterSend] + [RoundEnd];
  }

  lemma HearOfSleep(e: bool, log: seq<Entry>, b: Timestamp, closed: Timestamp) returns (steps: seq<Step>)
    requires log != [] && closed <= b
    ensures var n := |log|;
            Leg(Registered(e, log, b, [Reg(n, b + 1), Group(b + 1)], closed, None), steps,
                Registered(e, log, b, [], b + 1, Some(n)), Sleepy)
  {
    var n := |log|;
    Two(Registered(e, log, b, [Reg(n, b + 1), Group(b + 1)], closed, None), Deliver,
        Registered(e, log, b, [Group(b + 1)], b + 1, Some(n)), Deliver, Registered(e, log, b, [], b + 1, Some(n)), Sleepy);
    steps := [Deliver, Deliver];
  }

  /** The check passes the old floor, and the group promise overtakes it. */
  lemma CheckAsleep(s0: State, b: Timestamp) returns (steps: seq<Step>, s4: State)
    requires s0 == Registered(s0.enrols, s0.log, b, [], b + 1, Some(|s0.log|))
    ensures Leg(s0, steps, s4, Sleepy) && !PromiseKept(s4)
  {
    var n := |s0.log|;
    var s1 := s0.(l := s0.l.(ops := map[0 := Checked(b + 2)]));
    var s2 := s1.(l := s1.l.(groupTS := b + 3, round := Some(b + 3)));
    var s3 := s2.(l := s2.l.(round := None), channel := [Group(b + 3)]);
    s4 := s3.(channel := [], f := Follower(n, b + 3, Some(n)));
    Four(s0, Check(0, b + 2), s1, RoundStart(b + 3), s2, RoundEnd, s3, Deliver, s4, Sleepy);
    steps := [Check(0, b + 2), RoundStart(b + 3), RoundEnd, Deliver];
    assert s4.l.ops[0].ts <= s4.f.closed;
  }

  /** A check whose request waited for its latch while the range fell asleep
      passes the old floor, and the next group promise overtakes it. */
  lemma SleepingCheckBreaksPromise(st: State) returns (steps: seq<Step>)
    requires Start(st)
    ensures Runs(st, steps) && !PromiseKept(After(st, steps)) && ObeysAll(st, steps, Sleepy)
  {
    var e, b, n := st.enrols, st.l.floor, |st.log|;
    var first := FallAsleep(st);
    var second := HearOfSleep(e, st.log, b, st.f.closed);
    var s0 := Registered(e, st.log, b, [], b + 1, Some(n));
    var last, end := CheckAsleep(s0, b);
    Join(st, first, Registered(e, st.log, b, [Reg(n, b + 1), Group(b + 1)], st.f.closed, None), second, s0, Sleepy);
    Join(st, first + second, s0, last, end, Sleepy);
    steps := first + second + last;
  }

  // ---- an awake range's promise ----

  const Enrolling: set<Rule> := {AwakeChecks, WholeRegistrations, WholeLog}

  /** Awake, yet registered with the follower. */
  function Enrolled(b: Timestamp, n: nat, log: seq<Entry>, applied: nat, stable: nat, ops: map<nat, Op>): State {
    State(true, log, Leader(false, false, b + 1, ops, applied, stable, n, b + 1, false, None, None), [],
          Follower(n, b + 1, Some(n)))
  }

  lemma PromiseAwake(s0: State) returns (steps: seq<Step>)
    requires Start(s0) && s0.enrols
    ensures var n := |s0.log|; Leg(s0, steps, Enrolled(s0.l.floor, n, s0.log, n, n, map[]), Enrolling)
  {
    var b, n := s0.l.floor, |s0.log|;
    var s1 := s0.(l := s0.l.(groupTS := b + 1, round := Some(b + 1)));
    var s2 := s1.(l := s1.l.(floor := b + 1), channel := [Side(n, b + 1)]);
    var s3 := s2.(l := s2.l.(round := None), channel := [Side(n, b + 1), Group(b + 1)]);
    var s4 := s3.(channel := [Group(b + 1)], f := Follower(n, b + 1, Some(n)));
    var s5 := Enrolled(b, n, s0.log, n, n, map[]);
    Four(s0, RoundStart(b + 1), s1, SidePublish, s2, RoundEnd, s3, Deliver, s4, Enrolling);
    One(s4, Deliver, s5, Enrolling);
    Join(s0, [RoundStart(b + 1), SidePublish, RoundEnd, Deliver], s4, [Deliver], s5, Enrolling);
    steps := [RoundStart(b + 1), SidePublish, RoundEnd, Deliver] + [Deliver];
  }

  /** A write, proposed, applied and released by the leader. */
  function WriteSteps(ts: Timestamp): seq<Step> { [Check(0, ts), Propose(0)] + [Persist, LeaderApply] + [Release(0)] }

  lemma WriteAwake(b: Timestamp, log: seq<Entry>)
    ensures var n := |log|;
            Leg(Enrolled(b, n, log, n, n, map[]), WriteSteps(b + 2),
                Enrolled(b, n, log + [Write(b + 2)], n + 1, n + 1, map[]), Enrolling)
  {
    var n, w := |log|, log + [Write(b + 2)];
    var p := map[0 := Proposed(n)];
    var s0, s2, s4 := Enrolled(b, n, log, n, n, map[]), Enrolled(b, n, w, n, n, p), Enrolled(b, n, w, n + 1, n + 1, p);
    Two(s0, Check(0, b + 2), Enrolled(b, n, log, n, n, map[0 := Checked(b + 2)]), Propose(0), s2, Enrolling);
    Two(s2, Persist, Enrolled(b, n, w, n, n + 1, p), LeaderApply, s4, Enrolling);
    One(s4, Release(0), Enrolled(b, n, w, n + 1, n + 1, map[]), Enrolling);
    Join(s0, [Check(0, b + 2), Propose(0)], s2, [Persist, LeaderApply], s4, Enrolling);
    Join(s0, [Check(0, b + 2), Propose(0)] + [Persist, LeaderApply], s4, [Release(0)],
         Enrolled(b, n, w, n + 1, n + 1, map[]), Enrolling);
  }

  /** The next group promise reaches a follower behind the write, although the
      leader published its own on the log. */
  lemma PromisePast(b: Timestamp, log: seq<Entry>) returns (steps: seq<Step>, s4: State)
    ensures var n := |log|; Leg(Enrolled(b, n, log + [Write(b + 2)], n + 1, n + 1, map[]), steps, s4, Enrolling)
    ensures !PromiseKept(s4)
  {
    var n := |log|;
    var s0 := Enrolled(b, n, log + [Write(b + 2)], n + 1, n + 1, map[]);
    var s1 := s0.(l := s0.l.(groupTS := b + 3, round := Some(b + 3)));
    var s2 := s1.(l := s1.l.(floor := b + 3, logged := n + 2), log := s0.log + [Other]);
    var s3 := s2.(l := s2.l.(round := None), channel := [Group(b + 3)]);
    s4 := s3.(channel := [], f := Follower(n, b + 3, Some(n)));
    Four(s0, RoundStart(b + 3), s1, LogPublish, s2, RoundEnd, s3, Deliver, s4, Enrolling);
    steps := [RoundStart(b + 3), LogPublish, RoundEnd, Deliver];
    assert s4.log[n].Write? && s4.log[n].ts <= s4.f.closed;
  }

  /** A promise of an awake range registers it too. The writes it takes next
      send no wake, and a group promise reaches a follower that has not
      applied them. */
  lemma EnrolmentBreaksPromise(st: State) returns (steps: seq<Step>)
    requires Start(st) && st.enrols
    ensures Runs(st, steps) && !PromiseKept(After(st, steps)) && ObeysAll(st, steps, Enrolling)
  {
    var b, n := st.l.floor, |st.log|;
    var first := PromiseAwake(st);
    WriteAwake(b, st.log);
    var last, end := PromisePast(b, st.log);
    var s0 := Enrolled(b, n, st.log + [Write(b + 2)], n + 1, n + 1, map[]);
    Join(st, first, Enrolled(b, n, st.log, n, n, map[]), WriteSteps(b + 2), s0, Enrolling);
    Join(st, first + WriteSteps(b + 2), s0, last, end, Enrolling);
    steps := first + WriteSteps(b + 2) + last;
  }

  // ---- a registration torn by a wake and a second sleep ----

  const Torn: set<Rule> := {AwakeChecks, NoEnrolment, WholeLog}

  /** In the round that closes b + 1, the bump done and the log's end read as n. */
  function Between(e: bool, b: Timestamp, n: nat, f: Follower, quiescent: bool, log: seq<Entry>, applied: nat,
                   stable: nat, ops: map<nat, Op>): State {
    State(e, log, Leader(quiescent, false, b + 1, ops, applied, stable, n, b + 1, false, Some(b + 1), Some(n)), [], f)
  }

  lemma BumpThenWake(s0: State) returns (steps: seq<Step>)
    requires Start(s0)
    ensures var n := |s0.log|;
            Leg(s0, steps, Between(s0.enrols, s0.l.floor, n, s0.f, false, s0.log, n, n, map[]), Torn)
  {
    var e, b, n := s0.enrols, s0.l.floor, |s0.log|;
    var s1 := s0.(l := s0.l.(quiescent := true));
    var s2 := s1.(l := s1.l.(groupTS := b + 1, round := Some(b + 1)));
    Four(s0, Quiesce, s1, RoundStart(b + 1), s2, RegisterBump, Between(e, b, n, s0.f, true, s0.log, n, n, map[]), Rouse,
         Between(e, b, n, s0.f, false, s0.log, n, n, map[]), Torn);
    steps := [Quiesce, RoundStart(b + 1), RegisterBump, Rouse];
  }

  lemma WriteBetween(e: bool, b: Timestamp, f: Follower, log: seq<Entry>)
    ensures var n := |log|;
            Leg(Between(e, b, n, f, false, log, n, n, map[]), WriteSteps(b + 2),
                Between(e, b, n, f, false, log + [Write(b + 2)], n + 1, n + 1, map[]), Torn)
  {
    var n, w := |log|, log + [Write(b + 2)];
    var p := map[0 := Proposed(n)];
    var s0, s2 := Between(e, b, n, f, false, log, n, n, map[]), Between(e, b, n, f, false, w, n, n, p);
    var s4, s5 := Between(e, b, n, f, false, w, n + 1, n + 1, p), Between(e, b, n, f, false, w, n + 1, n + 1, map[]);
    Two(s0, Check(0, b + 2), Between(e, b, n, f, false, log, n, n, map[0 := Checked(b + 2)]), Propose(0), s2, Torn);
    Two(s2, Persist, Between(e, b, n, f, false, w, n, n + 1, p), LeaderApply, s4, Torn);
    One(s4, Release(0), s5, Torn);
    Join(s0, [Check(0, b + 2), Propose(0)], s2, [Persist, LeaderApply], s4, Torn);
    Join(s0, [Check(0, b + 2), Propose(0)] + [Persist, LeaderApply], s4, [Release(0)], s5, Torn);
  }

  /** Asleep again, the write applied, the follower behind it. */
  function Late(e: bool, b: Timestamp, log: seq<Entry>, l: Leader, channel: seq<Msg>, closed: Timestamp,
                reg: Option<nat>): State {
    State(e, log + [Write(b + 2)], l, channel, Follower(|log|, closed, reg))
  }

  function Asleep(b: Timestamp, n: nat): Leader {
    Leader(true, true, b + 1, map[], n + 1, n + 1, n, b + 1, false, None, None)
  }

  lemma SendLate(e: bool, b: Timestamp, closed: Timestamp, log: seq<Entry>) returns (steps: seq<Step>)
    ensures var n := |log|;
            Leg(Between(e, b, n, Follower(n, closed, None), false, log + [Write(b + 2)], n + 1, n + 1, map[]), steps,
                Late(e, b, log, Asleep(b, n).(round := Some(b + 1)), [Reg(n, b + 1)], closed, None), Torn)
  {
    var n, w := |log|, log + [Write(b + 2)];
    var f := Follower(n, closed, None);
    Two(Between(e, b, n, f, false, w, n + 1, n + 1, map[]), Quiesce, Between(e, b, n, f, true, w, n + 1, n + 1, map[]),
        RegisterSend, Late(e, b, log, Asleep(b, n).(round := Some(b + 1)), [Reg(n, b + 1)], closed, None), Torn);
    steps := [Quiesce, RegisterSend];
  }

  lemma DeliverLate(e: bool, b: Timestamp, closed: Timestamp, log: seq<Entry>) returns (steps: seq<Step>)
    requires log != [] && closed <= b
    ensures var n := |log|;
            Leg(Late(e, b, log, Asleep(b, n).(round := Some(b + 1)), [Reg(n, b + 1)], closed, None), steps,
                Late(e, b, log, Asleep(b, n), [Group(b + 1)], b + 1, Some(n)), Torn)
  {
    var n := |log|;
    Two(Late(e, b, log, Asleep(b, n).(round := Some(b + 1)), [Reg(n, b + 1)], closed, None), RoundEnd,
        Late(e, b, log, Asleep(b, n), [Reg(n, b + 1), Group(b + 1)], closed, None), Deliver,
        Late(e, b, log, Asleep(b, n), [Group(b + 1)], b + 1, Some(n)), Torn);
    steps := [RoundEnd, Deliver];
  }

  lemma PromiseLate(e: bool, b: Timestamp, log: seq<Entry>) returns (steps: seq<Step>, end: State)
    ensures Leg(Late(e, b, log, Asleep(b, |log|), [Group(b + 1)], b + 1, Some(|log|)), steps, end, Torn)
    ensures !PromiseKept(end)
  {
    var n := |log|;
    var l := Asleep(b, n);
    var l2 := l.(groupTS := b + 3);
    var l1 := l2.(round := Some(b + 3));
    end := Late(e, b, log, l2, [], b + 3, Some(n));
    Four(Late(e, b, log, l, [Group(b + 1)], b + 1, Some(n)), Deliver, Late(e, b, log, l, [], b + 1, Some(n)),
         RoundStart(b + 3), Late(e, b, log, l1, [], b + 1, Some(n)), RoundEnd,
         Late(e, b, log, l2, [Group(b + 3)], b + 1, Some(n)), Deliver, end, Torn);
    steps := [Deliver, RoundStart(b + 3), RoundEnd, Deliver];
    assert end.log[n] == Write(b + 2);
  }

  /** The index of a registration is read before the range is seen asleep: a
      write that came and went in between is not covered by it. */
  lemma TornRegistrationBreaksPromise(st: State) returns (steps: seq<Step>)
    requires Start(st)
    ensures Runs(st, steps) && !PromiseKept(After(st, steps)) && ObeysAll(st, steps, Torn)
  {
    var e, b, n, closed := st.enrols, st.l.floor, |st.log|, st.f.closed;
    var first := BumpThenWake(st);
    WriteBetween(e, b, st.f, st.log);
    var third := SendLate(e, b, closed, st.log);
    var fourth := DeliverLate(e, b, closed, st.log);
    var last, end := PromiseLate(e, b, st.log);
    var s2 := Between(e, b, n, st.f, false, st.log + [Write(b + 2)], n + 1, n + 1, map[]);
    var s3 := Late(e, b, st.log, Asleep(b, n).(round := Some(b + 1)), [Reg(n, b + 1)], closed, None);
    var s4 := Late(e, b, st.log, Asleep(b, n), [Group(b + 1)], b + 1, Some(n));
    Join(st, first, Between(e, b, n, st.f, false, st.log, n, n, map[]), WriteSteps(b + 2), s2, Torn);
    Join(st, first + WriteSteps(b + 2), s2, third, s3, Torn);
    Join(st, first + WriteSteps(b + 2) + third, s3, fourth, s4, Torn);
    Join(st, first + WriteSteps(b + 2) + third + fourth, s4, last, end, Torn);
    steps := first + WriteSteps(b + 2) + third + fourth + last;
  }

  // ---- an awake promise over an abandoned write ----

  const Behind: set<Rule> := {AwakeChecks, WholeRegistrations, NoEnrolment}

  /** The latch drain does not wait for a write whose client gave up. While its
      entry is not on disk, the promise's index is read in front of it. */
  lemma AbandonedWriteBreaksPromise(s0: State) returns (steps: seq<Step>)
    requires Start(s0) && !s0.enrols
    ensures Runs(s0, steps) && !PromiseKept(After(s0, steps)) && ObeysAll(s0, steps, Behind)
  {
    var b, n := s0.l.floor, |s0.log|;
    var s1 := s0.(l := s0.l.(ops := map[0 := Checked(b + 1)]));
    var s3 := s0.(log := s0.log + [Write(b + 1)]);
    var s2 := s3.(l := s3.l.(ops := map[0 := Proposed(n)]));
    var s4 := s3.(l := s3.l.(groupTS := b + 1, round := Some(b + 1)));
    var s5 := s4.(l := s4.l.(floor := b + 1), channel := [Side(n, b + 1)]);
    var s6 := s5.(channel := [], f := Follower(n, b + 1, None));
    Four(s0, Check(0, b + 1), s1, Propose(0), s2, Abandon(0), s3, RoundStart(b + 1), s4, Behind);
    Two(s4, SidePublish, s5, Deliver, s6, Behind);
    Join(s0, [Check(0, b + 1), Propose(0), Abandon(0), RoundStart(b + 1)], s4, [SidePublish, Deliver], s6, Behind);
    steps := [Check(0, b + 1), Propose(0), Abandon(0), RoundStart(b + 1)] + [SidePublish, Deliver];
    assert s6.log[n].Write? && s6.log[n].ts <= s6.f.closed;
  }

  // ---- exactly which rules are needed ----

  /** An awake promise either registers, and must not be made, or does not, and
      must wait for the log. */
  predicate Enough(enrols: bool, rules: set<Rule>) {
    && AwakeChecks in rules && WholeRegistrations in rules
    && (if enrols then NoEnrolment in rules else WholeLog in rules)
  }

  lemma {:induction false} SilentRule(st: State, steps: seq<Step>)
    requires Runs(st, steps)
    ensures st.enrols && ObeysRun(st, steps, NoEnrolment) ==> ObeysRun(st, steps, WholeLog)
    ensures !st.enrols ==> ObeysRun(st, steps, NoEnrolment)
    decreases |steps|
  {
    if steps != [] {
      SilentRule(Do(st, steps[0]), steps[1..]);
    }
  }

  lemma AllBut(st: State, steps: seq<Step>, rules: set<Rule>, out: Rule)
    requires Runs(st, steps) && out !in rules
    requires ObeysAll(st, steps, {AwakeChecks, WholeRegistrations, NoEnrolment, WholeLog} - {out})
    ensures ObeysAll(st, steps, rules)
  {
    forall r | r in rules ensures ObeysRun(st, steps, r) {
      match r {
        case AwakeChecks =>
        case WholeRegistrations =>
        case NoEnrolment =>
        case WholeLog =>
      }
    }
  }

  /** A run that obeys the rules and breaks a promise, when they are too few. */
  lemma TooFew(st: State, rules: set<Rule>) returns (steps: seq<Step>)
    requires Start(st) && !Enough(st.enrols, rules)
    ensures Runs(st, steps) && ObeysAll(st, steps, rules) && !PromiseKept(After(st, steps))
  {
    if AwakeChecks !in rules {
      steps := SleepingCheckBreaksPromise(st);
      AllBut(st, steps, rules, AwakeChecks);
    } else if WholeRegistrations !in rules {
      steps := TornRegistrationBreaksPromise(st);
      AllBut(st, steps, rules, WholeRegistrations);
    } else if st.enrols {
      steps := EnrolmentBreaksPromise(st);
      AllBut(st, steps, rules, NoEnrolment);
    } else {
      steps := AbandonedWriteBreaksPromise(st);
      AllBut(st, steps, rules, WholeLog);
    }
  }

  /** From any initial state, all runs that obey the chosen rules keep every
      promise exactly when enough of them are chosen. */
  lemma PromisesHoldIff(st: State, rules: set<Rule>)
    requires Start(st)
    ensures (forall steps :: Runs(st, steps) && ObeysAll(st, steps, rules) ==> PromiseKept(After(st, steps)))
            <==> Enough(st.enrols, rules)
  {
    if Enough(st.enrols, rules) {
      forall steps | Runs(st, steps) && ObeysAll(st, steps, rules) ensures PromiseKept(After(st, steps)) {
        SilentRule(st, steps);
        assert ObeysRun(st, steps, AwakeChecks) && ObeysRun(st, steps, WholeRegistrations);
        assert if st.enrols then ObeysRun(st, steps, NoEnrolment) else ObeysRun(st, steps, WholeLog);
        GroupPromisesHold(st, steps);
      }
    } else {
      var steps := TooFew(st, rules);
    }
  }
}
