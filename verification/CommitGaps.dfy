/** Where the promises of the commit protocol end. For each, a family of runs
    that break it, from every state in which the commit could go through, and
    the condition under which no run does. */
module CommitGaps {
  import opened Keys
  import opened Hlc
  import opened Mvcc
  import opened Spans
  import opened TsCaches
  import opened TxnRecords
  import opened ParallelCommit
  import opened Atomicity

  // ---- building runs ----

  lemma {:induction false} Extend(st: State, steps: seq<Step>, step: Step)
    requires Runs(st, steps) && Enabled(After(st, steps), step)
    ensures Runs(st, steps + [step]) && After(st, steps + [step]) == Do(After(st, steps), step)
    decreases |steps|
  {
    if steps != [] {
      assert (steps + [step])[1..] == steps[1..] + [step];
      Extend(Do(st, steps[0]), steps[1..], step);
    }
  }

  lemma {:induction false} Join2(st: State, a: seq<Step>, b: seq<Step>)
    requires Runs(st, a) && Runs(After(st, a), b)
    ensures Runs(st, a + b) && After(st, a + b) == After(After(st, a), b)
    decreases |a|
  {
    if a == [] {
      assert a + b == b;
    } else {
      assert (a + b)[1..] == a[1..] + b;
      Join2(Do(st, a[0]), a[1..], b);
    }
  }

  lemma One(s: State, a: Step)
    requires Enabled(s, a)
    ensures Runs(s, [a]) && After(s, [a]) == Do(s, a)
  {
    Extend(s, [], a);
    assert [] + [a] == [a];
  }

  lemma Two(s: State, a: Step, b: Step)
    requires Enabled(s, a) && Enabled(Do(s, a), b)
    ensures Runs(s, [a, b]) && After(s, [a, b]) == Do(Do(s, a), b)
  {
    One(s, a);
    Extend(s, [a], b);
    assert [a] + [b] == [a, b];
  }

  // ---- writing keys ----

  ghost function Const(ks: set<Key>, ts: Timestamp): map<Key, Timestamp> { map k | k in ks :: ts }

  /** The keys written at one timestamp, and heard of. */
  ghost function PutAll(s: State, ks: set<Key>, ts: Timestamp): State {
    s.(co := s.co.(pending := s.co.pending - ks, results := s.co.results + Const(ks, ts)),
       rg := s.rg.(intents := s.rg.intents + Const(ks, ts), landed := s.rg.landed + Const(ks, ts)))
  }

  /** No write is under way and no probe holds a key. */
  ghost predicate Quiet(s: State) {
    s.rg.writing == map[] && s.rg.orphans == {} && forall w :: w in s.recoverers ==> !s.recoverers[w].latched
  }

  ghost predicate CanPut(s: State, ks: set<Key>, ts: Timestamp) {
    && Quiet(s) && ks <= s.co.pending
    && forall k :: k in ks ==> NaiveAllows(s.rg.known, [Point(k)], ts, s.id)
  }

  lemma AddOne(m: map<Key, Timestamp>, k: Key, ts: Timestamp)
    ensures m + Const({k}, ts) == m[k := ts]
  {
  }

  lemma LockThenPut(s: State, k: Key, ts: Timestamp)
    requires CanAccess(s, k, Lock(ts)) && s.rg.writing == map[] && s.rg.orphans == {}
    ensures var locked := Do(s, AtKey(k, Lock(ts)));
            CanAccess(locked, k, Access.Apply(true)) && Do(locked, AtKey(k, Access.Apply(true))) == PutAll(s, {k}, ts)
  {
    AddOne(s.co.results, k, ts);
    AddOne(s.rg.intents, k, ts);
    AddOne(s.rg.landed, k, ts);
    assert map[k := Write(ts, true)] - {k} == map[];
  }

  lemma PutKey(s: State, k: Key, ts: Timestamp)
    requires CanPut(s, {k}, ts)
    ensures var steps := [AtKey(k, Lock(ts)), AtKey(k, Access.Apply(true))];
            Runs(s, steps) && After(s, steps) == PutAll(s, {k}, ts)
  {
    assert Unlatched(s, k);
    LockThenPut(s, k, ts);
    Two(s, AtKey(k, Lock(ts)), AtKey(k, Access.Apply(true)));
  }

  lemma AddMore(m: map<Key, Timestamp>, a: set<Key>, b: set<Key>, ts: Timestamp)
    ensures m + Const(a, ts) + Const(b, ts) == m + Const(a + b, ts)
  {
  }

  lemma PutMore(s: State, a: set<Key>, b: set<Key>, ts: Timestamp)
    ensures PutAll(PutAll(s, a, ts), b, ts) == PutAll(s, a + b, ts)
  {
    assert s.co.pending - a - b == s.co.pending - (a + b);
    AddMore(s.co.results, a, b, ts);
    AddMore(s.rg.intents, a, b, ts);
    AddMore(s.rg.landed, a, b, ts);
  }

  lemma AddNone(m: map<Key, Timestamp>, ts: Timestamp)
    ensures m + Const({}, ts) == m
  {
  }

  lemma PutNone(s: State, ts: Timestamp)
    ensures PutAll(s, {}, ts) == s
  {
    assert s.co.pending - {} == s.co.pending;
    AddNone(s.co.results, ts);
    AddNone(s.rg.intents, ts);
    AddNone(s.rg.landed, ts);
  }

  /** Those of ks among the first n keys. */
  ghost function FirstOf(keys: seq<Key>, n: nat, ks: set<Key>): set<Key>
    requires n <= |keys|
  {
    set i | 0 <= i < n && keys[i] in ks :: keys[i]
  }

  lemma FirstOfNext(keys: seq<Key>, n: nat, ks: set<Key>)
    requires n < |keys|
    ensures FirstOf(keys, n + 1, ks) == FirstOf(keys, n, ks) + if keys[n] in ks then {keys[n]} else {}
  {
    forall k | k in FirstOf(keys, n, ks) ensures k in FirstOf(keys, n + 1, ks) {
    }
  }

  /** Writing some keys leaves the others to be written. */
  lemma CanPutRest(s: State, ks: set<Key>, done: set<Key>, k: Key, ts: Timestamp)
    requires CanPut(s, ks, ts) && done <= ks && k in ks && k !in done
    ensures CanPut(PutAll(s, done, ts), {k}, ts)
  {
  }

  /** One more of the keys, unless it is written already or not wanted. */
  lemma PutNext(s: State, ks: set<Key>, done: set<Key>, k: Key, ts: Timestamp) returns (steps: seq<Step>)
    requires CanPut(s, ks, ts) && done <= ks
    ensures var from := PutAll(s, done, ts);
            Runs(from, steps) && After(from, steps) == PutAll(s, done + if k in ks then {k} else {}, ts)
    ensures OneEpoch(steps) && NoResend(steps)
  {
    if k in ks && k !in done {
      CanPutRest(s, ks, done, k, ts);
      PutKey(PutAll(s, done, ts), k, ts);
      PutMore(s, done, {k}, ts);
      steps := [AtKey(k, Lock(ts)), AtKey(k, Access.Apply(true))];
    } else {
      assert done + (if k in ks then {k} else {}) == done;
      steps := [];
    }
  }

  lemma CalmJoin(a: seq<Step>, b: seq<Step>)
    requires OneEpoch(a) && NoResend(a) && OneEpoch(b) && NoResend(b)
    ensures OneEpoch(a + b) && NoResend(a + b)
  {
  }

  lemma {:induction false} PutFirst(s: State, n: nat, ks: set<Key>, ts: Timestamp) returns (steps: seq<Step>)
    requires CanPut(s, ks, ts) && n <= |s.inFlight|
    ensures Runs(s, steps) && After(s, steps) == PutAll(s, FirstOf(s.inFlight, n, ks), ts)
    ensures OneEpoch(steps) && NoResend(steps)
    decreases n
  {
    if n == 0 {
      assert FirstOf(s.inFlight, 0, ks) == {};
      PutNone(s, ts);
      steps := [];
    } else {
      var first := PutFirst(s, n - 1, ks, ts);
      var done, k := FirstOf(s.inFlight, n - 1, ks), s.inFlight[n - 1];
      var last := PutNext(s, ks, done, k, ts);
      Join2(s, first, last);
      CalmJoin(first, last);
      steps := first + last;
      assert FirstOf(s.inFlight, n, ks) == done + if k in ks then {k} else {} by {
        FirstOfNext(s.inFlight, n - 1, ks);
      }
    }
  }

  lemma PutEach(s: State, ks: set<Key>, ts: Timestamp) returns (steps: seq<Step>)
    requires CanPut(s, ks, ts) && ks <= KeySet(s.inFlight)
    ensures Runs(s, steps) && After(s, steps) == PutAll(s, ks, ts)
    ensures OneEpoch(steps) && NoResend(steps)
  {
    steps := PutFirst(s, |s.inFlight|, ks, ts);
    assert FirstOf(s.inFlight, |s.inFlight|, ks) == ks by {
      forall k | k in ks ensures k in FirstOf(s.inFlight, |s.inFlight|, ks) {
        assert k in s.inFlight;
      }
    }
  }

  /** A timestamp above every read recorded. */
  lemma {:induction false} Above(known: set<Read>, low: Timestamp) returns (ts: Timestamp)
    ensures low < ts && forall r :: r in known ==> r.ts < ts
    decreases |known|
  {
    if known == {} {
      ts := low + 1;
    } else {
      var r :| r in known;
      var rest := Above(known - {r}, low);
      ts := if r.ts < rest then rest else r.ts + 1;
    }
  }

  lemma AboveAllows(known: set<Read>, ks: set<Key>, ts: Timestamp, id: TxnId)
    requires forall r :: r in known ==> r.ts < ts
    ensures forall k :: k in ks ==> NaiveAllows(known, [Point(k)], ts, id)
  {
  }

  // ---- a commit that nothing hinders ----

  /** Nothing stands in the way of the commit: neither the record nor a read
      above the writes. */
  ghost predicate Unhindered(st: State) {
    && !Is(st.record, ABORTED) && Committable(st.co.txn)
    && (forall k :: k in st.inFlight && k in st.rg.intents ==> st.rg.intents[k] <= st.co.txn.writeTS)
    && (forall k :: k in FreshKeys(st) ==> NaiveAllows(st.rg.known, [Point(k)], st.co.txn.writeTS, st.id))
  }

  ghost function Began(st: State): State
    requires Start(st)
  {
    Coordinated(st, Begin)
  }

  /** The keys without an intent are written. */
  ghost function Wrote(st: State): State
    requires Start(st)
  {
    PutAll(Began(st), FreshKeys(st), st.co.txn.writeTS)
  }

  lemma WriteAll(st: State) returns (steps: seq<Step>)
    requires Start(st) && Unhindered(st)
    ensures Runs(st, steps) && After(st, steps) == Wrote(st)
    ensures OneEpoch(steps) && NoResend(steps)
  {
    var begin := [Coordinate(Begin)];
    One(st, Coordinate(Begin));
    assert Began(st).rg.writing == map[];
    var writes := PutEach(Began(st), FreshKeys(st), st.co.txn.writeTS);
    Join2(st, begin, writes);
    steps := begin + writes;
  }

  ghost function StagedRecord(st: State): Option<Record> {
    Some(Record(STAGING, st.co.txn, st.co.txn.bornWall, st.inFlight, 0))
  }

  /** A state of the commit before the record changes, whatever its phase. */
  ghost predicate Stageable(st: State, s: State) {
    && s.id == st.id && s.inFlight == st.inFlight && s.create == st.create && s.record == st.record
    && s.stagedAt == None && st.co.txn in s.co.sent && s.recoverers == map[]
  }

  ghost function StagedFrom(st: State, s: State, heard: bool): State {
    s.(record := StagedRecord(st), stagedAt := Some(st.co.txn.writeTS),
       co := s.co.(stage := if heard && s.co.stage == Sent(st.co.txn) then Done(st.co.txn.writeTS) else s.co.stage))
  }

  lemma StageIt(st: State, s: State, heard: bool)
    requires Start(st) && Unhindered(st) && Stageable(st, s)
    ensures var step := AtRecord(StageEval(st.co.txn, 0, heard));
            Enabled(s, step) && Do(s, step) == StagedFrom(st, s, heard)
  {
    StageEffect(s.record, s.create, 0, st.co.txn, s.inFlight);
  }

  // ---- recovery ----

  ghost predicate CanProbe(s: State, w: nat) {
    && w in s.recoverers && !s.recoverers[w].latched && !s.recoverers[w].missing
    && s.recoverers[w].next <= |s.recoverers[w].keys| && s.rg.writing == map[]
  }

  /** Every key is there. */
  ghost predicate AllThere(s: State, w: nat)
    requires w in s.recoverers
  {
    forall k :: k in s.recoverers[w].keys ==> k in s.rg.intents && s.rg.intents[k] <= s.recoverers[w].ts
  }

  /** All but the recoverer and the reads recorded. */
  ghost predicate OnlyProbed(s: State, next: State, w: nat) {
    && w in s.recoverers && w in next.recoverers && next.recoverers == s.recoverers[w := next.recoverers[w]]
    && next.recoverers[w].keys == s.recoverers[w].keys && next.recoverers[w].ts == s.recoverers[w].ts
    && s.rg.known <= next.rg.known
    && next == s.(recoverers := next.recoverers, rg := s.rg.(known := next.rg.known))
  }

  function Probing(w: nat): seq<Step> { [Recover(w, Bump), Recover(w, Look)] }

  lemma ProbeOne(s: State, w: nat)
    requires CanProbe(s, w) && s.recoverers[w].next < |s.recoverers[w].keys|
    ensures Runs(s, Probing(w)) && OnlyProbed(s, After(s, Probing(w)), w)
    ensures var r, end := s.recoverers[w], After(s, Probing(w)).recoverers[w];
            var k := r.keys[r.next];
            if k in s.rg.intents && s.rg.intents[k] <= r.ts then end == r.(next := r.next + 1)
            else end == r.(missing := true)
  {
    Two(s, Recover(w, Bump), Recover(w, Look));
  }

  lemma {:induction false} ProbeAll(s: State, w: nat) returns (steps: seq<Step>)
    requires CanProbe(s, w) && AllThere(s, w)
    ensures Runs(s, steps) && OneEpoch(steps) && NoResend(steps) && OnlyProbed(s, After(s, steps), w)
    ensures var end := After(s, steps).recoverers[w]; !end.latched && !end.missing && end.next == |end.keys|
    decreases if w in s.recoverers then |s.recoverers[w].keys| - s.recoverers[w].next else 0
  {
    steps := [];
    if s.recoverers[w].next < |s.recoverers[w].keys| {
      ProbeOne(s, w);
      assert s.recoverers[w].keys[s.recoverers[w].next] in s.recoverers[w].keys;
      var rest := ProbeAll(After(s, Probing(w)), w);
      Join2(s, Probing(w), rest);
      steps := Probing(w) + rest;
    }
  }

  ghost function Joined(s: State): State
    requires s.record.Some?
  {
    var rec := s.record.value;
    s.(recoverers := s.recoverers[0 := Recoverer(rec.txn.writeTS, rec.inFlight, 0, false, false)])
  }

  /** The record is staged and every in-flight key there. */
  ghost predicate Recoverable(s: State) {
    && Is(s.record, STAGING) && s.recoverers == map[] && s.rg.writing == map[]
    && forall k :: k in s.record.value.inFlight ==> k in s.rg.intents && s.rg.intents[k] <= s.record.value.txn.writeTS
  }

  /** Recovery joins and finds every key. */
  lemma FindAll(s: State) returns (steps: seq<Step>)
    requires Recoverable(s)
    ensures Runs(s, steps) && OneEpoch(steps) && NoResend(steps)
    ensures OnlyProbed(Joined(s), After(s, steps), 0) && CanEval(After(s, steps), Settle(0))
    ensures !After(s, steps).recoverers[0].missing && !After(s, steps).recoverers[0].latched
  {
    One(s, Recover(0, Join));
    var probing := ProbeAll(Joined(s), 0);
    Join2(s, [Recover(0, Join)], probing);
    steps := [Recover(0, Join)] + probing;
  }

  /** And commits. */
  lemma RecoverAll(s: State) returns (steps: seq<Step>)
    requires Recoverable(s)
    ensures Runs(s, steps) && OneEpoch(steps) && NoResend(steps)
    ensures var end := After(s, steps);
            Is(end.record, COMMITTED) && end.rg.landed == s.rg.landed && end.co == s.co
  {
    var finding := FindAll(s);
    Extend(s, finding, AtRecord(Settle(0)));
    steps := finding + [AtRecord(Settle(0))];
  }

  lemma WroteIsThere(st: State, s: State)
    requires Start(st) && Unhindered(st)
    requires s.record == StagedRecord(st) && s.recoverers == map[] && s.rg == Wrote(st).rg
    ensures Recoverable(s)
  {
    assert Began(st).rg.writing == map[];
    forall k | k in st.inFlight ensures k in s.rg.intents && s.rg.intents[k] <= st.co.txn.writeTS {
      assert k in FreshKeys(st) || k in st.rg.intents;
    }
  }

  lemma WroteIsStageable(st: State)
    requires Start(st)
    ensures Stageable(st, Wrote(st)) && Wrote(st).co.stage == Sent(st.co.txn) && Wrote(st).co.phase == Committing
  {
  }

  // ---- presence is judged by the transaction, not by the write ----

  /** Recovery takes an older intent of the transaction for the in-flight
      write. Every commit that nothing hinders has a run that commits it
      though of its last writes only those to keys without an intent landed. */
  lemma LockedKeysCommitUnwritten(st: State) returns (steps: seq<Step>)
    requires Start(st) && Unhindered(st)
    ensures Runs(st, steps) && OneEpoch(steps) && NoResend(steps) && Is(After(st, steps).record, COMMITTED)
    ensures forall k :: k in After(st, steps).rg.landed <==> k in FreshKeys(st)
  {
    var writes := WriteAll(st);
    WroteIsStageable(st);
    StageIt(st, Wrote(st), true);
    Extend(st, writes, AtRecord(StageEval(st.co.txn, 0, true)));
    var opening := writes + [AtRecord(StageEval(st.co.txn, 0, true))];
    WroteIsThere(st, StagedFrom(st, Wrote(st), true));
    var rest := RecoverAll(StagedFrom(st, Wrote(st), true));
    Join2(st, opening, rest);
    steps := opening + rest;
  }

  /** So a committed record vouches for an in-flight write, in every run, if and
      only if its key carried no intent of the transaction before. */
  lemma CommittedIsCompleteIff(st: State, k: Key)
    requires Start(st) && Unhindered(st) && k in st.inFlight
    ensures (forall steps :: Runs(st, steps) && OneEpoch(steps) && Is(After(st, steps).record, COMMITTED) ==>
               k in After(st, steps).rg.landed) <==>
            k !in st.rg.intents
  {
    if k !in st.rg.intents {
      assert k in FreshKeys(st);
      forall steps | Runs(st, steps) && OneEpoch(steps) && Is(After(st, steps).record, COMMITTED)
        ensures k in After(st, steps).rg.landed {
        CommittedIsComplete(st, steps);
      }
    } else {
      var steps := LockedKeysCommitUnwritten(st);
      assert k !in FreshKeys(st);
    }
  }

  // ---- an error does not mean an abort ----

  /** What the coordinator knows of its staging request. */
  datatype Report = NeverSent | Waiting | Conflict | Failure | Success

  function ReportOf(stage: Stage): Report {
    match stage
    case Unsent => NeverSent
    case Sent(_) => Waiting
    case Rejected => Conflict
    case Refused => Failure
    case Done(_) => Success
  }

  /** The coordinator reports an error at the end of a, and b follows. */
  ghost predicate Errs(st: State, a: seq<Step>, b: seq<Step>, report: Report) {
    && Runs(st, a) && TidyRun(st, a) && Enabled(After(st, a), Coordinate(GiveUp))
    && Runs(Do(After(st, a), Coordinate(GiveUp)), b) && OneEpoch(b)
    && ReportOf(After(st, a).co.stage) == report
  }

  ghost function EndOf(st: State, a: seq<Step>, b: seq<Step>, report: Report): State
    requires Errs(st, a, b, report)
  {
    After(Do(After(st, a), Coordinate(GiveUp)), b)
  }

  /** Reports that rule out a commit: no staging request can succeed, or the
      failed one found the record aborted, which it tells only if it was not to
      create the record too. */
  predicate RulesOut(report: Report, create: bool) {
    report == NeverSent || report == Conflict || (report == Failure && !create)
  }

  lemma ErrorIsTrue(st: State, a: seq<Step>, b: seq<Step>, report: Report)
    requires Start(st) && Errs(st, a, b, report) && RulesOut(report, st.create)
    ensures !Is(EndOf(st, a, b, report).record, COMMITTED)
  {
    var s := After(st, a);
    RunKeeps(st, a);
    CreateStays(st, a);
    StepKeeps(s, Coordinate(GiveUp));
    var s1 := Do(s, Coordinate(GiveUp));
    if report == Failure {
      OneEpochIsTidy(s1, b);
      RunKeeps(s1, b);
    } else {
      HarmlessNeverCommits(s1, b);
    }
  }

  lemma {:induction false} CreateStays(st: State, steps: seq<Step>)
    requires Runs(st, steps)
    ensures After(st, steps).create == st.create
    decreases |steps|
  {
    if steps != [] {
      CreateStays(Do(st, steps[0]), steps[1..]);
    }
  }

  /** Runs that stage the record while the coordinator is left with the report:
      the reply is lost, heard, or lost and the request delivered again with
      the record's creation refused. */
  lemma StageFor(st: State, s: State, report: Report) returns (steps: seq<Step>, end: State)
    requires Start(st) && Unhindered(st) && Stageable(st, s) && s.co.stage == Sent(st.co.txn)
    requires !RulesOut(report, st.create)
    ensures Runs(s, steps) && OneEpoch(steps) && After(s, steps) == end && ReportOf(end.co.stage) == report
    ensures end == s.(record := StagedRecord(st), stagedAt := end.stagedAt, co := s.co.(stage := end.co.stage))
  {
    var heard := report == Success;
    var stage := AtRecord(StageEval(st.co.txn, 0, heard));
    StageIt(st, s, heard);
    One(s, stage);
    steps, end := [stage], StagedFrom(st, s, heard);
    if report == Failure {
      var again := AtRecord(StageEval(st.co.txn, st.co.txn.minTS + 1, true));
      Extend(s, steps, again);
      steps, end := steps + [again], Do(end, again);
    }
  }

  /** Runs up to the error. */
  lemma UpToError(st: State, report: Report) returns (a: seq<Step>, s: State)
    requires Start(st) && Unhindered(st) && !RulesOut(report, st.create)
    ensures Runs(st, a) && OneEpoch(a) && After(st, a) == s && ReportOf(s.co.stage) == report
    ensures s.co.phase == Committing && s.rg == Wrote(st).rg && s.recoverers == map[] && s.record == StagedRecord(st)
  {
    var writes := WriteAll(st);
    WroteIsStageable(st);
    var staging: seq<Step>;
    staging, s := StageFor(st, Wrote(st), report);
    Join2(st, writes, staging);
    a := writes + staging;
  }

  /** An error is not an abort: from every commit that nothing hinders, and for
      every report that does not rule it out, a run in which the client is told
      of an error and recovery commits. */
  lemma ErrorDoesNotMeanAborted(st: State, report: Report) returns (a: seq<Step>, b: seq<Step>)
    requires Start(st) && Unhindered(st) && !RulesOut(report, st.create)
    ensures Errs(st, a, b, report)
    ensures Is(EndOf(st, a, b, report).record, COMMITTED) && EndOf(st, a, b, report).co.phase == GaveUp
  {
    var s: State;
    a, s := UpToError(st, report);
    OneEpochIsTidy(st, a);
    var gaveUp := Do(s, Coordinate(GiveUp));
    assert gaveUp.rg.writing == s.rg.writing by {
      assert Began(st).rg.writing == map[];
    }
    WroteIsThere(st, gaveUp);
    b := RecoverAll(gaveUp);
  }

  /** So an error means that the transaction will never commit, in every run,
      if and only if the report rules it out. */
  lemma ErrorMeansUncommittedIff(st: State, report: Report)
    requires Start(st) && Unhindered(st)
    ensures (forall a, b :: Errs(st, a, b, report) ==> !Is(EndOf(st, a, b, report).record, COMMITTED)) <==>
            RulesOut(report, st.create)
  {
    if RulesOut(report, st.create) {
      forall a, b | Errs(st, a, b, report) ensures !Is(EndOf(st, a, b, report).record, COMMITTED) {
        ErrorIsTrue(st, a, b, report);
      }
    } else {
      var a, b := ErrorDoesNotMeanAborted(st, report);
    }
  }

  // ---- sending the batch again ----

  /** A write sent again can land above a timestamp recovery already settled
      on: resolution then moves its version down. */
  lemma ResendCanMoveDown(st: State, k: Key) returns (steps: seq<Step>)
    requires Start(st) && Unhindered(st) && k in FreshKeys(st)
    ensures Runs(st, steps) && OneEpoch(steps) && ResendsOnly(steps, {k})
    ensures var end := After(st, steps);
            && Is(end.record, COMMITTED) && k in end.rg.intents
            && end.record.value.txn.writeTS < end.rg.intents[k]
  {
    var opening, s := FoundAll(st);
    var again := Coordinate(Resend({k}));
    Extend(st, opening, again);
    var rest := LandHigher(Do(s, again), k, st.co.txn.writeTS);
    Join2(st, opening + [again], rest);
    steps := opening + [again] + rest;
  }

  lemma LandHigher(s: State, k: Key, low: Timestamp) returns (steps: seq<Step>)
    requires Quiet(s) && k in s.co.pending && CanEval(s, Settle(0)) && !s.recoverers[0].missing
    requires Is(s.record, STAGING) && s.record.value.txn.writeTS == low
    ensures Runs(s, steps) && OneEpoch(steps) && NoResend(steps)
    ensures var end := After(s, steps);
            Is(end.record, COMMITTED) && end.record.value.txn.writeTS == low && k in end.rg.intents && low < end.rg.intents[k]
  {
    var ts := Above(s.rg.known, low);
    AboveAllows(s.rg.known, {k}, ts, s.id);
    PutKey(s, k, ts);
    var landing := [AtKey(k, Lock(ts)), AtKey(k, Access.Apply(true))];
    Extend(s, landing, AtRecord(Settle(0)));
    steps := landing + [AtRecord(Settle(0))];
  }

  /** Written, staged, and found by a recoverer that has yet to settle. */
  lemma FoundAll(st: State) returns (steps: seq<Step>, s: State)
    requires Start(st) && Unhindered(st)
    ensures Runs(st, steps) && OneEpoch(steps) && NoResend(steps) && After(st, steps) == s
    ensures s.co.phase == Committing && s.record == StagedRecord(st) && s.inFlight == st.inFlight && s.id == st.id
    ensures s.co.pending == KeySet(st.inFlight) - FreshKeys(st)
    ensures s.rg.writing == map[] && s.rg.orphans == {} && s.recoverers.Keys == {0} && CanEval(s, Settle(0))
    ensures !s.recoverers[0].missing && !s.recoverers[0].latched
  {
    var writes := WriteAll(st);
    WroteIsStageable(st);
    StageIt(st, Wrote(st), true);
    var stage := AtRecord(StageEval(st.co.txn, 0, true));
    Extend(st, writes, stage);
    var staged := StagedFrom(st, Wrote(st), true);
    WroteIsThere(st, staged);
    var finding := FindAll(staged);
    Join2(st, writes + [stage], finding);
    steps := writes + [stage] + finding;
    s := After(st, steps);
  }

  /** A key locked before needs no second send: recovery settles on the older
      intent while the write is still to come. */
  lemma LockedKeyMovesDown(st: State, k: Key) returns (steps: seq<Step>)
    requires Start(st) && Unhindered(st) && k in st.inFlight && k in st.rg.intents
    ensures Runs(st, steps) && OneEpoch(steps) && NoResend(steps)
    ensures var end := After(st, steps);
            && Is(end.record, COMMITTED) && k in end.rg.intents
            && end.record.value.txn.writeTS < end.rg.intents[k]
  {
    var opening, s := FoundAll(st);
    assert k !in FreshKeys(st);
    var rest := LandHigher(s, k, st.co.txn.writeTS);
    Join2(st, opening, rest);
    steps := opening + rest;
  }

  /** So resolution of an in-flight write never moves it down, in every run, if
      and only if this write is not sent again and its key carried no intent of
      the transaction before. */
  lemma ResolutionMovesDownIff(st: State, k: Key, again: set<Key>)
    requires Start(st) && Unhindered(st) && k in st.inFlight
    ensures (forall steps :: Runs(st, steps) && OneEpoch(steps) && ResendsOnly(steps, again) ==>
               var end := After(st, steps);
               Is(end.record, COMMITTED) && k in end.rg.intents ==> end.rg.intents[k] <= end.record.value.txn.writeTS) <==>
            k !in again && k !in st.rg.intents
  {
    if k in st.rg.intents {
      var steps := LockedKeyMovesDown(st, k);
    } else if k in again {
      assert k in FreshKeys(st);
      var steps := ResendCanMoveDown(st, k);
    } else {
      forall steps | Runs(st, steps) && OneEpoch(steps) && ResendsOnly(steps, again)
        ensures var end := After(st, steps);
                Is(end.record, COMMITTED) && k in end.rg.intents ==> end.rg.intents[k] <= end.record.value.txn.writeTS {
        ResolutionNeverMovesDown(st, steps, k);
      }
    }
  }

  // ---- restarting in place ----

  /** Restarts in place happen only with an allowed report in hand. */
  ghost predicate RestartsAt(st: State, steps: seq<Step>, allowed: set<Report>)
    requires Runs(st, steps)
    decreases |steps|
  {
    steps != [] ==>
      && (Restarts(steps[0]) ==> ReportOf(st.co.stage) in allowed)
      && RestartsAt(Do(st, steps[0]), steps[1..], allowed)
  }

  /** An acknowledged commit has its record staged or committed, at the
      timestamp acknowledged. */
  ghost predicate Agreed(st: State) {
    st.co.phase.Acked? ==>
      (Is(st.record, STAGING) || Is(st.record, COMMITTED)) && st.record.value.txn.writeTS == st.co.phase.ts
  }

  /** The record is aborted for good and no staging was heard to succeed. */
  ghost predicate Lost(st: State) {
    && Is(st.record, ABORTED) && !st.co.phase.Acked? && st.inFlight != []
    && (st.co.phase == Open || st.co.phase == Committing ==> !st.co.stage.Done?)
  }

  lemma LostEval(st: State, eval: Eval)
    requires Lost(st) && CanEval(st, eval)
    ensures Lost(Evaluated(st, eval))
  {
    match eval {
      case StageEval(h, threshold, heard) => StageEffect(st.record, st.create, threshold, h, st.inFlight);
      case FinalizeEval(_, _) =>
      case AbortEval(_) =>
      case Bystand(_) =>
      case Settle(_) =>
    }
  }

  lemma LostStays(st: State, step: Step)
    requires Lost(st) && Enabled(st, step)
    ensures Lost(Do(st, step))
  {
    match step {
      case Coordinate(_) =>
      case AtRecord(eval) => LostEval(st, eval);
      case AtKey(_, _) => assert Do(st, step).co.stage == st.co.stage;
      case Recover(_, _) =>
      case OtherRead(_) =>
    }
  }

  lemma {:induction false} RestartsKeep(st: State, steps: seq<Step>, allowed: set<Report>)
    requires Inv(st) || Lost(st)
    requires Runs(st, steps) && RestartsAt(st, steps, allowed) && forall r :: r in allowed ==> RulesOut(r, st.create)
    ensures Inv(After(st, steps)) || Lost(After(st, steps))
    decreases |steps|
  {
    if steps != [] {
      var next := Do(st, steps[0]);
      if Lost(st) {
        LostStays(st, steps[0]);
      } else if Tidy(st, steps[0]) {
        StepKeeps(st, steps[0]);
      } else {
        assert st.co.stage.Refused? && !st.create;
        assert Lost(next);
      }
      assert next.create == st.create;
      RestartsKeep(next, steps[1..], allowed);
    }
  }

  /** A restart is harmless when the report in hand rules a commit out: nothing
      can be staged, or the record is aborted already. */
  lemma RestartsAgree(st: State, steps: seq<Step>, allowed: set<Report>)
    requires Start(st) && Runs(st, steps) && RestartsAt(st, steps, allowed)
    requires forall r :: r in allowed ==> RulesOut(r, st.create)
    ensures Agreed(After(st, steps))
  {
    RestartsKeep(st, steps, allowed);
    var end := After(st, steps);
    if Inv(end) {
      NotDead(end);
    }
  }

  lemma {:induction false} OneEpochRestartsNot(st: State, steps: seq<Step>, allowed: set<Report>)
    requires Runs(st, steps) && OneEpoch(steps)
    ensures RestartsAt(st, steps, allowed)
    decreases |steps|
  {
    if steps != [] {
      assert !Restarts(steps[0]);
      assert forall i :: 0 <= i < |steps[1..]| ==> steps[1..][i] == steps[i + 1];
      OneEpochRestartsNot(Do(st, steps[0]), steps[1..], allowed);
    }
  }

  lemma {:induction false} RestartsJoin(st: State, a: seq<Step>, b: seq<Step>, allowed: set<Report>)
    requires Runs(st, a) && Runs(After(st, a), b) && RestartsAt(st, a, allowed) && RestartsAt(After(st, a), b, allowed)
    ensures Runs(st, a + b) && After(st, a + b) == After(After(st, a), b) && RestartsAt(st, a + b, allowed)
    decreases |a|
  {
    if a == [] {
      assert a + b == b;
    } else {
      assert (a + b)[1..] == a[1..] + b;
      RestartsJoin(Do(st, a[0]), a[1..], b, allowed);
    }
  }

  /** Staged, with the report in hand, and a recoverer has joined. */
  lemma StageAndJoin(st: State, report: Report) returns (steps: seq<Step>, s: State)
    requires Start(st) && Unhindered(st) && !RulesOut(report, st.create)
    ensures Runs(st, steps) && OneEpoch(steps) && After(st, steps) == s && ReportOf(s.co.stage) == report
    ensures s.co.phase == Committing && s.record == StagedRecord(st) && s.inFlight == st.inFlight && s.id == st.id
    ensures s.co.txn == st.co.txn && Quiet(s)
    ensures s.recoverers == map[0 := Recoverer(st.co.txn.writeTS, st.inFlight, 0, false, false)]
  {
    One(st, Coordinate(Begin));
    assert Began(st).rg.writing == map[];
    var staging, staged := StageFor(st, Began(st), report);
    Join2(st, [Coordinate(Begin)], staging);
    Extend(st, [Coordinate(Begin)] + staging, Recover(0, Join));
    steps := [Coordinate(Begin)] + staging + [Recover(0, Join)];
    s := After(st, steps);
  }

  function NextHeader(h: Txn, ts: Timestamp): Txn { h.(epoch := h.epoch + 1, readTS := ts, writeTS := ts) }

  /** Given up and restarted in place. */
  ghost function Restarted(s: State, ts: Timestamp): State {
    s.(co := s.co.(phase := Open, txn := NextHeader(s.co.txn, ts), stage := Unsent, pending := {}, results := map[],
                   aborts := s.co.aborts + {s.co.txn}))
  }

  /** The next epoch, begun and staged. */
  ghost function NextEpoch(s: State, ts: Timestamp): State {
    var h := NextHeader(s.co.txn, ts);
    s.(record := Some(Record(STAGING, h, h.bornWall, s.inFlight, 0)), stagedAt := Some(ts),
       co := s.co.(phase := Committing, txn := h, snapshot := h, stage := Done(ts), pending := KeySet(s.inFlight),
                   results := map[], sent := s.co.sent + {h}, aborts := s.co.aborts + {s.co.txn}))
  }

  lemma GiveUpAndRestart(s: State, ts: Timestamp, allowed: set<Report>)
    requires s.co.phase == Committing && s.rg.writing == map[] && ReportOf(s.co.stage) in allowed
    ensures var steps := [Coordinate(GiveUp), Coordinate(Restart(ts))];
            Runs(s, steps) && After(s, steps) == Restarted(s, ts) && RestartsAt(s, steps, allowed)
  {
    var giveUp, restart := Coordinate(GiveUp), Coordinate(Restart(ts));
    Two(s, giveUp, restart);
    var s1 := Do(s, giveUp);
    assert s1.rg.writing == map[] && Do(s1, restart).rg.writing == map[];
    assert [giveUp, restart][1..] == [restart];
  }

  lemma BeginAndStage(s: State, ts: Timestamp)
    requires Is(s.record, STAGING) && s.record.value.txn == s.co.txn && s.inFlight != [] && s.rg.writing == map[]
    ensures var steps := [Coordinate(Begin), AtRecord(StageEval(NextHeader(s.co.txn, ts), 0, true))];
            Runs(Restarted(s, ts), steps) && OneEpoch(steps) && After(Restarted(s, ts), steps) == NextEpoch(s, ts)
  {
    var h, s1 := NextHeader(s.co.txn, ts), Restarted(s, ts);
    var begin, stage := Coordinate(Begin), AtRecord(StageEval(h, 0, true));
    var s2 := Do(s1, begin);
    assert s2.rg.writing == map[];
    StageEffect(s2.record, s2.create, 0, h, s2.inFlight);
    Two(s1, begin, stage);
  }

  lemma RestartAndStage(s: State, ts: Timestamp, allowed: set<Report>) returns (steps: seq<Step>)
    requires s.co.phase == Committing && Is(s.record, STAGING) && s.record.value.txn == s.co.txn && s.inFlight != []
    requires s.rg.writing == map[] && ReportOf(s.co.stage) in allowed
    ensures Runs(s, steps) && After(s, steps) == NextEpoch(s, ts) && RestartsAt(s, steps, allowed)
  {
    var a := [Coordinate(GiveUp), Coordinate(Restart(ts))];
    var b := [Coordinate(Begin), AtRecord(StageEval(NextHeader(s.co.txn, ts), 0, true))];
    GiveUpAndRestart(s, ts, allowed);
    BeginAndStage(s, ts);
    OneEpochRestartsNot(Restarted(s, ts), b, allowed);
    RestartsJoin(s, a, b, allowed);
    steps := a + b;
  }

  lemma WriteAndAck(s: State, ts: Timestamp) returns (steps: seq<Step>)
    requires s.co.phase == Committing && s.co.stage == Done(ts) && s.co.pending == KeySet(s.inFlight)
    requires CanPut(s, KeySet(s.inFlight), ts)
    ensures Runs(s, steps) && OneEpoch(steps)
    ensures var end := After(s, steps);
            && end.co.phase == Acked(ts) && end.record == s.record && end.recoverers == s.recoverers
            && end.rg.writing == map[] && forall k :: k in s.inFlight ==> k in end.rg.intents && end.rg.intents[k] == ts
  {
    var writes := PutEach(s, KeySet(s.inFlight), ts);
    Extend(s, writes, Coordinate(Acknowledge));
    steps := writes + [Coordinate(Acknowledge)];
    assert Do(After(s, writes), Coordinate(Acknowledge)).rg.writing == map[];
  }

  /** A recoverer of an earlier staging finds its first key moved away. */
  lemma MissAndAbort(s: State) returns (steps: seq<Step>)
    requires CanProbe(s, 0) && s.recoverers[0].next < |s.recoverers[0].keys| && Is(s.record, STAGING)
    requires var r := s.recoverers[0];
             var k := r.keys[r.next];
             k in s.rg.intents && r.ts < s.rg.intents[k]
    ensures Runs(s, steps) && OneEpoch(steps) && After(s, steps).co == s.co && Is(After(s, steps).record, ABORTED)
  {
    ProbeOne(s, 0);
    Extend(s, Probing(0), AtRecord(Settle(0)));
    steps := Probing(0) + [AtRecord(Settle(0))];
  }

  /** Recovery does not compare staged timestamps. A transaction object that
      is restarted in place while its record is staged stages twice, and a
      verdict on the first staging aborts the acknowledged second one. Every
      report that does not rule a commit out leaves room for that. */
  lemma RestartBreaksAgreement(st: State, report: Report) returns (steps: seq<Step>)
    requires Start(st) && Unhindered(st) && !RulesOut(report, st.create)
    ensures Runs(st, steps) && RestartsAt(st, steps, {report})
    ensures After(st, steps).co.phase.Acked? && Is(After(st, steps).record, ABORTED)
  {
    var first, s := StageAndJoin(st, report);
    OneEpochRestartsNot(st, first, {report});
    var ts := Above(s.rg.known, st.co.txn.writeTS);
    var second := RestartAndStage(s, ts, {report});
    RestartsJoin(st, first, second, {report});
    var third := Overtake(NextEpoch(s, ts), ts);
    OneEpochRestartsNot(NextEpoch(s, ts), third, {report});
    RestartsJoin(st, first + second, third, {report});
    steps := first + second + third;
  }

  /** The second staging is written and acknowledged before the verdict on the
      first. */
  lemma Overtake(s: State, ts: Timestamp) returns (steps: seq<Step>)
    requires s.co.phase == Committing && s.co.stage == Done(ts) && s.co.pending == KeySet(s.inFlight) && Quiet(s)
    requires s.inFlight != [] && Is(s.record, STAGING) && forall r :: r in s.rg.known ==> r.ts < ts
    requires CanProbe(s, 0) && s.recoverers[0].next == 0 && s.recoverers[0].keys == s.inFlight && s.recoverers[0].ts < ts
    ensures Runs(s, steps) && OneEpoch(steps)
    ensures After(s, steps).co.phase.Acked? && Is(After(s, steps).record, ABORTED)
  {
    AboveAllows(s.rg.known, KeySet(s.inFlight), ts, s.id);
    var acking := WriteAndAck(s, ts);
    assert s.inFlight[0] in s.inFlight;
    var aborting := MissAndAbort(After(s, acking));
    Join2(s, acking, aborting);
    steps := acking + aborting;
  }

  lemma {:induction false} RestartsWiden(st: State, steps: seq<Step>, few: set<Report>, more: set<Report>)
    requires Runs(st, steps) && RestartsAt(st, steps, few) && few <= more
    ensures RestartsAt(st, steps, more)
    decreases |steps|
  {
    if steps != [] {
      RestartsWiden(Do(st, steps[0]), steps[1..], few, more);
    }
  }

  /** So agreement holds in every run whose restarts in place happen at the
      allowed reports if and only if each of them rules a commit out. */
  lemma AgreementIff(st: State, allowed: set<Report>)
    requires Start(st) && Unhindered(st)
    ensures (forall steps :: Runs(st, steps) && RestartsAt(st, steps, allowed) ==> Agreed(After(st, steps))) <==>
            (forall r :: r in allowed ==> RulesOut(r, st.create))
  {
    if forall r :: r in allowed ==> RulesOut(r, st.create) {
      forall steps | Runs(st, steps) && RestartsAt(st, steps, allowed) ensures Agreed(After(st, steps)) {
        RestartsAgree(st, steps, allowed);
      }
    } else {
      var report :| report in allowed && !RulesOut(report, st.create);
      var steps := RestartBreaksAgreement(st, report);
      RestartsWiden(st, steps, {report}, allowed);
    }
  }
}
