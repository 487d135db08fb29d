/** Follower reads below a closed timestamp (pkg/kvserver/closedts.go): what
    the commands of a range's log do to one key (pkg/storage/mvcc.go), and that
    none after a closed-timestamp command changes what a read at or below that
    timestamp was told. */
module FollowerReads {
  import opened Keys
  import opened Hlc
  import opened Mvcc
  import opened TsCaches
  import TxnRecords
  import ParallelCommit
  import Atomicity
  import Gc
  import Serving

  datatype Intent = Intent(txn: TxnId, ts: Timestamp)

  /** A key's versions, the provisional one among them, and its intent. */
  datatype KeyState = KeyState(versions: seq<Version>, intent: Option<Intent>)

  datatype Cmd =
    | Put(ts: Timestamp, value: Value, txn: TxnId)
    | PutCommitted(ts: Timestamp, value: Value)
    | Resolve(txn: TxnId, commit: bool, commitTS: Timestamp)
    | Rollback(txn: TxnId, restored: Option<Value>)
    | Collect(threshold: Timestamp, snapshot: KeyState, reached: nat)
    | Close(ts: Timestamp)
    | Other

  /** A read by anyone but the intent's owner: refused on an intent at or below
      its timestamp, beneath one above it. */
  function ReadAt(ks: KeyState, t: Timestamp): Option<Value> {
    if ks.intent.Some? && ks.intent.value.ts <= t then None else Some(Visible(ks.versions, t))
  }

  function Newest(ks: KeyState): Timestamp {
    if ks.versions == [] then 0 else ks.versions[0].ts
  }

  /** mvccWrite: a conflict leaves the key alone; an own intent is replaced; a
      write without a transaction goes above the newest version. */
  function Written(ks: KeyState, ts: Timestamp, value: Value, txn: TxnId): KeyState {
    if ks.intent.Some? then
      if txn == NoTxn || ks.intent.value.txn != txn then ks
      else KeyState(Insert(Remove(ks.versions, ks.intent.value.ts), Version(ts, value)), Some(Intent(txn, ts)))
    else if ks.versions != [] && ts <= Newest(ks) then
      if txn != NoTxn then ks
      else KeyState(Insert(ks.versions, Version(Hlc.Next(Newest(ks)), value)), None)
    else KeyState(Insert(ks.versions, Version(ts, value)), if txn != NoTxn then Some(Intent(txn, ts)) else None)
  }

  function WrittenCommitted(ks: KeyState, ts: Timestamp, value: Value): KeyState {
    if ks.intent.Some? || (ks.versions != [] && ts <= Newest(ks)) then ks
    else KeyState(Insert(ks.versions, Version(ts, value)), None)
  }

  /** MVCCResolveIntent: the provisional version goes, or moves to the commit
      timestamp, its own when none is given. */
  function Resolved(ks: KeyState, txn: TxnId, commit: bool, commitTS: Timestamp): KeyState {
    if ks.intent.None? || ks.intent.value.txn != txn then ks
    else
      var at := ks.intent.value.ts;
      if !commit then KeyState(Remove(ks.versions, at), None)
      else if commitTS == 0 || commitTS == at then KeyState(ks.versions, None)
      else KeyState(Insert(Remove(ks.versions, at), Version(commitTS, Visible(ks.versions, at))), None)
  }

  /** MVCCRollbackIntent: an earlier value of the intent returns, or it goes. */
  function RolledBack(ks: KeyState, txn: TxnId, restored: Option<Value>): KeyState {
    if ks.intent.None? || ks.intent.value.txn != txn then ks
    else
      var at := ks.intent.value.ts;
      if restored.None? then KeyState(Remove(ks.versions, at), None)
      else KeyState(Insert(Remove(ks.versions, at), Version(at, restored.value)), ks.intent)
  }

  ghost function AsChain(ks: KeyState): Gc.Chain { Gc.Chain(0.0, ks.intent.Some?, ks.versions) }

  /** The garbage among the first versions of the snapshot, as far as the
      collector's chunks reached. */
  ghost function Gone(threshold: Timestamp, snapshot: KeyState, reached: nat): seq<Gc.GcVersion> {
    if reached <= |snapshot.versions| then Gc.GarbageOf(AsChain(snapshot), reached, threshold, false) else []
  }

  ghost function Collected(ks: KeyState, gone: seq<Gc.GcVersion>): KeyState {
    KeyState(Gc.Keep(0.0, ks.versions, gone), ks.intent)
  }

  ghost function Applied(ks: KeyState, c: Cmd): KeyState {
    match c
    case Put(ts, value, txn) => Written(ks, ts, value, txn)
    case PutCommitted(ts, value) => WrittenCommitted(ks, ts, value)
    case Resolve(txn, commit, commitTS) => Resolved(ks, txn, commit, commitTS)
    case Rollback(txn, restored) => RolledBack(ks, txn, restored)
    case Collect(threshold, snapshot, reached) => Collected(ks, Gone(threshold, snapshot, reached))
    case Close(_) => ks
    case Other => ks
  }

  /** The key after the first n commands. */
  ghost function At(cmds: seq<Cmd>, n: nat): KeyState
    requires n <= |cmds|
  {
    if n == 0 then KeyState([], None) else Applied(At(cmds, n - 1), cmds[n - 1])
  }

  // ---- one command ----

  /** A command that leaves the past up to t alone: writes land above it,
      resolution does not move a version down, and collection happens below it
      and does not stop between a tombstone and what it hides. */
  ghost predicate Later(ks: KeyState, c: Cmd, t: Timestamp) {
    match c
    case Put(ts, _, _) => t < ts
    case PutCommitted(ts, _) => t < ts
    case Resolve(txn, commit, commitTS) =>
      ks.intent.Some? && ks.intent.value.txn == txn && commit && commitTS != 0 ==> ks.intent.value.ts <= commitTS
    case Collect(threshold, snapshot, reached) =>
      snapshot.intent.Some? ||
      (&& threshold <= t && Descending(snapshot.versions) && reached <= |snapshot.versions|
       && Gc.Meets(AsChain(snapshot), reached, threshold, ks.versions)
       && !Gc.CutExposes(snapshot.versions, reached, threshold))
    case Rollback(_, _) => true
    case Close(_) => true
    case Other => true
  }

  lemma InsertAbove(vs: seq<Version>, v: Version, t: Timestamp)
    requires Descending(vs) && t < v.ts
    ensures Descending(Insert(vs, v)) && Visible(Insert(vs, v), t) == Visible(vs, t)
  {
    InsertDescends(vs, v);
    forall x: Version | x.ts <= t ensures x in Insert(vs, v) <==> x in vs {
      InsertMembers(vs, v, x);
    }
    VisibleBelow(Insert(vs, v), vs, t);
  }

  lemma RemoveAbove(vs: seq<Version>, at: Timestamp, t: Timestamp)
    requires Descending(vs) && t < at
    ensures Descending(Remove(vs, at)) && Visible(Remove(vs, at), t) == Visible(vs, t)
  {
    RemoveDescends(vs, at);
    forall x: Version | x.ts <= t ensures x in Remove(vs, at) <==> x in vs {
      RemoveMembers(vs, at, x);
    }
    VisibleBelow(Remove(vs, at), vs, t);
  }

  lemma WriteKeeps(ks: KeyState, ts: Timestamp, value: Value, txn: TxnId, t: Timestamp)
    requires Descending(ks.versions) && ReadAt(ks, t).Some? && t < ts
    ensures Descending(Written(ks, ts, value, txn).versions) && ReadAt(Written(ks, ts, value, txn), t) == ReadAt(ks, t)
  {
    if ks.intent.Some? {
      RemoveAbove(ks.versions, ks.intent.value.ts, t);
      InsertAbove(Remove(ks.versions, ks.intent.value.ts), Version(ts, value), t);
    } else {
      InsertAbove(ks.versions, Version(ts, value), t);
      if ks.versions != [] && ts <= Newest(ks) {
        InsertAbove(ks.versions, Version(Hlc.Next(Newest(ks)), value), t);
      }
    }
  }

  lemma ResolveKeeps(ks: KeyState, txn: TxnId, commit: bool, commitTS: Timestamp, t: Timestamp)
    requires Descending(ks.versions) && ReadAt(ks, t).Some? && Later(ks, Resolve(txn, commit, commitTS), t)
    ensures var next := Resolved(ks, txn, commit, commitTS);
            Descending(next.versions) && ReadAt(next, t) == ReadAt(ks, t)
  {
    if ks.intent.Some? && ks.intent.value.txn == txn {
      RemoveAbove(ks.versions, ks.intent.value.ts, t);
      if commit && commitTS != 0 {
        InsertAbove(Remove(ks.versions, ks.intent.value.ts), Version(commitTS, Visible(ks.versions, ks.intent.value.ts)), t);
      }
    }
  }

  lemma CollectKeeps(ks: KeyState, threshold: Timestamp, snapshot: KeyState, reached: nat, t: Timestamp)
    requires Descending(ks.versions) && Later(ks, Collect(threshold, snapshot, reached), t)
    ensures var next := Collected(ks, Gone(threshold, snapshot, reached));
            Descending(next.versions) && Visible(next.versions, t) == Visible(ks.versions, t)
  {
    var gone := Gone(threshold, snapshot, reached);
    Gc.KeepMembers(0.0, ks.versions, gone);
    if snapshot.intent.Some? {
      assert gone == [];
      Gc.KeepNothingGone(0.0, ks.versions, gone);
    } else {
      Gc.ChunkCutPreservesIff(AsChain(snapshot), reached, threshold, ks.versions);
    }
  }

  /** A read that got an answer gets the same one after the command. */
  lemma CommandKeepsRead(ks: KeyState, c: Cmd, t: Timestamp)
    requires Descending(ks.versions) && ReadAt(ks, t).Some? && Later(ks, c, t)
    ensures Descending(Applied(ks, c).versions) && ReadAt(Applied(ks, c), t) == ReadAt(ks, t)
  {
    match c {
      case Put(ts, value, txn) => WriteKeeps(ks, ts, value, txn, t);
      case PutCommitted(ts, value) => InsertAbove(ks.versions, Version(ts, value), t);
      case Resolve(txn, commit, commitTS) => ResolveKeeps(ks, txn, commit, commitTS, t);
      case Rollback(txn, restored) =>
        if ks.intent.Some? {
          RemoveAbove(ks.versions, ks.intent.value.ts, t);
          if restored.Some? {
            InsertAbove(Remove(ks.versions, ks.intent.value.ts), Version(ks.intent.value.ts, restored.value), t);
          }
        }
      case Collect(threshold, snapshot, reached) => CollectKeeps(ks, threshold, snapshot, reached, t);
      case Close(_) =>
      case Other =>
    }
  }

  lemma CommandDescends(ks: KeyState, c: Cmd)
    requires Descending(ks.versions)
    ensures Descending(Applied(ks, c).versions)
  {
    var at := if ks.intent.Some? then ks.intent.value.ts else 0;
    var less := Remove(ks.versions, at);
    RemoveDescends(ks.versions, at);
    match c {
      case Put(ts, value, _) =>
        InsertDescends(less, Version(ts, value));
        InsertDescends(ks.versions, Version(ts, value));
        InsertDescends(ks.versions, Version(Hlc.Next(Newest(ks)), value));
      case PutCommitted(ts, value) => InsertDescends(ks.versions, Version(ts, value));
      case Resolve(_, _, commitTS) => InsertDescends(less, Version(commitTS, Visible(ks.versions, at)));
      case Rollback(_, restored) => if restored.Some? { InsertDescends(less, Version(at, restored.value)); }
      case Collect(threshold, snapshot, reached) => Gc.KeepMembers(0.0, ks.versions, Gone(threshold, snapshot, reached));
      case Close(_) =>
      case Other =>
    }
  }

  lemma {:induction false} AtDescends(cmds: seq<Cmd>, n: nat)
    requires n <= |cmds|
    ensures Descending(At(cmds, n).versions)
  {
    if n > 0 {
      AtDescends(cmds, n - 1);
      CommandDescends(At(cmds, n - 1), cmds[n - 1]);
    }
  }

  // ---- every later log position ----

  /** The command at a position leaves the past up to t alone there. */
  ghost predicate LaterAt(cmds: seq<Cmd>, i: nat, t: Timestamp)
    requires i < |cmds|
  {
    Later(At(cmds, i), cmds[i], t)
  }

  lemma ReadStep(cmds: seq<Cmd>, i: nat, t: Timestamp)
    requires i < |cmds| && LaterAt(cmds, i, t) && ReadAt(At(cmds, i), t).Some?
    ensures ReadAt(At(cmds, i + 1), t) == ReadAt(At(cmds, i), t)
  {
    AtDescends(cmds, i);
    CommandKeepsRead(At(cmds, i), cmds[i], t);
  }

  lemma {:induction false} ReadStays(cmds: seq<Cmd>, p: nat, q: nat, t: Timestamp)
    requires p <= q <= |cmds| && ReadAt(At(cmds, p), t).Some?
    requires forall i :: p <= i < q ==> LaterAt(cmds, i, t)
    ensures ReadAt(At(cmds, q), t) == ReadAt(At(cmds, p), t)
    decreases q - p
  {
    if p < q {
      ReadStays(cmds, p, q - 1, t);
      assert LaterAt(cmds, q - 1, t);
      ReadStep(cmds, q - 1, t);
    }
  }

  /** What the entries of the range's log do to one key: a write's cache check
      fixed its timestamp, the others write no version. */
  ghost predicate LogMatches(log: seq<Serving.Entry>, cmds: seq<Cmd>) {
    |log| == |cmds| && forall i :: 0 <= i < |log| ==> EntryMatches(log[i], cmds[i])
  }

  predicate EntryMatches(e: Serving.Entry, c: Cmd) {
    match e
    case Closed(t) => c == Close(t)
    case Write(_, _, ts, _) => c == Other || (c.Put? && c.ts == ts) || (c.PutCommitted? && c.ts == ts)
    case Exempt => !c.Put? && !c.PutCommitted? && !c.Close?
  }

  /** What is left to others: the commit protocol does not move a version down,
      the collector stays below t and cuts no tombstone from what it hides. */
  ghost predicate Careful(ks: KeyState, c: Cmd, t: Timestamp) {
    c.Resolve? || c.Collect? ==> Later(ks, c, t)
  }

  /** For every run of the serving path and every key: once a closed timestamp
      has applied, a read at or below it that meets no intent returns the same
      at every later log position. */
  lemma FollowerReadsStable(steps: seq<Serving.Step>, cmds: seq<Cmd>, c: nat, p: nat, q: nat, t: Timestamp)
    requires Serving.Runs(Serving.Start, steps) && LogMatches(Serving.After(Serving.Start, steps).log, cmds)
    requires c < p <= q <= |cmds| && cmds[c].Close? && t <= cmds[c].ts
    requires forall i :: p <= i < q ==> Careful(At(cmds, i), cmds[i], t)
    ensures ReadAt(At(cmds, p), t).Some? ==> ReadAt(At(cmds, q), t) == ReadAt(At(cmds, p), t)
  {
    Serving.ClosedTimestampsHold(steps);
    var log := Serving.After(Serving.Start, steps).log;
    assert EntryMatches(log[c], cmds[c]);
    forall i | p <= i < q ensures LaterAt(cmds, i, t) {
      assert EntryMatches(log[i], cmds[i]);
      assert Careful(At(cmds, i), cmds[i], t);
    }
    if ReadAt(At(cmds, p), t).Some? {
      ReadStays(cmds, p, q, t);
    }
  }

  // ---- when a resolution changes a read ----

  lemma VisibleNewest(vs: seq<Version>, t: Timestamp) returns (y: Option<Version>)
    requires Descending(vs)
    ensures y.None? ==> Visible(vs, t) == Tombstone && forall x :: x in vs ==> t < x.ts
    ensures y.Some? ==> y.value in vs && y.value.ts <= t && Visible(vs, t) == y.value.value
    ensures y.Some? ==> forall x :: x in vs && x.ts <= t ==> x.ts <= y.value.ts
  {
    var s := Gc.SurvivorOrNone(vs, t);
    if s == |vs| {
      Gc.VisibleNone(vs, t);
      y := None;
    } else {
      forall x | x in vs && x.ts <= t ensures x.ts <= vs[s].ts {
        Gc.SurvivorIsMax(vs, s, t, x);
      }
      Gc.VisibleMax(vs, vs[s], t);
      y := Some(vs[s]);
    }
  }

  /** No version lies between a timestamp and the read. */
  ghost predicate NoneBetween(vs: seq<Version>, from: Timestamp, t: Timestamp) {
    forall v :: v in vs && v.ts <= t ==> v.ts <= from
  }

  /** A version put below the read is what it shows, unless a later one is. */
  lemma InsertBelow(vs: seq<Version>, v: Version, t: Timestamp)
    requires Descending(vs) && v.ts <= t
    ensures Visible(Insert(vs, v), t) == if NoneBetween(vs, v.ts, t) then v.value else Visible(vs, t)
  {
    var next := Insert(vs, v);
    InsertDescends(vs, v);
    forall x ensures x in next <==> x == v || (x in vs && x.ts != v.ts) {
      InsertMembers(vs, v, x);
    }
    if NoneBetween(vs, v.ts, t) {
      Gc.VisibleMax(next, v, t);
    } else {
      var y := VisibleNewest(vs, t);
      assert v.ts < y.value.ts;
      Gc.VisibleMax(next, y.value, t);
    }
  }

  /** A commit that resolves an intent above a read changes the read's answer if
      and only if it moves the version to or below the read, nothing later lies
      between, and the value is another. */
  lemma ResolutionChangesReadIff(ks: KeyState, commitTS: Timestamp, t: Timestamp)
    requires Descending(ks.versions) && ks.intent.Some? && t < ks.intent.value.ts
    ensures var at := ks.intent.value.ts;
            ReadAt(Resolved(ks, ks.intent.value.txn, true, commitTS), t) != ReadAt(ks, t) <==>
              && 0 < commitTS <= t && NoneBetween(Remove(ks.versions, at), commitTS, t)
              && Visible(ks.versions, at) != Visible(ks.versions, t)
  {
    var at := ks.intent.value.ts;
    var less, moved := Remove(ks.versions, at), Version(commitTS, Visible(ks.versions, at));
    RemoveAbove(ks.versions, at, t);
    if 0 < commitTS <= t {
      InsertBelow(less, moved, t);
    } else if commitTS != 0 && commitTS != at {
      InsertAbove(less, moved, t);
    }
  }

  // ---- resolution: the transactions behind the log ----

  /** A run of the commit protocol. */
  datatype Txn = Txn(st: ParallelCommit.State, steps: seq<ParallelCommit.Step>)

  /** A run of transaction x that writes k in its last batch, sent once, and not
      before. */
  ghost predicate WritesOnce(run: Txn, x: TxnId, k: Key) {
    && ParallelCommit.Start(run.st) && ParallelCommit.Runs(run.st, run.steps) && run.st.id == x
    && ParallelCommit.OneEpoch(run.steps) && Atomicity.SentOnce(run.steps, k) && k in Atomicity.FreshKeys(run.st)
  }

  /** A transactional write that takes effect. */
  predicate Lands(ks: KeyState, c: Cmd) {
    && c.Put? && c.txn != NoTxn
    && (if ks.intent.Some? then ks.intent.value.txn == c.txn else ks.versions == [] || Newest(ks) < c.ts)
  }

  /** The timestamps of x's writes that took effect among the first n commands. */
  ghost function LandedBy(cmds: seq<Cmd>, n: nat, x: TxnId): seq<Timestamp>
    requires n <= |cmds|
  {
    if n == 0 then []
    else
      LandedBy(cmds, n - 1, x) +
      if Lands(At(cmds, n - 1), cmds[n - 1]) && cmds[n - 1].txn == x then [cmds[n - 1].ts] else []
  }

  /** The run committed at this timestamp. */
  ghost predicate Verdict(run: Txn, commitTS: Timestamp)
    requires ParallelCommit.Runs(run.st, run.steps)
  {
    var rec := ParallelCommit.After(run.st, run.steps).record;
    TxnRecords.Is(rec, TxnRecords.COMMITTED) && rec.value.txn.writeTS == commitTS
  }

  /** One run for each transaction of the log: what the log shows of its writes
      to k are the run's landings there, in order, and its commit resolutions
      are the run's verdict. */
  ghost predicate Backed(cmds: seq<Cmd>, k: Key, runs: map<TxnId, Txn>) {
    && (forall x :: x in runs ==> WritesOnce(runs[x], x, k))
    && (forall i :: 0 <= i < |cmds| && cmds[i].Put? && cmds[i].txn != NoTxn ==> cmds[i].txn in runs)
    && (forall x :: x in runs ==>
          LandedBy(cmds, |cmds|, x) <= Atomicity.Landings(runs[x].st, runs[x].steps, k))
    && (forall i :: 0 <= i < |cmds| && Commits(cmds[i]) && cmds[i].txn in runs ==>
          Verdict(runs[cmds[i].txn], cmds[i].commitTS))
  }

  predicate Commits(c: Cmd) { c.Resolve? && c.commit && c.commitTS != 0 }

  lemma {:induction false} LandedGrows(cmds: seq<Cmd>, n: nat, m: nat, x: TxnId)
    requires n <= m <= |cmds|
    ensures LandedBy(cmds, n, x) <= LandedBy(cmds, m, x)
    decreases m
  {
    if n < m {
      LandedGrows(cmds, n, m - 1, x);
    }
  }

  /** Only a write that takes effect leaves an intent that was not there. */
  lemma IntentComes(ks: KeyState, c: Cmd)
    ensures var intent := Applied(ks, c).intent;
            intent.None? || intent == ks.intent || (Lands(ks, c) && intent == Some(Intent(c.txn, c.ts)))
  {
  }

  /** An intent of the log is where one of its transaction's writes landed. */
  lemma {:induction false} IntentLanded(cmds: seq<Cmd>, n: nat)
    requires n <= |cmds|
    ensures var intent := At(cmds, n).intent;
            intent.Some? ==> intent.value.ts in LandedBy(cmds, n, intent.value.txn)
  {
    if n > 0 {
      IntentLanded(cmds, n - 1);
      IntentComes(At(cmds, n - 1), cmds[n - 1]);
      if At(cmds, n).intent.Some? {
        var x := At(cmds, n).intent.value.txn;
        LandedGrows(cmds, n - 1, n, x);
        if At(cmds, n).intent != At(cmds, n - 1).intent {
          assert LandedBy(cmds, n, x)[|LandedBy(cmds, n - 1, x)|] == cmds[n - 1].ts;
        }
      }
    }
  }

  lemma {:induction false} IntentBacked(cmds: seq<Cmd>, n: nat, k: Key, runs: map<TxnId, Txn>)
    requires n <= |cmds| && Backed(cmds, k, runs)
    ensures At(cmds, n).intent.Some? ==> At(cmds, n).intent.value.txn in runs
  {
    if n > 0 {
      IntentBacked(cmds, n - 1, k, runs);
      IntentComes(At(cmds, n - 1), cmds[n - 1]);
    }
  }

  lemma LandingBelowVerdict(run: Txn, x: TxnId, k: Key, shown: seq<Timestamp>, ts: Timestamp, commitTS: Timestamp)
    requires WritesOnce(run, x, k) && Verdict(run, commitTS)
    requires shown <= Atomicity.Landings(run.st, run.steps, k) && ts in shown
    ensures ts <= commitTS
  {
    Atomicity.LandsBelowCommit(run.st, run.steps, k);
    assert ts in Atomicity.Landings(run.st, run.steps, k);
  }

  /** So a resolution in the log never moves a version down. */
  lemma BackedIsLater(cmds: seq<Cmd>, i: nat, k: Key, runs: map<TxnId, Txn>, t: Timestamp)
    requires i < |cmds| && Backed(cmds, k, runs) && cmds[i].Resolve?
    ensures LaterAt(cmds, i, t)
  {
    var intent, x := At(cmds, i).intent, cmds[i].txn;
    if Commits(cmds[i]) && intent.Some? && intent.value.txn == x {
      IntentBacked(cmds, i, k, runs);
      IntentLanded(cmds, i);
      LandedGrows(cmds, i, |cmds|, x);
      LandingBelowVerdict(runs[x], x, k, LandedBy(cmds, |cmds|, x), intent.value.ts, cmds[i].commitTS);
    }
  }

  // ---- collection: passes behind the log ----

  /** A pass took its snapshot at position j; up to q all collection is its own,
      its chunks reach ever further and expose nothing. */
  ghost predicate OnePass(cmds: seq<Cmd>, j: nat, q: nat, threshold: Timestamp)
    requires j <= q <= |cmds|
  {
    && (forall i :: j <= i < q && cmds[i].Collect? ==>
          && cmds[i].threshold == threshold && cmds[i].snapshot == At(cmds, j)
          && cmds[i].reached <= |At(cmds, j).versions| && !Gc.CutExposes(At(cmds, j).versions, cmds[i].reached, threshold))
    && (forall i, m :: j <= i < m < q && cmds[i].Collect? && cmds[m].Collect? ==> cmds[i].reached <= cmds[m].reached)
  }

  ghost predicate PassFrom(cmds: seq<Cmd>, j: nat, i: nat)
    requires j <= i < |cmds| && cmds[i].Collect?
  {
    OnePass(cmds, j, i + 1, cmds[i].threshold)
  }

  /** A collection at i is by a pass that began after c, at or below t. */
  ghost predicate InPass(cmds: seq<Cmd>, c: nat, i: nat, t: Timestamp)
    requires i < |cmds|
  {
    cmds[i].Collect? ==> cmds[i].threshold <= t && exists j :: c < j <= i && PassFrom(cmds, j, i)
  }

  /** After c passes follow one another, with thresholds at or below t. */
  ghost predicate Passes(cmds: seq<Cmd>, c: nat, t: Timestamp) {
    forall i :: c < i < |cmds| ==> InPass(cmds, c, i, t)
  }

  /** How far the pass got before a position. */
  ghost function Reached(cmds: seq<Cmd>, j: nat, i: nat): nat
    requires j <= i <= |cmds|
  {
    if i == j then 0 else if cmds[i - 1].Collect? then cmds[i - 1].reached else Reached(cmds, j, i - 1)
  }

  lemma {:induction false} ReachedBelow(cmds: seq<Cmd>, j: nat, i: nat, q: nat, threshold: Timestamp)
    requires j <= i <= q <= |cmds| && OnePass(cmds, j, q, threshold)
    ensures Reached(cmds, j, i) <= |At(cmds, j).versions|
    ensures i < q && cmds[i].Collect? ==> Reached(cmds, j, i) <= cmds[i].reached
  {
    if i < q && cmds[i].Collect? {
      ReachedMost(cmds, j, i, i, q, threshold);
    } else if i > j && !cmds[i - 1].Collect? {
      ReachedBelow(cmds, j, i - 1, q, threshold);
    }
  }

  lemma {:induction false} ReachedMost(cmds: seq<Cmd>, j: nat, i: nat, m: nat, q: nat, threshold: Timestamp)
    requires j <= i <= m < q <= |cmds| && OnePass(cmds, j, q, threshold) && cmds[m].Collect?
    ensures Reached(cmds, j, i) <= cmds[m].reached
  {
    if i > j && !cmds[i - 1].Collect? {
      ReachedMost(cmds, j, i - 1, m, q, threshold);
    }
  }

  lemma {:induction false} ReachedExposesNothing(cmds: seq<Cmd>, j: nat, i: nat, q: nat, threshold: Timestamp)
    requires j <= i <= q <= |cmds| && OnePass(cmds, j, q, threshold)
    ensures !Gc.CutExposes(At(cmds, j).versions, Reached(cmds, j, i), threshold)
  {
    if i > j && !cmds[i - 1].Collect? {
      ReachedExposesNothing(cmds, j, i - 1, q, threshold);
    }
  }

  /** No version at or below t comes or goes, and no intent reaches down to t. */
  ghost predicate PastAlone(a: KeyState, b: KeyState, t: Timestamp) {
    && (forall x: Version :: x.ts <= t ==> (x in a.versions <==> x in b.versions))
    && (b.intent.Some? ==> t < b.intent.value.ts)
  }

  lemma RemoveInsertPast(vs: seq<Version>, at: Timestamp, v: Version, t: Timestamp)
    requires Descending(vs) && t < at && t < v.ts
    ensures forall x: Version :: x.ts <= t ==> (x in Insert(Remove(vs, at), v) <==> x in vs)
    ensures forall x: Version :: x.ts <= t ==> (x in Remove(vs, at) <==> x in vs)
    ensures forall x: Version :: x.ts <= t ==> (x in Insert(vs, v) <==> x in vs)
  {
    RemoveDescends(vs, at);
    forall x: Version | x.ts <= t
      ensures (x in Insert(Remove(vs, at), v) <==> x in vs) && (x in Remove(vs, at) <==> x in vs)
              && (x in Insert(vs, v) <==> x in vs) {
      RemoveMembers(vs, at, x);
      InsertMembers(Remove(vs, at), v, x);
      InsertMembers(vs, v, x);
    }
  }

  lemma CommandLeavesPast(ks: KeyState, c: Cmd, t: Timestamp)
    requires Descending(ks.versions) && (ks.intent.Some? ==> t < ks.intent.value.ts) && Later(ks, c, t) && !c.Collect?
    ensures PastAlone(ks, Applied(ks, c), t)
  {
    var at := if ks.intent.Some? then ks.intent.value.ts else t + 1;
    match c {
      case Put(ts, value, _) =>
        RemoveInsertPast(ks.versions, at, Version(ts, value), t);
        if ts <= Newest(ks) {
          RemoveInsertPast(ks.versions, at, Version(Hlc.Next(Newest(ks)), value), t);
        }
      case PutCommitted(ts, value) => RemoveInsertPast(ks.versions, at, Version(ts, value), t);
      case Resolve(txn, commit, commitTS) =>
        var to := if t < commitTS then commitTS else t + 1;
        RemoveInsertPast(ks.versions, at, Version(to, Visible(ks.versions, at)), t);
      case Rollback(_, restored) =>
        RemoveInsertPast(ks.versions, at, Version(at, if restored.Some? then restored.value else Tombstone), t);
      case Close(_) =>
      case Other =>
    }
  }

  /** At or below t the key holds what the pass has left of its snapshot. */
  ghost predicate LeftOf(cmds: seq<Cmd>, j: nat, i: nat, t: Timestamp, threshold: Timestamp)
    requires j <= i <= |cmds|
  {
    var snapshot := At(cmds, j);
    && (At(cmds, i).intent.Some? ==> t < At(cmds, i).intent.value.ts)
    && forall x: Version :: x.ts <= t ==>
         (x in At(cmds, i).versions <==>
          x in Gc.Keep(0.0, snapshot.versions, Gone(threshold, snapshot, Reached(cmds, j, i))))
  }

  lemma {:induction false} GoneGrows(snapshot: KeyState, n: nat, m: nat, threshold: Timestamp, g: Gc.GcVersion)
    requires n <= m <= |snapshot.versions| && g in Gone(threshold, snapshot, n)
    ensures g in Gone(threshold, snapshot, m)
  {
    if n < m {
      GoneGrows(snapshot, n, m - 1, threshold, g);
    }
  }

  /** What the pass has left still reads at the threshold as the snapshot did. */
  lemma LeftReads(snapshot: KeyState, n: nat, threshold: Timestamp)
    requires Descending(snapshot.versions) && n <= |snapshot.versions| && snapshot.intent.None?
    requires !Gc.CutExposes(snapshot.versions, n, threshold)
    ensures var left := Gc.Keep(0.0, snapshot.versions, Gone(threshold, snapshot, n));
            Descending(left) && Visible(left, threshold) == Visible(snapshot.versions, threshold)
  {
    Gc.CutIsCut(AsChain(snapshot), n, threshold);
    Gc.CutRead(snapshot.versions, Gc.Keep(0.0, snapshot.versions, Gone(threshold, snapshot, n)), n, threshold);
  }

  /** So the next chunk meets what it may. */
  lemma ChunkIsLater(snapshot: KeyState, now: KeyState, n: nat, m: nat, t: Timestamp, threshold: Timestamp)
    requires Descending(snapshot.versions) && Descending(now.versions) && snapshot.intent.None? && threshold <= t
    requires n <= m <= |snapshot.versions| && !Gc.CutExposes(snapshot.versions, n, threshold)
    requires forall x: Version :: x.ts <= t ==>
               (x in now.versions <==> x in Gc.Keep(0.0, snapshot.versions, Gone(threshold, snapshot, n)))
    ensures Gc.Meets(AsChain(snapshot), m, threshold, now.versions)
    ensures forall x: Version :: x.ts <= t ==>
              (x in Gc.Keep(0.0, now.versions, Gone(threshold, snapshot, m)) <==>
               x in Gc.Keep(0.0, snapshot.versions, Gone(threshold, snapshot, m)))
  {
    var less, more := Gone(threshold, snapshot, n), Gone(threshold, snapshot, m);
    LeftReads(snapshot, n, threshold);
    VisibleBelow(now.versions, Gc.Keep(0.0, snapshot.versions, less), threshold);
    Gc.KeepMembers(0.0, snapshot.versions, less);
    Gc.KeepMembers(0.0, snapshot.versions, more);
    Gc.KeepMembers(0.0, now.versions, more);
    forall g | g in less ensures g in more {
      GoneGrows(snapshot, n, m, threshold, g);
    }
  }

  /** Everything but collection leaves the past up to t alone. */
  ghost predicate Calm(cmds: seq<Cmd>, from: nat, t: Timestamp) {
    forall i :: from <= i < |cmds| ==> CalmAt(cmds, i, t)
  }

  ghost predicate CalmAt(cmds: seq<Cmd>, i: nat, t: Timestamp)
    requires i < |cmds|
  {
    !cmds[i].Collect? ==> LaterAt(cmds, i, t)
  }

  /** The next command of a pass under way leaves the past alone too. */
  lemma LeftStep(cmds: seq<Cmd>, j: nat, i: nat, q: nat, t: Timestamp, threshold: Timestamp)
    requires j <= i < q <= |cmds| && Calm(cmds, j, t) && threshold <= t && OnePass(cmds, j, q, threshold)
    requires At(cmds, j).intent.None? && LeftOf(cmds, j, i, t, threshold)
    ensures LaterAt(cmds, i, t) && LeftOf(cmds, j, i + 1, t, threshold)
  {
    var snapshot, now := At(cmds, j), At(cmds, i);
    AtDescends(cmds, j);
    AtDescends(cmds, i);
    if cmds[i].Collect? {
      ReachedBelow(cmds, j, i, q, threshold);
      ReachedExposesNothing(cmds, j, i, q, threshold);
      ChunkIsLater(snapshot, now, Reached(cmds, j, i), cmds[i].reached, t, threshold);
    } else {
      assert CalmAt(cmds, i, t);
      CommandLeavesPast(now, cmds[i], t);
    }
  }

  lemma LeftAtFirst(cmds: seq<Cmd>, j: nat, t: Timestamp, threshold: Timestamp)
    requires j <= |cmds| && At(cmds, j).intent.None?
    ensures LeftOf(cmds, j, j, t, threshold)
  {
    var snapshot := At(cmds, j);
    var gone := Gone(threshold, snapshot, 0);
    assert gone == [];
    Gc.KeepNothingGone(0.0, snapshot.versions, gone);
  }

  lemma {:induction false} LeftAlways(cmds: seq<Cmd>, j: nat, i: nat, q: nat, t: Timestamp, threshold: Timestamp)
    requires j <= i <= q <= |cmds| && Calm(cmds, j, t) && threshold <= t && OnePass(cmds, j, q, threshold)
    requires At(cmds, j).intent.None?
    ensures LeftOf(cmds, j, i, t, threshold)
    decreases i
  {
    if i == j {
      LeftAtFirst(cmds, j, t, threshold);
    } else {
      LeftAlways(cmds, j, i - 1, q, t, threshold);
      LeftStep(cmds, j, i - 1, q, t, threshold);
    }
  }

  /** A chunk of a pass leaves the past alone: its snapshot showed an intent, so
      that it deletes nothing, or it meets what the pass has left. */
  lemma ChunkInPass(cmds: seq<Cmd>, c: nat, i: nat, t: Timestamp)
    requires c < i < |cmds| && cmds[i].Collect? && InPass(cmds, c, i, t) && Calm(cmds, c + 1, t)
    ensures LaterAt(cmds, i, t)
  {
    var threshold := cmds[i].threshold;
    var j :| c < j <= i && PassFrom(cmds, j, i);
    assert cmds[i].snapshot == At(cmds, j);
    if At(cmds, j).intent.None? {
      LeftAlways(cmds, j, i, i + 1, t, threshold);
      LeftStep(cmds, j, i, i + 1, t, threshold);
    }
  }

  /** The serving path, the commit protocol and the collector together: a
      follower read of k at or below an applied closed timestamp returns the
      same at every later log position, when every transaction that writes k
      does so in its last batch, sent once, and no pass is cut between a
      tombstone and what it hides. */
  lemma FollowerReadsStableTogether(steps: seq<Serving.Step>, cmds: seq<Cmd>, k: Key, runs: map<TxnId, Txn>, c: nat,
                                    p: nat, t: Timestamp)
    requires Serving.Runs(Serving.Start, steps) && LogMatches(Serving.After(Serving.Start, steps).log, cmds)
    requires c < p <= |cmds| && cmds[c].Close? && t <= cmds[c].ts
    requires Backed(cmds, k, runs) && Passes(cmds, c, t)
    ensures ReadAt(At(cmds, p), t).Some? ==>
              forall q :: p <= q <= |cmds| ==> ReadAt(At(cmds, q), t) == ReadAt(At(cmds, p), t)
  {
    OrdinaryIsLater(steps, cmds, k, runs, c, t);
    forall i | p <= i < |cmds| ensures LaterAt(cmds, i, t) {
      assert CalmAt(cmds, i, t) && InPass(cmds, c, i, t);
      if cmds[i].Collect? {
        ChunkInPass(cmds, c, i, t);
      }
    }
    if ReadAt(At(cmds, p), t).Some? {
      forall q | p <= q <= |cmds| ensures ReadAt(At(cmds, q), t) == ReadAt(At(cmds, p), t) {
        ReadStays(cmds, p, q, t);
      }
    }
  }

  lemma OrdinaryIsLater(steps: seq<Serving.Step>, cmds: seq<Cmd>, k: Key, runs: map<TxnId, Txn>, c: nat, t: Timestamp)
    requires Serving.Runs(Serving.Start, steps) && LogMatches(Serving.After(Serving.Start, steps).log, cmds)
    requires c < |cmds| && cmds[c].Close? && t <= cmds[c].ts && Backed(cmds, k, runs)
    ensures Calm(cmds, c + 1, t)
  {
    Serving.ClosedTimestampsHold(steps);
    var log := Serving.After(Serving.Start, steps).log;
    assert EntryMatches(log[c], cmds[c]);
    forall i | c + 1 <= i < |cmds| ensures CalmAt(cmds, i, t) {
      assert EntryMatches(log[i], cmds[i]);
      if cmds[i].Resolve? {
        BackedIsLater(cmds, i, k, runs, t);
      }
    }
  }
}
