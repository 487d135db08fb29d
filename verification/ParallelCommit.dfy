/** Parallel commit and status recovery (pkg/kvclient/txn.go) as a protocol
    between one coordinator, the leaders that hold its in-flight keys, any
    number of pushers and any number of recoverers.

    The coordinator sends a staging EndTxn and its last write batch at the same
    time and acknowledges the commit when both succeeded with no write above
    the staged timestamp. A recoverer reads each in-flight key at the staged
    timestamp: the read first raises the timestamp cache, so a write it does
    not find can no longer land at or below that timestamp.

    Latches and the cache appear as what the serving path guarantees: a write
    holds its key from its cache check until it applies, is dropped or its
    caller abandons it, its timestamp clears every read recorded before the
    check, and an abandoned one, still in the log, applies before any later
    write of its key, or never.

    A request the coordinator waits for may be delivered more than once, since
    the sender tries again after a transport error; a delivery nobody waits for
    any more may still be evaluated later. */
module ParallelCommit {
  import opened Keys
  import opened Hlc
  import opened Mvcc
  import opened Spans
  import opened TsCaches
  import opened TxnRecords

  datatype Phase =
    | Open
    | Committing
    | Acked(ts: Timestamp)      // reported committed on the implicit path
    | Finalizing                // writes were forwarded: a plain commit is out
    | Confirmed(ts: Timestamp)  // reported committed after that commit
    | GaveUp                    // reported an error

  /** The staging EndTxn, as the coordinator knows it: not sent, waited for,
      answered with a timestamp conflict, with another error, or staged. */
  datatype Stage = Unsent | Sent(header: Txn) | Rejected | Refused | Done(ts: Timestamp)

  /** A write past its cache check; awaited if its reply will be heard. */
  datatype Write = Write(ts: Timestamp, awaited: bool)

  /** A proposal whose caller gave up, in the log and without its latch. */
  datatype Orphan = Orphan(key: Key, ts: Timestamp, tag: nat)

  datatype Recoverer = Recoverer(ts: Timestamp, keys: seq<Key>, next: nat, latched: bool, missing: bool)

  /** The coordinator, with every staging, committing and aborting EndTxn it
      ever sent: each may be evaluated late and again. */
  datatype Coordinator = Coordinator(
    phase: Phase, txn: Txn, snapshot: Txn, stage: Stage,
    pending: set<Key>, results: map<Key, Timestamp>,
    sent: set<Txn>, commits: set<Txn>, aborts: set<Txn>)

  /** The ranges of the in-flight keys: writes past their cache check, those
      abandoned so far, the transaction's intents, what its last batch ever
      wrote, reads recorded. */
  datatype Ranges = Ranges(writing: map<Key, Write>, orphans: set<Orphan>, tags: nat, intents: map<Key, Timestamp>,
                           landed: map<Key, Timestamp>, known: set<Read>)

  datatype State = State(
    id: TxnId, inFlight: seq<Key>, create: bool,
    record: Option<Record>, stagedAt: Option<Timestamp>,
    co: Coordinator, rg: Ranges, recoverers: map<nat, Recoverer>)

  datatype Move = Begin | Restage(ts: Timestamp) | Resend(keys: set<Key>) | Acknowledge | Forwarded(header: Txn) | GiveUp
                | Restart(ts: Timestamp)
  datatype Eval = StageEval(header: Txn, threshold: Timestamp, heard: bool) | FinalizeEval(header: Txn, heard: bool)
                | AbortEval(header: Txn) | Bystand(req: Request) | Settle(who: nat)
  datatype Access = Lock(ts: Timestamp) | Apply(heard: bool) | Drop | Abandon | Surface(ts: Timestamp, tag: nat)
                  | Vanish(ts: Timestamp, tag: nat) | Resolve
  datatype Recovery = Join | Bump | Look | Quit

  datatype Step =
    | Coordinate(move: Move)
    | AtRecord(eval: Eval)
    | AtKey(key: Key, access: Access)
    | Recover(who: nat, recovery: Recovery)
    | OtherRead(read: Read)

  // ---- the steps ----

  ghost predicate Full(inFlight: seq<Key>, co: Coordinator) {
    forall k :: k in inFlight ==> k in co.results
  }

  ghost predicate AllWithin(inFlight: seq<Key>, co: Coordinator, ts: Timestamp) {
    forall k :: k in inFlight && k in co.results ==> co.results[k] <= ts
  }

  function KeySet(ks: seq<Key>): set<Key> { set k | k in ks }

  ghost predicate CanMove(inFlight: seq<Key>, co: Coordinator, move: Move) {
    match move
    case Begin => co.phase == Open
    case Restage(_) => co.phase == Committing && co.stage == Rejected
    case Resend(ks) => co.phase == Committing && ks <= KeySet(inFlight)
    case Acknowledge =>
      co.phase == Committing && co.stage.Done? && Full(inFlight, co) && AllWithin(inFlight, co, co.stage.ts)
    case Forwarded(h) =>
      && co.phase == Committing && co.stage.Done? && Full(inFlight, co) && !AllWithin(inFlight, co, co.stage.ts)
      && h.epoch == co.txn.epoch && AllWithin(inFlight, co, h.writeTS)
    case GiveUp => co.phase == Open || co.phase == Committing || co.phase == Finalizing
    case Restart(ts) => co.phase == GaveUp
  }

  ghost function Moved(inFlight: seq<Key>, co: Coordinator, move: Move): Coordinator
    requires CanMove(inFlight, co, move)
  {
    match move
    case Begin =>
      co.(phase := Committing, snapshot := co.txn, stage := Sent(co.txn), sent := co.sent + {co.txn},
          pending := KeySet(inFlight), results := map[])
    case Restage(ts) =>
      var h := co.txn.(readTS := ts, writeTS := ts);
      co.(txn := h, stage := Sent(h), sent := co.sent + {h})
    case Resend(ks) => co.(pending := co.pending + ks, results := co.results - ks)
    case Acknowledge => co.(phase := Acked(co.stage.ts), commits := co.commits + {co.snapshot})
    case Forwarded(h) => co.(phase := Finalizing, commits := co.commits + {h})
    case GiveUp =>
      co.(phase := GaveUp, aborts := if co.phase == Finalizing then co.aborts else co.aborts + {co.txn})
    case Restart(ts) =>
      co.(phase := Open, txn := co.txn.(epoch := co.txn.epoch + 1, readTS := ts, writeTS := ts), stage := Unsent,
          pending := {}, results := map[])
  }

  /** Replies to a write sent again, or to one of an earlier epoch, are no
      longer heard. */
  ghost function Unheard(writing: map<Key, Write>, ks: set<Key>): map<Key, Write> {
    map k | k in writing :: if k in ks then writing[k].(awaited := false) else writing[k]
  }

  ghost function Coordinated(st: State, move: Move): State
    requires CanMove(st.inFlight, st.co, move)
  {
    var ks := match move case Resend(ks) => ks case Restart(_) => st.rg.writing.Keys case _ => {};
    st.(co := Moved(st.inFlight, st.co, move), rg := st.rg.(writing := Unheard(st.rg.writing, ks)))
  }

  /** The staging batch: the record's creation and the EndTxn, both or neither. */
  function StageBatch(rec: Option<Record>, create: bool, threshold: Timestamp, h: Txn, inFlight: seq<Key>): Outcome {
    var base := if create then Create(rec, threshold, h) else Outcome(rec, Created);
    if base.reply.Failed? then Outcome(rec, base.reply)
    else
      var end := End(base.record, h, true, inFlight);
      if end.reply.Failed? then Outcome(rec, end.reply) else end
  }

  ghost predicate CanEval(st: State, eval: Eval) {
    match eval
    case StageEval(h, _, _) => h in st.co.sent
    case FinalizeEval(h, _) => h in st.co.commits
    case AbortEval(h) => h in st.co.aborts
    case Bystand(req) => Bystander(req)
    case Settle(w) =>
      w in st.recoverers && (st.recoverers[w].missing || st.recoverers[w].next == |st.recoverers[w].keys|)
  }

  /** A reply is heard by the coordinator that waits for it; only a timestamp
      conflict is worth another try. */
  function Answered(stage: Stage, h: Txn, heard: bool, reply: Reply): Stage {
    if !heard || stage != Sent(h) then stage
    else if reply.Ended? then Done(reply.commitTS)
    else if reply.Failed? && reply.error.TxnRetry? then Rejected
    else Stage.Refused
  }

  ghost function Staged(st: State, h: Txn, threshold: Timestamp, heard: bool): State {
    var out := StageBatch(st.record, st.create, threshold, h, st.inFlight);
    st.(record := out.record,
        stagedAt := if Is(out.record, STAGING) then Some(out.record.value.txn.writeTS) else st.stagedAt,
        co := st.co.(stage := Answered(st.co.stage, h, heard, out.reply)))
  }

  ghost function Finalized(st: State, h: Txn, heard: bool): State {
    var out := End(st.record, h, true, []);
    st.(record := out.record,
        co := if st.co.phase != Finalizing || !heard then st.co
              else st.co.(phase := if out.reply.Ended? then Confirmed(out.reply.commitTS) else GaveUp))
  }

  ghost function Evaluated(st: State, eval: Eval): State
    requires CanEval(st, eval)
  {
    match eval
    case StageEval(h, threshold, heard) => Staged(st, h, threshold, heard)
    case FinalizeEval(h, heard) => Finalized(st, h, heard)
    case AbortEval(h) => st.(record := End(st.record, h, false, []).record)
    case Bystand(req) => st.(record := Evaluate(st.record, req).record)
    case Settle(w) => st.(record := TxnRecords.Recover(st.record, !st.recoverers[w].missing).record)
  }

  /** The key's latch: no write holds it, no probe of it is in progress. */
  ghost predicate Unlatched(st: State, k: Key) {
    && k !in st.rg.writing
    && forall w :: w in st.recoverers && st.recoverers[w].latched && st.recoverers[w].next < |st.recoverers[w].keys|
                   ==> st.recoverers[w].keys[st.recoverers[w].next] != k
  }

  /** No abandoned write of the key is ahead in the log. */
  ghost predicate NoneAhead(orphans: set<Orphan>, k: Key) { forall o :: o in orphans ==> o.key != k }

  ghost predicate CanAccess(st: State, k: Key, access: Access) {
    match access
    case Lock(ts) => k in st.co.pending && Unlatched(st, k) && NaiveAllows(st.rg.known, [Point(k)], ts, st.id)
    case Apply(_) => k in st.rg.writing && NoneAhead(st.rg.orphans, k)
    case Drop => k in st.rg.writing
    case Abandon => k in st.rg.writing
    case Surface(ts, tag) => Orphan(k, ts, tag) in st.rg.orphans
    case Vanish(ts, tag) => Orphan(k, ts, tag) in st.rg.orphans
    case Resolve => k in st.rg.intents && (Final(st.record) || st.co.phase == GaveUp)
  }

  ghost function Accessed(st: State, k: Key, access: Access): State
    requires CanAccess(st, k, access)
  {
    var rg := st.rg;
    match access
    case Lock(ts) =>
      st.(co := st.co.(pending := st.co.pending - {k}), rg := rg.(writing := rg.writing[k := Write(ts, true)]))
    case Apply(heard) =>
      var w := rg.writing[k];
      st.(rg := rg.(writing := rg.writing - {k}, intents := rg.intents[k := w.ts], landed := rg.landed[k := w.ts]),
          co := if heard && w.awaited then st.co.(results := st.co.results[k := w.ts]) else st.co)
    case Drop => st.(rg := rg.(writing := rg.writing - {k}))
    case Abandon =>
      st.(rg := rg.(writing := rg.writing - {k}, orphans := rg.orphans + {Orphan(k, rg.writing[k].ts, rg.tags)},
                    tags := rg.tags + 1))
    case Surface(ts, tag) =>
      st.(rg := rg.(orphans := rg.orphans - {Orphan(k, ts, tag)}, intents := rg.intents[k := ts],
                    landed := rg.landed[k := ts]))
    case Vanish(ts, tag) => st.(rg := rg.(orphans := rg.orphans - {Orphan(k, ts, tag)}))
    case Resolve => st.(rg := rg.(intents := rg.intents - {k}))
  }

  function Probed(r: Recoverer): Read
    requires r.next < |r.keys|
  {
    Read(Point(r.keys[r.next]), r.ts, NoTxn)
  }

  ghost predicate CanRecover(st: State, w: nat, recovery: Recovery) {
    match recovery
    case Join => w !in st.recoverers && Is(st.record, STAGING)
    case Bump =>
      && w in st.recoverers && !st.recoverers[w].latched && !st.recoverers[w].missing
      && st.recoverers[w].next < |st.recoverers[w].keys|
      && st.recoverers[w].keys[st.recoverers[w].next] !in st.rg.writing
    case Look => w in st.recoverers && st.recoverers[w].latched && st.recoverers[w].next < |st.recoverers[w].keys|
    case Quit => w in st.recoverers
  }

  ghost function Recovering(st: State, w: nat, recovery: Recovery): State
    requires CanRecover(st, w, recovery)
  {
    match recovery
    case Join =>
      var rec := st.record.value;
      st.(recoverers := st.recoverers[w := Recoverer(rec.txn.writeTS, rec.inFlight, 0, false, false)])
    case Bump =>
      var r := st.recoverers[w];
      st.(recoverers := st.recoverers[w := r.(latched := true)], rg := st.rg.(known := st.rg.known + {Probed(r)}))
    case Look =>
      var r := st.recoverers[w];
      var k := r.keys[r.next];
      var present := k in st.rg.intents && st.rg.intents[k] <= r.ts;
      st.(recoverers := st.recoverers[w := if present then r.(latched := false, next := r.next + 1)
                                           else r.(latched := false, missing := true)])
    case Quit => st.(recoverers := st.recoverers - {w})
  }

  ghost predicate Enabled(st: State, step: Step) {
    match step
    case Coordinate(move) => CanMove(st.inFlight, st.co, move)
    case AtRecord(eval) => CanEval(st, eval)
    case AtKey(k, access) => CanAccess(st, k, access)
    case Recover(w, recovery) => CanRecover(st, w, recovery)
    case OtherRead(_) => true
  }

  ghost function Do(st: State, step: Step): State
    requires Enabled(st, step)
  {
    match step
    case Coordinate(move) => Coordinated(st, move)
    case AtRecord(eval) => Evaluated(st, eval)
    case AtKey(k, access) => Accessed(st, k, access)
    case Recover(w, recovery) => Recovering(st, w, recovery)
    case OtherRead(r) => st.(rg := st.rg.(known := st.rg.known + {r}))
  }

  /** Before the commit begins: earlier statements may have left intents and a
      record, and a pusher may have poisoned it. */
  ghost predicate Start(st: State) {
    && st.id != NoTxn && st.inFlight != []
    && (st.record.Some? ==> st.record.value.status == PENDING || st.record.value.status == ABORTED)
    && (Is(st.record, PENDING) ==> st.record.value.txn.epoch <= st.co.txn.epoch)
    && st.stagedAt == None && st.recoverers == map[]
    && st.rg.writing == map[] && st.rg.orphans == {} && st.rg.landed == map[]
    && st.co.phase == Open && st.co.stage == Unsent && st.co.pending == {} && st.co.results == map[]
    && st.co.sent == {} && st.co.commits == {} && st.co.aborts == {}
  }

  ghost predicate Runs(st: State, steps: seq<Step>)
    decreases |steps|
  {
    steps != [] ==> Enabled(st, steps[0]) && Runs(Do(st, steps[0]), steps[1..])
  }

  ghost function After(st: State, steps: seq<Step>): State
    requires Runs(st, steps)
    decreases |steps|
  {
    if steps == [] then st else After(Do(st, steps[0]), steps[1..])
  }

  predicate Restarts(step: Step) { step.Coordinate? && step.move.Restart? }

  /** The transaction object is used for one epoch, as RunTxn does. */
  ghost predicate OneEpoch(steps: seq<Step>) {
    forall i :: 0 <= i < |steps| ==> !Restarts(steps[i])
  }

  /** The coordinator knows that no staging request of its own can succeed:
      none was sent, or each was answered with a timestamp conflict. */
  predicate Harmless(stage: Stage) { stage.Unsent? || stage.Rejected? }

  /** A restart in place happens before any staging request can succeed. */
  predicate Tidy(st: State, step: Step) { Restarts(step) ==> Harmless(st.co.stage) }

  ghost predicate TidyRun(st: State, steps: seq<Step>)
    requires Runs(st, steps)
    decreases |steps|
  {
    steps != [] ==> Tidy(st, steps[0]) && TidyRun(Do(st, steps[0]), steps[1..])
  }

  lemma {:induction false} OneEpochIsTidy(st: State, steps: seq<Step>)
    requires Runs(st, steps) && OneEpoch(steps)
    ensures TidyRun(st, steps)
    decreases |steps|
  {
    if steps != [] {
      assert !Restarts(steps[0]);
      assert forall i :: 0 <= i < |steps[1..]| ==> steps[1..][i] == steps[i + 1];
      OneEpochIsTidy(Do(st, steps[0]), steps[1..]);
    }
  }

  // ---- the invariant ----

  predicate Committable(h: Txn) { h.readTS == h.writeTS }

  /** Of the staging requests ever sent at most one can succeed. */
  ghost predicate SentInv(co: Coordinator, stagedAt: Option<Timestamp>) {
    && (forall h :: h in co.sent && Committable(h) ==> SentOk(co, stagedAt, h))
    && (forall h, i :: h in co.sent && i in co.sent && Committable(h) && Committable(i) ==> h == i)
  }

  predicate SentOk(co: Coordinator, stagedAt: Option<Timestamp>, h: Txn) {
    && !Harmless(co.stage) && h.epoch == co.txn.epoch
    && (co.stage.Sent? ==> h == co.stage.header) && (co.stage.Done? ==> h.writeTS == co.stage.ts)
    && (stagedAt.Some? ==> h.writeTS == stagedAt.value)
  }

  ghost predicate RecordInv(st: State) {
    && st.id != NoTxn && st.inFlight != [] && SentInv(st.co, st.stagedAt)
    && (st.co.stage.Sent? ==> st.co.stage.header in st.co.sent && st.co.stage.header.epoch == st.co.txn.epoch)
    && (Harmless(st.co.stage) ==> st.stagedAt == None)
    && (st.co.stage.Done? ==> st.stagedAt == Some(st.co.stage.ts))
    && (st.stagedAt == None ==> !Is(st.record, STAGING) && !Is(st.record, COMMITTED))
    && (st.stagedAt.Some? ==> st.record.Some? && st.record.value.status != PENDING)
    && (Is(st.record, PENDING) ==> st.record.value.txn.epoch <= st.co.txn.epoch)
    && (Is(st.record, STAGING) ==>
          && st.record.value.inFlight == st.inFlight && Some(st.record.value.txn.writeTS) == st.stagedAt
          && st.record.value.txn in st.co.sent && Committable(st.record.value.txn))
    && (Is(st.record, COMMITTED) ==>
          && st.record.value.txn.epoch == st.co.txn.epoch
          && (!st.co.stage.Done? ==> Some(st.record.value.txn.writeTS) == st.stagedAt))
    && (st.co.stage.Refused? && !st.create ==> Is(st.record, ABORTED))
  }

  ghost predicate PhaseInv(inFlight: seq<Key>, co: Coordinator) {
    && (forall h :: h in co.aborts ==> h.epoch <= co.txn.epoch && (co.phase == GaveUp || h.epoch < co.txn.epoch))
    && (co.phase == Committing ==> co.snapshot.epoch == co.txn.epoch)
    && (co.phase == Open ==> co.stage == Unsent)
    && (forall h :: h in co.commits ==> co.stage.Done? && h.epoch == co.txn.epoch)
    && (co.phase == Open || co.phase == Committing ==> co.commits == {})
    && (co.phase.Acked? ==>
          co.stage == Done(co.phase.ts) && Full(inFlight, co) && AllWithin(inFlight, co, co.phase.ts))
  }

  /** A snapshot that can commit is the one that was staged. */
  ghost predicate HeaderInv(co: Coordinator) {
    && (co.phase != Open && co.snapshot.readTS == co.snapshot.writeTS ==>
          && (co.stage.Sent? ==> co.stage.header == co.snapshot)
          && co.stage != Rejected
          && (co.stage.Done? ==> co.stage.ts == co.snapshot.writeTS))
    && (co.phase.Acked? ==> co.commits == {co.snapshot})
  }

  ghost predicate CommittedInv(st: State) {
    && ((st.co.phase == Open || st.co.phase == Committing || st.co.phase.Acked?) && Is(st.record, COMMITTED) ==>
          st.stagedAt == Some(st.record.value.txn.writeTS))
    && (st.co.phase.Confirmed? ==> Is(st.record, COMMITTED) && st.record.value.txn.writeTS == st.co.phase.ts)
  }

  ghost predicate AttemptsInv(co: Coordinator, rg: Ranges) {
    && (co.phase == Open ==> co.pending == {})
    && (forall k :: k in co.results ==> k !in co.pending && k !in rg.writing && NoneAhead(rg.orphans, k))
    && (forall k :: k in rg.writing && rg.writing[k].awaited ==> k !in co.pending && co.phase != Open)
  }

  ghost predicate IntentsInv(st: State) {
    !Final(st.record) && st.co.phase != GaveUp ==>
      forall k :: k in st.co.results ==> k in st.rg.intents && st.rg.intents[k] == st.co.results[k]
  }

  /** The cache keeps every later write of k above the staged timestamp, and
      none at or below it is out or reported. */
  ghost predicate Dead(st: State, k: Key) {
    && st.stagedAt.Some? && k in st.inFlight
    && Read(Point(k), st.stagedAt.value, NoTxn) in st.rg.known
    && (k in st.rg.writing ==> st.stagedAt.value < st.rg.writing[k].ts)
    && (k in st.co.results ==> st.stagedAt.value < st.co.results[k])
  }

  ghost predicate SomeDead(st: State) {
    exists k :: k in st.inFlight && Dead(st, k)
  }

  ghost predicate Doomed(st: State) {
    st.co.phase == GaveUp || SomeDead(st)
  }

  ghost predicate RecovererOk(st: State, r: Recoverer) {
    && st.stagedAt == Some(r.ts) && r.keys == st.inFlight && r.next <= |r.keys|
    && (r.latched ==> r.next < |r.keys| && Probed(r) in st.rg.known && r.keys[r.next] !in st.rg.writing)
    && (r.missing ==> Final(st.record) || Doomed(st))
  }

  ghost predicate RecoverersInv(st: State) {
    forall w :: w in st.recoverers ==> RecovererOk(st, st.recoverers[w])
  }

  ghost predicate AbortedInv(st: State) {
    Is(st.record, ABORTED) ==> st.stagedAt == None || Doomed(st)
  }

  ghost predicate Inv(st: State) {
    && RecordInv(st) && PhaseInv(st.inFlight, st.co) && HeaderInv(st.co) && CommittedInv(st)
    && AttemptsInv(st.co, st.rg) && IntentsInv(st) && RecoverersInv(st) && AbortedInv(st)
  }

  // ---- every step keeps it ----

  /** What a staging request can do to a record that is not committed. */
  lemma StageEffect(rec: Option<Record>, create: bool, threshold: Timestamp, h: Txn, inFlight: seq<Key>)
    requires inFlight != [] && !Is(rec, COMMITTED)
    ensures var out := StageBatch(rec, create, threshold, h, inFlight);
            if out.reply.Failed? then
              && out.record == rec && (out.reply.error.TxnRetry? ==> !Committable(h))
              && (!create && Committable(h) ==> Is(rec, ABORTED) || (rec.Some? && rec.value.txn.epoch > h.epoch))
            else
              && !Is(rec, ABORTED) && Committable(h)
              && out == Outcome(Some(Record(STAGING, h, h.bornWall, inFlight, 0)), Ended(h.writeTS))
  {
  }

  /** And to one that is: nothing. */
  lemma StageOnCommitted(rec: Option<Record>, create: bool, threshold: Timestamp, h: Txn, inFlight: seq<Key>)
    requires Is(rec, COMMITTED)
    ensures var out := StageBatch(rec, create, threshold, h, inFlight);
            && out.record == rec && (out.reply.Failed? ==> !out.reply.error.TxnRetry?)
            && (!out.reply.Failed? ==> out.reply == Ended(rec.value.txn.writeTS))
            && (!create && h.epoch == rec.value.txn.epoch ==> !out.reply.Failed?)
  {
  }

  lemma RecordStep(st: State, step: Step)
    requires RecordInv(st) && PhaseInv(st.inFlight, st.co) && Enabled(st, step) && Tidy(st, step)
    ensures RecordInv(Do(st, step))
    ensures Final(st.record) ==> Do(st, step).record == st.record
  {
    match step {
      case Coordinate(move) => RecordMove(st, move);
      case AtRecord(eval) => RecordEval(st, eval);
      case AtKey(_, _) => assert Do(st, step).co.stage == st.co.stage;
      case Recover(_, _) =>
      case OtherRead(_) =>
    }
  }

  lemma RecordMove(st: State, move: Move)
    requires RecordInv(st) && PhaseInv(st.inFlight, st.co) && CanMove(st.inFlight, st.co, move)
    requires move.Restart? ==> Harmless(st.co.stage)
    ensures RecordInv(Coordinated(st, move))
  {
    match move {
      case Begin =>
      case Restage(_) =>
      case Resend(_) =>
      case Acknowledge =>
      case Forwarded(_) =>
      case GiveUp =>
      case Restart(_) =>
    }
  }

  /** A staging request stages the record at the one timestamp it can be staged
      at, or changes nothing. */
  lemma StageOutcome(st: State, h: Txn, threshold: Timestamp, heard: bool)
    requires RecordInv(st) && h in st.co.sent
    ensures var next := Staged(st, h, threshold, heard);
            || (next.record == st.record && next.stagedAt == st.stagedAt)
            || (&& Committable(h) && !Final(st.record) && st.stagedAt in {None, Some(h.writeTS)}
                && next.record == Some(Record(STAGING, h, h.bornWall, st.inFlight, 0)) && next.stagedAt == Some(h.writeTS))
    ensures RecordInv(Staged(st, h, threshold, heard))
  {
    if Is(st.record, COMMITTED) {
      StageOnCommitted(st.record, st.create, threshold, h, st.inFlight);
    } else {
      StageEffect(st.record, st.create, threshold, h, st.inFlight);
    }
  }

  lemma RecordEval(st: State, eval: Eval)
    requires RecordInv(st) && PhaseInv(st.inFlight, st.co) && CanEval(st, eval)
    ensures RecordInv(Evaluated(st, eval))
    ensures Final(st.record) ==> Evaluated(st, eval).record == st.record
  {
    match eval {
      case StageEval(h, threshold, heard) => StageOutcome(st, h, threshold, heard);
      case FinalizeEval(_, _) =>
      case AbortEval(_) =>
      case Bystand(req) =>
        var next := Evaluate(st.record, req).record;
        assert Is(st.record, STAGING) || Final(st.record) ==> next == st.record;
        assert !Is(next, STAGING) || next == st.record;
      case Settle(_) =>
    }
  }

  lemma CoordinatorMove(st: State, move: Move)
    requires RecordInv(st) && PhaseInv(st.inFlight, st.co) && HeaderInv(st.co)
    requires CanMove(st.inFlight, st.co, move) && (move.Restart? ==> Harmless(st.co.stage))
    ensures PhaseInv(st.inFlight, Moved(st.inFlight, st.co, move)) && HeaderInv(Moved(st.inFlight, st.co, move))
  {
    match move {
      case Begin =>
      case Restage(_) =>
      case Resend(_) =>
      case Acknowledge =>
      case Forwarded(_) =>
      case GiveUp =>
      case Restart(_) =>
    }
  }

  lemma CoordinatorEval(st: State, eval: Eval)
    requires RecordInv(st) && PhaseInv(st.inFlight, st.co) && HeaderInv(st.co) && CanEval(st, eval)
    ensures PhaseInv(st.inFlight, Evaluated(st, eval).co) && HeaderInv(Evaluated(st, eval).co)
  {
    match eval {
      case StageEval(h, threshold, heard) => StageOutcome(st, h, threshold, heard);
      case FinalizeEval(_, _) =>
      case AbortEval(_) =>
      case Bystand(_) =>
      case Settle(_) =>
    }
  }

  lemma CoordinatorAccess(st: State, k: Key, access: Access)
    requires PhaseInv(st.inFlight, st.co) && HeaderInv(st.co) && AttemptsInv(st.co, st.rg) && CanAccess(st, k, access)
    ensures PhaseInv(st.inFlight, Accessed(st, k, access).co) && HeaderInv(Accessed(st, k, access).co)
  {
    match access {
      case Lock(_) =>
      case Apply(_) =>
      case Drop =>
      case Abandon =>
      case Surface(_, _) =>
      case Vanish(_, _) =>
      case Resolve =>
    }
  }

  lemma CoordinatorStep(st: State, step: Step)
    requires RecordInv(st) && PhaseInv(st.inFlight, st.co) && HeaderInv(st.co) && AttemptsInv(st.co, st.rg)
    requires Enabled(st, step) && Tidy(st, step)
    ensures PhaseInv(st.inFlight, Do(st, step).co) && HeaderInv(Do(st, step).co)
  {
    match step {
      case Coordinate(move) => CoordinatorMove(st, move);
      case AtRecord(eval) => CoordinatorEval(st, eval);
      case AtKey(k, access) => CoordinatorAccess(st, k, access);
      case Recover(_, _) =>
      case OtherRead(_) =>
    }
  }

  lemma CommittedEval(st: State, eval: Eval)
    requires RecordInv(st) && PhaseInv(st.inFlight, st.co) && HeaderInv(st.co) && CommittedInv(st) && CanEval(st, eval)
    ensures CommittedInv(Evaluated(st, eval))
  {
    match eval {
      case StageEval(h, threshold, heard) => StageOutcome(st, h, threshold, heard);
      case FinalizeEval(_, _) =>
      case AbortEval(_) =>
      case Bystand(_) => RecordEval(st, eval);
      case Settle(_) =>
    }
  }

  lemma CommittedStep(st: State, step: Step)
    requires RecordInv(st) && PhaseInv(st.inFlight, st.co) && HeaderInv(st.co) && CommittedInv(st)
    requires Enabled(st, step) && Tidy(st, step)
    ensures CommittedInv(Do(st, step))
  {
    if step.AtRecord? {
      CommittedEval(st, step.eval);
    } else {
      assert Do(st, step).record == st.record && Do(st, step).stagedAt == st.stagedAt;
    }
  }

  /** Evaluations at the record's range touch no in-flight key. */
  lemma EvalLeaves(st: State, eval: Eval)
    requires CanEval(st, eval)
    ensures var next := Evaluated(st, eval);
            && next.rg == st.rg && next.recoverers == st.recoverers && next.inFlight == st.inFlight && next.id == st.id
            && next.co.results == st.co.results && next.co.pending == st.co.pending
            && next.co.txn == st.co.txn
            && (st.co.phase == GaveUp ==> next.co.phase == GaveUp)
  {
  }

  lemma AttemptsAccess(st: State, k: Key, access: Access)
    requires AttemptsInv(st.co, st.rg) && CanAccess(st, k, access)
    ensures AttemptsInv(Accessed(st, k, access).co, Accessed(st, k, access).rg)
  {
    match access {
      case Lock(_) =>
      case Apply(_) =>
      case Drop =>
      case Abandon =>
      case Surface(_, _) =>
      case Vanish(_, _) =>
      case Resolve =>
    }
  }

  lemma AttemptsStep(st: State, step: Step)
    requires AttemptsInv(st.co, st.rg) && Enabled(st, step) && Tidy(st, step)
    ensures AttemptsInv(Do(st, step).co, Do(st, step).rg)
  {
    match step {
      case Coordinate(_) =>
      case AtRecord(eval) => EvalLeaves(st, eval);
      case AtKey(k, access) => AttemptsAccess(st, k, access);
      case Recover(_, _) =>
      case OtherRead(_) =>
    }
  }

  lemma IntentsStep(st: State, step: Step)
    requires Inv(st) && Enabled(st, step) && Tidy(st, step)
    ensures IntentsInv(Do(st, step))
  {
    RecordStep(st, step);
    match step {
      case Coordinate(_) =>
      case AtRecord(eval) => EvalLeaves(st, eval);
      case AtKey(_, _) =>
      case Recover(_, _) =>
      case OtherRead(_) =>
    }
  }

  /** A read recorded at the staged timestamp pushes the transaction's writes. */
  lemma LockClears(st: State, k: Key, ts: Timestamp, at: Timestamp)
    requires NaiveAllows(st.rg.known, [Point(k)], ts, st.id) && st.id != NoTxn
    requires Read(Point(k), at, NoTxn) in st.rg.known
    ensures at < ts
  {
    var r := Read(Point(k), at, NoTxn);
    assert Overlaps(r.span, [Point(k)][0]);
    assert OverlapsAny(r.span, [Point(k)]);
  }

  lemma DeadAccess(st: State, key: Key, access: Access, k: Key)
    requires st.id != NoTxn && CanAccess(st, key, access) && Dead(st, k)
    ensures Dead(Accessed(st, key, access), k)
  {
    match access {
      case Lock(ts) =>
        if key == k {
          LockClears(st, k, ts, st.stagedAt.value);
        }
      case Apply(_) =>
      case Drop =>
      case Abandon =>
      case Surface(_, _) =>
      case Vanish(_, _) =>
      case Resolve =>
    }
  }

  lemma DeadStays(st: State, step: Step, k: Key)
    requires Inv(st) && Enabled(st, step) && Tidy(st, step) && Dead(st, k)
    ensures Dead(Do(st, step), k)
  {
    match step {
      case Coordinate(_) =>
      case AtRecord(eval) => EvalLeaves(st, eval);
      case AtKey(key, access) => DeadAccess(st, key, access, k);
      case Recover(_, _) =>
      case OtherRead(_) =>
    }
  }

  lemma DoomStays(st: State, step: Step)
    requires Inv(st) && Enabled(st, step) && Tidy(st, step)
    ensures st.stagedAt.Some? && Doomed(st) ==> Doomed(Do(st, step))
  {
    if SomeDead(st) {
      var k :| k in st.inFlight && Dead(st, k);
      DeadStays(st, step, k);
    }
    assert st.co.phase == GaveUp && !Restarts(step) ==> Do(st, step).co.phase == GaveUp;
  }

  lemma AbortedStep(st: State, step: Step)
    requires Inv(st) && Enabled(st, step) && Tidy(st, step)
    ensures AbortedInv(Do(st, step))
  {
    DoomStays(st, step);
    if step.AtRecord? {
      match step.eval {
        case StageEval(h, threshold, heard) => StageOutcome(st, h, threshold, heard);
        case FinalizeEval(_, _) =>
        case AbortEval(_) =>
        case Bystand(_) =>
        case Settle(w) => assert RecovererOk(st, st.recoverers[w]);
      }
    }
  }

  /** Looking at a key that is not there dooms the commit. */
  lemma LookDooms(st: State, w: nat)
    requires Inv(st) && CanRecover(st, w, Look) && Recovering(st, w, Look).recoverers[w].missing
    ensures Final(st.record) || Doomed(Recovering(st, w, Look))
  {
    var r := st.recoverers[w];
    assert RecovererOk(st, r);
    if !r.missing && !Final(st.record) && st.co.phase != GaveUp {
      assert Dead(Recovering(st, w, Look), r.keys[r.next]);
    } else {
      DoomStays(st, Recover(w, Look));
    }
  }

  lemma RecovererProbe(st: State, who: nat, recovery: Recovery, w: nat)
    requires Inv(st) && CanRecover(st, who, recovery) && w in Recovering(st, who, recovery).recoverers
    ensures RecovererOk(Recovering(st, who, recovery), Recovering(st, who, recovery).recoverers[w])
  {
    DoomStays(st, Recover(who, recovery));
    if w in st.recoverers {
      assert RecovererOk(st, st.recoverers[w]);
    }
    if who == w && recovery.Look? && Recovering(st, who, recovery).recoverers[w].missing {
      LookDooms(st, w);
    }
  }

  lemma RecovererStep(st: State, step: Step, w: nat)
    requires Inv(st) && Enabled(st, step) && Tidy(st, step) && w in Do(st, step).recoverers
    ensures RecovererOk(Do(st, step), Do(st, step).recoverers[w])
  {
    if step.Recover? {
      RecovererProbe(st, step.who, step.recovery, w);
    } else {
      RecordStep(st, step);
      DoomStays(st, step);
      ProbeStays(st, step, w);
    }
  }

  /** Nobody else disturbs a recoverer, nor starts a write under its latch. */
  lemma ProbeStays(st: State, step: Step, w: nat)
    requires RecordInv(st) && RecoverersInv(st) && Enabled(st, step) && Tidy(st, step) && !step.Recover?
    requires w in Do(st, step).recoverers
    ensures w in st.recoverers
    ensures var r, next := st.recoverers[w], Do(st, step);
            && next.recoverers[w] == r && next.stagedAt == Some(r.ts) && next.inFlight == st.inFlight
            && (r.latched ==> Probed(r) in next.rg.known && r.keys[r.next] !in next.rg.writing)
  {
    match step {
      case Coordinate(_) => assert RecovererOk(st, st.recoverers[w]);
      case AtRecord(eval) =>
        EvalLeaves(st, eval);
        assert RecovererOk(st, st.recoverers[w]);
        StagedStays(st, eval);
      case AtKey(_, _) => assert RecovererOk(st, st.recoverers[w]);
      case OtherRead(_) => assert RecovererOk(st, st.recoverers[w]);
    }
  }

  /** Once staged, always at that timestamp. */
  lemma StagedStays(st: State, eval: Eval)
    requires RecordInv(st) && CanEval(st, eval) && st.stagedAt.Some?
    ensures Evaluated(st, eval).stagedAt == st.stagedAt
  {
    if eval.StageEval? {
      StageOutcome(st, eval.header, eval.threshold, eval.heard);
    }
  }

  lemma StepKeeps(st: State, step: Step)
    requires Inv(st) && Enabled(st, step) && Tidy(st, step)
    ensures Inv(Do(st, step))
  {
    RecordStep(st, step);
    CoordinatorStep(st, step);
    CommittedStep(st, step);
    AttemptsStep(st, step);
    IntentsStep(st, step);
    AbortedStep(st, step);
    forall w | w in Do(st, step).recoverers ensures RecovererOk(Do(st, step), Do(st, step).recoverers[w]) {
      RecovererStep(st, step, w);
    }
    assert Do(st, step).inFlight == st.inFlight;
  }

  lemma {:induction false} RunKeeps(st: State, steps: seq<Step>)
    requires Inv(st) && Runs(st, steps) && TidyRun(st, steps)
    ensures Inv(After(st, steps))
    ensures Final(st.record) ==> After(st, steps).record == st.record
    decreases |steps|
  {
    if steps != [] {
      RecordStep(st, steps[0]);
      StepKeeps(st, steps[0]);
      RunKeeps(Do(st, steps[0]), steps[1..]);
    }
  }

  // ---- agreement ----

  /** A commit acknowledged on the implicit path is never aborted: in every
      run its record is staged or committed at the acknowledged timestamp. */
  lemma AcknowledgedNeverAborted(st: State, steps: seq<Step>)
    requires Start(st) && Runs(st, steps) && TidyRun(st, steps)
    ensures var end := After(st, steps);
            end.co.phase.Acked? ==>
              && (Is(end.record, STAGING) || Is(end.record, COMMITTED))
              && end.record.value.txn.writeTS == end.co.phase.ts
  {
    RunKeeps(st, steps);
    NotDead(After(st, steps));
  }

  lemma NotDead(st: State)
    requires PhaseInv(st.inFlight, st.co) && RecordInv(st)
    ensures st.co.phase.Acked? ==> !Doomed(st)
  {
    if st.co.phase.Acked? {
      forall k | k in st.inFlight ensures !Dead(st, k) {
        assert k in st.co.results && st.co.results[k] <= st.co.phase.ts;
      }
    }
  }

  lemma {:induction false} AfterConcat(st: State, a: seq<Step>, b: seq<Step>)
    requires Runs(st, a + b)
    ensures Runs(st, a) && Runs(After(st, a), b) && After(st, a + b) == After(After(st, a), b)
    ensures TidyRun(st, a + b) ==> TidyRun(st, a) && TidyRun(After(st, a), b)
    decreases |a|
  {
    if a == [] {
      assert a + b == b;
    } else {
      assert (a + b)[1..] == a[1..] + b && (a + b)[0] == a[0];
      AfterConcat(Do(st, a[0]), a[1..], b);
    }
  }

  /** One acknowledged after its writes were forwarded is committed, at the
      timestamp it was told. */
  lemma ConfirmedIsCommitted(st: State, steps: seq<Step>)
    requires Start(st) && Runs(st, steps) && TidyRun(st, steps)
    ensures var end := After(st, steps);
            end.co.phase.Confirmed? ==> Is(end.record, COMMITTED) && end.record.value.txn.writeTS == end.co.phase.ts
  {
    RunKeeps(st, steps);
  }

  /** A transaction whose record was aborted, by recovery or otherwise, is
      never acknowledged, however the run goes on. */
  lemma AbortedNeverAcknowledged(st: State, a: seq<Step>, b: seq<Step>)
    requires Start(st) && Runs(st, a + b) && TidyRun(st, a + b)
    ensures Runs(st, a)
    ensures Is(After(st, a).record, ABORTED) ==>
              !After(st, a + b).co.phase.Acked? && !After(st, a + b).co.phase.Confirmed?
  {
    AfterConcat(st, a, b);
    RunKeeps(st, a);
    RunKeeps(After(st, a), b);
    AcknowledgedNeverAborted(st, a + b);
    ConfirmedIsCommitted(st, a + b);
  }

  /** A coordinator that reports an error while its staging request is Unsent
      or Rejected reports the truth: nothing that is still out, or that anyone
      does later, commits the transaction in that epoch. */
  lemma {:induction false} HarmlessNeverCommits(st: State, steps: seq<Step>)
    requires Inv(st) && st.co.phase == GaveUp && Harmless(st.co.stage) && Runs(st, steps) && OneEpoch(steps)
    ensures !Is(After(st, steps).record, COMMITTED) && !Is(After(st, steps).record, STAGING)
    decreases |steps|
  {
    if steps != [] {
      assert !Restarts(steps[0]);
      StepKeeps(st, steps[0]);
      GaveUpStays(st, steps[0]);
      assert forall i :: 0 <= i < |steps[1..]| ==> steps[1..][i] == steps[i + 1];
      HarmlessNeverCommits(Do(st, steps[0]), steps[1..]);
    }
  }

  lemma GaveUpStays(st: State, step: Step)
    requires st.co.phase == GaveUp && Enabled(st, step) && !Restarts(step)
    ensures Do(st, step).co.phase == GaveUp
    ensures Harmless(st.co.stage) || st.co.stage.Refused? ==> Do(st, step).co.stage == st.co.stage
  {
    match step {
      case Coordinate(_) =>
      case AtRecord(_) =>
      case AtKey(_, _) =>
      case Recover(_, _) =>
      case OtherRead(_) =>
    }
  }
}
