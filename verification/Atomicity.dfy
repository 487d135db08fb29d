/** What a committed record says about the writes of its parallel commit, and
    the runs in which it says less than the protocol's authors hoped. */
module Atomicity {
  import opened Keys
  import opened Hlc
  import opened Mvcc
  import opened TxnRecords
  import opened ParallelCommit

  /** The in-flight keys that carry no intent of an earlier statement: what the
      coordinator knows from its set of written keys. */
  ghost function FreshKeys(st: State): set<Key> {
    set k | k in st.inFlight && k !in st.rg.intents
  }

  /** The write batch is sent once. */
  ghost predicate NoResend(steps: seq<Step>) {
    forall i :: 0 <= i < |steps| ==> !Resends(steps[i])
  }

  predicate Resends(step: Step) { step.Coordinate? && step.move.Resend? }

  /** Of the write batch only these keys are sent again. */
  ghost predicate ResendsOnly(steps: seq<Step>, again: set<Key>) {
    forall i :: 0 <= i < |steps| && Resends(steps[i]) ==> steps[i].move.keys <= again
  }

  /** A key's write is sent once. */
  ghost predicate SentOnce(steps: seq<Step>, k: Key) {
    forall i :: 0 <= i < |steps| && Resends(steps[i]) ==> k !in steps[i].move.keys
  }

  ghost predicate LandedBy(st: State, ts: Timestamp, once: set<Key>, clean: set<Key>) {
    forall k :: k in st.inFlight && k in clean ==> k in st.rg.landed && (k in once ==> st.rg.landed[k] <= ts)
  }

  ghost predicate KeysInv(st: State, once: set<Key>, clean: set<Key>) {
    WrittenInv(st, once, clean) && OnlyOnce(st.co.pending, st.rg, once)
  }

  /** Intents and heard replies are of writes that landed. */
  ghost predicate WrittenInv(st: State, once: set<Key>, clean: set<Key>) {
    && (st.co.phase == Open ==>
          st.co.pending == {} && st.rg.landed == map[] && st.rg.writing == map[] && st.rg.orphans == {})
    && (forall k :: k in st.inFlight && k in clean && k in st.rg.intents ==>
          k in st.rg.landed && (k in once ==> st.rg.intents[k] == st.rg.landed[k]))
    && (forall k :: k in st.co.results ==> k in st.rg.landed && (k in once ==> st.co.results[k] == st.rg.landed[k]))
  }

  /** A key sent once is still to be written, in one write that is out, or
      written. */
  ghost predicate OnlyOnce(pending: set<Key>, rg: Ranges, once: set<Key>) {
    && (forall k :: k in once && k in rg.landed ==> k !in pending && k !in rg.writing && NoneAhead(rg.orphans, k))
    && (forall k :: k in once && k in rg.writing ==> k !in pending && NoneAhead(rg.orphans, k))
    && (forall o :: o in rg.orphans && o.key in once ==> o.key !in pending)
    && (forall o, p :: o in rg.orphans && p in rg.orphans && o.key in once && o.key == p.key ==> o == p)
  }

  ghost predicate Found(st: State, r: Recoverer, once: set<Key>, clean: set<Key>) {
    forall j :: 0 <= j < r.next && j < |r.keys| && r.keys[j] in clean ==>
      r.keys[j] in st.rg.landed && (r.keys[j] in once ==> st.rg.landed[r.keys[j]] <= r.ts)
  }

  ghost predicate FoundInv(st: State, once: set<Key>, clean: set<Key>) {
    forall w :: w in st.recoverers ==> Found(st, st.recoverers[w], once, clean)
  }

  ghost predicate VerdictInv(st: State, once: set<Key>, clean: set<Key>) {
    && (forall h :: h in st.co.commits && Committable(h) ==> LandedBy(st, h.writeTS, once, clean))
    && (Is(st.record, COMMITTED) ==> LandedBy(st, st.record.value.txn.writeTS, once, clean))
  }

  ghost predicate LandInv(st: State, once: set<Key>, clean: set<Key>) {
    KeysInv(st, once, clean) && FoundInv(st, once, clean) && VerdictInv(st, once, clean)
  }

  predicate Allowed(step: Step, once: set<Key>) {
    !Restarts(step) && (Resends(step) ==> step.move.keys !! once)
  }

  lemma WrittenAccess(st: State, k: Key, access: Access, once: set<Key>, clean: set<Key>)
    requires AttemptsInv(st.co, st.rg) && KeysInv(st, once, clean) && CanAccess(st, k, access)
    ensures WrittenInv(Accessed(st, k, access), once, clean)
  {
    match access {
      case Lock(_) =>
      case Apply(_) =>
      case Drop =>
      case Abandon =>
      case Surface(_, _) =>
      case Vanish(_, _) =>
      case Resolve =>
    }
  }

  lemma OnceAccess(st: State, k: Key, access: Access, once: set<Key>)
    requires OnlyOnce(st.co.pending, st.rg, once) && CanAccess(st, k, access)
    ensures OnlyOnce(Accessed(st, k, access).co.pending, Accessed(st, k, access).rg, once)
  {
    match access {
      case Lock(_) =>
      case Apply(_) =>
      case Drop =>
      case Abandon =>
      case Surface(_, _) =>
      case Vanish(_, _) =>
      case Resolve =>
    }
  }

  lemma KeysMove(st: State, move: Move, once: set<Key>, clean: set<Key>)
    requires KeysInv(st, once, clean) && CanMove(st.inFlight, st.co, move) && Allowed(Coordinate(move), once)
    ensures KeysInv(Coordinated(st, move), once, clean)
  {
    match move {
      case Begin =>
      case Restage(_) =>
      case Resend(_) =>
      case Acknowledge =>
      case Forwarded(_) =>
      case GiveUp =>
    }
  }

  lemma KeysStep(st: State, step: Step, once: set<Key>, clean: set<Key>)
    requires AttemptsInv(st.co, st.rg) && KeysInv(st, once, clean) && Enabled(st, step) && Allowed(step, once)
    ensures KeysInv(Do(st, step), once, clean)
  {
    match step {
      case Coordinate(move) => KeysMove(st, move, once, clean);
      case AtRecord(eval) => EvalLeaves(st, eval);
      case AtKey(k, access) =>
        WrittenAccess(st, k, access, once, clean);
        OnceAccess(st, k, access, once);
      case Recover(_, _) =>
      case OtherRead(_) =>
    }
  }

  /** Without a resend a key's write lands once and stays as it landed. */
  lemma LandedStays(st: State, step: Step, once: set<Key>, clean: set<Key>)
    requires KeysInv(st, once, clean) && Enabled(st, step)
    ensures forall k :: k in st.rg.landed ==>
              k in Do(st, step).rg.landed && (k in once ==> Do(st, step).rg.landed[k] == st.rg.landed[k])
  {
    if step.AtRecord? {
      EvalLeaves(st, step.eval);
    }
  }

  lemma FoundStep(st: State, step: Step, once: set<Key>, clean: set<Key>, w: nat)
    requires RecoverersInv(st) && KeysInv(st, once, clean) && FoundInv(st, once, clean)
    requires Enabled(st, step) && w in Do(st, step).recoverers
    ensures Found(Do(st, step), Do(st, step).recoverers[w], once, clean)
  {
    if step.Recover? {
      FoundProbe(st, step.who, step.recovery, once, clean, w);
    } else {
      LandedStays(st, step, once, clean);
      OthersStay(st, step, w);
      FoundCarries(st, Do(st, step), st.recoverers[w], once, clean);
    }
  }

  lemma FoundProbe(st: State, who: nat, recovery: Recovery, once: set<Key>, clean: set<Key>, w: nat)
    requires RecoverersInv(st) && KeysInv(st, once, clean) && FoundInv(st, once, clean)
    requires CanRecover(st, who, recovery) && w in Recovering(st, who, recovery).recoverers
    ensures Found(Recovering(st, who, recovery), Recovering(st, who, recovery).recoverers[w], once, clean)
  {
    if w in st.recoverers {
      assert RecovererOk(st, st.recoverers[w]) && Found(st, st.recoverers[w], once, clean);
    }
  }

  lemma OthersStay(st: State, step: Step, w: nat)
    requires Enabled(st, step) && !step.Recover? && w in Do(st, step).recoverers
    ensures w in st.recoverers && Do(st, step).recoverers[w] == st.recoverers[w]
  {
    match step {
      case Coordinate(_) =>
      case AtRecord(eval) => EvalLeaves(st, eval);
      case AtKey(_, _) =>
      case OtherRead(_) =>
    }
  }

  lemma FoundCarries(st: State, next: State, r: Recoverer, once: set<Key>, clean: set<Key>)
    requires Found(st, r, once, clean)
    requires forall k :: k in st.rg.landed ==> k in next.rg.landed && (k in once ==> next.rg.landed[k] == st.rg.landed[k])
    ensures Found(next, r, once, clean)
  {
    forall j | 0 <= j < r.next && j < |r.keys| && r.keys[j] in clean
      ensures r.keys[j] in next.rg.landed && (r.keys[j] in once ==> next.rg.landed[r.keys[j]] <= r.ts) {
      var k := r.keys[j];
      assert k in st.rg.landed;
    }
  }

  /** A recoverer that missed nothing has found every key. */
  lemma SettledLanded(st: State, w: nat, once: set<Key>, clean: set<Key>)
    requires RecoverersInv(st) && FoundInv(st, once, clean) && CanEval(st, Settle(w))
    ensures !st.recoverers[w].missing ==> LandedBy(st, st.recoverers[w].ts, once, clean)
  {
    assert RecovererOk(st, st.recoverers[w]) && Found(st, st.recoverers[w], once, clean);
    if !st.recoverers[w].missing {
      forall k | k in st.inFlight && k in clean
        ensures k in st.rg.landed && (k in once ==> st.rg.landed[k] <= st.recoverers[w].ts) {
        var j :| 0 <= j < |st.inFlight| && st.inFlight[j] == k;
      }
    }
  }

  lemma VerdictEval(st: State, eval: Eval, once: set<Key>, clean: set<Key>)
    requires Inv(st) && LandInv(st, once, clean) && CanEval(st, eval)
    ensures VerdictInv(Evaluated(st, eval), once, clean)
  {
    EvalLeaves(st, eval);
    match eval {
      case StageEval(h, threshold, heard) => StageOutcome(st, h, threshold, heard);
      case FinalizeEval(_, _) =>
      case AbortEval(_) =>
      case Bystand(_) =>
      case Settle(w) => SettledLanded(st, w, once, clean);
    }
  }

  lemma VerdictMove(st: State, move: Move, once: set<Key>, clean: set<Key>)
    requires RecordInv(st) && PhaseInv(st.inFlight, st.co) && HeaderInv(st.co)
    requires KeysInv(st, once, clean) && VerdictInv(st, once, clean) && CanMove(st.inFlight, st.co, move) && !move.Restart?
    ensures VerdictInv(Coordinated(st, move), once, clean)
  {
    if move.Acknowledge? || move.Forwarded? {
      assert Full(st.inFlight, st.co);
    }
  }

  lemma VerdictStep(st: State, step: Step, once: set<Key>, clean: set<Key>)
    requires Inv(st) && LandInv(st, once, clean) && Enabled(st, step) && Allowed(step, once)
    ensures VerdictInv(Do(st, step), once, clean)
  {
    match step {
      case Coordinate(move) => VerdictMove(st, move, once, clean);
      case AtRecord(eval) => VerdictEval(st, eval, once, clean);
      case AtKey(_, _) =>
        LandedStays(st, step, once, clean);
        VerdictCarries(st, Do(st, step), once, clean);
      case Recover(_, _) => VerdictCarries(st, Do(st, step), once, clean);
      case OtherRead(_) => VerdictCarries(st, Do(st, step), once, clean);
    }
  }

  lemma VerdictCarries(st: State, next: State, once: set<Key>, clean: set<Key>)
    requires VerdictInv(st, once, clean)
    requires next.record == st.record && next.co.commits == st.co.commits && next.inFlight == st.inFlight
    requires forall k :: k in st.rg.landed ==> k in next.rg.landed && (k in once ==> next.rg.landed[k] == st.rg.landed[k])
    ensures VerdictInv(next, once, clean)
  {
  }

  lemma LandStep(st: State, step: Step, once: set<Key>, clean: set<Key>)
    requires Inv(st) && LandInv(st, once, clean) && Enabled(st, step) && Allowed(step, once)
    ensures LandInv(Do(st, step), once, clean)
  {
    KeysStep(st, step, once, clean);
    VerdictStep(st, step, once, clean);
    forall w | w in Do(st, step).recoverers ensures Found(Do(st, step), Do(st, step).recoverers[w], once, clean) {
      FoundStep(st, step, once, clean, w);
    }
  }

  lemma {:induction false} LandRun(st: State, steps: seq<Step>, once: set<Key>, clean: set<Key>)
    requires Inv(st) && LandInv(st, once, clean) && Runs(st, steps) && OneEpoch(steps)
    requires forall k :: k in once ==> SentOnce(steps, k)
    ensures LandInv(After(st, steps), once, clean) && After(st, steps).inFlight == st.inFlight
    ensures forall k :: k in once && k in st.rg.landed ==>
              k in After(st, steps).rg.landed && After(st, steps).rg.landed[k] == st.rg.landed[k]
    decreases |steps|
  {
    if steps != [] {
      assert Allowed(steps[0], once) by {
        forall k | k in once && Resends(steps[0]) ensures k !in steps[0].move.keys {
          assert SentOnce(steps, k);
        }
      }
      StepKeeps(st, steps[0]);
      LandStep(st, steps[0], once, clean);
      LandedStays(st, steps[0], once, clean);
      OnceRest(steps, once);
      LandRun(Do(st, steps[0]), steps[1..], once, clean);
    }
  }

  lemma OnceRest(steps: seq<Step>, once: set<Key>)
    requires steps != [] && OneEpoch(steps) && forall k :: k in once ==> SentOnce(steps, k)
    ensures OneEpoch(steps[1..]) && forall k :: k in once ==> SentOnce(steps[1..], k)
  {
    assert forall i :: 0 <= i < |steps[1..]| ==> steps[1..][i] == steps[i + 1];
    forall k | k in once ensures SentOnce(steps[1..], k) {
      assert SentOnce(steps, k);
    }
  }

  /** Atomicity: a committed record means that every in-flight write landed
      whose key carried no intent before. */
  lemma CommittedIsComplete(st: State, steps: seq<Step>)
    requires Start(st) && Runs(st, steps) && OneEpoch(steps)
    ensures Is(After(st, steps).record, COMMITTED) ==>
              forall k :: k in FreshKeys(st) ==> k in After(st, steps).rg.landed
  {
    LandRun(st, steps, {}, FreshKeys(st));
  }

  /** When the key's write was also sent only once, it landed at or below the
      commit timestamp, so that resolving its intent never moves the version
      to a lower one. */
  lemma ResolutionNeverMovesDown(st: State, steps: seq<Step>, k: Key)
    requires Start(st) && Runs(st, steps) && OneEpoch(steps) && k in FreshKeys(st) && SentOnce(steps, k)
    ensures var end := After(st, steps);
            Is(end.record, COMMITTED) ==>
              && k in end.rg.landed && end.rg.landed[k] <= end.record.value.txn.writeTS
              && (k in end.rg.intents ==> end.rg.intents[k] <= end.record.value.txn.writeTS)
  {
    LandRun(st, steps, {k}, FreshKeys(st));
  }

  // ---- what a run writes at one key ----

  /** The timestamps at which the batch's writes of k land, in order. */
  ghost function Landings(st: State, steps: seq<Step>, k: Key): seq<Timestamp>
    requires Runs(st, steps)
    decreases |steps|
  {
    if steps == [] then []
    else Landing(st, steps[0], k) + Landings(Do(st, steps[0]), steps[1..], k)
  }

  ghost function Landing(st: State, step: Step, k: Key): seq<Timestamp>
    requires Enabled(st, step)
  {
    if step.AtKey? && step.key == k then
      match step.access
      case Apply(_) => [st.rg.writing[k].ts]
      case Surface(ts, _) => [ts]
      case _ => []
    else []
  }

  /** A write sent once lands at one timestamp. */
  lemma {:induction false} LandingsAgree(st: State, steps: seq<Step>, k: Key, clean: set<Key>)
    requires Inv(st) && LandInv(st, {k}, clean) && Runs(st, steps) && OneEpoch(steps) && SentOnce(steps, k)
    ensures forall ts :: ts in Landings(st, steps, k) ==>
              k in After(st, steps).rg.landed && After(st, steps).rg.landed[k] == ts
    decreases |steps|
  {
    if steps != [] {
      var next := Do(st, steps[0]);
      assert Allowed(steps[0], {k});
      StepKeeps(st, steps[0]);
      LandStep(st, steps[0], {k}, clean);
      OnceRest(steps, {k});
      LandRun(next, steps[1..], {k}, clean);
      LandingsAgree(next, steps[1..], k, clean);
      LandingLands(st, steps[0], k);
    }
  }

  lemma LandingLands(st: State, step: Step, k: Key)
    requires Enabled(st, step)
    ensures forall ts :: ts in Landing(st, step, k) ==> k in Do(st, step).rg.landed && Do(st, step).rg.landed[k] == ts
  {
  }

  /** So every write of a fresh key sent once is at or below the timestamp its
      transaction commits at, whenever it lands. */
  lemma LandsBelowCommit(st: State, steps: seq<Step>, k: Key)
    requires Start(st) && Runs(st, steps) && OneEpoch(steps) && k in FreshKeys(st) && SentOnce(steps, k)
    ensures Is(After(st, steps).record, COMMITTED) ==>
              forall ts :: ts in Landings(st, steps, k) ==> ts <= After(st, steps).record.value.txn.writeTS
  {
    ResolutionNeverMovesDown(st, steps, k);
    LandingsAgree(st, steps, k, FreshKeys(st));
  }
}
