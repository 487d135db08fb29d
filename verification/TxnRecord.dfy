/** The transaction record (pkg/kvserver/txn.go): one replicated cell per
    transaction, changed only by the five evaluations below, each of which
    loads it, judges it and puts it back. */
module TxnRecords {
  import opened Keys
  import opened Hlc
  import opened Mvcc

  datatype Status = PENDING | STAGING | COMMITTED | ABORTED

  /** The coordinator's view of its transaction, as requests carry it. Wall
      times are in nanoseconds. */
  datatype Txn = Txn(epoch: nat, readTS: Timestamp, writeTS: Timestamp, minTS: Timestamp,
                     bornWall: int, priority: int)

  datatype Record = Record(status: Status, txn: Txn, heartbeatWall: int, inFlight: seq<Key>, waitingFor: nat)

  const TxnExpiration: int := 5_000_000_000
  const NonTxnPriority: int := 0x4000_0000

  datatype Error = TxnAborted | TxnRetry(ts: Timestamp) | TxnNotFound | Refused

  datatype Reply =
    | Failed(error: Error)
    | Created
    | Ended(commitTS: Timestamp)
    | Beat(status: Status)
    | Pushed(status: Status, commitTS: Timestamp, inFlight: seq<Key>)
    | Recovered(status: Status)

  datatype Outcome = Outcome(record: Option<Record>, reply: Reply)

  predicate Expired(now: int, last: int) { now - last > TxnExpiration }

  predicate Final(rec: Option<Record>) {
    rec.Some? && (rec.value.status == COMMITTED || rec.value.status == ABORTED)
  }

  predicate Is(rec: Option<Record>, status: Status) {
    rec.Some? && rec.value.status == status
  }

  // ---- what each evaluation does to the cell ----

  function Create(rec: Option<Record>, threshold: Timestamp, txn: Txn): Outcome {
    if threshold != 0 && txn.minTS <= threshold then Outcome(rec, Failed(TxnAborted))
    else if Is(rec, ABORTED) then Outcome(rec, Failed(TxnAborted))
    else if Is(rec, COMMITTED) then Outcome(rec, Failed(Refused))
    else Outcome(Some(Record(PENDING, txn, txn.bornWall, [], 0)), Created)
  }

  function End(rec: Option<Record>, txn: Txn, commit: bool, inFlight: seq<Key>): Outcome {
    if Is(rec, ABORTED) then Outcome(rec, Failed(TxnAborted))
    else if Is(rec, COMMITTED) then
      if commit && rec.value.txn.epoch == txn.epoch then Outcome(rec, Ended(rec.value.txn.writeTS))
      else Outcome(rec, Failed(Refused))
    else if rec.Some? && rec.value.txn.epoch > txn.epoch then Outcome(rec, Failed(Refused))
    else if commit && txn.readTS != txn.writeTS then Outcome(rec, Failed(TxnRetry(txn.writeTS)))
    else
      var status := if !commit then ABORTED else if inFlight != [] then STAGING else COMMITTED;
      Outcome(Some(Record(status, txn, txn.bornWall, if commit then inFlight else [], 0)), Ended(txn.writeTS))
  }

  function Heartbeat(rec: Option<Record>, now: int, waitingFor: nat): Outcome {
    if rec.None? then Outcome(rec, Failed(TxnNotFound))
    else if rec.value.status != PENDING then Outcome(rec, Beat(rec.value.status))
    else
      var last := if rec.value.heartbeatWall < now then now else rec.value.heartbeatWall;
      Outcome(Some(rec.value.(heartbeatWall := last, waitingFor := waitingFor)), Beat(PENDING))
  }

  datatype PushRequest = PushRequest(pushee: Txn, now: int, force: bool, abort: bool, pusher: Option<int>)

  function Push(rec: Option<Record>, req: PushRequest): Outcome {
    if rec.None? then
      if Expired(req.now, req.pushee.bornWall)
      then Outcome(Some(Record(ABORTED, req.pushee, 0, [], 0)), Pushed(ABORTED, 0, []))
      else Outcome(rec, Pushed(PENDING, 0, []))
    else match rec.value.status
      case COMMITTED => Outcome(rec, Pushed(COMMITTED, rec.value.txn.writeTS, []))
      case ABORTED => Outcome(rec, Pushed(ABORTED, 0, []))
      case STAGING => Outcome(rec, Pushed(STAGING, rec.value.txn.writeTS, rec.value.inFlight))
      case PENDING =>
        var rank := if req.pusher.Some? then req.pusher.value else NonTxnPriority;
        if Expired(req.now, rec.value.heartbeatWall) || req.force || (req.abort && rank > rec.value.txn.priority)
        then Outcome(Some(rec.value.(status := ABORTED)), Pushed(ABORTED, 0, []))
        else Outcome(rec, Pushed(PENDING, 0, []))
  }

  function Recover(rec: Option<Record>, commit: bool): Outcome {
    if rec.None? then Outcome(rec, Recovered(ABORTED))
    else if rec.value.status != STAGING then Outcome(rec, Recovered(rec.value.status))
    else
      var status := if commit then COMMITTED else ABORTED;
      Outcome(Some(rec.value.(status := status, inFlight := [])), Recovered(status))
  }

  // ---- the record as a state machine ----

  datatype Request =
    | CreateRequest(threshold: Timestamp, txn: Txn)
    | EndRequest(txn: Txn, commit: bool, inFlight: seq<Key>)
    | HeartbeatRequest(now: int, waitingFor: nat)
    | PushTxnRequest(push: PushRequest)
    | RecoverRequest(commit: bool)

  function Evaluate(rec: Option<Record>, req: Request): Outcome {
    match req
    case CreateRequest(threshold, txn) => Create(rec, threshold, txn)
    case EndRequest(txn, commit, inFlight) => End(rec, txn, commit, inFlight)
    case HeartbeatRequest(now, waitingFor) => Heartbeat(rec, now, waitingFor)
    case PushTxnRequest(push) => Push(rec, push)
    case RecoverRequest(commit) => Recover(rec, commit)
  }

  function Replay(rec: Option<Record>, reqs: seq<Request>): Option<Record>
    decreases |reqs|
  {
    if reqs == [] then rec else Replay(Evaluate(rec, reqs[0]).record, reqs[1..])
  }

  /** The flip happens once: over any sequence of requests a finalized record
      never changes again, commit timestamp included. */
  lemma {:induction false} FinalIsForever(rec: Option<Record>, reqs: seq<Request>)
    requires Final(rec)
    ensures Replay(rec, reqs) == rec
  {
    if reqs != [] {
      assert Evaluate(rec, reqs[0]).record == rec;
      FinalIsForever(rec, reqs[1..]);
    }
  }

  /** Requests that neither come from the coordinator nor from recovery. */
  predicate Bystander(req: Request) {
    req.HeartbeatRequest? || req.PushTxnRequest?
  }

  /** No push, however old or high-ranking, and no heartbeat decides the fate
      of a staged record. */
  lemma {:induction false} BystandersLeaveStaging(rec: Option<Record>, reqs: seq<Request>)
    requires Is(rec, STAGING) && forall r :: r in reqs ==> Bystander(r)
    ensures Replay(rec, reqs) == rec
  {
    if reqs != [] {
      assert reqs[0] in reqs;
      BystandersLeaveStaging(rec, reqs[1..]);
    }
  }

  /** The requests that commit, in the order they were evaluated. */
  predicate Commits(req: Request) {
    (req.EndRequest? && req.commit && req.txn.readTS == req.txn.writeTS) || (req.RecoverRequest? && req.commit)
  }

  /** A record commits only through a commit whose write timestamp equals its
      read timestamp, or through recovery of one staged so. */
  lemma {:induction false} CommitNeedsEquality(rec: Option<Record>, reqs: seq<Request>)
    requires rec.None? || rec.value.status == PENDING
    ensures var after := Replay(rec, reqs);
            Is(after, COMMITTED) || Is(after, STAGING) ==>
              && after.value.txn.readTS == after.value.txn.writeTS
              && exists r :: r in reqs && Commits(r)
  {
    EqualityKept(rec, reqs);
  }

  ghost predicate Equal(rec: Option<Record>) {
    Is(rec, COMMITTED) || Is(rec, STAGING) ==> rec.value.txn.readTS == rec.value.txn.writeTS
  }

  lemma {:induction false} EqualityKept(rec: Option<Record>, reqs: seq<Request>)
    requires Equal(rec)
    ensures Equal(Replay(rec, reqs))
    ensures var after := Replay(rec, reqs);
            (Is(after, COMMITTED) || Is(after, STAGING)) && !Is(rec, COMMITTED) && !Is(rec, STAGING) ==>
              exists r :: r in reqs && Commits(r)
    decreases |reqs|
  {
    if reqs != [] {
      var next := Evaluate(rec, reqs[0]).record;
      EqualityKept(next, reqs[1..]);
      assert forall r :: r in reqs[1..] ==> r in reqs;
      assert reqs[0] in reqs;
    }
  }

  // ---- the evaluations as the source writes them ----

  /** A range's copy of one transaction's record, and the range's GC threshold. */
  class RecordCell {
    var record: Option<Record>
    var gcThreshold: Timestamp

    constructor ()
      ensures record == None && gcThreshold == 0
    {
      record := None;
      gcThreshold := 0;
    }

    method CreateTxnRecord(txn: Txn) returns (reply: Reply)
      modifies `record
      ensures Outcome(record, reply) == Create(old(record), gcThreshold, txn)
    {
      if gcThreshold != 0 && txn.minTS <= gcThreshold {
        return Failed(TxnAborted);
      }
      if record.Some? {
        match record.value.status {
          case ABORTED => return Failed(TxnAborted);
          case COMMITTED => return Failed(Refused);
          case PENDING =>
          case STAGING =>
        }
      }
      record := Some(Record(PENDING, txn, txn.bornWall, [], 0));
      reply := Created;
    }

    method EvalEndTxn(txn: Txn, commit: bool, inFlight: seq<Key>) returns (reply: Reply)
      modifies `record
      ensures Outcome(record, reply) == End(old(record), txn, commit, inFlight)
    {
      if record.Some? {
        if record.value.status == ABORTED {
          return Failed(TxnAborted);
        }
        if record.value.status == COMMITTED {
          if commit && record.value.txn.epoch == txn.epoch {
            return Ended(record.value.txn.writeTS);
          }
          return Failed(Refused);
        }
        if record.value.txn.epoch > txn.epoch {
          return Failed(Refused);
        }
      }
      if commit && txn.readTS != txn.writeTS {
        return Failed(TxnRetry(txn.writeTS));
      }
      var final := Record(ABORTED, txn, txn.bornWall, [], 0);
      if commit {
        if |inFlight| > 0 {
          final := final.(status := STAGING, inFlight := inFlight);
        } else {
          final := final.(status := COMMITTED);
        }
      }
      record := Some(final);
      reply := Ended(final.txn.writeTS);
    }

    method EvalHeartbeatTxn(now: int, waitingFor: nat) returns (reply: Reply)
      modifies `record
      ensures Outcome(record, reply) == Heartbeat(old(record), now, waitingFor)
    {
      if record.None? {
        return Failed(TxnNotFound);
      }
      var rec := record.value;
      if rec.status == PENDING {
        if rec.heartbeatWall < now {
          rec := rec.(heartbeatWall := now);
        }
        rec := rec.(waitingFor := waitingFor);
        record := Some(rec);
      }
      reply := Beat(rec.status);
    }

    method EvalPushTxn(req: PushRequest) returns (reply: Reply)
      modifies `record
      ensures Outcome(record, reply) == Push(old(record), req)
    {
      if record.None? {
        if Expired(req.now, req.pushee.bornWall) {
          record := Some(Record(ABORTED, req.pushee, 0, [], 0));
          return Pushed(ABORTED, 0, []);
        }
        return Pushed(PENDING, 0, []);
      }
      var rec := record.value;
      match rec.status {
        case COMMITTED => return Pushed(COMMITTED, rec.txn.writeTS, []);
        case ABORTED => return Pushed(ABORTED, 0, []);
        case STAGING => return Pushed(STAGING, rec.txn.writeTS, rec.inFlight);
        case PENDING =>
      }
      if Expired(req.now, rec.heartbeatWall) {
        record := Some(rec.(status := ABORTED));
        return Pushed(ABORTED, 0, []);
      }
      if req.force {
        record := Some(rec.(status := ABORTED));
        return Pushed(ABORTED, 0, []);
      }
      var pusherPriority := NonTxnPriority;
      if req.pusher.Some? {
        pusherPriority := req.pusher.value;
      }
      if req.abort && pusherPriority > rec.txn.priority {
        record := Some(rec.(status := ABORTED));
        return Pushed(ABORTED, 0, []);
      }
      reply := Pushed(PENDING, 0, []);
    }

    method EvalRecoverTxn(commit: bool) returns (reply: Reply)
      modifies `record
      ensures Outcome(record, reply) == Recover(old(record), commit)
    {
      if record.None? {
        return Recovered(ABORTED);
      }
      var rec := record.value;
      if rec.status != STAGING {
        return Recovered(rec.status);
      }
      rec := rec.(status := if commit then COMMITTED else ABORTED, inFlight := []);
      record := Some(rec);
      reply := Recovered(rec.status);
    }
  }
}
