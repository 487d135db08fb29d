/** Parallel fan-out of a batch of point requests (pkg/kvclient/db.go): the
    batch is partitioned by range, the sub-batches are sent, those whose
    routing went stale are partitioned again into the next wave, and responses
    are placed by position.

    Concurrent sub-batches meet only in a mutex-guarded merge of timestamps and
    in writes to disjoint positions, so the sends of a wave are taken one after
    another. Routing and replies are arbitrary functions of how often they were
    asked. */
module FanOut {
  import opened Keys
  import opened Hlc
  import opened Mvcc

  type RangeId = nat

  datatype Request = Request(key: Key, payload: nat)

  /** The server's answer to one request, at some attempt. */
  datatype Response = Response(request: Request, attempt: nat)

  datatype Group = Group(range: RangeId, indices: seq<nat>)

  datatype Reply = Regroup | Refused | Success(ts: Timestamp)

  datatype Result = Ok(responses: seq<Response>, ts: Timestamp) | Failed | NotConverged

  /** One sub-batch sent: in which wave, which requests, whether it was to
      create the record, and what came back. */
  datatype Event = Event(wave: nat, indices: seq<nat>, creates: bool, reply: Reply)

  const MaxRoutingRetries: nat := 30

  // ---- partition ----

  /** How often k occurs among the first n. */
  ghost function Occurs(s: seq<nat>, n: nat, k: nat): nat
    requires n <= |s|
  {
    if n == 0 then 0 else Occurs(s, n - 1, k) + if s[n - 1] == k then 1 else 0
  }

  ghost function Count(s: seq<nat>, k: nat): nat { Occurs(s, |s|, k) }

  lemma {:induction false} OccursConcat(a: seq<nat>, b: seq<nat>, n: nat, k: nat)
    requires n <= |b|
    ensures Occurs(a + b, |a| + n, k) == Count(a, k) + Occurs(b, n, k)
  {
    if n > 0 {
      OccursConcat(a, b, n - 1, k);
    } else {
      OccursSame(a + b, a, |a|, k);
    }
  }

  lemma {:induction false} OccursSame(a: seq<nat>, b: seq<nat>, n: nat, k: nat)
    requires n <= |a| && n <= |b| && forall i :: 0 <= i < n ==> a[i] == b[i]
    ensures Occurs(a, n, k) == Occurs(b, n, k)
  {
    if n > 0 {
      OccursSame(a, b, n - 1, k);
    }
  }

  lemma CountAppend(s: seq<nat>, x: nat, k: nat)
    ensures Count(s + [x], k) == Count(s, k) + if x == k then 1 else 0
  {
    OccursSame(s + [x], s, |s|, k);
  }

  lemma {:induction false} OccursMember(s: seq<nat>, n: nat, k: nat)
    requires n <= |s|
    ensures Occurs(s, n, k) > 0 <==> exists i :: 0 <= i < n && s[i] == k
  {
    if n > 0 {
      OccursMember(s, n - 1, k);
    }
  }

  /** How often position k occurs in the first n groups. */
  ghost function Tally(groups: seq<Group>, n: nat, k: nat): nat
    requires n <= |groups|
  {
    if n == 0 then 0 else Tally(groups, n - 1, k) + Count(groups[n - 1].indices, k)
  }

  lemma {:induction false} TallySame(a: seq<Group>, b: seq<Group>, n: nat, k: nat)
    requires n <= |a| && n <= |b| && forall i :: 0 <= i < n ==> a[i] == b[i]
    ensures Tally(a, n, k) == Tally(b, n, k)
  {
    if n > 0 {
      TallySame(a, b, n - 1, k);
    }
  }

  lemma TallyAppend(groups: seq<Group>, g: Group, k: nat)
    ensures Tally(groups + [g], |groups| + 1, k) == Tally(groups, |groups|, k) + Count(g.indices, k)
  {
    TallySame(groups + [g], groups, |groups|, k);
  }

  /** A request joins a group. */
  lemma {:induction false} TallyJoin(groups: seq<Group>, m: nat, idx: nat, n: nat, k: nat)
    requires m < |groups| && n <= |groups|
    ensures var g := Group(groups[m].range, groups[m].indices + [idx]);
            Tally(groups[m := g], n, k) == Tally(groups, n, k) + if m < n && idx == k then 1 else 0
  {
    if n > 0 {
      TallyJoin(groups, m, idx, n - 1, k);
      CountAppend(groups[m].indices, idx, k);
    }
  }

  /** A group leaves. */
  lemma {:induction false} TallyRemove(groups: seq<Group>, m: nat, n: nat, k: nat)
    requires m < n <= |groups|
    ensures Tally(groups, n, k) == Tally(groups[..m] + groups[m + 1..], n - 1, k) + Count(groups[m].indices, k)
  {
    var rest := groups[..m] + groups[m + 1..];
    if n == m + 1 {
      TallySame(groups, rest, m, k);
    } else {
      TallyRemove(groups, m, n - 1, k);
      assert rest[n - 2] == groups[n - 1];
    }
  }

  lemma {:induction false} TallyMember(groups: seq<Group>, m: nat, k: nat, n: nat)
    requires m < n <= |groups| && k in groups[m].indices
    ensures Tally(groups, n, k) > 0
  {
    if m < n - 1 {
      TallyMember(groups, m, k, n - 1);
    } else {
      OccursMember(groups[m].indices, |groups[m].indices|, k);
    }
  }

  lemma {:induction false} TallyAbsent(groups: seq<Group>, k: nat, n: nat)
    requires n <= |groups| && forall i :: 0 <= i < n ==> k !in groups[i].indices
    ensures Tally(groups, n, k) == 0
  {
    if n > 0 {
      TallyAbsent(groups, k, n - 1);
      OccursMember(groups[n - 1].indices, |groups[n - 1].indices|, k);
    }
  }

  /** The position is in the group of the range. */
  predicate InGroup(groups: seq<Group>, id: RangeId, idx: nat) {
    exists i :: 0 <= i < |groups| && groups[i].range == id && idx in groups[i].indices
  }

  predicate InRequests(requests: seq<Request>, indices: seq<nat>) {
    forall n :: 0 <= n < |indices| ==> indices[n] < |requests|
  }

  /** Each of the first n positions is in the group of the range its key was
      routed to. */
  ghost predicate Routed(groups: seq<Group>, requests: seq<Request>, indices: seq<nat>, n: nat, asked: nat,
                         route: (nat, Key) -> RangeId)
    requires n <= |indices| && InRequests(requests, indices)
  {
    forall m :: 0 <= m < n ==> InGroup(groups, route(asked + m, requests[indices[m]].key), indices[m])
  }

  lemma RoutedGrows(was: seq<Group>, groups: seq<Group>, requests: seq<Request>, indices: seq<nat>, n: nat, asked: nat,
                    route: (nat, Key) -> RangeId)
    requires n < |indices| && InRequests(requests, indices) && Routed(was, requests, indices, n, asked, route)
    requires InGroup(groups, route(asked + n, requests[indices[n]].key), indices[n]) && |was| <= |groups|
    requires forall i :: 0 <= i < |was| ==> groups[i].range == was[i].range && was[i].indices <= groups[i].indices
    ensures Routed(groups, requests, indices, n + 1, asked, route)
  {
    forall m | 0 <= m < n ensures InGroup(groups, route(asked + m, requests[indices[m]].key), indices[m]) {
      StaysInGroup(was, groups, route(asked + m, requests[indices[m]].key), indices[m]);
    }
  }

  lemma StaysInGroup(was: seq<Group>, groups: seq<Group>, id: RangeId, idx: nat)
    requires InGroup(was, id, idx) && |was| <= |groups|
    requires forall i :: 0 <= i < |was| ==> groups[i].range == was[i].range && was[i].indices <= groups[i].indices
    ensures InGroup(groups, id, idx)
  {
    var i :| 0 <= i < |was| && was[i].range == id && idx in was[i].indices;
    assert idx in groups[i].indices;
  }

  /** partitionByRange: every position lands in exactly one group, that of the
      range its key was routed to, and each range has one group. */
  method Partition(requests: seq<Request>, indices: seq<nat>, asked: nat, route: (nat, Key) -> RangeId)
    returns (groups: seq<Group>)
    requires InRequests(requests, indices)
    ensures forall k: nat :: Tally(groups, |groups|, k) == Count(indices, k)
    ensures Routed(groups, requests, indices, |indices|, asked, route)
    ensures forall i, j :: 0 <= i < j < |groups| ==> groups[i].range != groups[j].range
  {
    groups := [];
    var byRange: map<RangeId, nat> := map[];
    for n := 0 to |indices|
      invariant forall k: nat :: Tally(groups, |groups|, k) == Occurs(indices, n, k)
      invariant forall id :: id in byRange ==> byRange[id] < |groups| && groups[byRange[id]].range == id
      invariant forall i :: 0 <= i < |groups| ==> groups[i].range in byRange && byRange[groups[i].range] == i
      invariant Routed(groups, requests, indices, n, asked, route)
    {
      var id := route(asked + n, requests[indices[n]].key);
      ghost var was := groups;
      if id in byRange {
        var gi := byRange[id];
        groups := groups[gi := Group(groups[gi].range, groups[gi].indices + [indices[n]])];
        forall k: nat ensures Tally(groups, |groups|, k) == Tally(was, |was|, k) + if indices[n] == k then 1 else 0 {
          TallyJoin(was, gi, indices[n], |was|, k);
        }
      } else {
        byRange := byRange[id := |groups|];
        groups := groups + [Group(id, [indices[n]])];
        forall k: nat ensures Tally(groups, |groups|, k) == Tally(was, |was|, k) + if indices[n] == k then 1 else 0 {
          TallyAppend(was, Group(id, [indices[n]]), k);
          assert Occurs([indices[n]], 1, k) == if indices[n] == k then 1 else 0;
        }
      }
      assert indices[n] in groups[byRange[id]].indices;
      RoutedGrows(was, groups, requests, indices, n, asked, route);
    }
  }

  // ---- what has been achieved ----

  /** How often position k was in a sub-batch that succeeded. */
  ghost function WinsIn(trace: seq<Event>, n: nat, k: nat): nat
    requires n <= |trace|
  {
    if n == 0 then 0
    else WinsIn(trace, n - 1, k) + if trace[n - 1].reply.Success? then Count(trace[n - 1].indices, k) else 0
  }

  ghost function Wins(trace: seq<Event>, k: nat): nat { WinsIn(trace, |trace|, k) }

  /** The highest write timestamp among the header's and the successes'. */
  ghost function MaxIn(start: Timestamp, trace: seq<Event>, n: nat): Timestamp
    requires n <= |trace|
  {
    if n == 0 then start
    else
      var m, r := MaxIn(start, trace, n - 1), trace[n - 1].reply;
      if r.Success? && m < r.ts then r.ts else m
  }

  ghost function MaxTs(start: Timestamp, trace: seq<Event>): Timestamp { MaxIn(start, trace, |trace|) }

  lemma {:induction false} WinsSame(trace: seq<Event>, e: Event, n: nat, k: nat)
    requires n <= |trace|
    ensures WinsIn(trace + [e], n, k) == WinsIn(trace, n, k)
  {
    if n > 0 {
      WinsSame(trace, e, n - 1, k);
    }
  }

  lemma {:induction false} MaxSame(start: Timestamp, trace: seq<Event>, e: Event, n: nat)
    requires n <= |trace|
    ensures MaxIn(start, trace + [e], n) == MaxIn(start, trace, n)
  {
    if n > 0 {
      MaxSame(start, trace, e, n - 1);
    }
  }

  lemma WinsGrow(trace: seq<Event>, e: Event, k: nat)
    ensures Wins(trace + [e], k) == Wins(trace, k) + if e.reply.Success? then Count(e.indices, k) else 0
  {
    WinsSame(trace, e, |trace|, k);
  }

  lemma MaxGrows(start: Timestamp, trace: seq<Event>, e: Event)
    ensures MaxTs(start, trace + [e]) ==
              if e.reply.Success? && MaxTs(start, trace) < e.reply.ts then e.reply.ts else MaxTs(start, trace)
  {
    MaxSame(start, trace, e, |trace|);
  }

  ghost predicate AnyRefused(trace: seq<Event>) { exists i :: 0 <= i < |trace| && trace[i].reply == Refused }

  lemma RefusedGrows(trace: seq<Event>, e: Event)
    ensures AnyRefused(trace + [e]) <==> AnyRefused(trace) || e.reply == Refused
  {
    var next := trace + [e];
    assert next[|trace|] == e && forall i :: 0 <= i < |trace| ==> next[i] == trace[i];
  }

  /** The waves in which some sub-batch had to be routed again. */
  ghost function StaleWaves(trace: seq<Event>): set<nat> {
    set i | 0 <= i < |trace| && trace[i].reply == Regroup :: trace[i].wave
  }

  lemma StaleGrows(trace: seq<Event>, e: Event)
    ensures StaleWaves(trace + [e]) == StaleWaves(trace) + if e.reply == Regroup then {e.wave} else {}
  {
    var next := trace + [e];
    assert next[|trace|] == e && forall i :: 0 <= i < |trace| ==> next[i] == trace[i];
    forall w | w in StaleWaves(trace) ensures w in StaleWaves(next) {
      var i :| 0 <= i < |trace| && trace[i].reply == Regroup && trace[i].wave == w;
      assert next[i].reply == Regroup;
    }
    if e.reply == Regroup {
      assert next[|trace|].wave in StaleWaves(next);
    }
  }

  /** Every wave of the trace is before this one. */
  ghost predicate Earlier(trace: seq<Event>, wave: nat) { forall i :: 0 <= i < |trace| ==> trace[i].wave < wave }

  lemma OneMoreStale(stale: set<nat>, wave: nat)
    requires wave !in stale
    ensures |stale + {wave}| == |stale| + 1
  {
  }

  /** The anchor's sub-batch succeeds, creating the record, before any other
      sub-batch is sent. */
  ghost predicate AnchorFirst(trace: seq<Event>, anchors: set<nat>) {
    forall i :: 0 <= i < |trace| ==> Anchored(trace, anchors, i)
  }

  ghost predicate Anchored(trace: seq<Event>, anchors: set<nat>, i: int)
    requires 0 <= i < |trace|
  {
    || HasAnchor(trace[i].indices, anchors)
    || exists j :: 0 <= j < i && Creating(trace[j], anchors)
  }

  ghost predicate Creating(e: Event, anchors: set<nat>) {
    e.creates && e.reply.Success? && HasAnchor(e.indices, anchors)
  }

  ghost predicate HasAnchor(indices: seq<nat>, anchors: set<nat>) {
    exists k :: k in indices && k in anchors
  }

  lemma AnchorFirstGrows(trace: seq<Event>, anchors: set<nat>, e: Event)
    requires AnchorFirst(trace, anchors)
    requires HasAnchor(e.indices, anchors) || exists j :: 0 <= j < |trace| && Creating(trace[j], anchors)
    ensures AnchorFirst(trace + [e], anchors)
  {
    var next := trace + [e];
    forall i | 0 <= i < |next| ensures Anchored(next, anchors, i) {
      if i < |trace| {
        assert Anchored(trace, anchors, i);
        if !HasAnchor(trace[i].indices, anchors) {
          var j :| 0 <= j < i && Creating(trace[j], anchors);
          assert Creating(next[j], anchors);
        }
      } else if !HasAnchor(e.indices, anchors) {
        var j :| 0 <= j < |trace| && Creating(trace[j], anchors);
        assert Creating(next[j], anchors);
      }
    }
  }

  // ---- the sender ----

  ghost predicate Answered(responses: seq<Option<Response>>, requests: seq<Request>, k: nat) {
    && k < |requests| && |responses| == |requests|
    && responses[k].Some? && responses[k].value.request == requests[k]
  }

  ghost function AnchorPositions(requests: seq<Request>, anchor: Option<Key>): set<nat> {
    set k | 0 <= k < |requests| && anchor == Some(requests[k].key)
  }

  /** Some sub-batch created the record. */
  ghost predicate Created(trace: seq<Event>, anchors: set<nat>) {
    exists j :: 0 <= j < |trace| && Creating(trace[j], anchors)
  }

  class Sender {
    const requests: seq<Request>
    const anchor: Option<Key>
    const startTs: Timestamp
    var create: bool
    var responses: seq<Option<Response>>
    var ts: Timestamp
    var sent: nat
    ghost const anchors: set<nat>
    ghost var trace: seq<Event>
    ghost var wave: nat

    /** Responses are in place for what succeeded, the timestamp is the highest
        so far, and if the batch creates the record, its creation came first. */
    ghost predicate Valid()
      reads this
    {
      && |responses| == |requests| && Earlier(trace, wave + 1)
      && (forall k: nat :: Wins(trace, k) > 0 ==> Answered(responses, requests, k))
      && ts == MaxTs(startTs, trace)
      && anchors <= AnchorPositions(requests, anchor)
      && (anchors != {} ==> AnchorFirst(trace, anchors) && (create || Created(trace, anchors)))
      && (create ==> anchors == AnchorPositions(requests, anchor))
      && (anchors != {} && WonAnchor() ==> Created(trace, anchors))
    }

    ghost predicate WonAnchor()
      reads this
    {
      exists k: nat :: k in anchors && Wins(trace, k) > 0
    }

    constructor (requests: seq<Request>, anchor: Option<Key>, create: bool, ts: Timestamp)
      ensures Valid() && this.requests == requests && this.anchor == anchor && startTs == ts && trace == []
      ensures this.create == create && anchors == if create then AnchorPositions(requests, anchor) else {}
    {
      this.requests, this.anchor, this.startTs := requests, anchor, ts;
      this.create, this.ts, this.sent := create, ts, 0;
      this.responses := seq(|requests|, _ => None);
      this.anchors := if create then AnchorPositions(requests, anchor) else {};
      this.trace, this.wave := [], 0;
    }

    static method Place(responses: seq<Option<Response>>, requests: seq<Request>, indices: seq<nat>, attempt: nat)
      returns (r: seq<Option<Response>>)
      requires |responses| == |requests| && forall k :: k in indices ==> k < |requests|
      ensures |r| == |requests|
      ensures forall k :: k in indices ==> Answered(r, requests, k)
      ensures forall k :: Answered(responses, requests, k) ==> Answered(r, requests, k)
    {
      r := responses;
      for n := 0 to |indices|
        invariant |r| == |requests|
        invariant forall j :: 0 <= j < n ==> Answered(r, requests, indices[j])
        invariant forall k :: Answered(responses, requests, k) ==> Answered(r, requests, k)
      {
        assert indices[n] in indices;
        r := r[indices[n] := Some(Response(requests[indices[n]], attempt))];
      }
    }

    function KeyAt(k: nat): Option<Key> {
      if k < |requests| then Some(requests[k].key) else None
    }

    /** Whether a group writes the anchor key. */
    predicate WritesAnchor(g: Group) {
      anchor.Some? && exists j :: 0 <= j < |g.indices| && KeyAt(g.indices[j]) == anchor
    }

    /** sendGroup: the creation flag goes with the anchor's group only. */
    method SendGroup(g: Group, reply: nat -> Reply) returns (r: Reply)
      requires Valid() && forall k :: k in g.indices ==> k < |requests|
      requires MayGo(g)
      modifies this`responses, this`ts, this`sent, this`trace
      ensures Valid() && trace == old(trace) + [Event(wave, g.indices, create && WritesAnchor(g), r)]
      ensures r.Success? && create && WritesAnchor(g) && anchors != {} ==> Created(trace, anchors)
    {
      var creates := create && WritesAnchor(g);
      r := reply(sent);
      ghost var e := Event(wave, g.indices, creates, r);
      ghost var before := trace;
      MaxGrows(startTs, trace, e);
      if anchors != {} {
        AnchorFirstGrows(trace, anchors, e);
        CreatedStays(trace, trace + [e], anchors);
        SuccessCreates(g, e);
      }
      if r.Success? {
        responses := Place(responses, requests, g.indices, sent);
        if ts < r.ts {
          ts := r.ts;
        }
      }
      sent := sent + 1;
      trace := trace + [e];
      forall k: nat | Wins(trace, k) > 0 ensures Answered(responses, requests, k) {
        WinsGrow(before, e, k);
        OccursMember(g.indices, |g.indices|, k);
      }
    }

    /** A sub-batch with the anchor that succeeds while no record exists yet
        has created it. */
    lemma SuccessCreates(g: Group, e: Event)
      requires Valid() && anchors != {}
      requires e.indices == g.indices && e.creates == (create && WritesAnchor(g))
      ensures forall k: nat :: k in anchors && Wins(trace + [e], k) > 0 ==> Created(trace + [e], anchors)
      ensures e.reply.Success? && e.creates ==> Created(trace + [e], anchors)
    {
      var next := trace + [e];
      CreatedStays(trace, next, anchors);
      if e.reply.Success? && e.creates {
        var j :| 0 <= j < |g.indices| && KeyAt(g.indices[j]) == anchor;
        assert g.indices[j] in AnchorPositions(requests, anchor);
        assert Creating(next[|trace|], anchors);
      }
      forall k: nat | k in anchors && Wins(next, k) > 0 ensures Created(next, anchors) {
        WinsGrow(trace, e, k);
        OccursMember(g.indices, |g.indices|, k);
        if Wins(trace, k) == 0 {
          var j :| 0 <= j < |g.indices| && g.indices[j] == k;
          assert KeyAt(g.indices[j]) == anchor;
        }
      }
    }

    /** What is still to be sent and what succeeded make up the batch. */
    ghost predicate Complete(groups: seq<Group>)
      reads this`trace
    {
      forall k: nat :: Tally(groups, |groups|, k) + Wins(trace, k) == if k < |requests| then 1 else 0
    }

    lemma InBatch(groups: seq<Group>, n: nat)
      requires Complete(groups) && n < |groups|
      ensures forall k :: k in groups[n].indices ==> k < |requests|
    {
      forall k | k in groups[n].indices ensures k < |requests| {
        TallyMember(groups, n, k, |groups|);
      }
    }

    /** anchorGroup. */
    method AnchorGroup(groups: seq<Group>) returns (ai: int)
      ensures -1 <= ai < |groups|
      ensures ai >= 0 ==> create && WritesAnchor(groups[ai])
      ensures ai == -1 ==> !create || forall i :: 0 <= i < |groups| ==> !WritesAnchor(groups[i])
    {
      ai := -1;
      if !create || anchor.None? {
        return;
      }
      for i := 0 to |groups|
        invariant forall j :: 0 <= j < i ==> !WritesAnchor(groups[j])
      {
        if WritesAnchor(groups[i]) {
          return i;
        }
      }
    }

    /** A group may go out: the record exists, or the group creates it. */
    ghost predicate MayGo(g: Group)
      reads this
    {
      anchors != {} ==> HasAnchor(g.indices, anchors) || Created(trace, anchors)
    }

    /** When no remaining group writes the anchor, its write has succeeded. */
    lemma NoAnchorLeft(groups: seq<Group>)
      requires Valid() && Complete(groups)
      requires !create || forall i :: 0 <= i < |groups| ==> !WritesAnchor(groups[i])
      ensures anchors != {} ==> Created(trace, anchors)
    {
      if anchors != {} && create {
        var k :| k in anchors;
        forall i | 0 <= i < |groups| ensures k !in groups[i].indices {
          assert forall j :: 0 <= j < |groups[i].indices| ==> KeyAt(groups[i].indices[j]) != anchor;
        }
        TallyAbsent(groups, k, |groups|);
        assert Wins(trace, k) == 1;
      }
    }

    lemma WriterHasAnchor(g: Group)
      requires Valid() && create && WritesAnchor(g)
      ensures MayGo(g)
    {
      var j :| 0 <= j < |g.indices| && KeyAt(g.indices[j]) == anchor;
      assert g.indices[j] in AnchorPositions(requests, anchor);
    }

    static lemma CreatedStays(before: seq<Event>, after: seq<Event>, anchors: set<nat>)
      requires before <= after
      ensures Created(before, anchors) ==> Created(after, anchors)
    {
      if Created(before, anchors) {
        var j :| 0 <= j < |before| && Creating(before[j], anchors);
        assert Creating(after[j], anchors);
      }
    }

    /** One send, and what it adds to the trace. */
    method SendNext(g: Group, reply: nat -> Reply) returns (r: Reply)
      requires Valid() && MayGo(g) && forall k :: k in g.indices ==> k < |requests|
      modifies this`responses, this`ts, this`sent, this`trace
      ensures Valid() && (Created(old(trace), anchors) ==> Created(trace, anchors))
      ensures r.Success? && create && WritesAnchor(g) && anchors != {} ==> Created(trace, anchors)
      ensures AnyRefused(trace) <==> AnyRefused(old(trace)) || r == Refused
      ensures StaleWaves(trace) == StaleWaves(old(trace)) + if r == Regroup then {wave} else {}
      ensures forall k: nat :: Wins(trace, k) == Wins(old(trace), k) + if r.Success? then Count(g.indices, k) else 0
    {
      ghost var before := trace;
      r := SendGroup(g, reply);
      ghost var e := trace[|before|];
      CreatedStays(before, trace, anchors);
      RefusedGrows(before, e);
      StaleGrows(before, e);
      forall k: nat ensures Wins(trace, k) == Wins(before, k) + if r.Success? then Count(g.indices, k) else 0 {
        WinsGrow(before, e, k);
      }
    }

    /** The concurrent sends of a wave. */
    method Wave(groups: seq<Group>, reply: nat -> Reply) returns (retry: seq<Group>, failed: bool)
      requires Valid() && Complete(groups) && forall i :: 0 <= i < |groups| ==> MayGo(groups[i])
      modifies this`responses, this`ts, this`sent, this`trace
      ensures Valid() && (!failed ==> Complete(retry))
      ensures AnyRefused(trace) <==> AnyRefused(old(trace)) || failed
      ensures StaleWaves(trace) == StaleWaves(old(trace)) + if |retry| > 0 then {wave} else {}
    {
      retry, failed := [], false;
      forall i | 0 <= i < |groups| ensures forall k :: k in groups[i].indices ==> k < |requests| {
        InBatch(groups, i);
      }
      ghost var start := trace;
      for n := 0 to |groups|
        invariant Valid() && forall i :: n <= i < |groups| ==> MayGo(groups[i])
        invariant AnyRefused(trace) <==> AnyRefused(start) || failed
        invariant StaleWaves(trace) == StaleWaves(start) + if |retry| > 0 then {wave} else {}
        invariant !failed ==> forall k: nat ::
                    Tally(retry, |retry|, k) + Wins(trace, k) == Tally(groups, n, k) + Wins(start, k)
      {
        ghost var was := retry;
        var r := SendNext(groups[n], reply);
        if r == Regroup {
          retry := retry + [groups[n]];
        } else if r == Refused {
          failed := true;
        }
        forall k: nat ensures r == Regroup ==>
                  Tally(retry, |retry|, k) == Tally(was, |was|, k) + Count(groups[n].indices, k) {
          TallyAppend(was, groups[n], k);
        }
      }
    }

    /** A wave begins, later than all before. */
    ghost method StartWave()
      requires Valid()
      modifies this`wave
      ensures Valid() && wave !in StaleWaves(trace)
    {
      wave := wave + 1;
    }

    /** One turn of the loop: the anchor's sub-batch on its own, if the record
        is still to be created and there are others, then the rest at once. */
    method Turn(groups: seq<Group>, reply: nat -> Reply) returns (retry: seq<Group>, failed: bool)
      requires Valid() && Complete(groups) && |groups| > 0 && !AnyRefused(trace)
      modifies this`create, this`responses, this`ts, this`sent, this`trace
      ensures Valid() && (failed <==> AnyRefused(trace))
      ensures !failed ==> Complete(retry)
      ensures !failed ==> StaleWaves(trace) == StaleWaves(old(trace)) + if |retry| > 0 then {wave} else {}
    {
      var ai := AnchorGroup(groups);
      var rest := groups;
      if ai >= 0 && |groups| > 1 {
        var rep;
        rep, rest := SendAnchor(groups, ai, reply);
        if rep == Regroup {
          return groups, false;
        }
        if rep == Refused {
          return [], true;
        }
      } else if ai >= 0 {
        WriterHasAnchor(groups[0]);
      } else {
        NoAnchorLeft(groups);
      }
      retry, failed := Wave(rest, reply);
    }

    /** sendParallel: on success every request's response is at its own index,
        each was answered once, and the timestamp is the highest any sub-batch
        reported; in every case the record came first. It fails exactly when a
        sub-batch was refused, and otherwise gives up exactly when too many
        waves had to be routed again. */
    method SendParallel(route: (nat, Key) -> RangeId, reply: nat -> Reply) returns (r: Result)
      requires Valid() && trace == [] && (create ==> anchors == AnchorPositions(requests, anchor))
      modifies this
      ensures r.Ok? ==> |r.responses| == |requests| && forall k :: 0 <= k < |requests| ==> r.responses[k].request == requests[k]
      ensures r.Ok? ==> forall k: nat :: Wins(trace, k) == if k < |requests| then 1 else 0
      ensures r.Ok? ==> r.ts == MaxTs(startTs, trace)
      ensures old(create) && anchors != {} ==> AnchorFirst(trace, anchors)
      ensures r == Failed <==> AnyRefused(trace)
      ensures r == NotConverged <==> !AnyRefused(trace) && |StaleWaves(trace)| > MaxRoutingRetries
    {
      var groups := FirstGroups(route);
      var regroups := 0;
      while |groups| > 0
        invariant Valid() && Complete(groups) && !AnyRefused(trace)
        invariant regroups == |StaleWaves(trace)| <= MaxRoutingRetries
        decreases MaxRoutingRetries - regroups, |groups|
      {
        StartWave();
        ghost var stale := StaleWaves(trace);
        var retry, failed := Turn(groups, reply);
        if failed {
          return Failed;
        }
        groups := [];
        if |retry| == 0 {
          break;
        }
        OneMoreStale(stale, wave);
        regroups := regroups + 1;
        if regroups > MaxRoutingRetries {
          return NotConverged;
        }
        groups := Repartition(retry, route);
      }
      AllAnswered();
      r := Ok(Unwrap(responses), ts);
    }

    method FirstGroups(route: (nat, Key) -> RangeId) returns (groups: seq<Group>)
      requires trace == []
      ensures Complete(groups) && !AnyRefused(trace) && StaleWaves(trace) == {}
    {
      var all := Positions(|requests|);
      groups := Partition(requests, all, 0, route);
    }

    lemma AllAnswered()
      requires Valid() && Complete([])
      ensures forall k: nat :: Wins(trace, k) == if k < |requests| then 1 else 0
      ensures |responses| == |requests|
      ensures forall k :: 0 <= k < |requests| ==> responses[k].Some? && responses[k].value.request == requests[k]
    {
      forall k: nat ensures Wins(trace, k) == if k < |requests| then 1 else 0 {
        assert Tally([], 0, k) == 0;
      }
      forall k | 0 <= k < |requests| ensures responses[k].Some? && responses[k].value.request == requests[k] {
        assert Wins(trace, k) > 0;
        assert Answered(responses, requests, k);
      }
    }

    static function Unwrap(rs: seq<Option<Response>>): (r: seq<Response>)
      requires forall k :: 0 <= k < |rs| ==> rs[k].Some?
      ensures |r| == |rs| && forall k :: 0 <= k < |rs| ==> r[k] == rs[k].value
    {
      if rs == [] then [] else [rs[0].value] + Unwrap(rs[1..])
    }

    static method Positions(n: nat) returns (all: seq<nat>)
      ensures |all| == n && (forall i :: 0 <= i < n ==> all[i] < n)
      ensures forall k: nat :: Count(all, k) == if k < n then 1 else 0
    {
      all := [];
      for i := 0 to n
        invariant |all| == i && (forall j :: 0 <= j < i ==> all[j] < i)
        invariant forall k: nat :: Count(all, k) == if k < i then 1 else 0
      {
        forall k: nat ensures Count(all + [i], k) == Count(all, k) + if i == k then 1 else 0 {
          CountAppend(all, i, k);
        }
        all := all + [i];
      }
    }

    /** The anchor's sub-batch on its own; once it succeeded, no other creates. */
    method SendAnchor(groups: seq<Group>, ai: nat, reply: nat -> Reply) returns (rep: Reply, rest: seq<Group>)
      requires Valid() && Complete(groups) && ai < |groups| && create && WritesAnchor(groups[ai])
      modifies this`create, this`responses, this`ts, this`sent, this`trace
      ensures Valid()
      ensures AnyRefused(trace) <==> AnyRefused(old(trace)) || rep == Refused
      ensures StaleWaves(trace) == StaleWaves(old(trace)) + if rep == Regroup then {wave} else {}
      ensures rep == Regroup ==> Complete(groups)
      ensures rep.Success? ==> Complete(rest) && |rest| == |groups| - 1 && forall i :: 0 <= i < |rest| ==> MayGo(rest[i])
    {
      InBatch(groups, ai);
      WriterHasAnchor(groups[ai]);
      rest := groups[..ai] + groups[ai + 1..];
      rep := SendNext(groups[ai], reply);
      forall k: nat ensures Tally(groups, |groups|, k) == Tally(rest, |rest|, k) + Count(groups[ai].indices, k) {
        TallyRemove(groups, ai, |groups|, k);
      }
      if rep.Success? {
        create := false;
      }
    }

    /** repartition. */
    method Repartition(gs: seq<Group>, route: (nat, Key) -> RangeId) returns (groups: seq<Group>)
      requires Complete(gs)
      ensures Complete(groups)
    {
      var idxs: seq<nat> := [];
      for n := 0 to |gs|
        invariant forall k: nat :: Count(idxs, k) == Tally(gs, n, k)
      {
        forall k: nat ensures Count(idxs + gs[n].indices, k) == Count(idxs, k) + Count(gs[n].indices, k) {
          OccursConcat(idxs, gs[n].indices, |gs[n].indices|, k);
        }
        idxs := idxs + gs[n].indices;
      }
      forall n | 0 <= n < |idxs| ensures idxs[n] < |requests| {
        OccursMember(idxs, |idxs|, idxs[n]);
        assert Count(idxs, idxs[n]) > 0 && Tally(gs, |gs|, idxs[n]) > 0;
      }
      groups := Partition(requests, idxs, sent, route);
    }
  }
}
