/** The read timestamp cache (pkg/kvserver/tscache.go): two generations of
    point and ranged reads above a floor, proved against the set of every read
    ever recorded. */
module TsCaches {
  import opened Keys
  import opened Hlc
  import opened Spans

  /** Zero is uuid.Nil: no transaction, or several. */
  type TxnId = nat
  const NoTxn: TxnId := 0

  datatype Read = Read(span: Span, ts: Timestamp, txn: TxnId)

  /** A read lets a write at ts by txn through: it is older, or it is at the
      same timestamp and the writer's own. */
  predicate Clear(r: Read, ts: Timestamp, txn: TxnId) {
    r.ts < ts || (r.ts == ts && txn != NoTxn && r.txn == txn)
  }

  /** The reference rule over a set of reads: every overlapping one is clear. */
  ghost predicate NaiveAllows(known: set<Read>, spans: seq<Span>, ts: Timestamp, txn: TxnId) {
    forall r :: r in known && OverlapsAny(r.span, spans) ==> Clear(r, ts, txn)
  }

  /** What the cache decides, given its floor and the reads it ever saw. */
  ghost predicate Allows(floor: Timestamp, known: set<Read>, spans: seq<Span>, ts: Timestamp, txn: TxnId) {
    floor < ts && NaiveAllows(known, spans, ts, txn)
  }

  /** The floor and the history only grow, so a rejected write stays rejected. */
  lemma RejectionIsPermanent(floor: Timestamp, known: set<Read>, floor': Timestamp, known': set<Read>,
                             spans: seq<Span>, ts: Timestamp, txn: TxnId)
    requires floor <= floor' && known <= known'
    requires !Allows(floor, known, spans, ts, txn)
    ensures !Allows(floor', known', spans, ts, txn)
  {
    if floor < ts {
      var r :| r in known && OverlapsAny(r.span, spans) && !Clear(r, ts, txn);
      assert r in known';
    }
  }

  // ---- one generation ----

  datatype PointRead = PointRead(ts: Timestamp, txn: TxnId)

  ghost function Listed(rs: seq<Read>): set<Read> {
    set r | r in rs
  }

  datatype Gen = Gen(points: map<Key, PointRead>, ranged: seq<Read>, n: nat) {
    /** The entries held, each as the read it stands for. */
    ghost function Reads(): set<Read> {
      (set k | k in points :: Read(Point(k), points[k].ts, points[k].txn)) + Listed(ranged)
    }

    /** record: the newest read of a key wins, and two readers at one
        timestamp leave it without attribution. */
    function Record(key: Key, ts: Timestamp, txn: TxnId): Gen {
      if key !in points then
        Gen(points[key := PointRead(ts, txn)], ranged, n + 1)
      else if points[key].ts < ts then
        Gen(points[key := PointRead(ts, txn)], ranged, n)
      else if points[key].ts == ts && points[key].txn != txn then
        Gen(points[key := PointRead(ts, NoTxn)], ranged, n)
      else
        this
    }

    function Append(r: Read): Gen {
      Gen(points, ranged + [r], n + 1)
    }
  }

  const EmptyGen := Gen(map[], [], 0)

  const GenerationSize: nat := 4096
  const WholeRange := Ranged(Rank(MinKey), Rank(MaxKey))

  predicate CoversWholeRange(s: Span) {
    s.Ranged? && s.start <= WholeRange.start && WholeRange.end <= s.end
  }

  /** An entry at least as strict as the read r. */
  predicate AsStrict(e: Read, r: Read) {
    e.span == r.span && (r.ts < e.ts || (r.ts == e.ts && (e.txn == r.txn || e.txn == NoTxn)))
  }

  ghost predicate Represents(entries: set<Read>, r: Read) {
    exists e :: e in entries && AsStrict(e, r)
  }

  /** Two transactions read the entry's span at its timestamp. */
  ghost predicate TwoReaders(e: Read, a: Read, b: Read, history: set<Read>) {
    && a in history && b in history && a.txn != b.txn
    && a.span == e.span == b.span && a.ts == e.ts == b.ts
  }

  /** An entry is no stricter than the reads of the history. */
  ghost predicate Justified(e: Read, history: set<Read>) {
    || e in history
    || (e.txn == NoTxn && exists a, b :: TwoReaders(e, a, b, history))
  }

  ghost predicate Faithful(floor: Timestamp, entries: set<Read>, history: set<Read>) {
    && (forall e :: e in entries ==> Justified(e, history))
    && (forall r :: r in history && floor < r.ts ==> Represents(entries, r))
  }

  /** Entries that represent and are justified by a history decide as the
      history does. */
  lemma FaithfulDecides(floor: Timestamp, entries: set<Read>, history: set<Read>,
                        spans: seq<Span>, ts: Timestamp, txn: TxnId)
    requires Faithful(floor, entries, history)
    ensures Allows(floor, entries, spans, ts, txn) <==> Allows(floor, history, spans, ts, txn)
  {
    if Allows(floor, entries, spans, ts, txn) {
      forall r | r in history && OverlapsAny(r.span, spans) ensures Clear(r, ts, txn) {
        if floor < r.ts {
          var e :| e in entries && AsStrict(e, r);
          assert Clear(e, ts, txn);
        }
      }
    }
    if Allows(floor, history, spans, ts, txn) {
      forall e | e in entries && OverlapsAny(e.span, spans) ensures Clear(e, ts, txn) {
        if e !in history {
          var a, b :| TwoReaders(e, a, b, history);
          assert Clear(a, ts, txn) && Clear(b, ts, txn);
        } else {
          assert Clear(e, ts, txn);
        }
      }
    }
  }

  lemma HeldEntries(g: Gen, e: Read)
    ensures e in g.Reads() <==>
            e in g.ranged ||
            (e.span.Point? && e.span.start in g.points && g.points[e.span.start] == PointRead(e.ts, e.txn))
  {
  }

  /** Recording a point read changes the entry of that key only. */
  lemma RecordedEntries(g: Gen, key: Key, ts: Timestamp, txn: TxnId, e: Read)
    requires e in g.Record(key, ts, txn).Reads() && e !in g.Reads()
    ensures e == Read(Point(key), ts, txn) ||
            (e == Read(Point(key), ts, NoTxn) && exists t :: t != txn && Read(Point(key), ts, t) in g.Reads())
  {
    var g' := g.Record(key, ts, txn);
    HeldEntries(g, e);
    HeldEntries(g', e);
    if key in g.points {
      HeldEntries(g, Read(Point(key), g.points[key].ts, g.points[key].txn));
    }
  }

  /** What stands for a read before it is recorded still does afterwards, and
      the recorded read is stood for. */
  lemma RecordRepresents(g: Gen, key: Key, ts: Timestamp, txn: TxnId, e: Read)
    requires e in g.Reads() || e == Read(Point(key), ts, txn)
    ensures Represents(g.Record(key, ts, txn).Reads(), e)
  {
    var g' := g.Record(key, ts, txn);
    var now := Read(Point(key), g'.points[key].ts, g'.points[key].txn);
    HeldEntries(g', now);
    HeldEntries(g, e);
    HeldEntries(g', e);
    assert AsStrict(now, e) || (e in g'.Reads() && AsStrict(e, e));
  }

  lemma RepresentsTrans(entries: set<Read>, e: Read, r: Read)
    requires Represents(entries, e) && AsStrict(e, r)
    ensures Represents(entries, r)
  {
    var x :| x in entries && AsStrict(x, e);
    assert AsStrict(x, r);
  }

  lemma RepresentsGrows(some: set<Read>, all: set<Read>, r: Read)
    requires Represents(some, r) && some <= all
    ensures Represents(all, r)
  {
    var x :| x in some && AsStrict(x, r);
    assert x in all;
  }

  lemma AppendReads(g: Gen, r: Read)
    ensures g.Append(r).Reads() == g.Reads() + {r}
  {
  }

  /** The generation after one more read, in the shape Bump records it. */
  function Recorded(g: Gen, r: Read): Gen {
    if r.span.Point? then g.Record(r.span.start, r.ts, r.txn) else g.Append(r)
  }

  lemma RecordedRepresents(g: Gen, r: Read, e: Read)
    requires e in g.Reads() || e == r
    ensures Represents(Recorded(g, r).Reads(), e)
  {
    if r.span.Point? {
      RecordRepresents(g, r.span.start, r.ts, r.txn, e);
    } else {
      AppendReads(g, r);
      assert AsStrict(e, e);
    }
  }

  lemma RecordedJustified(g: Gen, r: Read, history: set<Read>, e: Read)
    requires forall x :: x in g.Reads() ==> Justified(x, history)
    requires e in Recorded(g, r).Reads()
    ensures Justified(e, history + {r})
  {
    if e in g.Reads() {
      JustifiedGrows(e, history, history + {r});
    } else if r.span.Point? {
      RecordedEntries(g, r.span.start, r.ts, r.txn, e);
      if e != r {
        var t :| t != r.txn && Read(r.span, r.ts, t) in g.Reads();
        var x := Read(r.span, r.ts, t);
        assert Justified(x, history) && x in history;
        assert TwoReaders(e, x, r, history + {r});
      }
    } else {
      AppendReads(g, r);
    }
  }

  lemma JustifiedGrows(e: Read, history: set<Read>, more: set<Read>)
    requires Justified(e, history) && history <= more
    ensures Justified(e, more)
  {
    if e !in history {
      var a, b :| TwoReaders(e, a, b, history);
      assert TwoReaders(e, a, b, more);
    }
  }

  /** Recording a read in either shape keeps the entries faithful. */
  lemma EntryKeepsFaithful(floor: Timestamp, g: Gen, other: set<Read>, history: set<Read>, r: Read)
    requires Faithful(floor, g.Reads() + other, history)
    ensures Faithful(floor, Recorded(g, r).Reads() + other, history + {r})
  {
    var mine := Recorded(g, r).Reads();
    var after, h := mine + other, history + {r};
    forall x | x in h && floor < x.ts ensures Represents(after, x) {
      if x == r {
        RecordedRepresents(g, r, r);
        RepresentsGrows(mine, after, r);
      } else {
        var e :| e in g.Reads() + other && AsStrict(e, x);
        if e in g.Reads() {
          RecordedRepresents(g, r, e);
          RepresentsTrans(mine, e, x);
          RepresentsGrows(mine, after, x);
        } else {
          assert e in after;
        }
      }
    }
    forall e | e in after ensures Justified(e, h) {
      if e in mine {
        RecordedJustified(g, r, history, e);
      } else {
        JustifiedGrows(e, history, h);
      }
    }
  }

  /** Dropping entries at or below a higher floor keeps the rest faithful. */
  lemma FoldKeepsFaithful(floor: Timestamp, floor': Timestamp, kept: set<Read>, dropped: set<Read>, history: set<Read>)
    requires Faithful(floor, kept + dropped, history) && floor <= floor'
    requires forall e :: e in dropped ==> e.ts <= floor'
    ensures Faithful(floor', kept, history)
  {
    forall r | r in history && floor' < r.ts ensures Represents(kept, r) {
      var e :| e in kept + dropped && AsStrict(e, r);
      assert e in kept;
    }
    forall e | e in kept ensures Justified(e, history) {
      assert e in kept + dropped;
    }
  }

  /** Reads at or below the floor need no entry. */
  lemma FloorCovers(floor: Timestamp, entries: set<Read>, history: set<Read>, more: set<Read>)
    requires Faithful(floor, entries, history) && forall r :: r in more ==> r.ts <= floor
    ensures Faithful(floor, entries, history + more)
  {
    forall e | e in entries ensures Justified(e, history + more) {
      JustifiedGrows(e, history, history + more);
    }
  }

  // ---- deciding a write ----

  datatype Verdict = Verdict(ok: bool, low: Timestamp)

  function Note(v: Verdict, r: Read, ts: Timestamp, txn: TxnId): Verdict {
    Verdict(v.ok && Clear(r, ts, txn), Forward(v.low, r.ts))
  }

  /** v is v0 after noting exactly the reads seen. */
  ghost predicate Sums(v: Verdict, v0: Verdict, seen: set<Read>, ts: Timestamp, txn: TxnId) {
    && (v.ok <==> v0.ok && forall r :: r in seen ==> Clear(r, ts, txn))
    && v0.low <= v.low
    && (forall r :: r in seen ==> r.ts <= v.low)
    && (v.low == v0.low || exists r :: r in seen && r.ts == v.low)
  }

  ghost function Meeting(known: set<Read>, spans: seq<Span>): set<Read> {
    set r | r in known && OverlapsAny(r.span, spans)
  }

  /** The largest overlapping entry bounds the overlapping reads, tightly. */
  lemma FaithfulBounds(floor: Timestamp, entries: set<Read>, history: set<Read>, spans: seq<Span>, low: Timestamp)
    requires Faithful(floor, entries, history) && floor <= low
    requires forall e :: e in Meeting(entries, spans) ==> e.ts <= low
    requires low == floor || exists e :: e in Meeting(entries, spans) && e.ts == low
    ensures forall r :: r in history && OverlapsAny(r.span, spans) ==> r.ts <= low
    ensures low == floor || exists r :: r in history && OverlapsAny(r.span, spans) && r.ts == low
  {
    forall r | r in history && OverlapsAny(r.span, spans) ensures r.ts <= low {
      if floor < r.ts {
        var e :| e in entries && AsStrict(e, r);
        assert e in Meeting(entries, spans);
      }
    }
    if low != floor {
      var e :| e in Meeting(entries, spans) && e.ts == low;
      assert Justified(e, history);
      if e !in history {
        var a, b :| TwoReaders(e, a, b, history);
        assert a in history && OverlapsAny(a.span, spans) && a.ts == low;
      }
    }
  }

  method NoteRanged(g: Gen, spans: seq<Span>, ts: Timestamp, txn: TxnId, v0: Verdict) returns (v: Verdict)
    ensures Sums(v, v0, Meeting(Listed(g.ranged), spans), ts, txn)
  {
    v := v0;
    for i := 0 to |g.ranged|
      invariant Sums(v, v0, Meeting(Listed(g.ranged[..i]), spans), ts, txn)
    {
      assert g.ranged[..i + 1] == g.ranged[..i] + [g.ranged[i]];
      var hit := Meets(g.ranged[i].span, spans);
      ghost var was := Meeting(Listed(g.ranged[..i]), spans);
      ghost var now := Meeting(Listed(g.ranged[..i + 1]), spans);
      if hit {
        v := Note(v, g.ranged[i], ts, txn);
        assert now == was + {g.ranged[i]};
      } else {
        assert now == was;
      }
    }
    assert g.ranged[..|g.ranged|] == g.ranged;
  }

  method Meets(s: Span, spans: seq<Span>) returns (b: bool)
    ensures b <==> OverlapsAny(s, spans)
  {
    for i := 0 to |spans|
      invariant !OverlapsAny(s, spans[..i])
    {
      if Overlaps(s, spans[i]) {
        return true;
      }
    }
    assert spans[..|spans|] == spans;
    b := false;
  }

  ghost function PointReads(g: Gen): set<Read> {
    set k | k in g.points :: Read(Point(k), g.points[k].ts, g.points[k].txn)
  }

  /** The point entries one write span meets: a lookup for a point, a scan of
      the keys for a range. */
  method NotePointsOf(g: Gen, w: Span, ts: Timestamp, txn: TxnId, v0: Verdict) returns (v: Verdict)
    ensures Sums(v, v0, Meeting(PointReads(g), [w]), ts, txn)
  {
    v := v0;
    if w.Point? {
      if w.start in g.points {
        ghost var r := Read(Point(w.start), g.points[w.start].ts, g.points[w.start].txn);
        v := Note(v, Read(Point(w.start), g.points[w.start].ts, g.points[w.start].txn), ts, txn);
        assert Overlaps(r.span, [w][0]);
        assert Meeting(PointReads(g), [w]) == {r};
      } else {
        assert Meeting(PointReads(g), [w]) == {};
      }
      return;
    }
    var todo := g.points.Keys;
    ghost var seen: set<Read> := {};
    while todo != {}
      invariant todo <= g.points.Keys
      invariant seen == set k | k in g.points && k !in todo && Overlaps(Point(k), w) ::
                            Read(Point(k), g.points[k].ts, g.points[k].txn)
      invariant Sums(v, v0, seen, ts, txn)
      decreases |todo|
    {
      var k := Pick(todo);
      if Overlaps(Point(k), w) {
        v := Note(v, Read(Point(k), g.points[k].ts, g.points[k].txn), ts, txn);
        seen := seen + {Read(Point(k), g.points[k].ts, g.points[k].txn)};
      }
      todo := todo - {k};
    }
    forall r ensures r in seen <==> r in Meeting(PointReads(g), [w]) {
      if r in seen {
        assert Overlaps(r.span, [w][0]);
      }
    }
  }

  lemma SumsTrans(v: Verdict, v1: Verdict, v0: Verdict, a: set<Read>, b: set<Read>, ts: Timestamp, txn: TxnId)
    requires Sums(v1, v0, a, ts, txn) && Sums(v, v1, b, ts, txn)
    ensures Sums(v, v0, a + b, ts, txn)
  {
  }

  lemma MeetingAppend(known: set<Read>, spans: seq<Span>, i: nat)
    requires i < |spans|
    ensures Meeting(known, spans[..i + 1]) == Meeting(known, spans[..i]) + Meeting(known, [spans[i]])
  {
    var next, had, one := spans[..i + 1], spans[..i], [spans[i]];
    forall r | r in known ensures OverlapsAny(r.span, next) <==> OverlapsAny(r.span, had) || OverlapsAny(r.span, one) {
      if OverlapsAny(r.span, next) {
        var j :| 0 <= j < |next| && Overlaps(r.span, next[j]);
        if j < i {
          assert had[j] == next[j];
        } else {
          assert one[0] == next[j];
        }
      }
      if OverlapsAny(r.span, had) {
        var j :| 0 <= j < |had| && Overlaps(r.span, had[j]);
        assert next[j] == had[j];
      }
      if OverlapsAny(r.span, one) {
        assert next[i] == one[0];
      }
    }
  }

  lemma SumsSpan(v: Verdict, v1: Verdict, v0: Verdict, all: set<Read>, spans: seq<Span>, i: nat, ts: Timestamp, txn: TxnId)
    requires i < |spans| && Sums(v1, v0, Meeting(all, spans[..i]), ts, txn) && Sums(v, v1, Meeting(all, [spans[i]]), ts, txn)
    ensures Sums(v, v0, Meeting(all, spans[..i + 1]), ts, txn)
  {
    MeetingAppend(all, spans, i);
    SumsTrans(v, v1, v0, Meeting(all, spans[..i]), Meeting(all, [spans[i]]), ts, txn);
  }

  method NotePoints(g: Gen, spans: seq<Span>, ts: Timestamp, txn: TxnId, v0: Verdict) returns (v: Verdict)
    ensures Sums(v, v0, Meeting(PointReads(g), spans), ts, txn)
  {
    v := v0;
    ghost var all := PointReads(g);
    for i := 0 to |spans|
      invariant Sums(v, v0, Meeting(all, spans[..i]), ts, txn)
    {
      ghost var v1 := v;
      v := NotePointsOf(g, spans[i], ts, txn, v);
      SumsSpan(v, v1, v0, all, spans, i, ts, txn);
    }
    assert spans[..|spans|] == spans;
  }

  method NoteGen(g: Gen, spans: seq<Span>, ts: Timestamp, txn: TxnId, v0: Verdict) returns (v: Verdict)
    ensures Sums(v, v0, Meeting(g.Reads(), spans), ts, txn)
  {
    var v1 := NoteRanged(g, spans, ts, txn, v0);
    v := NotePoints(g, spans, ts, txn, v1);
    SumsTrans(v, v1, v0, Meeting(Listed(g.ranged), spans), Meeting(PointReads(g), spans), ts, txn);
    assert Meeting(g.Reads(), spans) == Meeting(Listed(g.ranged), spans) + Meeting(PointReads(g), spans);
  }

  // ---- the cache ----

  ghost function SpanReads(spans: seq<Span>, ts: Timestamp, txn: TxnId): set<Read> {
    set s | s in spans :: Read(s, ts, txn)
  }

  ghost predicate HasWholeRange(spans: seq<Span>) {
    exists i :: 0 <= i < |spans| && CoversWholeRange(spans[i])
  }

  lemma SpanReadsStep(spans: seq<Span>, i: nat, ts: Timestamp, txn: TxnId)
    requires i < |spans|
    ensures SpanReads(spans[..i + 1], ts, txn) == SpanReads(spans[..i], ts, txn) + {Read(spans[i], ts, txn)}
    ensures HasWholeRange(spans[..i + 1]) <==> HasWholeRange(spans[..i]) || CoversWholeRange(spans[i])
  {
    assert spans[..i + 1] == spans[..i] + [spans[i]];
    if HasWholeRange(spans[..i]) {
      var j :| 0 <= j < i && CoversWholeRange(spans[..i][j]);
      assert spans[..i + 1][j] == spans[..i][j];
    }
    assert spans[..i + 1][i] == spans[i];
  }

  class TsCache {
    var floor: Timestamp
    var cur: Gen
    var prev: Gen
    /** Every read recorded so far, folded ones included. */
    ghost var history: set<Read>

    ghost predicate Valid()
      reads this
    {
      Faithful(floor, cur.Reads() + prev.Reads(), history)
    }

    constructor ()
      ensures Valid() && floor == 0 && history == {}
    {
      floor, cur, prev, history := 0, EmptyGen, EmptyGen, {};
    }

    /** Records the reads; the floor never drops and the current generation
        never stays full. */
    method Bump(spans: seq<Span>, ts: Timestamp, txn: TxnId)
      requires Valid()
      modifies this
      ensures Valid()
      ensures history == old(history) + SpanReads(spans, ts, txn)
      ensures old(floor) <= floor
      ensures HasWholeRange(spans) ==> ts <= floor
      ensures old(cur.n) < GenerationSize ==> cur.n < GenerationSize
    {
      if ts <= floor {
        FloorCovers(floor, cur.Reads() + prev.Reads(), history, SpanReads(spans, ts, txn));
        history := history + SpanReads(spans, ts, txn);
        return;
      }
      for i := 0 to |spans|
        invariant Valid() && history == old(history) + SpanReads(spans[..i], ts, txn)
        invariant old(floor) <= floor <= ts
        invariant HasWholeRange(spans[..i]) ==> floor == ts
      {
        SpanReadsStep(spans, i, ts, txn);
        RecordSpan(Read(spans[i], ts, txn));
      }
      assert spans[..|spans|] == spans;
      if cur.n >= GenerationSize {
        Rotate();
      }
    }

    /** One span of a bump: a point or ranged entry, or the floor itself. */
    method RecordSpan(r: Read)
      requires Valid() && floor <= r.ts
      modifies this
      ensures Valid() && history == old(history) + {r}
      ensures floor == if CoversWholeRange(r.span) then r.ts else old(floor)
    {
      if CoversWholeRange(r.span) {
        ghost var entries := cur.Reads() + prev.Reads();
        assert entries + {} == entries;
        FoldKeepsFaithful(floor, r.ts, entries, {}, history);
        FloorCovers(r.ts, entries, history, {r});
        floor := r.ts;
      } else {
        EntryKeepsFaithful(floor, cur, prev.Reads(), history, r);
        cur := if r.span.Point? then cur.Record(r.span.start, r.ts, r.txn) else cur.Append(r);
      }
      history := history + {r};
    }

    /** The older generation collapses into the floor. */
    method Rotate()
      requires Valid()
      modifies this
      ensures Valid() && history == old(history) && old(floor) <= floor
      ensures cur == EmptyGen && prev == old(cur)
    {
      var folded := MaxRead(prev, floor);
      FoldKeepsFaithful(floor, folded, cur.Reads(), prev.Reads(), history);
      floor := folded;
      prev := cur;
      cur := EmptyGen;
      assert cur.Reads() + prev.Reads() == prev.Reads();
    }

    /** Folds a generation into the floor. */
    static method MaxRead(g: Gen, floor: Timestamp) returns (m: Timestamp)
      ensures floor <= m && (forall r :: r in g.Reads() ==> r.ts <= m)
      ensures m == floor || exists r :: r in g.Reads() && r.ts == m
    {
      m := floor;
      var todo := g.points.Keys;
      while todo != {}
        invariant todo <= g.points.Keys && floor <= m
        invariant forall k :: k in g.points && k !in todo ==> g.points[k].ts <= m
        invariant m == floor || exists r :: r in g.Reads() && r.ts == m
        decreases |todo|
      {
        var k := Pick(todo);
        if m < g.points[k].ts {
          m := g.points[k].ts;
          assert Read(Point(k), g.points[k].ts, g.points[k].txn) in g.Reads();
        }
        todo := todo - {k};
      }
      for i := 0 to |g.ranged|
        invariant floor <= m
        invariant forall k :: k in g.points ==> g.points[k].ts <= m
        invariant forall j :: 0 <= j < i ==> g.ranged[j].ts <= m
        invariant m == floor || exists r :: r in g.Reads() && r.ts == m
      {
        if m < g.ranged[i].ts {
          m := g.ranged[i].ts;
          assert g.ranged[i] in g.Reads();
        }
      }
    }

    /** Exactly the naive rule over every read ever recorded, above the floor;
        low bounds every overlapping read and is reached by one or by the
        floor, and any writer is let through just above it. */
    method AllowsWrite(spans: seq<Span>, ts: Timestamp, txn: TxnId) returns (ok: bool, low: Timestamp)
      requires Valid()
      ensures ok <==> Allows(floor, history, spans, ts, txn)
      ensures floor <= low && forall r :: r in history && OverlapsAny(r.span, spans) ==> r.ts <= low
      ensures low == floor || exists r :: r in history && OverlapsAny(r.span, spans) && r.ts == low
      ensures forall t: Timestamp, x: TxnId :: Hlc.Next(low) <= t ==> Allows(floor, history, spans, t, x)
    {
      var v0 := Verdict(floor < ts, floor);
      var v1 := NoteGen(prev, spans, ts, txn, v0);
      var v := NoteGen(cur, spans, ts, txn, v1);
      ghost var entries := cur.Reads() + prev.Reads();
      SumsTrans(v, v1, v0, Meeting(prev.Reads(), spans), Meeting(cur.Reads(), spans), ts, txn);
      assert Meeting(entries, spans) == Meeting(prev.Reads(), spans) + Meeting(cur.Reads(), spans);
      FaithfulDecides(floor, entries, history, spans, ts, txn);
      ok, low := v.ok, v.low;
      FaithfulBounds(floor, entries, history, spans, low);
    }
  }
}
