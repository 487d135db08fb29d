/** Span latches (pkg/kvserver/latch.go): an indexed set of holders that
    answers conflict checks as a scan of every holder would, and never holds
    two conflicting latches. */
module Latches {
  import opened Keys
  import opened Spans

  class Latch {
    const spans: seq<Span>
    const exclusive: bool
    const ranged: bool
    var done: bool

    constructor (spans: seq<Span>, exclusive: bool)
      ensures this.spans == spans && this.exclusive == exclusive && !done && WellFormed()
    {
      var r := false;
      for i := 0 to |spans|
        invariant r <==> exists j :: 0 <= j < i && spans[j].Ranged?
      {
        if spans[i].Ranged? {
          r := true;
        }
      }
      this.spans, this.exclusive, ranged, done := spans, exclusive, r, false;
    }

    ghost predicate WellFormed() {
      ranged <==> exists j :: 0 <= j < |spans| && spans[j].Ranged?
    }
  }

  predicate ModesConflict(a: Latch, b: Latch) {
    a.exclusive || b.exclusive
  }

  /** The reference meaning of a conflict: at least one side writes and some
      pair of spans overlaps. */
  ghost predicate Conflict(a: Latch, b: Latch) {
    ModesConflict(a, b) &&
    exists i, j :: 0 <= i < |a.spans| && 0 <= j < |b.spans| && Overlaps(a.spans[i], b.spans[j])
  }

  lemma ConflictIsSymmetric(a: Latch, b: Latch)
    ensures Conflict(a, b) <==> Conflict(b, a)
  {
    if Conflict(a, b) {
      var i, j :| 0 <= i < |a.spans| && 0 <= j < |b.spans| && Overlaps(a.spans[i], b.spans[j]);
      assert Overlaps(b.spans[j], a.spans[i]);
    }
    if Conflict(b, a) {
      var i, j :| 0 <= i < |b.spans| && 0 <= j < |a.spans| && Overlaps(b.spans[i], a.spans[j]);
      assert Overlaps(a.spans[j], b.spans[i]);
    }
  }

  /** h conflicts with l on l's span ls; rangedOnly looks at h's ranged spans
      alone. */
  ghost predicate Hits(l: Latch, h: Latch, ls: Span, rangedOnly: bool) {
    ModesConflict(l, h) &&
    exists j :: 0 <= j < |h.spans| && (rangedOnly ==> h.spans[j].Ranged?) && Overlaps(h.spans[j], ls)
  }

  function At(points: map<Key, seq<Latch>>, k: Key): seq<Latch> {
    if k in points then points[k] else []
  }

  /** How often a latch's point spans name k. */
  ghost function Uses(l: Latch, k: Key): nat {
    multiset(l.spans)[Point(k)]
  }

  ghost function Occurs(points: map<Key, seq<Latch>>, k: Key, l: Latch): nat {
    multiset(At(points, k))[l]
  }

  /** The index lists holders only, keeps no empty list, and lists each holder
      under a key as often as its spans name it. */
  ghost predicate Mirrors(points: map<Key, seq<Latch>>, held: set<Latch>) {
    && (forall k :: k in points ==> points[k] != [] && forall h :: h in points[k] ==> h in held)
    && (forall k, l :: l in held ==> Occurs(points, k, l) == Uses(l, k))
  }

  lemma OccursIsListed(points: map<Key, seq<Latch>>, k: Key, l: Latch)
    ensures Occurs(points, k, l) > 0 <==> l in At(points, k)
  {
  }

  function AddPoint(points: map<Key, seq<Latch>>, k: Key, l: Latch): map<Key, seq<Latch>> {
    points[k := At(points, k) + [l]]
  }

  lemma AddPointOccurs(points: map<Key, seq<Latch>>, k: Key, l: Latch, k': Key, h: Latch)
    ensures Occurs(AddPoint(points, k, l), k', h) == Occurs(points, k', h) + if k' == k && h == l then 1 else 0
  {
  }

  lemma UsesStep(l: Latch, i: nat, k: Key)
    requires i < |l.spans|
    ensures multiset(l.spans[..i + 1])[Point(k)] ==
            multiset(l.spans[..i])[Point(k)] + if l.spans[i] == Point(k) then 1 else 0
  {
    assert l.spans[..i + 1] == l.spans[..i] + [l.spans[i]];
  }

  class LatchManager {
    var held: set<Latch>
    var points: map<Key, seq<Latch>>
    var ranged: set<Latch>

    /** The indexes mirror the held set, repeated keys counted, and no two
        holders conflict. */
    ghost predicate Valid()
      reads this
    {
      && (forall l :: l in held ==> l.WellFormed())
      && ranged == (set l | l in held && l.ranged)
      && Mirrors(points, held)
      && (forall a, b :: a in held && b in held && a != b ==> !Conflict(a, b))
    }

    constructor ()
      ensures Valid() && held == {}
    {
      held, points, ranged := {}, map[], {};
    }

    /** The holder scan that ranged spans and the ranged index share. */
    static method FirstHit(cands: set<Latch>, l: Latch, ls: Span, rangedOnly: bool) returns (c: Latch?)
      ensures c != null ==> c in cands && Hits(l, c, ls, rangedOnly)
      ensures c == null ==> forall h :: h in cands ==> !Hits(l, h, ls, rangedOnly)
    {
      var todo := cands;
      while todo != {}
        invariant todo <= cands
        invariant forall h :: h in cands && h !in todo ==> !Hits(l, h, ls, rangedOnly)
        decreases |todo|
      {
        var h :| h in todo;
        if ModesConflict(l, h) {
          for j := 0 to |h.spans|
            invariant forall j' :: 0 <= j' < j ==> !((rangedOnly ==> h.spans[j'].Ranged?) && Overlaps(h.spans[j'], ls))
          {
            if (!rangedOnly || h.spans[j].Ranged?) && Overlaps(h.spans[j], ls) {
              return h;
            }
          }
        }
        todo := todo - {h};
      }
      c := null;
    }

    /** nil exactly when no holder conflicts, and otherwise a holder that does:
        the point index and the ranged index together see what a scan of every
        span of every holder sees. */
    method FindConflict(l: Latch) returns (c: Latch?)
      requires Valid()
      ensures c == null <==> forall h :: h in held ==> !Conflict(l, h)
      ensures c != null ==> c in held && Conflict(l, c)
    {
      for i := 0 to |l.spans|
        invariant forall h, i' :: h in held && 0 <= i' < i ==> !Hits(l, h, l.spans[i'], false)
      {
        var ls := l.spans[i];
        if ls.Ranged? {
          c := FirstHit(held, l, ls, false);
          if c != null {
            HitIsConflict(l, c, i);
            return;
          }
        } else {
          var at := At(points, ls.start);
          for n := 0 to |at|
            invariant forall n' :: 0 <= n' < n ==> !ModesConflict(l, at[n'])
          {
            if ModesConflict(l, at[n]) {
              c := at[n];
              HolderAtPoint(points, held, c, ls.start);
              HitIsConflict(l, c, i);
              return;
            }
          }
          c := FirstHit(ranged, l, ls, true);
          if c != null {
            HitIsConflict(l, c, i);
            return;
          }
          forall h | h in held ensures !Hits(l, h, ls, false) {
            PointMeets(points, held, l, h, ls.start);
          }
        }
      }
      c := null;
      forall h | h in held ensures !Conflict(l, h) {
        ConflictIsHit(l, h);
      }
    }

    static lemma ConflictIsHit(l: Latch, h: Latch)
      ensures Conflict(l, h) <==> exists i :: 0 <= i < |l.spans| && Hits(l, h, l.spans[i], false)
    {
      if Conflict(l, h) {
        var i, j :| 0 <= i < |l.spans| && 0 <= j < |h.spans| && Overlaps(l.spans[i], h.spans[j]);
        assert Overlaps(h.spans[j], l.spans[i]);
        assert Hits(l, h, l.spans[i], false);
      }
      if i :| 0 <= i < |l.spans| && Hits(l, h, l.spans[i], false) {
        HitIsConflict(l, h, i);
      }
    }

    static lemma HitIsConflict(l: Latch, h: Latch, i: nat)
      requires i < |l.spans| && (Hits(l, h, l.spans[i], false) || Hits(l, h, l.spans[i], true))
      ensures Conflict(l, h)
    {
      var j :| 0 <= j < |h.spans| && Overlaps(h.spans[j], l.spans[i]);
      assert Overlaps(l.spans[i], h.spans[j]);
    }

    static lemma HolderAtPoint(points: map<Key, seq<Latch>>, held: set<Latch>, h: Latch, k: Key)
      requires Mirrors(points, held) && h in held && h in At(points, k)
      ensures exists j :: 0 <= j < |h.spans| && h.spans[j] == Point(k)
    {
      OccursIsListed(points, k, h);
      assert Point(k) in multiset(h.spans);
      assert Point(k) in h.spans;
    }

    static lemma PointListed(points: map<Key, seq<Latch>>, held: set<Latch>, h: Latch, j: nat)
      requires Mirrors(points, held) && h in held && j < |h.spans| && h.spans[j].Point?
      ensures h in At(points, h.spans[j].start)
    {
      assert h.spans[j] in multiset(h.spans);
      OccursIsListed(points, h.spans[j].start, h);
    }

    /** A holder that meets a point is found by one of the two indexes. */
    static lemma PointMeets(points: map<Key, seq<Latch>>, held: set<Latch>, l: Latch, h: Latch, k: Key)
      requires Mirrors(points, held) && h in held && h.WellFormed()
      ensures Hits(l, h, Point(k), false) ==>
              (h in At(points, k) && ModesConflict(l, h)) || (h.ranged && Hits(l, h, Point(k), true))
    {
      if Hits(l, h, Point(k), false) {
        var j :| 0 <= j < |h.spans| && Overlaps(h.spans[j], Point(k));
        if h.spans[j].Point? {
          PointListed(points, held, h, j);
        }
      }
    }

    static method IndexPoints(points: map<Key, seq<Latch>>, l: Latch) returns (p: map<Key, seq<Latch>>)
      requires forall k :: k in points ==> points[k] != []
      ensures forall k :: k in p ==> p[k] != [] && forall h :: h in p[k] ==> h == l || h in At(points, k)
      ensures forall k, h :: Occurs(p, k, h) == Occurs(points, k, h) + if h == l then Uses(l, k) else 0
    {
      p := points;
      for i := 0 to |l.spans|
        invariant forall k :: k in p ==> p[k] != [] && forall h :: h in p[k] ==> h == l || h in At(points, k)
        invariant forall k, h :: Occurs(p, k, h) ==
                                 Occurs(points, k, h) + if h == l then multiset(l.spans[..i])[Point(k)] else 0
      {
        ghost var was := p;
        if l.spans[i].Point? {
          p := AddPoint(p, l.spans[i].start, l);
        }
        forall k, h ensures Occurs(p, k, h) ==
                            Occurs(points, k, h) + if h == l then multiset(l.spans[..i + 1])[Point(k)] else 0
        {
          UsesStep(l, i, k);
          if l.spans[i].Point? {
            AddPointOccurs(was, l.spans[i].start, l, k, h);
          }
        }
      }
      assert l.spans[..|l.spans|] == l.spans;
    }

    /** An index to which exactly l's points were added mirrors one holder more. */
    static lemma MirrorsMore(was: map<Key, seq<Latch>>, now: map<Key, seq<Latch>>, held: set<Latch>, l: Latch)
      requires Mirrors(was, held) && l !in held
      requires forall k :: k in now ==> now[k] != [] && forall h :: h in now[k] ==> h == l || h in At(was, k)
      requires forall k, h :: Occurs(now, k, h) == Occurs(was, k, h) + if h == l then Uses(l, k) else 0
      ensures Mirrors(now, held + {l})
    {
      forall k ensures Occurs(was, k, l) == 0 {
        OccursIsListed(was, k, l);
      }
    }

    method Insert(l: Latch)
      requires Valid() && l !in held && l.WellFormed()
      requires forall h :: h in held ==> !Conflict(l, h)
      modifies this
      ensures Valid() && held == old(held) + {l}
    {
      forall h | h in held ensures !Conflict(h, l) {
        ConflictIsSymmetric(l, h);
      }
      ghost var was := points;
      points := IndexPoints(points, l);
      MirrorsMore(was, points, held, l);
      held := held + {l};
      if l.ranged {
        ranged := ranged + {l};
      }
    }

    /** Drops every occurrence of l, keeping the rest. */
    static method Without(hs: seq<Latch>, l: Latch) returns (n: seq<Latch>)
      ensures forall h :: multiset(n)[h] == if h == l then 0 else multiset(hs)[h]
    {
      n := [];
      for i := 0 to |hs|
        invariant forall h :: multiset(n)[h] == if h == l then 0 else multiset(hs[..i])[h]
      {
        assert hs[..i + 1] == hs[..i] + [hs[i]];
        if hs[i] != l {
          n := n + [hs[i]];
        }
      }
      assert hs[..|hs|] == hs;
    }

    static method DropPoint(points: map<Key, seq<Latch>>, k: Key, l: Latch) returns (p: map<Key, seq<Latch>>)
      requires forall k' :: k' in points ==> points[k'] != []
      ensures forall k' :: k' in p ==> p[k'] != []
      ensures forall k', h :: Occurs(p, k', h) == if k' == k && h == l then 0 else Occurs(points, k', h)
    {
      var n := Without(At(points, k), l);
      if n == [] {
        p := points - {k};
        forall h ensures Occurs(p, k, h) == if h == l then 0 else Occurs(points, k, h) {
          assert multiset(n)[h] == 0;
        }
      } else {
        p := points[k := n];
      }
    }

    static method UnindexPoints(points: map<Key, seq<Latch>>, l: Latch) returns (p: map<Key, seq<Latch>>)
      requires forall k :: k in points ==> points[k] != []
      ensures forall k :: k in p ==> p[k] != []
      ensures forall k, h :: Occurs(p, k, h) ==
                             if h == l && Point(k) in l.spans then 0 else Occurs(points, k, h)
    {
      p := points;
      for i := 0 to |l.spans|
        invariant forall k :: k in p ==> p[k] != []
        invariant forall k, h :: Occurs(p, k, h) ==
                                 if h == l && Point(k) in l.spans[..i] then 0 else Occurs(points, k, h)
      {
        assert l.spans[..i + 1] == l.spans[..i] + [l.spans[i]];
        if l.spans[i].Point? {
          p := DropPoint(p, l.spans[i].start, l);
        }
      }
      assert l.spans[..|l.spans|] == l.spans;
    }

    method Remove(l: Latch)
      requires Valid() && l in held
      modifies this
      ensures Valid() && held == old(held) - {l}
    {
      var p := UnindexPoints(points, l);
      forall k, h | k in p && h in p[k] ensures h in held - {l} {
        OccursIsListed(p, k, h);
        OccursIsListed(points, k, h);
        assert h in points[k];
        assert Point(k) in l.spans || Uses(l, k) == 0;
      }
      points := p;
      held := held - {l};
      ranged := ranged - {l};
    }

    /** One round of Acquire under the mutex: all spans at once, or none. */
    method TryAcquire(l: Latch) returns (conflict: Latch?)
      requires Valid() && l !in held && l.WellFormed()
      modifies this
      ensures Valid()
      ensures conflict == null <==> forall h :: h in old(held) ==> !Conflict(l, h)
      ensures conflict == null ==> held == old(held) + {l}
      ensures conflict != null ==> unchanged(this) && conflict in held && Conflict(l, conflict)
    {
      conflict := FindConflict(l);
      if conflict == null {
        Insert(l);
      }
    }

    /** Release is idempotent: the guard acts once. */
    method Release(l: Latch)
      requires Valid() && (!l.done <==> l in held)
      modifies this, l
      ensures Valid() && held == old(held) - {l} && l.done
    {
      if !l.done {
        Remove(l);
        l.done := true;
      }
    }
  }
}
