/** Scans over many ranges (pkg/kvclient/db.go) stitched from scans of one
    (pkg/storage/mvcc.go).

    Keys are integers here, Next(k) being k + 1: only the order and that Next
    is the least key above its argument are used, never a distance between
    keys. The rows are those visible at the scan's timestamp. Routing answers
    are arbitrary functions of how often routing was asked, so range boundaries
    may move during the scan. */
module Scan {
  import opened Mvcc

  type ScanKey = int

  function Next(k: ScanKey): ScanKey { k + 1 }

  datatype Row = Row(key: ScanKey, size: nat)

  ghost predicate Sorted(rows: seq<Row>) {
    forall i, j :: 0 <= i < j < |rows| ==> rows[i].key < rows[j].key
  }

  /** How many of the first n rows lie below a key. */
  ghost function BelowOf(rows: seq<Row>, n: nat, k: ScanKey): (m: nat)
    requires n <= |rows|
    ensures m <= n
  {
    if n == 0 then 0 else if rows[n - 1].key < k then n else BelowOf(rows, n - 1, k)
  }

  ghost function Below(rows: seq<Row>, k: ScanKey): (n: nat)
    ensures n <= |rows|
  {
    BelowOf(rows, |rows|, k)
  }

  lemma {:induction false} BelowOfCounts(rows: seq<Row>, n: nat, k: ScanKey)
    requires Sorted(rows) && n <= |rows|
    ensures forall i :: 0 <= i < n ==> (i < BelowOf(rows, n, k) <==> rows[i].key < k)
  {
    if n > 0 && rows[n - 1].key >= k {
      BelowOfCounts(rows, n - 1, k);
    }
  }

  lemma BelowCounts(rows: seq<Row>, k: ScanKey)
    requires Sorted(rows)
    ensures forall i :: 0 <= i < |rows| ==> (i < Below(rows, k) <==> rows[i].key < k)
  {
    BelowOfCounts(rows, |rows|, k);
  }

  lemma BelowIs(rows: seq<Row>, k: ScanKey, n: nat)
    requires Sorted(rows) && n <= |rows| && (n > 0 ==> rows[n - 1].key < k) && (n < |rows| ==> rows[n].key >= k)
    ensures Below(rows, k) == n
  {
    BelowCounts(rows, k);
    var b := Below(rows, k);
    assert b < |rows| ==> rows[b].key >= k;
    assert b > 0 ==> rows[b - 1].key < k;
    assert n < |rows| ==> b <= n;
    assert n > 0 ==> n - 1 < b;
  }

  lemma BelowGrows(rows: seq<Row>, a: ScanKey, b: ScanKey)
    requires Sorted(rows) && a <= b
    ensures Below(rows, a) <= Below(rows, b)
  {
    BelowCounts(rows, a);
    BelowCounts(rows, b);
    if Below(rows, a) > 0 {
      assert rows[Below(rows, a) - 1].key < b;
    }
  }

  /** Just past a row, that row is below and no other joins it. */
  lemma BelowNext(rows: seq<Row>, i: nat)
    requires Sorted(rows) && i < |rows|
    ensures Below(rows, rows[i].key) == i && Below(rows, Next(rows[i].key)) == i + 1
  {
    BelowIs(rows, rows[i].key, i);
    BelowIs(rows, Next(rows[i].key), i + 1);
  }

  /** The rows of one scan over [lo, hi). */
  ghost function RowsIn(rows: seq<Row>, lo: ScanKey, hi: ScanKey): seq<Row> {
    if Below(rows, lo) <= Below(rows, hi) then rows[Below(rows, lo)..Below(rows, hi)] else []
  }

  // ---- one range ----

  datatype Page = Page(rows: seq<Row>, resume: Option<ScanKey>)

  ghost function SizeOf(rows: seq<Row>, n: nat): nat
    requires n <= |rows|
  {
    if n == 0 then 0 else SizeOf(rows, n - 1) + rows[n - 1].size
  }

  lemma {:induction false} SizeOfFront(rows: seq<Row>, more: seq<Row>, n: nat)
    requires n <= |rows| && rows <= more
    ensures SizeOf(rows, n) == SizeOf(more, n)
  {
    if n > 0 {
      SizeOfFront(rows, more, n - 1);
    }
  }

  /** A page is full with its first n rows: max rows, or the byte target. */
  ghost predicate FullAt(rows: seq<Row>, n: nat, max: nat, target: nat)
    requires n <= |rows|
  {
    n > 0 && ((max > 0 && n == max) || (target > 0 && SizeOf(rows, n) >= target))
  }

  /** A page ends early exactly when it is full, and is not full before. */
  ghost predicate EndsWhenFull(p: Page, max: nat, target: nat) {
    && (forall n :: 0 <= n < |p.rows| ==> !FullAt(p.rows, n, max, target))
    && (p.resume.Some? <==> FullAt(p.rows, |p.rows|, max, target))
  }

  ghost predicate Unfilled(rows: seq<Row>, bytes: nat, max: nat, target: nat) {
    bytes == SizeOf(rows, |rows|) && forall n :: 0 <= n <= |rows| ==> !FullAt(rows, n, max, target)
  }

  predicate Reached(rows: nat, bytes: nat, max: nat, target: nat) {
    (max > 0 && rows == max) || (target > 0 && bytes >= target)
  }

  /** One more row fills the page or does not. */
  lemma RowJoins(rows: seq<Row>, row: Row, bytes: nat, max: nat, target: nat, resume: ScanKey)
    requires Unfilled(rows, bytes, max, target)
    ensures max > 0 ==> |rows| < max
    ensures Reached(|rows| + 1, bytes + row.size, max, target) ==>
              EndsWhenFull(Page(rows + [row], Some(resume)), max, target)
    ensures !Reached(|rows| + 1, bytes + row.size, max, target) ==>
              Unfilled(rows + [row], bytes + row.size, max, target)
  {
    forall n | 0 <= n <= |rows| ensures !FullAt(rows + [row], n, max, target) {
      SizeOfFront(rows, rows + [row], n);
      assert !FullAt(rows, n, max, target);
    }
    SizeOfFront(rows, rows + [row], |rows|);
    assert max > 0 && max <= |rows| ==> FullAt(rows, max, max, target);
  }

  lemma EndReached(rows: seq<Row>, bytes: nat, max: nat, target: nat)
    requires Unfilled(rows, bytes, max, target)
    ensures EndsWhenFull(Page(rows, None), max, target) && (max > 0 ==> |rows| < max)
  {
    assert max > 0 && max <= |rows| ==> FullAt(rows, max, max, target);
  }

  /** A page of [lo, hi): everything, or a non-empty beginning of it with the
      key to go on from; max rows, if set, are never exceeded, and reaching
      them always ends the page. */
  ghost predicate IsPage(rows: seq<Row>, lo: ScanKey, hi: ScanKey, max: nat, p: Page) {
    && p.rows <= RowsIn(rows, lo, hi) && (max > 0 ==> |p.rows| <= max)
    && (p.resume.None? ==> p.rows == RowsIn(rows, lo, hi) && (max > 0 ==> |p.rows| < max))
    && (p.resume.Some? ==> p.rows != [] && p.resume.value == Next(p.rows[|p.rows| - 1].key))
  }

  lemma Glue(rows: seq<Row>, a: nat, b: nat, c: nat)
    requires a <= b <= c <= |rows|
    ensures rows[a..b] + rows[b..c] == rows[a..c]
    ensures c == b + 1 ==> rows[a..b] + [rows[b]] == rows[a..c]
  {
  }

  method SeekGE(rows: seq<Row>, lo: ScanKey) returns (i: nat)
    requires Sorted(rows)
    ensures i == Below(rows, lo)
  {
    i := 0;
    while i < |rows| && rows[i].key < lo
      invariant i <= |rows| && (i > 0 ==> rows[i - 1].key < lo)
    {
      i := i + 1;
    }
    BelowIs(rows, lo, i);
  }

  /** MVCCScan: ends the page when it holds max rows or its bytes reached the
      target, zero meaning no limit. */
  method MvccScan(rows: seq<Row>, lo: ScanKey, hi: ScanKey, max: nat, target: nat) returns (p: Page)
    requires Sorted(rows)
    ensures IsPage(rows, lo, hi, max, p) && EndsWhenFull(p, max, target)
  {
    var first := SeekGE(rows, lo);
    var i := first;
    var out: seq<Row> := [];
    var bytes: nat := 0;
    while i < |rows| && rows[i].key < hi
      invariant first <= i <= |rows| && out == rows[first..i] && (first < i ==> rows[i - 1].key < hi)
      invariant Unfilled(out, bytes, max, target)
    {
      RowJoins(out, rows[i], bytes, max, target, Next(rows[i].key));
      Glue(rows, first, i, i + 1);
      out := out + [rows[i]];
      bytes := bytes + rows[i].size;
      if Reached(|out|, bytes, max, target) {
        FullPage(rows, lo, hi, max, i);
        return Page(out, Some(Next(rows[i].key)));
      }
      i := i + 1;
    }
    EndReached(out, bytes, max, target);
    RowsUpTo(rows, lo, hi, i);
    p := Page(out, None);
  }

  lemma FullPage(rows: seq<Row>, lo: ScanKey, hi: ScanKey, max: nat, i: nat)
    requires Sorted(rows) && Below(rows, lo) <= i < |rows| && rows[i].key < hi && (max > 0 ==> i + 1 - Below(rows, lo) <= max)
    ensures IsPage(rows, lo, hi, max, Page(rows[Below(rows, lo)..i + 1], Some(Next(rows[i].key))))
  {
    RowsUpTo(rows, lo, hi, i + 1);
  }

  /** The rows up to a position, while none is at or beyond hi. */
  lemma RowsUpTo(rows: seq<Row>, lo: ScanKey, hi: ScanKey, i: nat)
    requires Sorted(rows) && Below(rows, lo) <= i <= |rows| && (Below(rows, lo) < i ==> rows[i - 1].key < hi)
    ensures rows[Below(rows, lo)..i] <= RowsIn(rows, lo, hi)
    ensures i == |rows| || rows[i].key >= hi ==> rows[Below(rows, lo)..i] == RowsIn(rows, lo, hi)
  {
    BelowCounts(rows, hi);
    assert i < |rows| && rows[i].key >= hi ==> Below(rows, hi) <= i;
    assert Below(rows, lo) < i ==> i - 1 < Below(rows, hi);
  }

  /** What a page that ends early leaves: the rows from its resume key on. */
  lemma PageLeaves(rows: seq<Row>, lo: ScanKey, hi: ScanKey, max: nat, p: Page)
    requires Sorted(rows) && lo <= hi && IsPage(rows, lo, hi, max, p)
    ensures p.resume.Some? ==>
              && lo < p.resume.value <= hi
              && Below(rows, p.resume.value) == Below(rows, lo) + |p.rows|
    ensures p.resume.None? ==> Below(rows, hi) == Below(rows, lo) + |p.rows|
  {
    BelowGrows(rows, lo, hi);
    BelowCounts(rows, lo);
    BelowCounts(rows, hi);
    if p.resume.Some? {
      var i := Below(rows, lo) + |p.rows| - 1;
      assert p.rows[|p.rows| - 1] == RowsIn(rows, lo, hi)[|p.rows| - 1] == rows[i];
      BelowNext(rows, i);
    }
  }

  // ---- many ranges ----

  const MaxRoutingRetries: nat := 30

  datatype Outcome = Ok(page: Page) | NotConverged

  /** How many of the first n sends were told to regroup. */
  ghost function Regroups(regroup: nat -> bool, n: nat): nat {
    if n == 0 then 0 else Regroups(regroup, n - 1) + if regroup(n - 1) then 1 else 0
  }

  /** The stitched answer: the first rows of one scan over the whole span, as
      many as asked for, and the key from which exactly the others remain. */
  ghost predicate IsStitched(rows: seq<Row>, start: ScanKey, end: ScanKey, max: nat, p: Page) {
    var all := RowsIn(rows, start, end);
    && p.rows == all[..if max > 0 && max < |all| then max else |all|]
    && (p.resume.None? ==> p.rows == all)
    && (p.resume.Some? ==> |p.rows| == max && start < p.resume.value <= end
                           && RowsIn(rows, p.resume.value, end) == all[|p.rows|..])
  }

  /** The range boundaries above a key, among those that will ever be seen. */
  ghost function Ahead(bounds: set<ScanKey>, k: ScanKey): set<ScanKey> { set b | b in bounds && b > k }

  lemma AheadShrinks(bounds: set<ScanKey>, k: ScanKey, b: ScanKey)
    requires b in bounds && k < b
    ensures |Ahead(bounds, b)| < |Ahead(bounds, k)|
  {
    SubsetSmaller(Ahead(bounds, b), Ahead(bounds, k), b);
  }

  lemma AheadShrinksWeakly(bounds: set<ScanKey>, k: ScanKey, b: ScanKey)
    requires k <= b
    ensures |Ahead(bounds, b)| <= |Ahead(bounds, k)|
  {
    SubsetNotLarger(Ahead(bounds, b), Ahead(bounds, k));
  }

  lemma SubsetNotLarger(a: set<ScanKey>, b: set<ScanKey>)
    requires a <= b
    ensures |a| <= |b|
  {
    assert b == a + (b - a);
  }

  lemma SubsetSmaller(a: set<ScanKey>, b: set<ScanKey>, x: ScanKey)
    requires a <= b && x in b && x !in a
    ensures |a| < |b|
  {
    SubsetNotLarger(a + {x}, b);
  }

  /** One segment: where the scan goes on, and what it has then passed. */
  method Segment(rows: seq<Row>, cur: ScanKey, segEnd: ScanKey, max: nat, target: nat) returns (p: Page, next: ScanKey)
    requires Sorted(rows) && cur < segEnd
    ensures cur < next <= segEnd && next == if p.resume.Some? then p.resume.value else segEnd
    ensures Below(rows, cur) <= Below(rows, next) && p.rows == rows[Below(rows, cur)..Below(rows, next)]
    ensures max > 0 ==> |p.rows| <= max
    ensures p.resume.None? && max > 0 ==> |p.rows| < max
    ensures p.resume.Some? ==> |p.rows| > 0
  {
    p := MvccScan(rows, cur, segEnd, max, target);
    PageLeaves(rows, cur, segEnd, max, p);
    BelowGrows(rows, cur, segEnd);
    next := if p.resume.Some? then p.resume.value else segEnd;
  }

  /** Rows and boundaries still ahead. */
  ghost function Work(rows: seq<Row>, bounds: set<ScanKey>, k: ScanKey): nat {
    |rows| - Below(rows, k) + |Ahead(bounds, k)|
  }

  /** A segment passes a row or a boundary, or is the last. */
  lemma WorkDrops(rows: seq<Row>, bounds: set<ScanKey>, cur: ScanKey, next: ScanKey)
    requires cur < next && (Below(rows, cur) < Below(rows, next) || (next in bounds && Below(rows, cur) <= Below(rows, next)))
    ensures Work(rows, bounds, next) < Work(rows, bounds, cur)
  {
    if next in bounds {
      AheadShrinks(bounds, cur, next);
    }
    AheadShrinksWeakly(bounds, cur, next);
  }

  lemma ForwardDone(rows: seq<Row>, start: ScanKey, end: ScanKey, max: nat, p: Page, at: ScanKey)
    requires Sorted(rows) && start <= at <= end && p.rows == RowsIn(rows, start, at)
    requires max > 0 ==> |p.rows| <= max
    requires p.resume.None? ==> at == end
    requires p.resume.Some? ==> p.resume.value == at && start < at && max > 0 && |p.rows| == max
    ensures IsStitched(rows, start, end, max, p)
  {
    BelowGrows(rows, start, at);
    BelowGrows(rows, at, end);
    var a, b, c := Below(rows, start), Below(rows, at), Below(rows, end);
    assert rows[a..c][..b - a] == rows[a..b] && rows[a..c][b - a..] == rows[b..c];
  }

  /** sendScan. The i-th routing question is answered by route(i, cur), the end
      of a range that holds cur; the i-th send is told to regroup, or is paged
      at target(i) bytes. It gives up exactly when regrouped too often. */
  method SendScan(rows: seq<Row>, start: ScanKey, end: ScanKey, max: nat, route: (nat, ScanKey) -> ScanKey,
                  regroup: nat -> bool, target: nat -> nat, ghost bounds: set<ScanKey>)
    returns (r: Outcome, sent: nat)
    requires Sorted(rows)
    requires forall i, k :: k < route(i, k) && (route(i, k) in bounds || route(i, k) >= end)
    ensures r.Ok? ==> IsStitched(rows, start, end, max, r.page)
    ensures r == NotConverged <==> Regroups(regroup, sent) > MaxRoutingRetries
  {
    sent := 0;
    if end <= start {
      BelowGrows(rows, end, start);
      return Ok(Page([], None)), 0;
    }
    var cur := start;
    var out: seq<Row> := [];
    var remaining := max;
    var regroups := 0;
    var asked := 0;
    while cur < end
      invariant start <= cur <= end && Below(rows, start) <= Below(rows, cur)
      invariant out == rows[Below(rows, start)..Below(rows, cur)]
      invariant regroups == Regroups(regroup, sent) <= MaxRoutingRetries
      invariant if max == 0 then remaining == 0 else remaining == max - |out| && remaining > 0
      decreases Work(rows, bounds, cur) + (MaxRoutingRetries - regroups), end > cur
    {
      var segEnd := if route(asked, cur) < end then route(asked, cur) else end;
      asked := asked + 1;
      sent := sent + 1;
      if regroup(sent - 1) {
        regroups := regroups + 1;
        if regroups > MaxRoutingRetries {
          return NotConverged, sent;
        }
        continue;
      }
      var p, next := Segment(rows, cur, segEnd, remaining, target(sent - 1));
      Glue(rows, Below(rows, start), Below(rows, cur), Below(rows, next));
      out := out + p.rows;
      if max > 0 {
        remaining := remaining - |p.rows|;
        if remaining == 0 {
          r := Ok(Page(out, if p.resume.Some? then p.resume else if segEnd < end then Some(segEnd) else None));
          ForwardDone(rows, start, end, max, r.page, next);
          return;
        }
      }
      if next < end || p.resume.Some? {
        WorkDrops(rows, bounds, cur, next);
      } else {
        AheadShrinksWeakly(bounds, cur, next);
      }
      cur := next;
    }
    r := Ok(Page(out, None));
    ForwardDone(rows, start, end, max, r.page, end);
  }

  // ---- backwards ----

  /** The rows at positions b - 1 down to a. */
  ghost function Down(rows: seq<Row>, a: nat, b: nat): seq<Row>
    requires a <= b <= |rows|
  {
    seq(b - a, i requires 0 <= i < b - a => rows[b - 1 - i])
  }

  lemma DownJoin(rows: seq<Row>, a: nat, b: nat, c: nat)
    requires a <= b <= c <= |rows|
    ensures Down(rows, b, c) + Down(rows, a, b) == Down(rows, a, c)
  {
    var joined, all := Down(rows, b, c) + Down(rows, a, b), Down(rows, a, c);
    forall i | 0 <= i < c - a ensures joined[i] == all[i] {
      if i >= c - b {
        assert joined[i] == Down(rows, a, b)[i - (c - b)] == rows[b - 1 - (i - (c - b))];
      }
    }
  }

  /** The rows of one reverse scan over [lo, hi). */
  ghost function DownIn(rows: seq<Row>, lo: ScanKey, hi: ScanKey): seq<Row> {
    if Below(rows, lo) <= Below(rows, hi) then Down(rows, Below(rows, lo), Below(rows, hi)) else []
  }

  /** It is the forward scan backwards. */
  lemma DownIsReverse(rows: seq<Row>, lo: ScanKey, hi: ScanKey, i: nat)
    requires i < |RowsIn(rows, lo, hi)|
    ensures |DownIn(rows, lo, hi)| == |RowsIn(rows, lo, hi)|
    ensures DownIn(rows, lo, hi)[i] == RowsIn(rows, lo, hi)[|RowsIn(rows, lo, hi)| - 1 - i]
  {
  }

  /** A page of a reverse scan: largest keys first, the resume key being the
      exclusive end of what remains. */
  ghost predicate IsReversePage(rows: seq<Row>, lo: ScanKey, hi: ScanKey, max: nat, p: Page) {
    && p.rows <= DownIn(rows, lo, hi) && (max > 0 ==> |p.rows| <= max)
    && (p.resume.None? ==> p.rows == DownIn(rows, lo, hi) && (max > 0 ==> |p.rows| < max))
    && (p.resume.Some? ==> p.rows != [] && p.resume.value == p.rows[|p.rows| - 1].key)
  }

  method SeekLT(rows: seq<Row>, hi: ScanKey) returns (i: nat)
    requires Sorted(rows)
    ensures i == Below(rows, hi)
  {
    i := |rows|;
    while i > 0 && rows[i - 1].key >= hi
      invariant 0 <= i <= |rows| && (i < |rows| ==> rows[i].key >= hi)
    {
      i := i - 1;
    }
    BelowIs(rows, hi, i);
  }

  /** MVCCReverseScan. */
  method MvccReverseScan(rows: seq<Row>, lo: ScanKey, hi: ScanKey, max: nat, target: nat) returns (p: Page)
    requires Sorted(rows)
    ensures IsReversePage(rows, lo, hi, max, p) && EndsWhenFull(p, max, target)
  {
    var last := SeekLT(rows, hi);
    var i := last;
    var out: seq<Row> := [];
    var bytes: nat := 0;
    while i > 0 && rows[i - 1].key >= lo
      invariant 0 <= i <= last && out == Down(rows, i, last) && (i < last ==> rows[i].key >= lo)
      invariant Unfilled(out, bytes, max, target)
    {
      i := i - 1;
      RowJoins(out, rows[i], bytes, max, target, rows[i].key);
      DownOneMore(rows, i, last);
      out := out + [rows[i]];
      bytes := bytes + rows[i].size;
      if Reached(|out|, bytes, max, target) {
        FullReversePage(rows, lo, hi, max, i, last);
        return Page(out, Some(rows[i].key));
      }
    }
    EndReached(out, bytes, max, target);
    WholeReversePage(rows, lo, hi, max, i, last);
    p := Page(out, None);
  }

  lemma FullReversePage(rows: seq<Row>, lo: ScanKey, hi: ScanKey, max: nat, i: nat, n: nat)
    requires Sorted(rows) && i < n == Below(rows, hi) && rows[i].key >= lo && (max > 0 ==> n - i <= max)
    ensures IsReversePage(rows, lo, hi, max, Page(Down(rows, i, n), Some(rows[i].key)))
  {
    RowsDownTo(rows, lo, hi, i);
    DownLast(rows, i, n);
  }

  lemma WholeReversePage(rows: seq<Row>, lo: ScanKey, hi: ScanKey, max: nat, i: nat, n: nat)
    requires Sorted(rows) && i <= n == Below(rows, hi) && (i < n ==> rows[i].key >= lo) && (max > 0 ==> n - i < max)
    requires i == 0 || rows[i - 1].key < lo
    ensures IsReversePage(rows, lo, hi, max, Page(Down(rows, i, n), None))
  {
    RowsDownTo(rows, lo, hi, i);
  }

  lemma DownOneMore(rows: seq<Row>, i: nat, n: nat)
    requires i < n <= |rows|
    ensures Down(rows, i + 1, n) + [rows[i]] == Down(rows, i, n)
  {
    DownJoin(rows, i, i + 1, n);
    assert Down(rows, i, i + 1) == [rows[i]];
  }

  lemma DownLast(rows: seq<Row>, a: nat, b: nat)
    requires a < b <= |rows|
    ensures var d := Down(rows, a, b); d != [] && d[|d| - 1] == rows[a]
  {
  }

  lemma RowsDownTo(rows: seq<Row>, lo: ScanKey, hi: ScanKey, i: nat)
    requires Sorted(rows) && i <= Below(rows, hi) && (i < Below(rows, hi) ==> rows[i].key >= lo)
    ensures Down(rows, i, Below(rows, hi)) <= DownIn(rows, lo, hi)
    ensures i == 0 || rows[i - 1].key < lo ==> Down(rows, i, Below(rows, hi)) == DownIn(rows, lo, hi)
  {
    BelowCounts(rows, lo);
    if Below(rows, lo) <= i {
      DownJoin(rows, Below(rows, lo), i, Below(rows, hi));
    }
    assert i > 0 && rows[i - 1].key < lo ==> i <= Below(rows, lo);
    assert i < Below(rows, hi) ==> Below(rows, lo) <= i;
  }

  lemma ReversePageLeaves(rows: seq<Row>, lo: ScanKey, hi: ScanKey, max: nat, p: Page)
    requires Sorted(rows) && lo <= hi && IsReversePage(rows, lo, hi, max, p)
    ensures Below(rows, lo) + |p.rows| <= Below(rows, hi)
    ensures p.rows == Down(rows, Below(rows, hi) - |p.rows|, Below(rows, hi))
    ensures p.resume.None? ==> Below(rows, lo) == Below(rows, hi) - |p.rows|
    ensures p.resume.Some? ==> 0 < |p.rows| && p.resume.value == rows[Below(rows, hi) - |p.rows|].key
  {
    BelowGrows(rows, lo, hi);
    DownJoin(rows, Below(rows, lo), Below(rows, hi) - |p.rows|, Below(rows, hi));
    assert p.rows == DownIn(rows, lo, hi)[..|p.rows|];
    if |p.rows| > 0 {
      DownLast(rows, Below(rows, hi) - |p.rows|, Below(rows, hi));
    }
  }

  /** The stitched answer backwards: the first rows of one reverse scan over
      the whole span, and the key below which exactly the others remain. */
  ghost predicate IsReverseStitched(rows: seq<Row>, start: ScanKey, end: ScanKey, max: nat, p: Page) {
    var all := DownIn(rows, start, end);
    && p.rows == all[..if max > 0 && max < |all| then max else |all|]
    && (p.resume.None? ==> p.rows == all)
    && (p.resume.Some? ==> |p.rows| == max && start <= p.resume.value < end
                           && DownIn(rows, start, p.resume.value) == all[|p.rows|..])
  }

  /** The range boundaries strictly inside a span. */
  ghost function Inside(bounds: set<ScanKey>, lo: ScanKey, hi: ScanKey): set<ScanKey> {
    set b | b in bounds && lo < b < hi
  }

  /** The walk to the last segment of [start, curEnd): it ends at curEnd and
      begins at the span's start or at a boundary. */
  method LastSegment(start: ScanKey, curEnd: ScanKey, asked: nat, route: (nat, ScanKey) -> ScanKey,
                     ghost bounds: set<ScanKey>, ghost limit: ScanKey)
    returns (segStart: ScanKey, asked': nat)
    requires start < curEnd <= limit
    requires forall i, k :: k < route(i, k) && (route(i, k) in bounds || route(i, k) >= limit)
    ensures start <= segStart < curEnd && (segStart == start || segStart in bounds)
  {
    var s := start;
    segStart := start;
    asked' := asked;
    while s < curEnd
      invariant start <= segStart < curEnd && segStart <= s <= curEnd
      invariant segStart == start || segStart in bounds
      invariant s == start || s == curEnd || s in bounds
      decreases |Ahead(bounds, s)|, s < curEnd
    {
      var e := if route(asked', s) < curEnd then route(asked', s) else curEnd;
      asked' := asked' + 1;
      if e < curEnd {
        AheadShrinks(bounds, s, e);
      } else {
        AheadShrinksWeakly(bounds, s, e);
      }
      segStart := s;
      s := e;
    }
  }

  /** One segment backwards. */
  method ReverseSegment(rows: seq<Row>, segStart: ScanKey, curEnd: ScanKey, max: nat, target: nat)
    returns (p: Page, next: ScanKey)
    requires Sorted(rows) && segStart < curEnd
    ensures segStart <= next < curEnd && next == if p.resume.Some? then p.resume.value else segStart
    ensures Below(rows, next) <= Below(rows, curEnd) && p.rows == Down(rows, Below(rows, next), Below(rows, curEnd))
    ensures max > 0 ==> |p.rows| <= max
    ensures p.resume.None? && max > 0 ==> |p.rows| < max
    ensures p.resume.Some? ==> |p.rows| > 0
  {
    p := MvccReverseScan(rows, segStart, curEnd, max, target);
    ReversePageLeaves(rows, segStart, curEnd, max, p);
    next := segStart;
    if p.resume.Some? {
      BelowNext(rows, Below(rows, curEnd) - |p.rows|);
      BelowCounts(rows, segStart);
      BelowCounts(rows, curEnd);
      next := p.resume.value;
    }
  }

  ghost function ReverseWork(rows: seq<Row>, bounds: set<ScanKey>, start: ScanKey, k: ScanKey): nat {
    Below(rows, k) + |Inside(bounds, start, k)|
  }

  lemma ReverseWorkDrops(rows: seq<Row>, bounds: set<ScanKey>, start: ScanKey, curEnd: ScanKey, next: ScanKey)
    requires start <= next < curEnd && Below(rows, next) <= Below(rows, curEnd)
    ensures ReverseWork(rows, bounds, start, next) <= ReverseWork(rows, bounds, start, curEnd)
    ensures Below(rows, next) < Below(rows, curEnd) || (start < next && next in bounds) ==>
              ReverseWork(rows, bounds, start, next) < ReverseWork(rows, bounds, start, curEnd)
  {
    SubsetNotLarger(Inside(bounds, start, next), Inside(bounds, start, curEnd));
    if start < next && next in bounds {
      SubsetSmaller(Inside(bounds, start, next), Inside(bounds, start, curEnd), next);
    }
  }

  lemma ReverseDone(rows: seq<Row>, start: ScanKey, end: ScanKey, max: nat, p: Page, at: nat)
    requires Sorted(rows) && start < end && max > 0 && |p.rows| == max
    requires Below(rows, start) <= at <= Below(rows, end) && p.rows == Down(rows, at, Below(rows, end))
    requires p.resume.Some? ==> start <= p.resume.value < end && Below(rows, p.resume.value) == at
    requires p.resume.None? ==> Below(rows, start) == at
    ensures IsReverseStitched(rows, start, end, max, p)
  {
    DownJoin(rows, Below(rows, start), at, Below(rows, end));
  }

  /** sendReverseScan. */
  method SendReverseScan(rows: seq<Row>, start: ScanKey, end: ScanKey, max: nat, route: (nat, ScanKey) -> ScanKey,
                         regroup: nat -> bool, target: nat -> nat, ghost bounds: set<ScanKey>)
    returns (r: Outcome, sent: nat)
    requires Sorted(rows)
    requires forall i, k :: k < route(i, k) && (route(i, k) in bounds || route(i, k) >= end)
    ensures r.Ok? ==> IsReverseStitched(rows, start, end, max, r.page)
    ensures r == NotConverged <==> Regroups(regroup, sent) > MaxRoutingRetries
  {
    sent := 0;
    if end <= start {
      BelowGrows(rows, end, start);
      return Ok(Page([], None)), 0;
    }
    BelowGrows(rows, start, end);
    var curEnd := end;
    var out: seq<Row> := [];
    var remaining := max;
    var regroups := 0;
    var asked := 0;
    while start < curEnd
      invariant start <= curEnd <= end && Below(rows, curEnd) <= Below(rows, end)
      invariant out == Down(rows, Below(rows, curEnd), Below(rows, end))
      invariant regroups == Regroups(regroup, sent) <= MaxRoutingRetries
      invariant if max == 0 then remaining == 0 else remaining == max - |out| && remaining > 0
      decreases ReverseWork(rows, bounds, start, curEnd) + (MaxRoutingRetries - regroups), start < curEnd
    {
      var segStart;
      segStart, asked := LastSegment(start, curEnd, asked, route, bounds, end);
      sent := sent + 1;
      if regroup(sent - 1) {
        regroups := regroups + 1;
        if regroups > MaxRoutingRetries {
          return NotConverged, sent;
        }
        continue;
      }
      var p, next := ReverseSegment(rows, segStart, curEnd, remaining, target(sent - 1));
      DownJoin(rows, Below(rows, next), Below(rows, curEnd), Below(rows, end));
      out := out + p.rows;
      if max > 0 {
        remaining := remaining - |p.rows|;
        if remaining == 0 {
          BelowGrows(rows, start, next);
          r := Ok(Page(out, if p.resume.Some? then p.resume else if start < segStart then Some(segStart) else None));
          ReverseDone(rows, start, end, max, r.page, Below(rows, next));
          return;
        }
      }
      ReverseWorkDrops(rows, bounds, start, curEnd, next);
      curEnd := next;
    }
    r := Ok(Page(out, None));
  }
}
