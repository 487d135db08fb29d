/** Key spans, as latched and as remembered by the timestamp cache. */
module Spans {
  import opened Keys

  /** Point(k) is [k, k.Next()), which holds k alone. */
  datatype Span = Point(start: Key) | Ranged(start: Key, end: Key)

  /** The source's comparison (latchSpan.overlaps and spansOverlap agree). */
  predicate Overlaps(s: Span, o: Span) {
    match (s, o)
    case (Point(p), Point(q)) => p == q
    case (Point(p), Ranged(b, e)) => b <= p < e
    case (Ranged(b, e), Point(p)) => b <= p < e
    case (Ranged(b, e), Ranged(b', e')) => b < e' && b' < e
  }

  predicate Contains(s: Span, k: Key) {
    match s
    case Point(p) => k == p
    case Ranged(b, e) => b <= k < e
  }

  /** A ranged span that holds at least one key. */
  predicate Proper(s: Span) {
    s.Ranged? ==> s.start < s.end
  }

  /** Overlap means a common key. An inverted span has no keys yet may be
      reported as overlapping, so one direction asks for proper spans. */
  lemma OverlapIsCommonKey(s: Span, o: Span)
    ensures (exists k :: Contains(s, k) && Contains(o, k)) ==> Overlaps(s, o)
    ensures Proper(s) && Proper(o) && Overlaps(s, o) ==> exists k :: Contains(s, k) && Contains(o, k)
    ensures Overlaps(s, o) <==> Overlaps(o, s)
  {
    if Proper(s) && Proper(o) && Overlaps(s, o) {
      var k := if s.start < o.start then o.start else s.start;
      assert Contains(s, k) && Contains(o, k);
    }
  }

  predicate OverlapsAny(s: Span, spans: seq<Span>) {
    exists i :: 0 <= i < |spans| && Overlaps(s, spans[i])
  }
}
