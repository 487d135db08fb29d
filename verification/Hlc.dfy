/** Hybrid logical clock timestamps (pkg/util/hlc).

    The other modules reason about timestamps through their rank: the number
    of timestamps below them. This module shows that nothing is lost by it:
    the rank keeps and reflects the order, and the successor adds one. */
module Hlc {

  const MaxWall: int := 0x7FFF_FFFF_FFFF_FFFF
  const MaxLogical: int := 0x7FFF_FFFF

  /** A reading with 64-bit wall time and 32-bit logical ticks, both signed in
      the source and never negative in a reading. */
  datatype Reading = Reading(wall: int, logical: int) {
    predicate Valid() {
      0 <= wall <= MaxWall && 0 <= logical <= MaxLogical
    }

    predicate Less(u: Reading) {
      wall < u.wall || (wall == u.wall && logical < u.logical)
    }

    /** The source's Next: carries into the wall time when the logical part is
        at its largest value. */
    function Next(): Reading {
      if logical == MaxLogical then Reading(wall + 1, 0) else Reading(wall, logical + 1)
    }

    function Forward(u: Reading): Reading {
      if Less(u) then u else this
    }

    function Rank(): int {
      wall * (MaxLogical + 1) + logical
    }
  }

  /** The rank of a reading; zero is the empty timestamp. */
  type Timestamp = nat

  function Next(t: Timestamp): Timestamp { t + 1 }

  function Forward(t: Timestamp, u: Timestamp): Timestamp {
    if t < u then u else t
  }

  lemma RankReflectsOrder(t: Reading, u: Reading)
    requires t.Valid() && u.Valid()
    ensures t.Less(u) <==> t.Rank() < u.Rank()
    ensures t == u <==> t.Rank() == u.Rank()
  {
    if t.wall < u.wall {
      assert (t.wall + 1) * (MaxLogical + 1) <= u.wall * (MaxLogical + 1);
    } else if u.wall < t.wall {
      assert (u.wall + 1) * (MaxLogical + 1) <= t.wall * (MaxLogical + 1);
    }
  }

  /** Next is the least reading strictly above, and ranks one higher: the rank
      of Next is Next of the rank. */
  lemma NextIsLeastAbove(t: Reading, u: Reading)
    requires t.Valid() && u.Valid() && t.wall < MaxWall
    ensures t.Next().Valid() && t.Next().Rank() == Next(t.Rank())
    ensures t.Less(u) <==> t.Next() == u || t.Next().Less(u)
    ensures t.Forward(u).Rank() == Forward(t.Rank(), u.Rank())
  {
    RankReflectsOrder(t, u);
    RankReflectsOrder(t.Next(), u);
  }
}
