/** Garbage collection of MVCC versions (pkg/kvserver/gc.go): what one pass
    enumerates, what deleting all of it preserves, and what deleting a chunk of
    it does not. */
module Gc {
  import opened Keys
  import opened Hlc
  import opened Mvcc

  /** A user key as the snapshot iterator meets it: intent metadata first if
      there is any, then the versions, newest first. */
  datatype Chain = Chain(key: Key, intent: bool, versions: seq<Version>)

  datatype GcVersion = GcVersion(key: Key, ts: Timestamp)

  ghost predicate Snapshot(chains: seq<Chain>) {
    && (forall i, j :: 0 <= i < j < |chains| ==> chains[i].key < chains[j].key)
    && (forall i :: 0 <= i < |chains| ==> Descending(chains[i].versions))
  }

  /** The newest version at or below the threshold: what a read just above it
      sees. */
  ghost predicate Survivor(vs: seq<Version>, n: nat, thr: Timestamp) {
    n < |vs| && vs[n].ts <= thr && forall m :: 0 <= m < n ==> thr < vs[m].ts
  }

  /** The reference definition of garbage at a threshold. */
  ghost predicate Garbage(vs: seq<Version>, n: nat, thr: Timestamp, expire: bool) {
    && n < |vs| && vs[n].ts <= thr
    && (expire || !Survivor(vs, n, thr) || vs[n].value == Tombstone)
  }

  /** The version garbage of one key, newest first. */
  ghost function GarbageOf(c: Chain, upto: nat, thr: Timestamp, expire: bool): seq<GcVersion>
    requires upto <= |c.versions|
  {
    if c.intent || upto == 0 then []
    else
      GarbageOf(c, upto - 1, thr, expire) +
      if Garbage(c.versions, upto - 1, thr, expire) then [GcVersion(c.key, c.versions[upto - 1].ts)] else []
  }

  ghost function AllGarbage(chains: seq<Chain>, upto: nat, thr: Timestamp, expire: bool): seq<GcVersion>
    requires upto <= |chains|
  {
    if upto == 0 then []
    else
      AllGarbage(chains, upto - 1, thr, expire) +
      GarbageOf(chains[upto - 1], |chains[upto - 1].versions|, thr, expire)
  }

  /** enumerateGarbageVersions without a row-expiry predicate: one pass with a
      survivor flag per key. */
  method Enumerate(chains: seq<Chain>, thr: Timestamp, expire: bool) returns (out: seq<GcVersion>)
    requires Snapshot(chains)
    ensures out == AllGarbage(chains, |chains|, thr, expire)
  {
    out := [];
    for i := 0 to |chains|
      invariant out == AllGarbage(chains, i, thr, expire)
    {
      var of := EnumerateKey(chains[i], thr, expire);
      out := out + of;
    }
  }

  method EnumerateKey(c: Chain, thr: Timestamp, expire: bool) returns (out: seq<GcVersion>)
    requires Descending(c.versions)
    ensures out == GarbageOf(c, |c.versions|, thr, expire)
  {
    out := [];
    if c.intent {
      return;
    }
    var survivorSeen := false;
    for n := 0 to |c.versions|
      invariant survivorSeen <==> !expire && exists m :: 0 <= m < n && c.versions[m].ts <= thr
      invariant out == GarbageOf(c, n, thr, expire)
    {
      if c.versions[n].ts <= thr {
        if survivorSeen || expire {
          out := out + [GcVersion(c.key, c.versions[n].ts)];
        } else {
          survivorSeen := true;
          if c.versions[n].value == Tombstone {
            out := out + [GcVersion(c.key, c.versions[n].ts)];
          }
        }
      }
    }
  }

  // ---- the effect of deleting ----

  /** The versions left after the named ones are deleted. */
  function Delete(c: Chain, gone: seq<GcVersion>): (r: seq<Version>) {
    Keep(c.key, c.versions, gone)
  }

  function Keep(key: Key, vs: seq<Version>, gone: seq<GcVersion>): (r: seq<Version>) {
    if vs == [] then []
    else
      (if GcVersion(key, vs[0].ts) in gone then [] else [vs[0]]) + Keep(key, vs[1..], gone)
  }

  lemma {:induction false} KeepMember(key: Key, vs: seq<Version>, gone: seq<GcVersion>, x: Version)
    ensures x in Keep(key, vs, gone) <==> x in vs && GcVersion(key, x.ts) !in gone
  {
    if vs != [] {
      var rest := vs[1..];
      KeepMember(key, rest, gone, x);
      assert vs == [vs[0]] + rest;
    }
  }

  lemma {:induction false} KeepDescends(key: Key, vs: seq<Version>, gone: seq<GcVersion>)
    requires Descending(vs)
    ensures Descending(Keep(key, vs, gone))
  {
    if vs != [] {
      var left := Keep(key, vs[1..], gone);
      KeepDescends(key, vs[1..], gone);
      forall i | 0 <= i < |left| ensures left[i].ts < vs[0].ts {
        KeepMember(key, vs[1..], gone, left[i]);
      }
    }
  }

  lemma KeepMembers(key: Key, vs: seq<Version>, gone: seq<GcVersion>)
    requires Descending(vs)
    ensures Descending(Keep(key, vs, gone))
    ensures forall x :: x in Keep(key, vs, gone) <==> x in vs && GcVersion(key, x.ts) !in gone
  {
    KeepDescends(key, vs, gone);
    forall x ensures x in Keep(key, vs, gone) <==> x in vs && GcVersion(key, x.ts) !in gone {
      KeepMember(key, vs, gone, x);
    }
  }

  /** Membership in one key's enumerated garbage, position by position. */
  lemma {:induction false} GarbageOfMembers(c: Chain, upto: nat, thr: Timestamp, expire: bool, g: GcVersion)
    requires upto <= |c.versions|
    ensures g in GarbageOf(c, upto, thr, expire) <==>
            !c.intent && g.key == c.key &&
            exists n :: 0 <= n < upto && Garbage(c.versions, n, thr, expire) && c.versions[n].ts == g.ts
  {
    if !c.intent && upto > 0 {
      GarbageOfMembers(c, upto - 1, thr, expire, g);
      if Garbage(c.versions, upto - 1, thr, expire) && g == GcVersion(c.key, c.versions[upto - 1].ts) {
        assert g in GarbageOf(c, upto, thr, expire);
      }
    }
  }

  lemma {:induction false} AllGarbageMembers(chains: seq<Chain>, upto: nat, thr: Timestamp, expire: bool, g: GcVersion)
    requires upto <= |chains|
    ensures g in AllGarbage(chains, upto, thr, expire) <==>
            exists i :: 0 <= i < upto && g in GarbageOf(chains[i], |chains[i].versions|, thr, expire)
  {
    if upto > 0 {
      AllGarbageMembers(chains, upto - 1, thr, expire, g);
    }
  }

  /** Within a snapshot, a key's garbage in the whole pass is its own garbage. */
  lemma PassIsPerKey(chains: seq<Chain>, i: nat, thr: Timestamp, expire: bool, ts: Timestamp)
    requires Snapshot(chains) && i < |chains|
    ensures GcVersion(chains[i].key, ts) in AllGarbage(chains, |chains|, thr, expire) <==>
            GcVersion(chains[i].key, ts) in GarbageOf(chains[i], |chains[i].versions|, thr, expire)
  {
    var g := GcVersion(chains[i].key, ts);
    AllGarbageMembers(chains, |chains|, thr, expire, g);
    forall j | 0 <= j < |chains| && g in GarbageOf(chains[j], |chains[j].versions|, thr, expire) ensures j == i {
      GarbageOfMembers(chains[j], |chains[j].versions|, thr, expire, g);
    }
  }

  /** A key with an intent in the snapshot is never touched, whatever it holds
      when the deletion applies. */
  lemma IntentsUntouched(chains: seq<Chain>, i: nat, thr: Timestamp, expire: bool, now: seq<Version>)
    requires Snapshot(chains) && i < |chains| && chains[i].intent
    ensures Keep(chains[i].key, now, AllGarbage(chains, |chains|, thr, expire)) == now
  {
    var gone := AllGarbage(chains, |chains|, thr, expire);
    forall ts ensures GcVersion(chains[i].key, ts) !in gone {
      PassIsPerKey(chains, i, thr, expire, ts);
      GarbageOfMembers(chains[i], |chains[i].versions|, thr, expire, GcVersion(chains[i].key, ts));
    }
    KeepNothingGone(chains[i].key, now, gone);
  }

  lemma {:induction false} KeepNothingGone(key: Key, vs: seq<Version>, gone: seq<GcVersion>)
    requires forall ts :: GcVersion(key, ts) !in gone
    ensures Keep(key, vs, gone) == vs
  {
    if vs != [] {
      KeepNothingGone(key, vs[1..], gone);
      assert vs == [vs[0]] + vs[1..];
    }
  }

  // ---- reads at and above the threshold ----

  /** The read at t, given the newest version at or below it. */
  lemma {:induction false} VisibleMax(vs: seq<Version>, y: Version, t: Timestamp)
    requires Descending(vs) && y in vs && y.ts <= t
    requires forall x :: x in vs && x.ts <= t ==> x.ts <= y.ts
    ensures Visible(vs, t) == y.value
  {
    if vs[0].ts <= t {
      assert vs[0] in vs;
    } else {
      assert forall x :: x in vs[1..] ==> x in vs;
      VisibleMax(vs[1..], y, t);
    }
  }

  lemma {:induction false} VisibleNone(vs: seq<Version>, t: Timestamp)
    requires forall x :: x in vs ==> t < x.ts
    ensures Visible(vs, t) == Tombstone
  {
    if vs != [] {
      assert vs[0] in vs;
      VisibleNone(vs[1..], t);
    }
  }

  /** Histories that agree above the threshold and read alike at it read alike
      everywhere above it. */
  lemma {:induction false} VisibleAbove(vs: seq<Version>, rest: seq<Version>, thr: Timestamp, t: Timestamp)
    requires Descending(vs) && Descending(rest) && thr <= t
    requires forall x: Version :: thr < x.ts ==> (x in vs <==> x in rest)
    requires Visible(vs, thr) == Visible(rest, thr)
    ensures Visible(vs, t) == Visible(rest, t)
    decreases |vs|
  {
    if vs != [] && thr < vs[0].ts {
      assert vs[0] in rest && rest[0] in rest;
      assert rest[0] == vs[0];
      if t < vs[0].ts {
        forall x: Version | thr < x.ts ensures x in vs[1..] <==> x in rest[1..] {
          assert x in vs <==> x == vs[0] || x in vs[1..];
          assert x in rest <==> x == rest[0] || x in rest[1..];
        }
        VisibleAbove(vs[1..], rest[1..], thr, t);
      }
    } else {
      assert rest != [] ==> rest[0] in rest && rest[0].ts <= thr;
    }
  }

  lemma {:induction false} SurvivorOrNone(vs: seq<Version>, thr: Timestamp) returns (s: nat)
    requires Descending(vs)
    ensures s <= |vs| && (s < |vs| ==> Survivor(vs, s, thr))
    ensures s == |vs| ==> forall x :: x in vs ==> thr < x.ts
  {
    s := 0;
    while s < |vs| && thr < vs[s].ts
      invariant s <= |vs| && forall m :: 0 <= m < s ==> thr < vs[m].ts
    {
      s := s + 1;
    }
  }

  /** What a key still holds after the garbage among its first n versions. */
  ghost predicate CutOf(vs: seq<Version>, n: nat, thr: Timestamp, rest: seq<Version>) {
    && Descending(rest)
    && (forall x :: x in rest ==> x in vs)
    && (forall m: nat :: m < |vs| ==> (vs[m] in rest <==> n <= m || !Garbage(vs, m, thr, false)))
  }

  lemma CutIsCut(c: Chain, n: nat, thr: Timestamp)
    requires Descending(c.versions) && !c.intent && n <= |c.versions|
    ensures CutOf(c.versions, n, thr, Delete(c, GarbageOf(c, n, thr, false)))
  {
    var vs, gone := c.versions, GarbageOf(c, n, thr, false);
    KeepMembers(c.key, vs, gone);
    forall m: nat | m < |vs| ensures vs[m] in Keep(c.key, vs, gone) <==> n <= m || !Garbage(vs, m, thr, false) {
      GarbageOfMembers(c, n, thr, false, GcVersion(c.key, vs[m].ts));
    }
  }

  /** The survivor is the newest at or below the threshold. */
  lemma SurvivorIsMax(vs: seq<Version>, s: nat, thr: Timestamp, x: Version)
    requires Descending(vs) && Survivor(vs, s, thr) && x in vs && x.ts <= thr
    ensures x.ts <= vs[s].ts
  {
    var m :| 0 <= m < |vs| && vs[m] == x;
    assert m >= s;
  }

  lemma SurvivorRead(vs: seq<Version>, rest: seq<Version>, s: nat, thr: Timestamp)
    requires Descending(vs) && Descending(rest) && Survivor(vs, s, thr) && vs[s] in rest
    requires forall x :: x in rest ==> x in vs
    ensures Visible(rest, thr) == vs[s].value
  {
    forall x | x in rest && x.ts <= thr ensures x.ts <= vs[s].ts {
      SurvivorIsMax(vs, s, thr, x);
    }
    VisibleMax(rest, vs[s], thr);
  }

  /** Below a deleted survivor only the versions the cut did not reach stay. */
  lemma Unreached(vs: seq<Version>, rest: seq<Version>, n: nat, s: nat, thr: Timestamp, x: Version)
    requires Descending(vs) && CutOf(vs, n, thr, rest) && s < n <= |vs|
    requires Survivor(vs, s, thr) && vs[s].value == Tombstone && x in rest && x.ts <= thr
    ensures n < |vs| && x.ts <= vs[n].ts
  {
    var m: nat :| m < |vs| && vs[m] == x;
    assert vs[m] in rest && m >= s;
    assert m >= n;
  }

  lemma CutReadDeep(vs: seq<Version>, rest: seq<Version>, n: nat, s: nat, thr: Timestamp)
    requires Descending(vs) && CutOf(vs, n, thr, rest) && s < n <= |vs|
    requires Survivor(vs, s, thr) && vs[s].value == Tombstone
    ensures Visible(rest, thr) == if n < |vs| then vs[n].value else Tombstone
  {
    forall x | x in rest && x.ts <= thr ensures n < |vs| && x.ts <= vs[n].ts {
      Unreached(vs, rest, n, s, thr, x);
    }
    if n < |vs| {
      assert vs[n] in rest && vs[n].ts <= thr;
      VisibleMax(rest, vs[n], thr);
    } else {
      VisibleNone(rest, thr);
    }
  }

  lemma ExposesWhen(vs: seq<Version>, n: nat, s: nat, thr: Timestamp)
    requires Descending(vs) && Survivor(vs, s, thr)
    ensures CutExposes(vs, n, thr) <==> n < |vs| && s < n && vs[s].value == Tombstone && vs[n].value.Live?
  {
    if CutExposes(vs, n, thr) {
      var r :| 0 <= r < n && Survivor(vs, r, thr) && vs[r].value == Tombstone;
      assert r == s;
    }
  }

  /** The threshold read after a cut at n: unchanged, unless the survivor is a
      deleted tombstone, when the next version left shows. */
  lemma CutRead(vs: seq<Version>, rest: seq<Version>, n: nat, thr: Timestamp)
    requires Descending(vs) && CutOf(vs, n, thr, rest) && n <= |vs|
    ensures Visible(rest, thr) == if CutExposes(vs, n, thr) then vs[n].value else Visible(vs, thr)
  {
    var s := SurvivorOrNone(vs, thr);
    if s == |vs| {
      VisibleNone(vs, thr);
      VisibleNone(rest, thr);
    } else {
      SurvivorRead(vs, vs, s, thr);
      ExposesWhen(vs, n, s, thr);
      if vs[s] in rest {
        SurvivorRead(vs, rest, s, thr);
      } else {
        CutReadDeep(vs, rest, n, s, thr);
      }
    }
  }

  // ---- the whole pass, and chunks of it ----

  /** Version n of the key is live and lies under the tombstone the pass
      deletes as the key's survivor. */
  ghost predicate CutExposes(vs: seq<Version>, n: nat, thr: Timestamp) {
    && n < |vs| && vs[n].value.Live? && vs[n].ts <= thr
    && exists s :: 0 <= s < n && Survivor(vs, s, thr) && vs[s].value == Tombstone
  }

  /** What a key may hold when the deletion applies of the garbage among the
      first n of the versions it had in the snapshot: at or below the threshold
      nothing new, everything that is no garbage, and the same read. Writes
      and resolutions above the threshold and earlier chunks leave it so. */
  ghost predicate Meets(c: Chain, n: nat, thr: Timestamp, now: seq<Version>)
    requires n <= |c.versions|
  {
    && Descending(now) && Visible(now, thr) == Visible(c.versions, thr)
    && (forall x: Version :: x in now && x.ts <= thr ==> x in c.versions)
    && (forall x :: x in Delete(c, GarbageOf(c, n, thr, false)) && x.ts <= thr ==> x in now)
  }

  /** At and below the threshold the deletion leaves of that what it would have
      left of the snapshot. */
  lemma MeetsBelow(c: Chain, n: nat, thr: Timestamp, now: seq<Version>)
    requires Descending(c.versions) && n <= |c.versions| && Meets(c, n, thr, now)
    ensures var gone := GarbageOf(c, n, thr, false);
            && Descending(Keep(c.key, now, gone))
            && Visible(Keep(c.key, now, gone), thr) == Visible(Delete(c, gone), thr)
  {
    var gone := GarbageOf(c, n, thr, false);
    KeepMembers(c.key, now, gone);
    KeepMembers(c.key, c.versions, gone);
    VisibleBelow(Keep(c.key, now, gone), Delete(c, gone), thr);
  }

  lemma KeepAbove(c: Chain, n: nat, thr: Timestamp, now: seq<Version>, x: Version)
    requires Descending(now) && n <= |c.versions| && thr < x.ts
    ensures x in now <==> x in Keep(c.key, now, GarbageOf(c, n, thr, false))
  {
    KeepMember(c.key, now, GarbageOf(c, n, thr, false), x);
    GarbageOfMembers(c, n, thr, false, GcVersion(c.key, x.ts));
  }

  /** A pass is proposed in chunks. When version n of a key is the first one
      the chunks so far did not reach, every read at or above the threshold is
      kept if and only if the cut does not expose that version. */
  lemma ChunkCutPreservesIff(c: Chain, n: nat, thr: Timestamp, now: seq<Version>)
    requires Descending(c.versions) && !c.intent && n <= |c.versions| && Meets(c, n, thr, now)
    ensures (forall t :: thr <= t ==> Visible(Keep(c.key, now, GarbageOf(c, n, thr, false)), t) == Visible(now, t)) <==>
            !CutExposes(c.versions, n, thr)
  {
    var vs, rest := c.versions, Keep(c.key, now, GarbageOf(c, n, thr, false));
    MeetsBelow(c, n, thr, now);
    CutIsCut(c, n, thr);
    CutRead(vs, Delete(c, GarbageOf(c, n, thr, false)), n, thr);
    if CutExposes(vs, n, thr) {
      var s :| 0 <= s < n && Survivor(vs, s, thr) && vs[s].value == Tombstone;
      SurvivorRead(vs, vs, s, thr);
      assert Visible(rest, thr) != Visible(now, thr);
    } else {
      forall t | thr <= t ensures Visible(rest, t) == Visible(now, t) {
        forall x: Version | thr < x.ts ensures x in now <==> x in rest {
          KeepAbove(c, n, thr, now, x);
        }
        VisibleAbove(now, rest, thr, t);
      }
    }
  }

  /** A tombstone over a live version, cut between the two: what was deleted at
      the threshold is back. */
  lemma CutBringsBack(key: Key, thr: Timestamp, data: nat)
    requires thr > 0
    ensures var c := Chain(key, false, [Version(thr, Tombstone), Version(thr - 1, Live(data))]);
            && CutExposes(c.versions, 1, thr) && Visible(c.versions, thr) == Tombstone
            && Visible(Delete(c, GarbageOf(c, 1, thr, false)), thr) == Live(data)
  {
    var c := Chain(key, false, [Version(thr, Tombstone), Version(thr - 1, Live(data))]);
    assert Survivor(c.versions, 0, thr);
    CutIsCut(c, 1, thr);
    CutRead(c.versions, Delete(c, GarbageOf(c, 1, thr, false)), 1, thr);
  }

  lemma {:induction false} KeepCongruent(key: Key, vs: seq<Version>, a: seq<GcVersion>, b: seq<GcVersion>)
    requires forall ts :: GcVersion(key, ts) in a <==> GcVersion(key, ts) in b
    ensures Keep(key, vs, a) == Keep(key, vs, b)
  {
    if vs != [] {
      KeepCongruent(key, vs[1..], a, b);
    }
  }

  /** Deleting everything a pass enumerated leaves every read of every key at
      or above the threshold as it was when the deletion applies. */
  lemma PassPreservesReads(chains: seq<Chain>, i: nat, thr: Timestamp, now: seq<Version>, t: Timestamp)
    requires Snapshot(chains) && i < |chains| && thr <= t
    requires chains[i].intent || Meets(chains[i], |chains[i].versions|, thr, now)
    ensures Visible(Keep(chains[i].key, now, AllGarbage(chains, |chains|, thr, false)), t) == Visible(now, t)
  {
    var c, all := chains[i], AllGarbage(chains, |chains|, thr, false);
    if c.intent {
      IntentsUntouched(chains, i, thr, false, now);
    } else {
      var own := GarbageOf(c, |c.versions|, thr, false);
      forall ts ensures GcVersion(c.key, ts) in all <==> GcVersion(c.key, ts) in own {
        PassIsPerKey(chains, i, thr, false, ts);
      }
      KeepCongruent(c.key, now, all, own);
      ChunkCutPreservesIff(c, |c.versions|, thr, now);
    }
  }

  /** Nothing more could go: of a key with no intent, a version the pass keeps
      at or below the threshold is the survivor, and a read shows it. */
  lemma PassIsComplete(chains: seq<Chain>, i: nat, thr: Timestamp, n: nat)
    requires Snapshot(chains) && i < |chains| && !chains[i].intent && n < |chains[i].versions|
    requires chains[i].versions[n].ts <= thr
    requires chains[i].versions[n] in Delete(chains[i], AllGarbage(chains, |chains|, thr, false))
    ensures chains[i].versions[n].value.Live? && Visible(chains[i].versions, thr) == chains[i].versions[n].value
  {
    var c, all := chains[i], AllGarbage(chains, |chains|, thr, false);
    KeepMembers(c.key, c.versions, all);
    PassIsPerKey(chains, i, thr, false, c.versions[n].ts);
    GarbageOfMembers(c, |c.versions|, thr, false, GcVersion(c.key, c.versions[n].ts));
    VisibleMax(c.versions, c.versions[n], thr);
  }
}
