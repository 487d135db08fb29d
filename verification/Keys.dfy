/** The key order of pkg/keys: byte strings compared as bytes.Compare does.

    Range bounds and spans only ever compare keys, so the other modules take a
    key by its position on the real line. Rank is that position, and RankOrder
    shows it keeps and reflects the order, so a statement about every real
    position covers every byte string. */
module Keys {

  type Byte = b: int | 0 <= b < 256
  type RawKey = seq<Byte>

  /** The position of a raw key. */
  type Key = real

  const MinKey: RawKey := [2]
  const MaxKey: RawKey := [0xff]

  method Pick<T(==)>(s: set<T>) returns (k: T)
    requires s != {}
    ensures k in s
  {
    k :| k in s;
  }

  predicate Less(a: RawKey, b: RawKey)
    decreases |a|
  {
    if b == [] then false
    else if a == [] then true
    else a[0] < b[0] || (a[0] == b[0] && Less(a[1..], b[1..]))
  }

  predicate HasPrefix(k: RawKey, p: RawKey) {
    |p| <= |k| && k[..|p|] == p
  }

  function Next(k: RawKey): RawKey { k + [0] }

  function Rank(k: RawKey): (r: Key)
    ensures 0.0 <= r < 1.0
    ensures k != [] ==> 0.0 < r
    decreases |k|
  {
    if k == [] then 0.0 else (1.0 + k[0] as real + Rank(k[1..])) / 257.0
  }

  lemma {:induction false} RankOrder(a: RawKey, b: RawKey)
    ensures Less(a, b) <==> Rank(a) < Rank(b)
    ensures a == b <==> Rank(a) == Rank(b)
    decreases |a|
  {
    if a != [] && b != [] {
      RankOrder(a[1..], b[1..]);
      assert a == [a[0]] + a[1..] && b == [b[0]] + b[1..];
      var x, y := 1.0 + a[0] as real + Rank(a[1..]), 1.0 + b[0] as real + Rank(b[1..]);
      assert Rank(a) == x / 257.0 && Rank(b) == y / 257.0;
    }
  }

  /** Less is a strict total order on byte strings. */
  lemma LessIsTotalOrder(a: RawKey, b: RawKey, c: RawKey)
    ensures !Less(a, a)
    ensures Less(a, b) || a == b || Less(b, a)
    ensures Less(a, b) && Less(b, c) ==> Less(a, c)
  {
    RankOrder(a, a);
    RankOrder(a, b);
    RankOrder(b, a);
    RankOrder(b, c);
    RankOrder(a, c);
  }

  /** Next is the immediate successor: nothing lies strictly between. */
  lemma {:induction false} NextIsSuccessor(k: RawKey, x: RawKey)
    ensures Less(k, Next(k))
    ensures Less(k, x) <==> x == Next(k) || Less(Next(k), x)
    decreases |k|
  {
    if k == [] {
      assert Next(k) == [0];
      if x != [] {
        assert x == [x[0]] + x[1..];
        assert Less([], x[1..]) <==> x[1..] != [];
      }
    } else {
      assert Next(k)[1..] == Next(k[1..]);
      if x == [] {
        NextIsSuccessor(k[1..], []);
      } else {
        NextIsSuccessor(k[1..], x[1..]);
        assert x == [x[0]] + x[1..];
        assert Next(k) == [k[0]] + Next(k[1..]);
      }
    }
  }

  predicate AllOnes(k: RawKey) {
    forall i :: 0 <= i < |k| ==> k[i] == 0xff
  }

  /** Keys sharing a prefix compare as what follows it. */
  lemma {:induction false} SharedPrefix(p: RawKey, a: RawKey, b: RawKey)
    ensures Less(p + a, p + b) <==> Less(a, b)
    decreases |p|
  {
    if p == [] {
      assert p + a == a && p + b == b;
    } else {
      assert (p + a)[1..] == p[1..] + a && (p + b)[1..] == p[1..] + b;
      SharedPrefix(p[1..], a, b);
    }
  }

  /** A key that leaves the prefix p + [b] + ones compares with it as its
      first differing byte does. */
  lemma {:induction false} PrefixInterval(p: RawKey, b: Byte, ones: RawKey, x: RawKey)
    requires b < 255 && AllOnes(ones)
    ensures HasPrefix(x, p + [b] + ones) <==>
            !Less(x, p + [b] + ones) && Less(x, p + [b + 1])
    decreases |p|
  {
    var k, end := p + [b] + ones, p + [b + 1];
    if p != [] {
      assert k == [p[0]] + (p[1..] + [b] + ones);
      assert end == [p[0]] + (p[1..] + [b + 1]);
      assert k[1..] == p[1..] + [b] + ones && end[1..] == p[1..] + [b + 1];
      if x != [] {
        PrefixInterval(p[1..], b, ones, x[1..]);
        assert x == [x[0]] + x[1..];
        assert HasPrefix(x, k) <==> x[0] == p[0] && HasPrefix(x[1..], k[1..]) by {
          PrefixStep(x, k);
        }
      }
    } else {
      assert k == [b] + ones && end == [b + 1];
      assert k[1..] == ones && end[1..] == [];
      if x != [] {
        OnesAreLargest(ones, x[1..]);
        assert HasPrefix(x, k) <==> x[0] == b && HasPrefix(x[1..], ones) by {
          PrefixStep(x, k);
        }
      }
    }
  }

  lemma PrefixStep(x: RawKey, k: RawKey)
    requires x != [] && k != []
    ensures HasPrefix(x, k) <==> x[0] == k[0] && HasPrefix(x[1..], k[1..])
  {
    if x[0] == k[0] && HasPrefix(x[1..], k[1..]) {
      assert x[..|k|] == [x[0]] + x[1..][..|k| - 1];
      assert k == [k[0]] + k[1..];
    }
    if HasPrefix(x, k) {
      assert x[1..][..|k| - 1] == x[..|k|][1..];
    }
  }

  /** No key lies above every extension of a run of 0xff bytes. */
  lemma {:induction false} OnesAreLargest(ones: RawKey, x: RawKey)
    requires AllOnes(ones)
    ensures HasPrefix(x, ones) <==> !Less(x, ones)
    decreases |ones|
  {
    if ones != [] && x != [] {
      OnesAreLargest(ones[1..], x[1..]);
      PrefixStep(x, ones);
    }
  }

  /** The end of the span of keys with prefix k: the last byte below 0xff goes
      up by one and what follows it is dropped. A key made of 0xff bytes only
      (the empty key among them) has no such end and gets MaxKey. */
  method PrefixEnd(k: RawKey) returns (end: RawKey)
    ensures !AllOnes(k) ==> forall x :: HasPrefix(x, k) <==> !Less(x, k) && Less(x, end)
    ensures AllOnes(k) ==> end == MaxKey
  {
    var i := |k|;
    while i > 0
      invariant 0 <= i <= |k|
      invariant AllOnes(k[i..])
    {
      i := i - 1;
      if k[i] != 0xff {
        end := k[..i] + [k[i] + 1];
        forall x ensures HasPrefix(x, k) <==> !Less(x, k) && Less(x, end) {
          assert k == k[..i] + [k[i]] + k[i + 1..];
          PrefixInterval(k[..i], k[i], k[i + 1..], x);
        }
        return;
      }
    }
    assert k[0..] == k;
    end := MaxKey;
  }

  /** The source calls PrefixEnd the smallest key above every key with the
      prefix. For a key of 0xff bytes nothing is: each such key has extensions
      that MaxKey does not bound. */
  lemma OnesHaveNoEnd(k: RawKey)
    requires AllOnes(k)
    ensures exists x :: HasPrefix(x, k) && !Less(x, MaxKey)
  {
    var x := if k == [] then [0xff] else k;
    assert x[..|k|] == k;
    OnesAreLargest(MaxKey, x);
    assert x[..1] == MaxKey;
    assert HasPrefix(x, k) && !Less(x, MaxKey);
  }

  // ---- range addressing keys ----

  function RangeMetaKey(endKey: RawKey): RawKey { [2] + endKey }

  /** The lookup key for k, the successor of k's own meta key, admits exactly
      the records of ranges that end strictly beyond k, and meta keys sort as
      the end keys they carry. */
  lemma MetaKeyOrder(k: RawKey, e: RawKey, f: RawKey)
    ensures !Less(RangeMetaKey(e), Next(RangeMetaKey(k))) <==> Less(k, e)
    ensures Less(RangeMetaKey(e), RangeMetaKey(f)) <==> Less(e, f)
  {
    SharedPrefix([2], e, f);
    SharedPrefix([2], e, Next(k));
    assert Next(RangeMetaKey(k)) == [2] + Next(k);
    NextIsSuccessor(k, e);
    LessIsTotalOrder(e, Next(k), e);
    LessIsTotalOrder(Next(k), e, Next(k));
  }
}
