/** Binary NUMERIC (pkg/pgwire/numeric.go): base-10000 groups with the exponent
    of the first one, and the decimal text they stand for. */
module Numeric {

  type Byte = x: int | 0 <= x < 256

  datatype Result<T> = Ok(value: T) | Err

  const MaxDigits: int := 1000
  const MaxWeight: int := MaxDigits / 4 + 1

  // ---- digits ----

  predicate IsDigit(c: char) { '0' <= c <= '9' }

  predicate AllDigits(s: string) { forall i :: 0 <= i < |s| ==> IsDigit(s[i]) }

  function DigitOf(c: char): (d: nat)
    requires IsDigit(c)
    ensures d < 10
  {
    c as int - '0' as int
  }

  function CharOf(d: nat): (c: char)
    requires d < 10
    ensures IsDigit(c) && DigitOf(c) == d
  {
    ('0' as int + d) as char
  }

  lemma CharOfDigit(c: char)
    requires IsDigit(c)
    ensures CharOf(DigitOf(c)) == c
  {
  }

  function Pow10(n: nat): (p: nat)
    ensures p > 0
  {
    if n == 0 then 1 else 10 * Pow10(n - 1)
  }

  /** The value of the n digits at a position; toGroup takes four. */
  function ValueAt(s: string, at: nat, n: nat): (v: nat)
    requires at + n <= |s| && AllDigits(s)
    ensures v < Pow10(n)
  {
    if n == 0 then 0 else ValueAt(s, at, n - 1) * 10 + DigitOf(s[at + n - 1])
  }

  /** The last n digits of a value, zeros in front. */
  function Digits(v: nat, n: nat): (s: string)
    ensures |s| == n
  {
    if n == 0 then "" else Digits(v / 10, n - 1) + [CharOf(v % 10)]
  }

  lemma {:induction false} DigitsOfValue(s: string, at: nat, n: nat)
    requires at + n <= |s| && AllDigits(s)
    ensures Digits(ValueAt(s, at, n), n) == s[at..at + n]
  {
    if n > 0 {
      DigitsOfValue(s, at, n - 1);
      CharOfDigit(s[at + n - 1]);
      var v, h := ValueAt(s, at, n), ValueAt(s, at, n - 1);
      assert v / 10 == h && v % 10 == DigitOf(s[at + n - 1]);
      assert s[at..at + n] == s[at..at + n - 1] + [s[at + n - 1]];
    }
  }

  lemma {:induction false} DigitsNonzero(v: nat, n: nat)
    requires 0 < v < Pow10(n)
    ensures exists i :: 0 <= i < n && Digits(v, n)[i] != '0'
  {
    if v % 10 != 0 {
      assert DigitOf(Digits(v, n)[n - 1]) != 0;
      assert Digits(v, n)[n - 1] != '0';
    } else {
      DigitsNonzero(v / 10, n - 1);
      var i :| 0 <= i < n - 1 && Digits(v / 10, n - 1)[i] != '0';
      assert Digits(v, n)[i] != '0';
    }
  }

  lemma {:induction false} DigitsOfZero(n: nat)
    ensures forall i :: 0 <= i < n ==> Digits(0, n)[i] == '0'
  {
    if n > 0 {
      DigitsOfZero(n - 1);
    }
  }

  /** The four digits of a group. */
  function Four(v: nat): (s: string)
    ensures |s| == 4
  {
    Digits(v, 4)
  }

  lemma GroupIsSmall(v: nat)
    requires v < Pow10(4)
    ensures v < 10000
  {
    assert Pow10(1) == 10 && Pow10(2) == 100 && Pow10(3) == 1000;
  }

  lemma SmallIsGroup(v: nat)
    requires v < 10000
    ensures v < Pow10(4)
  {
    assert Pow10(1) == 10 && Pow10(2) == 100 && Pow10(3) == 1000;
  }

  /** The %04d of a 16-bit value: four digits, five from 10000 on. */
  function Padded(v: nat): (s: string)
    requires v < 0x1_0000
    ensures 4 <= |s| <= 5
  {
    if v < 10000 then Four(v) else Four(v / 10) + [CharOf(v % 10)]
  }

  /** Leading zeros go, but one digit stays. */
  function Strip(s: string): string {
    if |s| > 1 && s[0] == '0' then Strip(s[1..]) else s
  }

  /** The %d of a 16-bit value. */
  function Plain(v: nat): string
    requires v < 0x1_0000
  {
    Strip(Padded(v))
  }

  lemma {:induction false} StripZeros(z: string, s: string)
    requires s != "" && forall i :: 0 <= i < |z| ==> z[i] == '0'
    ensures Strip(z + s) == Strip(s)
  {
    if z == "" {
      assert z + s == s;
    } else {
      assert (z + s)[1..] == z[1..] + s && (z + s)[0] == '0';
      StripZeros(z[1..], s);
    }
  }

  lemma {:induction false} StripTail(s: string, t: string)
    requires s != "" && exists i :: 0 <= i < |s| && s[i] != '0'
    ensures Strip(s + t) == Strip(s) + t
  {
    if s[0] != '0' {
      assert (s + t)[0] == s[0];
    } else {
      assert |s| > 1;
      assert (s + t)[1..] == s[1..] + t;
      var i :| 0 <= i < |s| && s[i] != '0';
      assert s[1..][i - 1] != '0';
      StripTail(s[1..], t);
    }
  }

  lemma {:induction false} StripAllZeros(s: string)
    requires s != "" && forall i :: 0 <= i < |s| ==> s[i] == '0'
    ensures Strip(s) == "0"
  {
    if |s| > 1 {
      StripAllZeros(s[1..]);
    }
  }

  // ---- the value on the wire ----

  datatype Wire = Wire(weight: int, neg: bool, dscale: nat, groups: seq<nat>) {
    /** decodePGNumeric's group: zero outside. */
    function At(i: int): nat { if 0 <= i < |groups| then groups[i] else 0 }

    predicate Sixteen() { forall i :: 0 <= i < |groups| ==> groups[i] < 0x1_0000 }
  }

  /** The first n groups of the integer part. */
  function IntText(w: Wire, n: nat): string
    requires w.Sixteen()
  {
    if n == 0 then ""
    else if n == 1 then Plain(w.At(0))
    else IntText(w, n - 1) + Padded(w.At(n - 1))
  }

  /** A character after the point: the groups there show four each. */
  function FracChar(w: Wire, i: nat): char
    requires w.Sixteen()
  {
    Padded(w.At(w.weight + 1 + i / 4))[i % 4]
  }

  function FracText(w: Wire, m: nat): string
    requires w.Sixteen()
  {
    seq(m, i requires 0 <= i && w.Sixteen() => FracChar(w, i))
  }

  function Text(w: Wire): string
    requires w.Sixteen()
  {
    (if w.neg then "-" else "") +
    (if w.weight < 0 then "0" else IntText(w, w.weight + 1)) +
    (if w.dscale > 0 then "." + FracText(w, w.dscale) else "")
  }

  // ---- parsing and grouping ----

  datatype Decimal = Decimal(neg: bool, whole: string, frac: string)

  function IndexOfDot(s: string, i: nat): (n: nat)
    requires i <= |s|
    ensures i <= n <= |s|
    decreases |s| - i
  {
    if i == |s| || s[i] == '.' then i else IndexOfDot(s, i + 1)
  }

  /** Sign, integer part and fraction, the digits not yet judged. */
  function Split(s: string): Decimal {
    var neg := |s| > 0 && s[0] == '-';
    var body := if neg then s[1..] else s;
    var dot := IndexOfDot(body, 0);
    Decimal(neg, body[..dot], if dot < |body| then body[dot + 1..] else "")
  }

  predicate Accepted(d: Decimal) { d.whole != "" && AllDigits(d.whole) && AllDigits(d.frac) }

  function Zeros(n: nat): (s: string)
    ensures |s| == n
  {
    if n == 0 then "" else Zeros(n - 1) + "0"
  }

  predicate AllZeros(s: string) { forall i :: 0 <= i < |s| ==> s[i] == '0' }

  lemma {:induction false} ZerosAreZeros(n: nat)
    ensures AllZeros(Zeros(n))
  {
    if n > 0 {
      ZerosAreZeros(n - 1);
    }
  }

  function PadLength(n: nat): (k: nat)
    ensures k < 4 && (n + k) % 4 == 0
  {
    (4 - n % 4) % 4
  }

  function PadLeftOf(s: string): (r: string)
    ensures |r| == |s| + PadLength(|s|)
  {
    Zeros(PadLength(|s|)) + s
  }

  function PadRightOf(s: string): (r: string)
    ensures |r| == |s| + PadLength(|s|)
  {
    s + Zeros(PadLength(|s|))
  }

  lemma PaddedAreDigits(s: string)
    requires AllDigits(s)
    ensures AllDigits(PadLeftOf(s)) && AllDigits(PadRightOf(s))
  {
    ZerosAreZeros(PadLength(|s|));
  }

  /** The first n groups of four digits. */
  function Groups(s: string, n: nat): (g: seq<nat>)
    requires 4 * n <= |s| && AllDigits(s)
    ensures |g| == n
  {
    if n == 0 then [] else Groups(s, n - 1) + [ValueAt(s, 4 * n - 4, 4)]
  }

  lemma {:induction false} GroupAt(s: string, n: nat, k: nat)
    requires 4 * n <= |s| && AllDigits(s) && k < n
    ensures Groups(s, n)[k] == ValueAt(s, 4 * k, 4)
  {
    if k < n - 1 {
      GroupAt(s, n - 1, k);
    }
  }

  function IntGroups(d: Decimal): (g: seq<nat>)
    requires Accepted(d)
    ensures 4 * |g| == |PadLeftOf(d.whole)|
  {
    PaddedAreDigits(d.whole);
    Groups(PadLeftOf(d.whole), |PadLeftOf(d.whole)| / 4)
  }

  function FracGroups(d: Decimal): (g: seq<nat>)
    requires Accepted(d)
    ensures 4 * |g| == |PadRightOf(d.frac)|
  {
    PaddedAreDigits(d.frac);
    Groups(PadRightOf(d.frac), |PadRightOf(d.frac)| / 4)
  }

  /** Leading zero groups from i on. */
  function Leading(g: seq<nat>, i: nat): (n: nat)
    requires i <= |g|
    ensures i <= n <= |g|
    decreases |g| - i
  {
    if i < |g| && g[i] == 0 then Leading(g, i + 1) else i
  }

  /** The end of the groups below n once trailing zero groups are dropped. */
  function Trailing(g: seq<nat>, lo: nat, n: nat): (m: nat)
    requires lo <= n <= |g|
    ensures lo <= m <= n
    decreases n
  {
    if n > lo && g[n - 1] == 0 then Trailing(g, lo, n - 1) else n
  }

  /** What encodePGNumeric puts on the wire, of int groups then others. */
  function Wired(neg: bool, dscale: nat, a: seq<nat>, b: seq<nat>): Wire {
    var g := a + b;
    var lead := Leading(g, 0);
    var groups := g[lead..Trailing(g, lead, |g|)];
    Wire(if groups == [] then 0 else |a| - 1 - lead, neg && groups != [], dscale, groups)
  }

  function ToWire(d: Decimal): Wire
    requires Accepted(d)
  {
    Wired(d.neg, |d.frac|, IntGroups(d), FracGroups(d))
  }

  predicate InBounds(w: Wire) {
    -MaxWeight <= w.weight <= MaxWeight && w.dscale <= MaxDigits
  }

  /** The text a decimal comes back as: no leading zeros, no empty fraction, no
      negative zero. */
  function Normal(d: Decimal): string
    requires Accepted(d)
  {
    (if d.neg && !IsZero(d) then "-" else "") + Strip(d.whole) + (if d.frac == "" then "" else "." + d.frac)
  }

  predicate IsZero(d: Decimal) { AllZeros(d.whole) && AllZeros(d.frac) }

  // ---- trimming changes no group ----

  lemma {:induction false} LeadingZeros(g: seq<nat>, i: nat)
    requires i <= |g|
    ensures forall j :: i <= j < Leading(g, i) ==> g[j] == 0
    ensures Leading(g, i) < |g| ==> g[Leading(g, i)] != 0
    decreases |g| - i
  {
    if i < |g| && g[i] == 0 {
      LeadingZeros(g, i + 1);
    }
  }

  lemma {:induction false} TrailingZeros(g: seq<nat>, lo: nat, n: nat)
    requires lo <= n <= |g|
    ensures forall j :: Trailing(g, lo, n) <= j < n ==> g[j] == 0
    ensures Trailing(g, lo, n) > lo ==> g[Trailing(g, lo, n) - 1] != 0
    decreases n
  {
    if n > lo && g[n - 1] == 0 {
      TrailingZeros(g, lo, n - 1);
    }
  }

  /** The exponent of the first group on the wire is where the integer part
      put it, and outside the wire there are only zeros. */
  lemma WiredAt(neg: bool, dscale: nat, a: seq<nat>, b: seq<nat>, j: nat)
    requires j < |a| + |b|
    ensures var w := Wired(neg, dscale, a, b);
            && (w.groups != [] ==> w.At(w.weight - |a| + 1 + j) == (a + b)[j])
            && (w.groups == [] ==> (a + b)[j] == 0)
  {
    var g := a + b;
    LeadingZeros(g, 0);
    TrailingZeros(g, Leading(g, 0), |g|);
  }

  lemma WiredFirst(neg: bool, dscale: nat, a: seq<nat>, b: seq<nat>)
    ensures var w := Wired(neg, dscale, a, b);
            && (w.groups == [] ==> w.weight == 0)
            && (w.groups != [] ==> w.weight < |a| && w.At(0) != 0)
  {
    LeadingZeros(a + b, 0);
    TrailingZeros(a + b, Leading(a + b, 0), |a + b|);
  }

  lemma WiredLeads(neg: bool, dscale: nat, a: seq<nat>, b: seq<nat>, j: nat)
    requires Wired(neg, dscale, a, b).groups != [] && j < |a| && j < |a| - 1 - Wired(neg, dscale, a, b).weight
    ensures a[j] == 0
  {
    LeadingZeros(a + b, 0);
    assert (a + b)[j] == a[j];
  }

  // ---- a group is four characters ----

  /** Group i of the wire spells the k-th four characters. */
  ghost predicate Spells(w: Wire, i: int, p: string, k: nat) {
    4 * k + 4 <= |p| && w.At(i) < 10000 && Four(w.At(i)) == p[4 * k..4 * k + 4]
  }

  /** Likewise of the integer part, from its first group that is not zero. */
  ghost predicate SpellsInt(w: Wire, p: string, lead: nat, k: nat) { Spells(w, k, p, lead + k) }

  lemma GroupSpells(w: Wire, i: int, p: string, n: nat, k: nat)
    requires AllDigits(p) && 4 * n <= |p| && k < n && w.At(i) == Groups(p, n)[k]
    ensures Spells(w, i, p, k)
  {
    GroupAt(p, n, k);
    GroupIsSmall(ValueAt(p, 4 * k, 4));
    DigitsOfValue(p, 4 * k, 4);
  }

  lemma {:induction false} IntSpells(w: Wire, p: string, lead: nat, n: nat)
    requires w.Sixteen() && 0 < n && 4 * (lead + n) <= |p|
    requires forall k: nat :: k < n ==> SpellsInt(w, p, lead, k)
    ensures IntText(w, n) == Plain(w.At(0)) + p[4 * lead + 4..4 * (lead + n)]
  {
    if n > 1 {
      IntSpells(w, p, lead, n - 1);
      assert SpellsInt(w, p, lead, n - 1);
      Spell(IntText(w, n - 1), Plain(w.At(0)), Padded(w.At(n - 1)), p, 4 * lead + 4, 4 * (lead + n) - 4);
    }
  }

  lemma Spell(text: string, first: string, four: string, p: string, a: nat, b: nat)
    requires a <= b && b + 4 <= |p| && text == first + p[a..b] && four == p[b..b + 4]
    ensures text + four == first + p[a..b + 4]
  {
    SliceJoin(p, a, b, b + 4);
  }

  lemma SliceJoin(p: string, a: nat, b: nat, c: nat)
    requires a <= b <= c <= |p|
    ensures p[a..b] + p[b..c] == p[a..c]
  {
  }

  /** The integer text is the padded integer without its leading zeros. */
  lemma IntegerText(w: Wire, p: string, lead: nat, n: nat)
    requires w.Sixteen() && 0 < n && 4 * (lead + n) == |p| && w.At(0) != 0
    requires forall k: nat :: k < n ==> SpellsInt(w, p, lead, k)
    requires AllZeros(p[..4 * lead])
    ensures IntText(w, n) == Strip(p)
  {
    IntSpells(w, p, lead, n);
    assert SpellsInt(w, p, lead, 0);
    SmallIsGroup(w.At(0));
    DigitsNonzero(w.At(0), 4);
    StripAt(p, 4 * lead);
  }

  lemma StripAt(p: string, z: nat)
    requires z + 4 <= |p| && AllZeros(p[..z]) && !AllZeros(p[z..z + 4])
    ensures Strip(p) == Strip(p[z..z + 4]) + p[z + 4..|p|]
  {
    var first, tail := p[z..z + 4], p[z + 4..|p|];
    StripTail(first, tail);
    SliceJoin(p, z, z + 4, |p|);
    StripZeros(p[..z], first + tail);
    SliceJoin(p, 0, z, |p|);
    assert p[0..z] == p[..z] && p[0..|p|] == p;
  }

  lemma FractionAt(w: Wire, q: string, i: nat)
    requires w.Sixteen() && i < |q| && |q| % 4 == 0 && Spells(w, w.weight + 1 + i / 4, q, i / 4)
    ensures FracChar(w, i) == q[i]
  {
    assert q[4 * (i / 4)..4 * (i / 4) + 4][i % 4] == q[i];
  }

  lemma FractionText(w: Wire, q: string, m: nat)
    requires w.Sixteen() && m <= |q| && |q| % 4 == 0
    requires forall k: nat :: 4 * k < |q| ==> Spells(w, w.weight + 1 + k, q, k)
    ensures FracText(w, m) == q[..m]
  {
    forall i | 0 <= i < m ensures FracText(w, m)[i] == q[..m][i] {
      FractionAt(w, q, i);
    }
  }

  // ---- the text comes back ----

  lemma PadLeftStrips(s: string)
    requires s != ""
    ensures Strip(PadLeftOf(s)) == Strip(s)
  {
    ZerosAreZeros(PadLength(|s|));
    StripZeros(Zeros(PadLength(|s|)), s);
  }

  /** Four zeros are the zero group, and the other way round. */
  lemma {:induction false} ZeroValue(s: string, at: nat, n: nat)
    requires at + n <= |s| && AllDigits(s)
    ensures ValueAt(s, at, n) == 0 <==> AllZeros(s[at..at + n])
  {
    if n > 0 {
      ZeroValue(s, at, n - 1);
      SliceJoin(s, at, at + n - 1, at + n);
      assert DigitOf(s[at + n - 1]) == 0 <==> s[at + n - 1] == '0';
      var whole, front := s[at..at + n], s[at..at + n - 1];
      assert whole == front + [s[at + n - 1]];
      assert AllZeros(whole) <==> AllZeros(front) && s[at + n - 1] == '0' by {
        assert AllZeros(whole) ==> whole[n - 1] == '0' && forall i :: 0 <= i < n - 1 ==> front[i] == whole[i];
      }
    }
  }

  lemma {:induction false} ZeroGroups(s: string, n: nat)
    requires 4 * n <= |s| && AllDigits(s)
    ensures NoneLeft(Groups(s, n)) <==> AllZeros(s[..4 * n])
  {
    if n > 0 {
      ZeroGroups(s, n - 1);
      ZeroValue(s, 4 * n - 4, 4);
      SliceJoin(s, 0, 4 * n - 4, 4 * n);
      assert s[4 * n - 4..(4 * n - 4) + 4] == s[4 * n - 4..4 * n];
      ZerosConcat(s[..4 * n - 4], s[4 * n - 4..4 * n]);
      NoneLeftSnoc(Groups(s, n - 1), ValueAt(s, 4 * n - 4, 4));
    }
  }

  lemma NoneLeftSnoc(g: seq<nat>, v: nat)
    ensures NoneLeft(g + [v]) <==> NoneLeft(g) && v == 0
  {
    if NoneLeft(g + [v]) {
      assert forall k :: 0 <= k < |g| ==> g[k] == (g + [v])[k];
      assert (g + [v])[|g|] == v;
    }
  }

  lemma ZerosConcat(a: string, b: string)
    ensures AllZeros(a + b) <==> AllZeros(a) && AllZeros(b)
  {
    if AllZeros(a + b) {
      assert forall i :: 0 <= i < |a| ==> (a + b)[i] == a[i];
      assert forall i :: 0 <= i < |b| ==> (a + b)[|a| + i] == b[i];
    }
  }

  ghost predicate NoneLeft(g: seq<nat>) { forall k :: 0 <= k < |g| ==> g[k] == 0 }

  lemma IntZero(d: Decimal)
    requires Accepted(d)
    ensures NoneLeft(IntGroups(d)) <==> AllZeros(d.whole)
  {
    var p := PadLeftOf(d.whole);
    PaddedAreDigits(d.whole);
    ZeroGroups(p, |p| / 4);
    assert p[..|p|] == p;
    ZerosAreZeros(PadLength(|d.whole|));
    ZerosConcat(Zeros(PadLength(|d.whole|)), d.whole);
  }

  lemma FracZero(d: Decimal)
    requires Accepted(d)
    ensures NoneLeft(FracGroups(d)) <==> AllZeros(d.frac)
  {
    var q := PadRightOf(d.frac);
    PaddedAreDigits(d.frac);
    ZeroGroups(q, |q| / 4);
    assert q[..|q|] == q;
    ZerosAreZeros(PadLength(|d.frac|));
    ZerosConcat(d.frac, Zeros(PadLength(|d.frac|)));
  }

  lemma WiredEmpty(neg: bool, dscale: nat, a: seq<nat>, b: seq<nat>)
    ensures Wired(neg, dscale, a, b).groups == [] <==> NoneLeft(a) && NoneLeft(b)
  {
    var w := Wired(neg, dscale, a, b);
    WiredFirst(neg, dscale, a, b);
    if w.groups == [] {
      forall j | 0 <= j < |a| ensures a[j] == 0 {
        WiredAt(neg, dscale, a, b, j);
        assert (a + b)[j] == a[j];
      }
      forall j | 0 <= j < |b| ensures b[j] == 0 {
        WiredAt(neg, dscale, a, b, |a| + j);
        assert (a + b)[|a| + j] == b[j];
      }
    } else {
      LeadingZeros(a + b, 0);
    }
  }

  /** Nothing is left on the wire exactly for zero. */
  lemma EmptyIsZero(d: Decimal)
    requires Accepted(d)
    ensures ToWire(d).groups == [] <==> IsZero(d)
  {
    WiredEmpty(d.neg, |d.frac|, IntGroups(d), FracGroups(d));
    IntZero(d);
    FracZero(d);
  }

  lemma {:induction false} ValuesSmall(s: string, n: nat)
    requires 4 * n <= |s| && AllDigits(s)
    ensures forall k :: 0 <= k < n ==> Groups(s, n)[k] < 10000
  {
    if n > 0 {
      ValuesSmall(s, n - 1);
      GroupIsSmall(ValueAt(s, 4 * n - 4, 4));
    }
  }

  lemma WireSixteen(d: Decimal)
    requires Accepted(d)
    ensures ToWire(d).Sixteen()
  {
    PaddedAreDigits(d.whole);
    PaddedAreDigits(d.frac);
    ValuesSmall(PadLeftOf(d.whole), |IntGroups(d)|);
    ValuesSmall(PadRightOf(d.frac), |FracGroups(d)|);
  }

  lemma PlainZero()
    ensures Plain(0) == "0"
  {
    DigitsOfZero(4);
    StripAllZeros(Four(0));
  }

  /** What the wire shows of the integer part, group by group. */
  lemma IntegerGroups(d: Decimal, k: nat)
    requires Accepted(d) && ToWire(d).groups != [] && k <= ToWire(d).weight
    ensures Spells(ToWire(d), k, PadLeftOf(d.whole), |IntGroups(d)| - 1 - ToWire(d).weight + k)
  {
    var a, b, w := IntGroups(d), FracGroups(d), ToWire(d);
    WiredFirst(d.neg, |d.frac|, a, b);
    var j := |a| - 1 - w.weight + k;
    WiredAt(d.neg, |d.frac|, a, b, j);
    assert (a + b)[j] == a[j];
    PaddedAreDigits(d.whole);
    GroupSpells(w, k, PadLeftOf(d.whole), |a|, j);
  }

  lemma FractionGroups(d: Decimal, k: nat)
    requires Accepted(d) && 4 * k < |PadRightOf(d.frac)|
    ensures Spells(ToWire(d), ToWire(d).weight + 1 + k, PadRightOf(d.frac), k)
  {
    var a, b, w := IntGroups(d), FracGroups(d), ToWire(d);
    WiredAt(d.neg, |d.frac|, a, b, |a| + k);
    assert (a + b)[|a| + k] == b[k];
    PaddedAreDigits(d.frac);
    GroupSpells(w, w.weight + 1 + k, PadRightOf(d.frac), |b|, k);
  }

  lemma LeadingFours(d: Decimal)
    requires Accepted(d) && ToWire(d).groups != []
    ensures var n := |IntGroups(d)| - 1 - ToWire(d).weight;
            var lead := if n < |IntGroups(d)| then n else |IntGroups(d)|;
            n >= 0 && AllZeros(PadLeftOf(d.whole)[..4 * lead])
  {
    var a, w, p := IntGroups(d), ToWire(d), PadLeftOf(d.whole);
    WiredFirst(d.neg, |d.frac|, a, FracGroups(d));
    var n := |a| - 1 - w.weight;
    var lead := if n < |a| then n else |a|;
    PaddedAreDigits(d.whole);
    forall k | 0 <= k < lead ensures Groups(p, lead)[k] == 0 {
      WiredLeads(d.neg, |d.frac|, a, FracGroups(d), k);
      GroupAt(p, lead, k);
      GroupAt(p, |a|, k);
    }
    ZeroGroups(p, lead);
  }

  lemma IntegerComesBack(d: Decimal)
    requires Accepted(d) && ToWire(d).Sixteen()
    ensures var w := ToWire(d);
            (if w.weight < 0 then "0" else IntText(w, w.weight + 1)) == Strip(d.whole)
  {
    var w, p := ToWire(d), PadLeftOf(d.whole);
    PadLeftStrips(d.whole);
    WiredFirst(d.neg, |d.frac|, IntGroups(d), FracGroups(d));
    if w.groups == [] {
      EmptyIsZero(d);
      PlainZero();
      StripAllZeros(d.whole);
    } else {
      LeadingFours(d);
      if w.weight < 0 {
        assert p[..|p|] == p;
        StripAllZeros(p);
      } else {
        var lead, n := |IntGroups(d)| - 1 - w.weight, w.weight + 1;
        forall k: nat | k < n ensures SpellsInt(w, p, lead, k) {
          IntegerGroups(d, k);
        }
        IntegerText(w, p, lead, n);
      }
    }
  }

  lemma FractionComesBack(d: Decimal)
    requires Accepted(d) && ToWire(d).Sixteen()
    ensures FracText(ToWire(d), |d.frac|) == d.frac
  {
    var w, q := ToWire(d), PadRightOf(d.frac);
    forall k: nat | 4 * k < |q| ensures Spells(w, w.weight + 1 + k, q, k) {
      FractionGroups(d, k);
    }
    FractionText(w, q, |d.frac|);
    PrefixOf(d.frac, Zeros(PadLength(|d.frac|)));
  }

  lemma PrefixOf(a: string, b: string)
    ensures (a + b)[..|a|] == a
  {
  }

  lemma TextComesBack(d: Decimal)
    requires Accepted(d)
    ensures ToWire(d).Sixteen() && Text(ToWire(d)) == Normal(d)
  {
    WireSixteen(d);
    IntegerComesBack(d);
    FractionComesBack(d);
    EmptyIsZero(d);
  }

  // ---- bytes ----

  function U16(n: nat): (b: seq<Byte>)
    requires n < 0x1_0000
    ensures |b| == 2 && (b[0] as int) * 256 + b[1] == n
  {
    [n / 256, n % 256]
  }

  /** The two's complement of a 16-bit integer. */
  function Unsigned(n: int): (u: nat)
    requires -0x8000 <= n < 0x8000
    ensures u < 0x1_0000 && Signed(u) == n
  {
    if n < 0 then n + 0x1_0000 else n
  }

  function Signed(u: nat): int
    requires u < 0x1_0000
  {
    if u >= 0x8000 then u - 0x1_0000 else u
  }

  function GroupBytes(g: seq<nat>, n: nat): (b: seq<Byte>)
    requires n <= |g| && forall i :: 0 <= i < |g| ==> g[i] < 0x1_0000
    ensures |b| == 2 * n && forall i :: 0 <= i < n ==> (b[2 * i] as int) * 256 + b[2 * i + 1] == g[i]
  {
    if n == 0 then [] else GroupBytes(g, n - 1) + U16(g[n - 1])
  }

  predicate Fits(w: Wire) {
    |w.groups| < 0x1_0000 && -0x8000 <= w.weight < 0x8000 && w.dscale < 0x1_0000 && w.Sixteen()
  }

  function ToBytes(w: Wire): seq<Byte>
    requires Fits(w)
  {
    U16(|w.groups|) + U16(Unsigned(w.weight)) + U16(if w.neg then 0x4000 else 0) + U16(w.dscale) +
    GroupBytes(w.groups, |w.groups|)
  }

  function Word(raw: seq<Byte>, i: nat): (n: nat)
    requires i + 2 <= |raw|
    ensures n < 0x1_0000
  {
    (raw[i] as int) * 256 + raw[i + 1]
  }

  function Words(raw: seq<Byte>, n: nat): (g: seq<nat>)
    requires 8 + 2 * n <= |raw|
    ensures |g| == n && forall i :: 0 <= i < n ==> g[i] < 0x1_0000
  {
    if n == 0 then [] else Words(raw, n - 1) + [Word(raw, 8 + 2 * n - 2)]
  }

  /** decodePGNumeric. */
  function Decode(raw: seq<Byte>): Result<string> {
    if |raw| < 8 || |raw| != 8 + 2 * Word(raw, 0) then Err
    else if Word(raw, 4) != 0 && Word(raw, 4) != 0x4000 then Err
    else
      var w := Wire(Signed(Word(raw, 2)), Word(raw, 4) == 0x4000, Word(raw, 6), Words(raw, Word(raw, 0)));
      if !InBounds(w) then Err else Ok(Text(w))
  }

  lemma BoundedFits(d: Decimal)
    requires Accepted(d) && InBounds(ToWire(d))
    ensures Fits(ToWire(d))
  {
    WireSixteen(d);
  }

  lemma {:induction false} WordsOf(head: seq<Byte>, g: seq<nat>, m: nat, n: nat)
    requires |head| == 8 && n <= m <= |g| && forall i :: 0 <= i < |g| ==> g[i] < 0x1_0000
    ensures Words(head + GroupBytes(g, m), n) == g[..n]
  {
    if n > 0 {
      WordsOf(head, g, m, n - 1);
      var raw := head + GroupBytes(g, m);
      assert raw[8 + 2 * (n - 1)] == GroupBytes(g, m)[2 * (n - 1)];
      assert raw[8 + 2 * (n - 1) + 1] == GroupBytes(g, m)[2 * (n - 1) + 1];
      assert Word(raw, 8 + 2 * n - 2) == g[n - 1];
    }
  }

  ghost function Head(w: Wire): (h: seq<Byte>)
    requires Fits(w)
    ensures |h| == 8
  {
    U16(|w.groups|) + U16(Unsigned(w.weight)) + U16(if w.neg then 0x4000 else 0) + U16(w.dscale)
  }

  lemma HeadWords(w: Wire)
    requires Fits(w)
    ensures Word(Head(w), 0) == |w.groups| && Word(Head(w), 2) == Unsigned(w.weight)
    ensures Word(Head(w), 4) == (if w.neg then 0x4000 else 0) && Word(Head(w), 6) == w.dscale
  {
  }

  lemma WordOfHead(head: seq<Byte>, tail: seq<Byte>, i: nat)
    requires i + 2 <= |head|
    ensures Word(head + tail, i) == Word(head, i)
  {
  }

  lemma DecodeOfBytes(w: Wire)
    requires Fits(w) && InBounds(w)
    ensures Decode(ToBytes(w)) == Ok(Text(w))
  {
    var n, head, tail := |w.groups|, Head(w), GroupBytes(w.groups, |w.groups|);
    var raw := ToBytes(w);
    assert raw == head + tail;
    HeadWords(w);
    WordOfHead(head, tail, 0);
    WordOfHead(head, tail, 2);
    WordOfHead(head, tail, 4);
    WordOfHead(head, tail, 6);
    WordsOf(head, w.groups, n, n);
    assert Words(raw, n) == w.groups;
  }

  // ---- the round trip ----

  /** What encodePGNumeric accepts. */
  function Encode(s: string): Result<seq<Byte>> {
    var d := Split(s);
    if !Accepted(d) || !InBounds(ToWire(d)) then Err
    else
      BoundedFits(d);
      Ok(ToBytes(ToWire(d)))
  }

  /** Every decimal string that is accepted comes back normalised, and what was
      encoded always passes the decoder's checks. */
  lemma RoundTrip(s: string)
    ensures Encode(s).Ok? ==> Decode(Encode(s).value) == Ok(Normal(Split(s)))
  {
    var d := Split(s);
    if Encode(s).Ok? {
      BoundedFits(d);
      DecodeOfBytes(ToWire(d));
      TextComesBack(d);
    }
  }

  predicate HasDot(s: string) { exists i :: 0 <= i < |s| && s[i] == '.' }

  /** No leading zeros, a fraction after a point, and no negative zero. */
  predicate Canonical(s: string) {
    var d := Split(s);
    && (|d.whole| > 1 ==> d.whole[0] != '0')
    && (HasDot(s) ==> d.frac != "")
    && (d.neg ==> !IsZero(d))
  }

  lemma {:induction false} DotIsFirst(s: string, i: nat)
    requires i <= |s|
    ensures var n := IndexOfDot(s, i);
            (n < |s| ==> s[n] == '.') && (n == |s| ==> forall j :: i <= j < |s| ==> s[j] != '.')
    decreases |s| - i
  {
    if i < |s| && s[i] != '.' {
      DotIsFirst(s, i + 1);
    }
  }

  lemma CutAtDot(body: string, dot: nat)
    requires dot < |body| && body[dot] == '.'
    ensures body == body[..dot] + ("." + body[dot + 1..]) && HasDot(body)
  {
  }

  /** The body is its parts. */
  lemma BodySpells(body: string, whole: string, frac: string, dot: nat)
    requires dot <= |body| && whole == body[..dot] && frac == if dot < |body| then body[dot + 1..] else ""
    requires (dot < |body| ==> body[dot] == '.') && (dot == |body| ==> forall j :: 0 <= j < |body| ==> body[j] != '.')
    ensures HasDot(body) <==> dot < |body|
    ensures body == whole + if dot < |body| then "." + frac else ""
  {
    if dot < |body| {
      CutAtDot(body, dot);
    }
  }

  lemma SignHasNoDot(body: string)
    ensures HasDot("-" + body) <==> HasDot(body)
  {
    var s := "-" + body;
    if HasDot(body) {
      var i :| 0 <= i < |body| && body[i] == '.';
      assert s[i + 1] == '.';
    }
    if HasDot(s) {
      var i :| 0 <= i < |s| && s[i] == '.';
      assert body[i - 1] == '.';
    }
  }

  /** A string is its parts. */
  lemma SplitSpells(s: string)
    ensures var d := Split(s);
            s == (if d.neg then "-" else "") + d.whole + (if HasDot(s) then "." + d.frac else "")
    ensures !HasDot(s) ==> Split(s).frac == ""
  {
    var d := Split(s);
    var body := if d.neg then s[1..] else s;
    var dot := IndexOfDot(body, 0);
    DotIsFirst(body, 0);
    BodySpells(body, d.whole, d.frac, dot);
    if d.neg {
      assert s == "-" + body;
      SignHasNoDot(body);
      JoinSign(d.whole, if dot < |body| then "." + d.frac else "");
    }
  }

  lemma JoinSign(a: string, b: string)
    ensures "-" + (a + b) == "-" + a + b && "" + a + b == a + b
  {
  }

  lemma {:induction false} StripShortens(s: string)
    ensures |Strip(s)| <= |s| && (|Strip(s)| == |s| <==> Strip(s) == s)
    ensures Strip(s) == s <==> !(|s| > 1 && s[0] == '0')
  {
    if |s| > 1 && s[0] == '0' {
      StripShortens(s[1..]);
    }
  }

  /** So an accepted string returns unchanged exactly when it is canonical. */
  lemma UnchangedIffCanonical(s: string)
    requires Accepted(Split(s))
    ensures Normal(Split(s)) == s <==> Canonical(s)
  {
    var d := Split(s);
    SplitSpells(s);
    StripShortens(d.whole);
    assert |s| == (if d.neg then 1 else 0) + |d.whole| + (if HasDot(s) then 1 + |d.frac| else 0);
  }

  // ---- the two conversions as the source writes them ----

  lemma {:induction false} ZerosFront(k: nat)
    ensures "0" + Zeros(k) == Zeros(k + 1)
  {
    if k > 0 {
      ZerosFront(k - 1);
    }
  }

  method PadLeft(part: string) returns (r: string)
    ensures r == PadLeftOf(part)
  {
    r := part;
    ghost var k := 0;
    while |r| % 4 != 0
      invariant k <= PadLength(|part|) && r == Zeros(k) + part
      decreases PadLength(|part|) - k
    {
      ZerosFront(k);
      r := "0" + r;
      k := k + 1;
    }
  }

  method PadRight(part: string) returns (r: string)
    ensures r == PadRightOf(part)
  {
    r := part;
    ghost var k := 0;
    while |r| % 4 != 0
      invariant k <= PadLength(|part|) && r == part + Zeros(k)
      decreases PadLength(|part|) - k
    {
      r := r + "0";
      k := k + 1;
    }
  }

  method ToGroup(s: string, at: nat) returns (v: nat)
    requires at + 4 <= |s| && AllDigits(s)
    ensures v == ValueAt(s, at, 4)
  {
    v := 0;
    for i := 0 to 4
      invariant v == ValueAt(s, at, i)
    {
      v := v * 10 + DigitOf(s[at + i]);
    }
  }

  method AppendGroups(s: string) returns (g: seq<nat>)
    requires |s| % 4 == 0 && AllDigits(s)
    ensures g == Groups(s, |s| / 4)
  {
    g := [];
    var i := 0;
    while i < |s|
      invariant i <= |s| && i % 4 == 0 && g == Groups(s, i / 4)
    {
      var v := ToGroup(s, i);
      g := g + [v];
      i := i + 4;
    }
  }

  method Trim(g: seq<nat>, top: int) returns (r: seq<nat>, weight: int)
    ensures var lead := Leading(g, 0);
            r == g[lead..Trailing(g, lead, |g|)] && weight == top - lead
  {
    var lo, hi := 0, |g|;
    while lo < hi && g[lo] == 0
      invariant 0 <= lo <= hi == |g| && Leading(g, lo) == Leading(g, 0)
    {
      lo := lo + 1;
    }
    while hi > lo && g[hi - 1] == 0
      invariant lo <= hi <= |g| && Trailing(g, lo, hi) == Trailing(g, lo, |g|)
    {
      hi := hi - 1;
    }
    r, weight := g[lo..hi], top - lo;
  }

  method IsAllDigits(s: string) returns (b: bool)
    ensures b == AllDigits(s)
  {
    for i := 0 to |s|
      invariant forall j :: 0 <= j < i ==> IsDigit(s[j])
    {
      if !IsDigit(s[i]) {
        return false;
      }
    }
    b := true;
  }

  method EncodePGNumeric(s: string) returns (r: Result<seq<Byte>>)
    ensures r == Encode(s)
  {
    var d := Split(s);
    var a := IsAllDigits(d.whole);
    var b := IsAllDigits(d.frac);
    if d.whole == "" || !a || !b {
      return Err;
    }
    var intPart := PadLeft(d.whole);
    var fracPart := PadRight(d.frac);
    PaddedAreDigits(d.whole);
    PaddedAreDigits(d.frac);
    var groups := AppendGroups(intPart);
    var more := AppendGroups(fracPart);
    var w := Trimmed(d.neg, |d.frac|, groups, more);
    r := Emit(d, w);
  }

  /** Trimming, the sign and the weight of zero. */
  method Trimmed(neg: bool, dscale: nat, a: seq<nat>, b: seq<nat>) returns (w: Wire)
    ensures w == Wired(neg, dscale, a, b)
  {
    var groups, weight := Trim(a + b, |a| - 1);
    var sign := 0;
    if neg && |groups| > 0 {
      sign := 0x4000;
    }
    if |groups| == 0 {
      weight := 0;
    }
    w := Wire(weight, sign == 0x4000, dscale, groups);
  }

  /** The bounds, and the bytes. */
  method Emit(d: Decimal, w: Wire) returns (r: Result<seq<Byte>>)
    requires Accepted(d) && w == ToWire(d)
    ensures !InBounds(w) ==> r == Err
    ensures InBounds(w) ==> Fits(w) && r == Ok(ToBytes(w))
  {
    if w.weight > MaxWeight || w.weight < -MaxWeight || w.dscale > MaxDigits {
      return Err;
    }
    BoundedFits(d);
    var out := U16(|w.groups|) + U16(Unsigned(w.weight)) + U16(if w.neg then 0x4000 else 0) + U16(w.dscale);
    var rest := WriteGroups(w.groups);
    r := Ok(out + rest);
  }

  method WriteGroups(g: seq<nat>) returns (out: seq<Byte>)
    requires forall i :: 0 <= i < |g| ==> g[i] < 0x1_0000
    ensures out == GroupBytes(g, |g|)
  {
    out := [];
    for i := 0 to |g|
      invariant out == GroupBytes(g, i)
    {
      out := out + U16(g[i]);
    }
  }

  method IntPart(w: Wire) returns (b: string)
    requires w.Sixteen()
    ensures b == if w.weight < 0 then "0" else IntText(w, w.weight + 1)
  {
    if w.weight < 0 {
      return "0";
    }
    b := "";
    var i := 0;
    while i <= w.weight
      invariant 0 <= i <= w.weight + 1 && b == IntText(w, i)
    {
      if i == 0 {
        b := b + Plain(w.At(i));
      } else {
        b := b + Padded(w.At(i));
      }
      i := i + 1;
    }
  }

  method FracPart(w: Wire) returns (b: string)
    requires w.Sixteen()
    ensures b == FracText(w, w.dscale)
  {
    b := "";
    var written, gi := 0, 0;
    while written < w.dscale
      invariant written <= w.dscale && (written < w.dscale ==> written == 4 * gi) && b == FracText(w, written)
    {
      var four := Padded(w.At(w.weight + 1 + gi));
      var take := w.dscale - written;
      if take > 4 {
        take := 4;
      }
      FracGrows(w, gi, four, take);
      b := b + four[..take];
      written := written + take;
      gi := gi + 1;
    }
  }

  lemma FracGrows(w: Wire, gi: nat, four: string, take: nat)
    requires w.Sixteen() && take <= 4 <= |four| && four == Padded(w.At(w.weight + 1 + gi))
    ensures FracText(w, 4 * gi) + four[..take] == FracText(w, 4 * gi + take)
  {
    var n, text := 4 * gi, FracText(w, 4 * gi + take);
    forall i | n <= i < n + take ensures text[i] == four[i - n] {
      FracCharAt(w, gi, i - n);
    }
  }

  lemma FracCharAt(w: Wire, gi: nat, j: nat)
    requires w.Sixteen() && j < 4
    ensures FracChar(w, 4 * gi + j) == Padded(w.At(w.weight + 1 + gi))[j]
  {
    assert (4 * gi + j) / 4 == gi && (4 * gi + j) % 4 == j;
  }

  method DecodePGNumeric(raw: seq<Byte>) returns (r: Result<string>)
    ensures r == Decode(raw)
  {
    if |raw| < 8 {
      return Err;
    }
    var ndigits, sign := Word(raw, 0), Word(raw, 4);
    if |raw| != 8 + 2 * ndigits {
      return Err;
    }
    if sign != 0 && sign != 0x4000 {
      return Err;
    }
    var w := Wire(Signed(Word(raw, 2)), sign == 0x4000, Word(raw, 6), Words(raw, ndigits));
    if w.weight > MaxWeight || w.weight < -MaxWeight || w.dscale > MaxDigits {
      return Err;
    }
    var b := WriteText(w);
    r := Ok(b);
  }

  method WriteText(w: Wire) returns (b: string)
    requires w.Sixteen()
    ensures b == Text(w)
  {
    b := if w.neg then "-" else "";
    var whole := IntPart(w);
    b := b + whole;
    var tail := "";
    if w.dscale > 0 {
      var frac := FracPart(w);
      tail := "." + frac;
    }
    b := b + tail;
  }
}
