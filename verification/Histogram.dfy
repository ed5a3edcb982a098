/** The log-linear latency histogram against the sorted samples it stands for. */
module Histogram {
  /** 62 bands of 128 linear sub-buckets. */
  const BUCKETS: nat := 62 * 128
  const WORD: nat := 0x1_0000_0000_0000_0000

  /** Samples below this bucket and come back without wrapping a 64-bit word. */
  const CEILING: nat := 0x200_0000_0000_0000

  function Pow2(n: nat): (p: nat)
    ensures p > 0
  { if n == 0 then 1 else 2 * Pow2(n - 1) }

  /** The position of the highest set bit. */
  function Exponent(v: nat): (e: nat)
    requires v > 0
    ensures Pow2(e) <= v < 2 * Pow2(e)
  { if v == 1 then 0 else 1 + Exponent(v / 2) }

  function Mul64(a: int, b: nat): nat { (a * b) % WORD }

  /** The linear position within a band that starts at `base`. */
  function OffsetAt(v: nat, base: nat): (o: nat)
    requires base > 0
    ensures o < 128
  { var off := Mul64(v - base, 128) / base; if off >= 128 then 127 else off }

  function Bucket(v: nat): (i: nat)
    ensures i < BUCKETS
  {
    if v == 0 then 0
    else
      var e := if Exponent(v) >= 62 then 61 else Exponent(v);
      e * 128 + OffsetAt(v, Pow2(e))
  }

  method BucketLoop(v: nat) returns (i: nat)
    ensures i == Bucket(v)
  {
    if v == 0 { return 0; }
    var e := 0;
    var x := v;
    while x > 1
      invariant x > 0 && e + Exponent(x) == Exponent(v)
    {
      x := x / 2;
      e := e + 1;
    }
    if e >= 62 { e := 61; }
    return e * 128 + OffsetAt(v, Pow2(e));
  }

  /** A bucket's upper edge, in 64-bit arithmetic. */
  function Value(i: nat): nat {
    var base := Pow2(i / 128);
    (base + Mul64(i % 128 + 1, base) / 128) % WORD
  }

  /** What a reported value promises of the sample it stands for: never below it, and above by
      at most 1/128 of it. */
  ghost predicate Covers(reported: nat, sample: nat) {
    sample <= reported && if sample == 0 then reported == 1 else 128 * (reported - sample) <= sample
  }

  // --- one sample ------------------------------------------------------------

  lemma {:induction false} Pow2Mono(a: nat, b: nat)
    requires a <= b
    ensures Pow2(a) <= Pow2(b)
  {
    if a < b { Pow2Mono(a, b - 1); }
  }

  lemma Pow2Values()
    ensures Pow2(56) == 0x100_0000_0000_0000 && Pow2(57) == CEILING
  {
    assert Pow2(8) == 256;
    assert Pow2(16) == 65536;
    assert Pow2(24) == 16777216;
    assert Pow2(32) == 4294967296;
    assert Pow2(40) == 1099511627776;
    assert Pow2(48) == 281474976710656;
    assert Pow2(56) == 72057594037927936;
  }

  lemma ExponentSmall(v: nat)
    requires 0 < v < CEILING
    ensures Exponent(v) <= 56
  {
    Pow2Values();
    if Exponent(v) >= 57 { Pow2Mono(57, Exponent(v)); }
  }

  lemma Remains(n: nat, m: nat)
    requires n < m
    ensures n % m == n
  {}

  lemma DivBounds(n: nat, d: nat)
    requires d > 0
    ensures d * (n / d) <= n < d * (n / d) + d
  {}

  lemma MulAtLeast(d: nat, a: nat, b: nat)
    requires a >= b
    ensures d * a >= d * b
  {}

  /** Quotients of ordered numerators are ordered. */
  lemma QuotientsOrdered(d: nat, x: nat, y: nat, a: nat, b: nat)
    requires d > 0 && d * x <= a <= b < d * y + d
    ensures x <= y
  {
    assert d * (y + 1) == d * y + d;
    if y + 1 <= x { MulAtLeast(d, x, y + 1); }
  }

  /** An offset within its band, and the number it rounds down. */
  ghost predicate Offset(r: nat, base: nat, o: nat) {
    base * o <= r * 128 < base * o + base
  }

  lemma OffsetOf(r: nat, base: nat)
    requires r < base
    ensures Offset(r, base, r * 128 / base) && r * 128 / base < 128
  {
    DivBounds(r * 128, base);
    QuotientsOrdered(base, r * 128 / base, 127, r * 128, base * 128 - 1);
  }

  lemma EdgeOfOffset(r: nat, base: nat, o: nat)
    requires Offset(r, base, o) && o < 128
    ensures r <= (o + 1) * base / 128 <= base && 128 * ((o + 1) * base / 128 - r) <= base
  {
    var n := (o + 1) * base;
    assert n == base * o + base;
    MulAtLeast(base, 128, o + 1);
    DivBounds(n, 128);
  }

  lemma BandOf(e: nat, o: nat)
    requires o < 128
    ensures (e * 128 + o) / 128 == e && (e * 128 + o) % 128 == o
  {}

  /** Where a sample sits: its band, and its offset there with no clamp and no wrap. */
  lemma BucketPlain(v: nat) returns (e: nat, base: nat)
    requires 0 < v < CEILING
    ensures e == Exponent(v) && base == Pow2(e) && base <= v < 2 * base && base <= 0x100_0000_0000_0000
    ensures Bucket(v) == e * 128 + OffsetAt(v, base)
  {
    e := Exponent(v);
    base := Pow2(e);
    ExponentSmall(v);
    Pow2Mono(e, 56);
    Pow2Values();
  }

  lemma OffsetUnwraps(v: nat, base: nat)
    requires base <= v < 2 * base && base <= 0x100_0000_0000_0000
    ensures Offset(v - base, base, OffsetAt(v, base))
  {
    Remains((v - base) * 128, WORD);
    OffsetOf(v - base, base);
  }

  lemma EdgeUnwraps(e: nat, base: nat, o: nat)
    requires base == Pow2(e) && base <= 0x100_0000_0000_0000 && o < 128
    ensures Value(e * 128 + o) == base + (o + 1) * base / 128
  {
    BandOf(e, o);
    var n := (o + 1) * base;
    MulAtLeast(base, 128, o + 1);
    assert n <= 128 * base;
    Remains(n, WORD);
    Remains(base + n / 128, WORD);
  }

  /** The edge is never below the sample and exceeds it by at most 1/128 of it. */
  lemma EdgeCovers(v: nat)
    requires 0 < v < CEILING
    ensures v <= Value(Bucket(v)) && 128 * (Value(Bucket(v)) - v) <= v
  {
    var e, base := BucketPlain(v);
    var o := OffsetAt(v, base);
    OffsetUnwraps(v, base);
    EdgeOfOffset(v - base, base, o);
    EdgeUnwraps(e, base, o);
  }

  lemma ZeroEdge()
    ensures Bucket(0) == 0 && Value(0) == 1
  {
    assert Pow2(0) == 1;
  }

  /** Bucketing is monotone. */
  lemma BucketMono(u: nat, v: nat)
    requires u <= v < CEILING
    ensures Bucket(u) <= Bucket(v)
  {
    if u > 0 {
      var d, base := BucketPlain(u);
      var e, base' := BucketPlain(v);
      ExponentMono(u, v);
      if d == e {
        OffsetUnwraps(u, base);
        OffsetUnwraps(v, base);
        QuotientsOrdered(base, OffsetAt(u, base), OffsetAt(v, base), (u - base) * 128, (v - base) * 128);
      }
    }
  }

  lemma ExponentMono(u: nat, v: nat)
    requires 0 < u <= v
    ensures Exponent(u) <= Exponent(v)
  {
    if Exponent(v) < Exponent(u) { Pow2Mono(Exponent(v) + 1, Exponent(u)); }
  }

  lemma ExponentIs(v: nat, e: nat)
    requires v > 0 && Pow2(e) <= v < 2 * Pow2(e)
    ensures Exponent(v) == e
  {
    if e < Exponent(v) { Pow2Mono(e + 1, Exponent(v)); }
    if Exponent(v) < e { Pow2Mono(Exponent(v) + 1, e); }
  }

  lemma EdgeOfSample(v: nat)
    requires v < CEILING
    ensures Covers(Value(Bucket(v)), v)
  {
    if v == 0 { ZeroEdge(); } else { EdgeCovers(v); }
  }

  // --- beyond the ceiling -----------------------------------------------------

  /** The start of the band a sample is put in. */
  function Band(v: nat): (base: nat)
    requires v > 0
    ensures base > 0
  { Pow2(if Exponent(v) >= 62 then 61 else Exponent(v)) }

  /** Samples that come back covered: every one below the ceiling, and above it only those
      near the start of their band. */
  predicate Representable(v: nat) {
    v < CEILING || v - Band(v) < CEILING - Band(v) / 128
  }

  /** The large bands: one sub-bucket is u wide, and k of them span the ceiling. */
  ghost predicate Scale(base: nat, u: nat, k: nat) {
    base == 128 * u && k * u == CEILING && 8 <= k <= 128 && u > 0
  }

  lemma LargeBand(e: nat) returns (u: nat, k: nat)
    requires 57 <= e <= 61
    ensures Scale(Pow2(e), u, k) && Pow2(e) <= 16 * CEILING
  {
    Pow2Values();
    assert Pow2(58) == 2 * CEILING && Pow2(59) == 4 * CEILING;
    assert Pow2(60) == 8 * CEILING && Pow2(61) == 16 * CEILING;
    var p := match e
      case 57 => (0x4_0000_0000_0000, 128)
      case 58 => (0x8_0000_0000_0000, 64)
      case 59 => (0x10_0000_0000_0000, 32)
      case 60 => (0x20_0000_0000_0000, 16)
      case _ => (0x40_0000_0000_0000, 8);
    u, k := p.0, p.1;
  }

  /** Above the ceiling the edge wraps: the largest sample of the next band is reported as
      half its size. */
  lemma WrapsAboveCeiling()
    ensures Value(Bucket(2 * CEILING - 1)) == CEILING
  {
    var v := 2 * CEILING - 1;
    Pow2Values();
    ExponentIs(v, 57);
    assert OffsetAt(v, CEILING) == 127;
    assert Bucket(v) == 57 * 128 + 127;
    BandOf(57, 127);
    assert Mul64(128, CEILING) == 0;
  }

  lemma Distribute(c: nat, a: nat, b: nat)
    ensures c * (a + b) == c * a + c * b
  {}

  lemma Associate(c: nat, a: nat, b: nat)
    ensures c * (a * b) == (c * a) * b
  {}

  lemma RemainderIs(n: nat, m: nat, q: nat, t: nat)
    requires m > 0 && n == m * q + t && t < m
    ensures n % m == t && n / m == q
  {
    var q', t' := n / m, n % m;
    assert n == m * q' + t';
    QuotientsOrdered(m, q, q', n, n);
    QuotientsOrdered(m, q', q, n, n);
  }

  /** Scaling a division by c scales its remainder and keeps its quotient. */
  lemma ScaledDivision(a: nat, m: nat, c: nat)
    requires m > 0 && c > 0
    ensures c * m > 0 && (c * a) % (c * m) == c * (a % m) && (c * a) / (c * m) == a / m
  {
    MulAtLeast(c, m, 1);
    ScaledSum(c, a, m, a / m, a % m);
    MulAtLeast(c, m, a % m + 1);
    Distribute(c, a % m, 1);
    RemainderIs(c * a, c * m, a / m, c * (a % m));
  }

  lemma ScaledSum(c: nat, a: nat, m: nat, q: nat, t: nat)
    requires a == m * q + t
    ensures c * a == (c * m) * q + c * t
  {
    Distribute(c, m * q, t);
    Associate(c, m, q);
  }

  lemma LargeOffset(v: nat, base: nat, u: nat, k: nat)
    requires Scale(base, u, k) && base <= v
    ensures OffsetAt(v, base) == (v - base) % CEILING / u < k
  {
    var r := v - base;
    var t := r % CEILING;
    ScaledDivision(r, CEILING, 128);
    assert Mul64(r, 128) == 128 * t;
    ScaledDivision(t, u, 128);
    DivBounds(t, u);
    assert u * (k - 1) + u == CEILING;
    QuotientsOrdered(u, t / u, k - 1, t, CEILING - 1);
  }

  /** What is left of offset o's upper edge, in sub-buckets, after the word wraps. */
  function Wrapped(o: nat, k: nat): nat { if o + 1 < k then o + 1 else 0 }

  lemma LargeEdge(e: nat, base: nat, u: nat, k: nat, o: nat)
    requires Scale(base, u, k) && base == Pow2(e) && base <= 16 * CEILING && o < k
    ensures Value(e * 128 + o) == base + u * Wrapped(o, k)
  {
    BandOf(e, o);
    LargeProduct(base, u, k, o);
    Remains(base + u * Wrapped(o, k), WORD);
  }

  lemma LargeProduct(base: nat, u: nat, k: nat, o: nat)
    requires Scale(base, u, k) && o < k
    ensures Mul64(o + 1, base) == 128 * (u * Wrapped(o, k)) && u * Wrapped(o, k) <= CEILING
  {
    WholeWord(base, u, k);
    if o + 1 < k {
      MulAtLeast(base, k - 1, o + 1);
      assert base * (k - 1) + base == base * k;
      Remains(base * (o + 1), WORD);
      Associate(128, u, o + 1);
    }
  }

  lemma WholeWord(base: nat, u: nat, k: nat)
    requires Scale(base, u, k)
    ensures base * k == WORD
  {
    Associate(128, u, k);
  }

  /** In a large band only the samples of the band's unwrapped stretch are covered. */
  lemma LargeCovers(v: nat, base: nat, u: nat, k: nat, t: nat, o: nat)
    requires Scale(base, u, k) && base <= v && t == (v - base) % CEILING && u * o <= t < u * o + u && o < k
    ensures Covers(base + u * Wrapped(o, k), v) <==> v - base < CEILING - u
  {
    assert u * (k - 1) + u == CEILING;
    assert u * (o + 1) == u * o + u;
    if o + 1 < k {
      MulAtLeast(u, k - 1, o + 1);
      CoversStretch(v, base, v - base, t, u * o, u, u * (o + 1));
    } else {
      CoversStretch(v, base, v - base, t, u * o, u, 0);
    }
  }

  lemma CoversStretch(v: nat, base: nat, r: nat, t: nat, low: nat, u: nat, p: nat)
    requires r == v - base && base == 128 * u && u > 0 && 2 * u <= CEILING && low <= t < low + u
    requires r < CEILING ==> t == r
    requires (low == CEILING - u && p == 0) || (p == low + u && p <= CEILING - u)
    ensures Covers(base + p, v) <==> r < CEILING - u
  {}

  /** A sample comes back covered exactly when it is representable. */
  lemma CoveredIff(v: nat)
    ensures Covers(Value(Bucket(v)), v) <==> Representable(v)
  {
    if v < CEILING {
      EdgeOfSample(v);
    } else {
      var e := if Exponent(v) >= 62 then 61 else Exponent(v);
      Pow2Values();
      if e < 57 { Pow2Mono(e + 1, 57); }
      Pow2Mono(e, Exponent(v));
      var u, k := LargeBand(e);
      LargeOffset(v, Pow2(e), u, k);
      LargeEdge(e, Pow2(e), u, k, OffsetAt(v, Pow2(e)));
      DivBounds((v - Pow2(e)) % CEILING, u);
      LargeCovers(v, Pow2(e), u, k, (v - Pow2(e)) % CEILING, OffsetAt(v, Pow2(e)));
    }
  }

  // --- the sorted samples ----------------------------------------------------

  ghost predicate Sorted(s: seq<nat>) { forall i, j :: 0 <= i < j < |s| ==> s[i] <= s[j] }

  ghost predicate Bounded(s: seq<nat>) { forall i :: 0 <= i < |s| ==> s[i] < CEILING }

  ghost function Insert(s: seq<nat>, v: nat): seq<nat> {
    if s == [] || s[|s| - 1] <= v then s + [v] else Insert(s[..|s| - 1], v) + [s[|s| - 1]]
  }

  lemma {:induction false} InsertAdds(s: seq<nat>, v: nat)
    ensures multiset(Insert(s, v)) == multiset(s) + multiset{v} && |Insert(s, v)| == |s| + 1
  {
    if s != [] && s[|s| - 1] > v {
      InsertAdds(s[..|s| - 1], v);
      assert s == s[..|s| - 1] + [s[|s| - 1]];
    }
  }

  lemma Bounds(s: seq<nat>, r: seq<nat>, v: nat, x: nat)
    requires multiset(r) == multiset(s) + multiset{v} && v <= x && forall k :: 0 <= k < |s| ==> s[k] <= x
    ensures forall k :: 0 <= k < |r| ==> r[k] <= x
  {
    forall k | 0 <= k < |r| ensures r[k] <= x {
      assert r[k] in multiset(r);
    }
  }

  lemma {:induction false} InsertSorts(s: seq<nat>, v: nat)
    requires Sorted(s)
    ensures Sorted(Insert(s, v))
  {
    if s != [] && s[|s| - 1] > v {
      var pre, x := s[..|s| - 1], s[|s| - 1];
      InsertSorts(pre, v);
      InsertAdds(pre, v);
      Bounds(pre, Insert(pre, v), v, x);
    }
  }

  /** How many samples fall in buckets below i. */
  ghost function Under(s: seq<nat>, i: nat): nat {
    if s == [] then 0 else Under(s[..|s| - 1], i) + if Bucket(s[|s| - 1]) < i then 1 else 0
  }

  ghost function InBucket(s: seq<nat>, i: nat): nat {
    if s == [] then 0 else InBucket(s[..|s| - 1], i) + if Bucket(s[|s| - 1]) == i then 1 else 0
  }

  lemma {:induction false} UnderNext(s: seq<nat>, i: nat)
    ensures Under(s, i + 1) == Under(s, i) + InBucket(s, i)
  {
    if s != [] { UnderNext(s[..|s| - 1], i); }
  }

  lemma {:induction false} UnderBounds(s: seq<nat>, i: nat)
    ensures Under(s, i) <= |s| && Under(s, 0) == 0 && (i >= BUCKETS ==> Under(s, i) == |s|)
  {
    if s != [] { UnderBounds(s[..|s| - 1], i); }
  }

  lemma {:induction false} InsertCounts(s: seq<nat>, v: nat, i: nat)
    ensures InBucket(Insert(s, v), i) == InBucket(s, i) + if Bucket(v) == i then 1 else 0
  {
    if s == [] || s[|s| - 1] <= v {
      assert (s + [v])[..|s|] == s;
    } else {
      var pre, x := s[..|s| - 1], s[|s| - 1];
      InsertCounts(pre, v, i);
      assert (Insert(pre, v) + [x])[..|Insert(pre, v)|] == Insert(pre, v);
    }
  }

  /** In sorted order, a rank is covered by the buckets below i exactly when the sample of
      that rank is in one of them. */
  lemma {:induction false} RankInBuckets(s: seq<nat>, rank: nat, i: nat)
    requires Sorted(s) && Bounded(s) && 1 <= rank <= |s|
    ensures Under(s, i) >= rank <==> Bucket(s[rank - 1]) < i
  {
    var pre, x := s[..|s| - 1], s[|s| - 1];
    UnderBounds(pre, i);
    if rank < |s| {
      RankInBuckets(pre, rank, i);
      BucketMono(s[rank - 1], x);
      if Bucket(x) < i && pre != [] { AllUnder(pre, x, i); }
    } else if Bucket(x) < i {
      AllUnder(pre, x, i);
    }
  }

  lemma {:induction false} AllUnder(s: seq<nat>, x: nat, i: nat)
    requires Bounded(s) && x < CEILING && Bucket(x) < i && forall k :: 0 <= k < |s| ==> s[k] <= x
    ensures Under(s, i) == |s|
  {
    if s != [] {
      BucketMono(s[|s| - 1], x);
      AllUnder(s[..|s| - 1], x, i);
    }
  }

  /** The counters tally the samples bucket by bucket. */
  ghost predicate Tallies(counts: seq<nat>, s: seq<nat>) {
    |counts| == BUCKETS && forall i :: 0 <= i < BUCKETS ==> counts[i] == InBucket(s, i)
  }

  lemma TallyOne(counts: seq<nat>, s: seq<nat>, v: nat, b: nat)
    requires Tallies(counts, s) && b == Bucket(v)
    ensures Tallies(counts[b := counts[b] + 1], Insert(s, v))
  {
    var c := counts[b := counts[b] + 1];
    forall i | 0 <= i < BUCKETS ensures c[i] == InBucket(Insert(s, v), i) {
      InsertCounts(s, v, i);
    }
  }

  ghost function Total(s: seq<nat>): nat {
    if s == [] then 0 else Total(s[..|s| - 1]) + s[|s| - 1]
  }

  lemma {:induction false} InsertTotal(s: seq<nat>, v: nat)
    ensures Total(Insert(s, v)) == Total(s) + v
  {
    if s == [] || s[|s| - 1] <= v {
      assert (s + [v])[..|s|] == s;
    } else {
      var pre, x := s[..|s| - 1], s[|s| - 1];
      InsertTotal(pre, v);
      assert (Insert(pre, v) + [x])[..|Insert(pre, v)|] == Insert(pre, v);
    }
  }

  /** The least and greatest sample, as the histogram keeps them. */
  ghost predicate Ends(s: seq<nat>, min: nat, max: nat) {
    if s == [] then max == 0 else min == s[0] && max == s[|s| - 1]
  }

  /** A histogram of samples below the ceiling stays one while they are. */
  lemma InsertBounded(s: seq<nat>, v: nat)
    requires Bounded(s) && v < CEILING
    ensures Bounded(Insert(s, v))
  {
    InsertAdds(s, v);
    Bounds(s, Insert(s, v), v, CEILING - 1);
  }

  /** What one more sample leaves true. */
  lemma AddOne(counts: seq<nat>, s: seq<nat>, v: nat, b: nat, min: nat, max: nat) returns (s': seq<nat>)
    requires Tallies(counts, s) && Sorted(s) && Ends(s, min, max) && b == Bucket(v)
    ensures s' == Insert(s, v) && Tallies(counts[b := counts[b] + 1], s') && Sorted(s')
    ensures |s'| == |s| + 1 && Total(s') == Total(s) + v
    ensures Ends(s', if s == [] || v < min then v else min, if v > max then v else max)
  {
    s' := Insert(s, v);
    TallyOne(counts, s, v, b);
    InsertSorts(s, v);
    InsertAdds(s, v);
    InsertTotal(s, v);
    EndsAfterInsert(s, v);
  }

  /** Bucket i brings the running total to the rank. */
  ghost predicate Reaches(s: seq<nat>, i: nat, rank: nat) { Under(s, i) < rank <= Under(s, i + 1) }

  /** The first bucket whose running total reaches a rank is the bucket of that rank's sample. */
  lemma RankFound(s: seq<nat>, rank: nat, i: nat)
    requires Sorted(s) && Bounded(s) && 1 <= rank <= |s| && Reaches(s, i, rank)
    ensures Covers(Value(i), s[rank - 1])
  {
    RankInBuckets(s, rank, i);
    RankInBuckets(s, rank, i + 1);
    EdgeOfSample(s[rank - 1]);
  }

  // --- the histogram ---------------------------------------------------------

  /** The rank of a quantile given in parts per million, rounded up and at least one. */
  function Rank(ppm: nat, n: nat): nat {
    var want := (ppm * n + 999_999) / 1_000_000;
    if want == 0 then 1 else want
  }

  /** The rank is the least whole one that covers the given part of the samples. */
  lemma RankLeast(ppm: nat, n: nat)
    ensures Rank(ppm, n) >= 1 && Rank(ppm, n) * 1_000_000 >= ppm * n
    ensures Rank(ppm, n) > 1 ==> (Rank(ppm, n) - 1) * 1_000_000 < ppm * n
  {}

  lemma RankInRange(ppm: nat, n: nat)
    requires ppm <= 1_000_000 && n > 0
    ensures 1 <= Rank(ppm, n) <= n
  {
    MulAtLeast(n, 1_000_000, ppm);
  }

  class Hist {
    const counts: array<nat>
    var n: nat
    var min: nat
    var max: nat
    var sum: nat
    ghost var samples: seq<nat>

    ghost predicate Valid()
      reads this, counts
    {
      && Tallies(counts[..], samples) && Sorted(samples) && n == |samples|
      && Ends(samples, min, max) && sum == Total(samples)
    }

    constructor ()
      ensures Valid() && fresh(counts) && samples == []
    {
      counts := new nat[BUCKETS](_ => 0);
      n, min, max, sum := 0, 0, 0, 0;
      samples := [];
    }

    method Add(d: int)
      requires Valid()
      modifies this, counts
      ensures Valid() && samples == Insert(old(samples), if d < 0 then 0 else d)
    {
      var v: nat := if d < 0 then 0 else d;
      var b := Bucket(v);
      ghost var next := AddOne(counts[..], samples, v, b, min, max);
      counts[b] := counts[b] + 1;
      assert counts[..] == old(counts[..])[b := old(counts[b]) + 1];
      n := n + 1;
      sum := sum + v;
      if n == 1 || v < min { min := v; }
      if v > max { max := v; }
      samples := next;
    }

    /** The reported quantile is the edge of the first bucket that brings the running total
        to its rank. Below the ceiling it covers the sample of that rank in the sorted list:
        never below it, and above by at most 1/128 of it. */
    method Quantile(ppm: nat) returns (r: nat)
      requires Valid() && ppm <= 1_000_000
      ensures n == 0 ==> r == 0
      ensures n > 0 ==> 1 <= Rank(ppm, n) <= n && exists i :: r == Value(i) && Reaches(samples, i, Rank(ppm, n))
      ensures n > 0 && Bounded(samples) ==> Covers(r, samples[Rank(ppm, n) - 1])
    {
      if n == 0 { return 0; }
      RankInRange(ppm, n);
      var want := Rank(ppm, n);
      var seen := 0;
      UnderBounds(samples, counts.Length);
      var i := 0;
      while i < counts.Length
        invariant 0 <= i <= counts.Length && seen == Under(samples, i) < want
      {
        UnderNext(samples, i);
        seen := seen + counts[i];
        if seen >= want {
          assert Reaches(samples, i, want);
          if Bounded(samples) { RankFound(samples, want, i); }
          return Value(i);
        }
        i := i + 1;
      }
      return max;
    }
  }

  lemma {:induction false} EndsAfterInsert(s: seq<nat>, v: nat)
    requires Sorted(s)
    ensures var r := Insert(s, v);
      && r != [] && r[0] == (if s == [] || v < s[0] then v else s[0])
      && r[|r| - 1] == (if s == [] || v > s[|s| - 1] then v else s[|s| - 1])
  {
    if s != [] && s[|s| - 1] > v {
      EndsAfterInsert(s[..|s| - 1], v);
    }
  }
}
