/** When `MaxSkew` is the exact maximum. */
module SkewExact {
  import opened Timeline
  import opened Skew

  // --- how a rounded offset moves ----------------------------------------------

  /** The least and the most a rate can add in one nanosecond, rounding included. */
  function Least(s: int): int { s / PPB }

  function Most(s: int): int { -((-s) / PPB) }

  /** In every nanosecond one of the two rates adds at least what the other does. */
  predicate Steady(s: int, t: int) { Most(t) <= Least(s) || Most(s) <= Least(t) }

  lemma TruncStep(n: int, s: int)
    requires (s >= 0 && n >= 0) || (s <= 0 && n <= 0)
    ensures Least(s) <= Trunc(n + s, PPB) - Trunc(n, PPB) <= Most(s)
  {}

  lemma OffsetStep(seg: Segment, t: Instant)
    requires seg.start <= t
    ensures Least(seg.slope) <= OffsetIn(seg, t + 1) - OffsetIn(seg, t) <= Most(seg.slope)
  {
    var x := t - seg.start;
    if seg.slope >= 0 {
      MulNonNeg(seg.slope, x);
    } else {
      MulNonNeg(-seg.slope, x);
      assert (-seg.slope) * x == -(seg.slope * x);
    }
    assert seg.slope * (t + 1 - seg.start) == seg.slope * x + seg.slope;
    TruncStep(seg.slope * x, seg.slope);
  }

  lemma {:induction false} SteadyMoves(x: Segment, y: Segment, p: Instant, q: Instant)
    requires Most(y.slope) <= Least(x.slope) && x.start <= p && y.start <= p <= q
    ensures OscIn(x, p) - OscIn(y, p) <= OscIn(x, q) - OscIn(y, q)
    decreases q - p
  {
    if p < q {
      SteadyMoves(x, y, p, q - 1);
      OffsetStep(x, q - 1);
      OffsetStep(y, q - 1);
    }
  }

  /** The rounded difference of two segments moves one way: one rate always adds at least
      what the other does, or the two are one line up to a constant. */
  predicate OneWay(x: Segment, y: Segment) {
    Steady(x.slope, y.slope) || (x.slope == y.slope && x.start == y.start)
  }

  lemma OneWayBetween(x: Segment, y: Segment, p: Instant, t: Instant, q: Instant)
    requires OneWay(x, y) && x.start <= p && y.start <= p <= t <= q
    ensures var dp, dt, dq := OscIn(x, p) - OscIn(y, p), OscIn(x, t) - OscIn(y, t), OscIn(x, q) - OscIn(y, q);
      dp <= dt <= dq || dq <= dt <= dp
  {
    if Most(y.slope) <= Least(x.slope) {
      SteadyMoves(x, y, p, t);
      SteadyMoves(x, y, t, q);
    } else if Most(x.slope) <= Least(y.slope) {
      SteadyMoves(y, x, p, t);
      SteadyMoves(y, x, t, q);
    }
  }

  // --- exact where the rates are steady ----------------------------------------

  ghost predicate OneWayAt(a: Clock, b: Clock, p: Instant)
    requires a.skew != [] && b.skew != []
  { OneWay(a.skew[SegAt(a.skew, p)], b.skew[SegAt(b.skew, p)]) }

  lemma StretchExact(a: Clock, b: Clock, p: Instant, t: Instant, q: Instant, max: int)
    requires Valid(a) && Valid(b) && 0 <= p < t < q && Smooth(a, p, q) && Smooth(b, p, q) && OneWayAt(a, b, p)
    requires Abs(Apart(a, b, p)) <= max && Abs(ApartBefore(a, b, q)) <= max
    ensures Abs(Apart(a, b, t)) <= max
  {
    StretchWall(a, p, q, p);
    StretchWall(a, p, q, t);
    StretchWall(b, p, q, p);
    StretchWall(b, p, q, t);
    OneWayBetween(a.skew[SegAt(a.skew, p)], b.skew[SegAt(b.skew, p)], p, t, q);
  }

  /** Where the difference in force never turns, the maximum over the breakpoints is the
      maximum over the window. */
  lemma ExactWhereSteady(a: Clock, b: Clock, from: Instant, to: Instant, max: int, t: Instant)
    requires Valid(a) && Valid(b) && 0 <= from <= t <= to && Dominates(a, b, from, to, max)
    requires forall p :: from <= p < to ==> OneWayAt(a, b, p)
    ensures Abs(Apart(a, b, t)) <= max
  {
    if !Point(a, b, from, to, t) {
      var p := PointBelow(a, b, from, to, t);
      var q := PointAbove(a, b, from, to, t);
      forall u | p < u < q ensures !Bends(a, u) && !Bends(b, u) { assert !Point(a, b, from, to, u); }
      StretchExact(a, b, p, t, q, max);
    }
  }

  // --- and only there ----------------------------------------------------------

  lemma UnsteadyRates(s: int, t: int)
    requires !Steady(s, t)
    ensures s / PPB == t / PPB && s % PPB > 0 && t % PPB > 0 && (s > 0 <==> t > 0)
  {}

  lemma MirrorRates(s: int, t: int)
    requires -PPB < s <= 0 && -PPB < t <= 0 && s % PPB > 0 && t % PPB > 0
    ensures -s > 0 && -t > 0 && (-s) / PPB == (-t) / PPB && (-s) % PPB > 0 && (-t) % PPB > 0
  {}

  /** Around one whole second a rate that is not whole adds its most, and then its least. */
  lemma AroundSecond(s: int)
    requires s > 0 && s % PPB > 0
    ensures Trunc(s * (PPB - 1), PPB) == s - s / PPB - 1
    ensures Trunc(s * PPB, PPB) == s && Trunc(s * (PPB + 1), PPB) == s + s / PPB
  {}

  /** The nanoseconds a rate takes to gain its first unit beyond its whole part. */
  function FirstUnit(t: int): int
    requires t % PPB > 0
  { CeilDiv(PPB, t % PPB) }

  lemma FirstUnitBounds(t: int)
    requires t % PPB > 0
    ensures var n, g := FirstUnit(t), t % PPB; 2 <= n <= PPB && g * (n - 1) < PPB <= g * n
  {
    var n, g := FirstUnit(t), t % PPB;
    CeilBounds(PPB, g);
    assert g * (n - 1) == g * n - g;
    if n > PPB { MulMono(g, PPB, n - 1); }
  }

  lemma WholePlusPart(t: int, m: int)
    requires t > 0 && m >= 0
    ensures t * m == PPB * ((t / PPB) * m) + (t % PPB) * m
  {
    var k, g := t / PPB, t % PPB;
    assert t == PPB * k + g;
    assert (PPB * k + g) * m == PPB * (k * m) + g * m;
  }

  lemma GainedSoFar(t: int, m: int, j: int)
    requires t > 0 && m >= 0 && PPB * j <= (t % PPB) * m < PPB * j + PPB
    ensures Trunc(t * m, PPB) == (t / PPB) * m + j
  {
    WholePlusPart(t, m);
    MulNonNeg(t, m);
  }

  /** Around its first unit a rate adds its least, and then its most. */
  lemma AroundFirstUnit(t: int)
    requires t > 0 && t % PPB > 0
    ensures var n, k := FirstUnit(t), t / PPB;
      && Trunc(t * (n - 2), PPB) == k * (n - 2)
      && Trunc(t * (n - 1), PPB) == k * (n - 1)
      && Trunc(t * n, PPB) == k * n + 1
  {
    var n, g := FirstUnit(t), t % PPB;
    FirstUnitBounds(t);
    assert g * (n - 1) == g * n - g && g * (n - 2) == g * n - 2 * g;
    MulNonNeg(g, n - 2);
    GainedSoFar(t, n - 2, 0);
    GainedSoFar(t, n - 1, 0);
    GainedSoFar(t, n, 1);
  }

  /** One clock at rate s throughout, the other at rate t from `start` on. */
  ghost predicate Pair(a: Clock, b: Clock, s: int, t: int, start: Instant) {
    && a == Clock([Segment(0, 0, s)], [], [], 1)
    && b == Clock([Segment(0, 0, 0), Segment(start, 0, t)], [], [], 1)
  }

  lemma PairValid(a: Clock, b: Clock, s: int, t: int, start: Instant)
    requires Pair(a, b, s, t, start) && start > 0 && s > -PPB && t > -PPB
    ensures Valid(a) && Valid(b)
  {
    assert Joins(b.skew[0], b.skew[1]);
  }

  lemma PairApart(a: Clock, b: Clock, s: int, t: int, start: Instant, u: Instant)
    requires Pair(a, b, s, t, start) && u >= start > 0
    ensures Apart(a, b, u) == ApartBefore(a, b, u) == Trunc(s * u, PPB) - Trunc(t * (u - start), PPB)
    ensures SegAt(a.skew, u) == 0 && SegAt(b.skew, u) == 1
  {
    assert SegAt(b.skew, u) == 1;
  }

  lemma PairEnds(a: Clock, b: Clock, s: int, t: int, start: Instant, from: Instant, to: Instant, p: Instant)
    requires Pair(a, b, s, t, start) && 0 < start <= from && Point(a, b, from, to, p)
    ensures p == from || p == to
  {}

  lemma TruncOdd(n: int)
    ensures Trunc(-n, PPB) == -Trunc(n, PPB)
  {}

  /** The gap m nanoseconds from one whole second, when the late clock is then n - 1 in. */
  ghost function Gap(s: int, t: int, n: int, m: int): int {
    Trunc(s * (PPB + m), PPB) - Trunc(t * (n - 1 + m), PPB)
  }

  lemma PairGap(a: Clock, b: Clock, s: int, t: int, n: int, m: int)
    requires Pair(a, b, s, t, PPB - n + 1) && n <= PPB && n - 1 + m >= 0
    ensures Apart(a, b, PPB + m) == ApartBefore(a, b, PPB + m) == Gap(s, t, n, m)
  {
    PairApart(a, b, s, t, PPB - n + 1, PPB + m);
  }

  lemma TurnsUp(s: int, t: int, n: int)
    requires s > 0 && t > 0 && s / PPB == t / PPB && s % PPB > 0 && t % PPB > 0 && n == FirstUnit(t)
    ensures Gap(s, t, n, -1) == Gap(s, t, n, 1) == Gap(s, t, n, 0) - 1 && Gap(s, t, n, -1) >= 0
  {
    var k := t / PPB;
    AroundSecond(s);
    AroundFirstUnit(t);
    FirstUnitBounds(t);
    assert k * (n - 1) == k * n - k && k * (n - 2) == k * n - 2 * k;
    MulNonNeg(k, PPB - n);
    assert k * (PPB - n) == k * PPB - k * n;
  }

  /** Below zero everything is the mirror image. */
  lemma MirrorGap(s: int, t: int, n: int, m: int)
    ensures Gap(s, t, n, m) == -Gap(-s, -t, n, m)
  {
    assert s * (PPB + m) == -((-s) * (PPB + m)) && t * (n - 1 + m) == -((-t) * (n - 1 + m));
    TruncOdd((-s) * (PPB + m));
    TruncOdd((-t) * (n - 1 + m));
  }

  lemma TurnsDown(s: int, t: int, n: int)
    requires s < 0 && t < 0 && (-s) / PPB == (-t) / PPB && (-s) % PPB > 0 && (-t) % PPB > 0 && n == FirstUnit(-t)
    ensures Gap(s, t, n, -1) == Gap(s, t, n, 1) == Gap(s, t, n, 0) + 1 && Gap(s, t, n, -1) <= 0
  {
    TurnsUp(-s, -t, n);
    MirrorGap(s, t, n, -1);
    MirrorGap(s, t, n, 0);
    MirrorGap(s, t, n, 1);
  }

  lemma TurnsAway(s: int, t: int) returns (n: int, max: int)
    requires s > -PPB && t > -PPB && !Steady(s, t)
    ensures 2 <= n <= PPB
    ensures Abs(Gap(s, t, n, -1)) == Abs(Gap(s, t, n, 1)) == max && Abs(Gap(s, t, n, 0)) == max + 1
  {
    UnsteadyRates(s, t);
    if t > 0 {
      n := FirstUnit(t);
      FirstUnitBounds(t);
      TurnsUp(s, t, n);
    } else {
      MirrorRates(s, t);
      n := FirstUnit(-t);
      FirstUnitBounds(-t);
      TurnsDown(s, t, n);
    }
    max := Abs(Gap(s, t, n, 1));
  }

  /** The rate in force throughout a window. */
  ghost predicate RunsAt(c: Clock, from: Instant, to: Instant, s: int)
    requires c.skew != []
  { forall p :: from <= p < to ==> c.skew[SegAt(c.skew, p)].slope == s }

  /** Two rates of which neither always adds at least what the other does read, for some
      clocks, a unit further apart than at either end of a window of two nanoseconds. */
  lemma UnsteadyLoses(s: int, t: int) returns (a: Clock, b: Clock, max: int)
    requires s > -PPB && t > -PPB && !Steady(s, t)
    ensures Valid(a) && Valid(b) && RunsAt(a, PPB - 1, PPB + 1, s) && RunsAt(b, PPB - 1, PPB + 1, t)
    ensures Dominates(a, b, PPB - 1, PPB + 1, max) && Abs(Apart(a, b, PPB)) == max + 1
  {
    var n;
    n, max := TurnsAway(s, t);
    var start := PPB - n + 1;
    a, b := Clock([Segment(0, 0, s)], [], [], 1), Clock([Segment(0, 0, 0), Segment(start, 0, t)], [], [], 1);
    PairValid(a, b, s, t, start);
    PairRuns(a, b, s, t, start, PPB - 1, PPB + 1);
    PairGap(a, b, s, t, n, -1);
    PairGap(a, b, s, t, n, 0);
    PairGap(a, b, s, t, n, 1);
    PairDominates(a, b, s, t, start, PPB - 1, PPB + 1, max);
  }

  lemma PairRuns(a: Clock, b: Clock, s: int, t: int, start: Instant, from: Instant, to: Instant)
    requires Pair(a, b, s, t, start) && 0 < start <= from
    ensures RunsAt(a, from, to, s) && RunsAt(b, from, to, t)
  {
    forall u | u >= start ensures SegAt(a.skew, u) == 0 && SegAt(b.skew, u) == 1 { PairApart(a, b, s, t, start, u); }
  }

  lemma PairDominates(a: Clock, b: Clock, s: int, t: int, start: Instant, from: Instant, to: Instant, max: int)
    requires Pair(a, b, s, t, start) && 0 < start <= from <= to
    requires Abs(Apart(a, b, from)) <= max && Abs(Apart(a, b, to)) <= max && Abs(ApartBefore(a, b, to)) <= max
    ensures Dominates(a, b, from, to, max)
  {
    forall p | Point(a, b, from, to, p) ensures p == from || p == to { PairEnds(a, b, s, t, start, from, to, p); }
  }

  /** Two clocks half as fast again, one of them from a nanosecond late, read alike at one
      and at three and a nanosecond apart at two. */
  lemma HalfRateEscapes(a: Clock, b: Clock)
    requires a == Clock([Segment(0, 0, 500_000_000)], [], [], 1)
    requires b == Clock([Segment(0, 0, 0), Segment(1, 0, 500_000_000)], [], [], 1)
    ensures Valid(a) && Valid(b) && Dominates(a, b, 1, 3, 0) && Abs(Apart(a, b, 2)) == 1
  {
    LateByOne(a, b, 500_000_000);
  }

  lemma LateByOne(a: Clock, b: Clock, s: int)
    requires Pair(a, b, s, s, 1) && 2 * s == PPB
    ensures Valid(a) && Valid(b) && Dominates(a, b, 1, 3, 0) && Abs(Apart(a, b, 2)) == 1
  {
    PairValid(a, b, s, s, 1);
    PairApart(a, b, s, s, 1, 1);
    PairApart(a, b, s, s, 1, 2);
    PairApart(a, b, s, s, 1, 3);
    PairDominates(a, b, s, s, 1, 1, 3, 0);
  }

  /** At these two rates no window of any two clocks reads beyond its breakpoints. */
  ghost predicate NeverBeyond(s: int, t: int) {
    forall a, b, from: Instant, to: Instant, max, u: Instant ::
      Scene(a, b, from, to, s, t, u) && Dominates(a, b, from, to, max) ==> Abs(Apart(a, b, u)) <= max
  }

  /** An instant of a window through which two valid clocks run at rates s and t. */
  ghost predicate Scene(a: Clock, b: Clock, from: Instant, to: Instant, s: int, t: int, u: Instant) {
    Valid(a) && Valid(b) && 0 <= from <= u <= to && RunsAt(a, from, to, s) && RunsAt(b, from, to, t)
  }

  /** Two rates never read beyond the breakpoints exactly when one of them always adds at
      least what the other does. */
  lemma ExactIff(s: int, t: int)
    requires s > -PPB && t > -PPB
    ensures NeverBeyond(s, t) <==> Steady(s, t)
  {
    if Steady(s, t) {
      forall a, b, from: Instant, to: Instant, max, u: Instant |
        Scene(a, b, from, to, s, t, u) && Dominates(a, b, from, to, max)
        ensures Abs(Apart(a, b, u)) <= max
      {
        ExactWhereSteady(a, b, from, to, max, u);
      }
    } else {
      var a, b, max := UnsteadyLoses(s, t);
      assert Scene(a, b, PPB - 1, PPB + 1, s, t, PPB) && Abs(Apart(a, b, PPB)) > max;
    }
  }
}
