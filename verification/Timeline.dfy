/** One node's clock as a function of global time: a piecewise-linear oscillator in whole
    nanoseconds, wall-clock steps on top, and restarts. Arithmetic is exact; the source's
    128-bit overflow panics are outside the model. */
module Timeline {
  const PPB: int := 1_000_000_000

  type Instant = int

  datatype Segment = Segment(start: Instant, off: int, slope: int)
  datatype Step = Step(at: Instant, delta: int)
  datatype Clock = Clock(skew: seq<Segment>, steps: seq<Step>, boots: seq<Instant>, epoch: int)

  /** Division rounding toward zero. */
  function Trunc(n: int, d: int): int
    requires d > 0
  { if n >= 0 then n / d else -((-n) / d) }

  function OffsetIn(seg: Segment, t: Instant): int { seg.off + Trunc(seg.slope * (t - seg.start), PPB) }

  /** A segment's oscillator extended to t. */
  function OscIn(seg: Segment, t: Instant): Instant { t + OffsetIn(seg, t) }

  /** What validation accepts: segments in order from zero, no slope that stops or
      reverses the clock, no jump between segments, steps and boots in order. */
  ghost predicate Valid(c: Clock) {
    && c.skew != [] && c.skew[0].start == 0 && c.epoch != 0
    && (forall i :: 0 <= i < |c.skew| ==> c.skew[i].slope > -PPB)
    && (forall i :: 0 < i < |c.skew| ==> Joins(c.skew[i - 1], c.skew[i]))
    && (forall i, j :: 0 <= i < j < |c.steps| ==> c.steps[i].at <= c.steps[j].at)
    && Rising(c.boots)
  }

  ghost predicate Joins(a: Segment, b: Segment) { a.start < b.start && OffsetIn(a, b.start) == b.off }

  /** Validation accepts exactly the valid timelines. */
  method Validate(c: Clock) returns (ok: bool)
    ensures ok <==> Valid(c)
  {
    if |c.skew| == 0 || c.skew[0].start != 0 || c.epoch == 0 { return false; }
    var i := 0;
    while i < |c.skew|
      invariant 0 <= i <= |c.skew|
      invariant forall k :: 0 <= k < i ==> c.skew[k].slope > -PPB
      invariant forall k :: 0 < k < i ==> Joins(c.skew[k - 1], c.skew[k])
    {
      if c.skew[i].slope <= -PPB { return false; }
      if i > 0 {
        var prev := c.skew[i - 1];
        if c.skew[i].start <= prev.start || OffsetIn(prev, c.skew[i].start) != c.skew[i].off {
          assert !Joins(c.skew[i - 1], c.skew[i]);
          return false;
        }
      }
      i := i + 1;
    }
    i := 1;
    while i < |c.steps|
      invariant 1 <= i && (|c.steps| > 0 ==> i <= |c.steps|)
      invariant forall j, k :: 0 <= j < k < i && k < |c.steps| ==> c.steps[j].at <= c.steps[k].at
    {
      if c.steps[i].at < c.steps[i - 1].at { return false; }
      i := i + 1;
    }
    i := 1;
    while i < |c.boots|
      invariant 1 <= i && (|c.boots| > 0 ==> i <= |c.boots|)
      invariant forall j, k :: 0 <= j < k < i && k < |c.boots| ==> c.boots[j] < c.boots[k]
    {
      if c.boots[i] <= c.boots[i - 1] { return false; }
      i := i + 1;
    }
    return true;
  }

  /** The index of the segment in force at t: the last that has started, or the first. */
  function SegAt(skew: seq<Segment>, t: Instant): (k: nat)
    requires skew != []
    ensures k < |skew|
  {
    if |skew| == 1 || skew[|skew| - 1].start <= t then |skew| - 1 else SegAt(skew[..|skew| - 1], t)
  }

  function Osc(c: Clock, t: Instant): Instant
    requires c.skew != []
  { OscIn(c.skew[SegAt(c.skew, t)], t) }

  // --- one segment -----------------------------------------------------------

  /** Oscillator time gained x nanoseconds into a segment. */
  function Gain(slope: int, x: int): int { x + Trunc(slope * x, PPB) }

  lemma OscIsGain(seg: Segment, t: Instant)
    ensures OscIn(seg, t) == seg.start + seg.off + Gain(seg.slope, t - seg.start)
  {}

  lemma FloorBounds(n: int, d: int)
    requires d > 0
    ensures d * (n / d) <= n < d * (n / d) + d
  {}

  /** A fast clock's gain is its exact value rounded down, a slow clock's rounded up. */
  lemma GainBounds(s: int, x: int)
    requires s > -PPB && x >= 0
    ensures s >= 0 ==> PPB * Gain(s, x) <= x * (PPB + s) < PPB * Gain(s, x) + PPB
    ensures s < 0 ==> x * (PPB + s) <= PPB * Gain(s, x) < x * (PPB + s) + PPB
    ensures 0 <= Gain(s, x)
  {
    assert x * (PPB + s) == PPB * x + s * x;
    if s >= 0 {
      MulNonNeg(s, x);
      FloorBounds(s * x, PPB);
    } else {
      MulNonNeg(-s, x);
      assert (-s) * x == -(s * x);
      FloorBounds(-(s * x), PPB);
      assert Trunc(s * x, PPB) == -(-(s * x) / PPB);
      MulNonNeg(PPB + s, x);
    }
  }

  lemma MulNonNeg(a: int, b: int)
    requires a >= 0 && b >= 0
    ensures a * b >= 0
  {}

  lemma GainOdd(s: int, x: int)
    ensures Gain(s, -x) == -Gain(s, x)
  {
    assert s * (-x) == -(s * x);
  }

  lemma MulMono(a: int, x: int, y: int)
    requires a > 0 && x <= y
    ensures x * a <= y * a && (x < y ==> x * a + a <= y * a)
  {
    MulNonNeg(a, y - x);
    assert (y - x) * a == y * a - x * a;
    if x < y {
      MulNonNeg(a, y - x - 1);
      assert (y - x - 1) * a == y * a - x * a - a;
    }
  }

  lemma GainMonoUp(s: int, x: int, y: int)
    requires s > -PPB && 0 <= x <= y
    ensures Gain(s, x) <= Gain(s, y)
  {
    GainBounds(s, x);
    GainBounds(s, y);
    MulMono(PPB + s, x, y);
  }

  /** The oscillator never runs backwards within a segment, before its start included. */
  lemma GainMono(s: int, x: int, y: int)
    requires s > -PPB && x <= y
    ensures Gain(s, x) <= Gain(s, y)
  {
    if x >= 0 {
      GainMonoUp(s, x, y);
    } else if y <= 0 {
      GainMonoUp(s, -y, -x);
      GainOdd(s, -x);
      GainOdd(s, -y);
    } else {
      GainBounds(s, -x);
      GainOdd(s, -x);
      GainBounds(s, y);
    }
  }

  // --- the whole oscillator --------------------------------------------------

  lemma {:induction false} SegAtMeaning(skew: seq<Segment>, t: Instant)
    requires skew != [] && forall i :: 0 < i < |skew| ==> skew[i - 1].start < skew[i].start
    ensures var k := SegAt(skew, t);
      && (k > 0 ==> skew[k].start <= t)
      && (forall j :: k < j < |skew| ==> t < skew[j].start)
  {
    if |skew| > 1 && skew[|skew| - 1].start > t {
      var pre := skew[..|skew| - 1];
      SegAtMeaning(pre, t);
      assert forall j :: 0 <= j < |pre| ==> pre[j] == skew[j];
    }
  }

  lemma ValidSorted(c: Clock)
    requires Valid(c)
    ensures forall i :: 0 < i < |c.skew| ==> c.skew[i - 1].start < c.skew[i].start
  {
    forall i | 0 < i < |c.skew| ensures c.skew[i - 1].start < c.skew[i].start {
      assert Joins(c.skew[i - 1], c.skew[i]);
    }
  }

  lemma {:induction false} StartsSorted(c: Clock, i: nat, j: nat)
    requires Valid(c) && i < j < |c.skew|
    ensures c.skew[i].start < c.skew[j].start
  {
    assert Joins(c.skew[j - 1], c.skew[j]);
    if i < j - 1 { StartsSorted(c, i, j - 1); }
  }

  /** At and after a later segment's start the oscillator has passed an earlier one. */
  lemma {:induction false} OscAcross(c: Clock, i: nat, j: nat, t: Instant, u: Instant)
    requires Valid(c) && i <= j < |c.skew| && t <= u
    requires i < j ==> t <= c.skew[i + 1].start && c.skew[j].start <= u
    ensures OscIn(c.skew[i], t) <= OscIn(c.skew[j], u)
    decreases j - i
  {
    var a := c.skew[i];
    OscIsGain(a, t);
    if i == j {
      OscIsGain(a, u);
      GainMono(a.slope, t - a.start, u - a.start);
    } else {
      var b := c.skew[i + 1];
      assert Joins(c.skew[i], c.skew[i + 1]);
      OscIsGain(a, b.start);
      GainMono(a.slope, t - a.start, b.start - a.start);
      assert OscIn(a, b.start) == OscIn(b, b.start) by { assert b.slope * 0 == 0; }
      if i + 1 < j { StartsSorted(c, i + 1, i + 2); StartsSortedEq(c, i + 1, j); }
      OscAcross(c, i + 1, j, b.start, u);
    }
  }

  lemma StartsSortedEq(c: Clock, i: nat, j: nat)
    requires Valid(c) && i <= j < |c.skew|
    ensures c.skew[i].start <= c.skew[j].start
  {
    if i < j { StartsSorted(c, i, j); }
  }

  /** On every valid timeline the oscillator never decreases. */
  lemma OscNeverFalls(c: Clock, t: Instant, u: Instant)
    requires Valid(c) && t <= u
    ensures Osc(c, t) <= Osc(c, u)
  {
    ValidSorted(c);
    SegAtMeaning(c.skew, t);
    SegAtMeaning(c.skew, u);
    var i, j := SegAt(c.skew, t), SegAt(c.skew, u);
    OscAcross(c, i, j, t, u);
  }

  // --- solving for an oscillator target --------------------------------------

  function CeilDiv(n: int, d: int): int
    requires n >= 0 && d > 0
  { n / d + if n % d == 0 then 0 else 1 }

  lemma CeilBounds(n: int, d: int)
    requires n >= 0 && d > 0
    ensures CeilDiv(n, d) >= 0 && (n > 0 ==> CeilDiv(n, d) > 0) && d * CeilDiv(n, d) - d < n <= d * CeilDiv(n, d)
  {
    assert n == d * (n / d) + n % d;
    MulNonNeg(d, n / d);
  }

  /** How far into a segment its exact line reaches a gain of rel. */
  function Reach(slope: int, rel: int): int
    requires slope > -PPB && rel >= 0
  { CeilDiv(rel * PPB, PPB + slope) }

  function SolveFrom(skew: seq<Segment>, i: nat, target: Instant): Instant
    requires i < |skew| && forall k :: 0 <= k < |skew| ==> skew[k].slope > -PPB
    decreases |skew| - i
  {
    var rel := target - skew[i].start - skew[i].off;
    if rel < 0 then skew[i].start
    else
      var at := skew[i].start + Reach(skew[i].slope, rel);
      if i == |skew| - 1 || at < skew[i + 1].start then at else SolveFrom(skew, i + 1, target)
  }

  function SolveOsc(c: Clock, target: Instant): Instant
    requires c.skew != [] && forall k :: 0 <= k < |c.skew| ==> c.skew[k].slope > -PPB
  { SolveFrom(c.skew, 0, target) }

  /** The exact line reached is the rounded oscillator reached. */
  lemma ReachGains(s: int, rel: int)
    requires s > -PPB && rel >= 0
    ensures Reach(s, rel) >= 0 && Gain(s, Reach(s, rel)) >= rel
  {
    var dt := Reach(s, rel);
    CeilBounds(rel * PPB, PPB + s);
    GainBounds(s, dt);
    assert dt * (PPB + s) == (PPB + s) * dt;
  }

  /** On a clock that is not slow, nothing earlier had reached it. */
  lemma ReachIsFirst(s: int, rel: int, x: int)
    requires s >= 0 && rel >= 0 && 0 <= x < Reach(s, rel)
    ensures Gain(s, x) < rel
  {
    var dt := Reach(s, rel);
    CeilBounds(rel * PPB, PPB + s);
    GainBounds(s, x);
    MulMono(PPB + s, x, dt);
    assert dt * (PPB + s) == (PPB + s) * dt;
  }

  /** On a slow clock an earlier instant always had: rounding toward zero reads ahead. */
  lemma ReachIsLate(s: int, rel: int)
    requires -PPB < s < 0 && rel >= 1
    ensures Reach(s, rel) >= 1 && Gain(s, Reach(s, rel) - 1) >= rel
  {
    var q := PPB + s;
    var x := Reach(s, rel) - 1;
    CeilBounds(rel * PPB, q);
    GainBounds(s, x);
    SlackIsWhole(PPB, q, x, rel, Gain(s, x));
  }

  lemma SlackIsWhole(p: int, q: int, x: int, rel: int, g: int)
    requires 0 < q < p && rel * p <= q * (x + 1) && x * q <= p * g
    ensures g >= rel
  {
    assert q * (x + 1) == x * q + q;
    assert rel * p - p < p * g;
    if g < rel { MulMono(p, g, rel - 1); }
  }

  lemma InSegment(c: Clock, i: nat, t: Instant)
    requires Valid(c) && i < |c.skew| && c.skew[i].start <= t && (i + 1 < |c.skew| ==> t < c.skew[i + 1].start)
    ensures SegAt(c.skew, t) == i
  {
    ValidSorted(c);
    SegAtMeaning(c.skew, t);
    var k := SegAt(c.skew, t);
    if k > i { StartsSortedEq(c, i + 1, k); }
  }

  lemma {:induction false} SolveFromReaches(c: Clock, i: nat, target: Instant)
    requires Valid(c) && i < |c.skew|
    ensures var at := SolveFrom(c.skew, i, target); at >= c.skew[i].start && Osc(c, at) >= target
    decreases |c.skew| - i
  {
    var seg := c.skew[i];
    var rel := target - seg.start - seg.off;
    if i + 1 < |c.skew| { StartsSorted(c, i, i + 1); }
    if rel < 0 {
      InSegment(c, i, seg.start);
      assert seg.slope * 0 == 0;
    } else {
      ReachGains(seg.slope, rel);
      var at := seg.start + Reach(seg.slope, rel);
      if i == |c.skew| - 1 || at < c.skew[i + 1].start {
        InSegment(c, i, at);
        OscIsGain(seg, at);
      } else {
        SolveFromReaches(c, i + 1, target);
      }
    }
  }

  /** The instant returned is one by which the oscillator has reached the target. */
  lemma SolveReaches(c: Clock, target: Instant)
    requires Valid(c)
    ensures SolveOsc(c, target) >= 0 && Osc(c, SolveOsc(c, target)) >= target
  {
    SolveFromReaches(c, 0, target);
  }

  /** What is left to gain of a target at the start of a segment. */
  function Rel(seg: Segment, target: Instant): int { target - seg.start - seg.off }

  /** Before the answer, every segment's exact line is still short of the target. */
  lemma {:induction false} SolveFromShort(c: Clock, i: nat, target: Instant, u: Instant)
    requires Valid(c) && i < |c.skew|
    requires c.skew[i].start <= u < SolveFrom(c.skew, i, target)
    ensures var seg := c.skew[SegAt(c.skew, u)];
      Rel(seg, target) >= 0 && 0 <= u - seg.start < Reach(seg.slope, Rel(seg, target))
    decreases |c.skew| - i
  {
    if i + 1 < |c.skew| && c.skew[i + 1].start <= u {
      SolveFromShort(c, i + 1, target, u);
    } else {
      InSegment(c, i, u);
    }
  }

  /** The instant returned is the earliest such when no segment is slow. */
  lemma SolveIsEarliest(c: Clock, target: Instant, u: Instant)
    requires Valid(c) && (forall k :: 0 <= k < |c.skew| ==> c.skew[k].slope >= 0)
    requires 0 <= u < SolveOsc(c, target)
    ensures Osc(c, u) < target
  {
    SolveFromShort(c, 0, target, u);
    var seg := c.skew[SegAt(c.skew, u)];
    OscIsGain(seg, u);
    ReachIsFirst(seg.slope, Rel(seg, target), u - seg.start);
  }

  ghost predicate Earliest(c: Clock, target: Instant)
    requires Valid(c)
  { forall u :: 0 <= u < SolveOsc(c, target) ==> Osc(c, u) < target }

  /** The segment's exact, unrounded line is a whole unit or more short of the target at t. */
  predicate UnitShort(seg: Segment, t: Instant, target: Instant) {
    (t - seg.start) * (PPB + seg.slope) <= (Rel(seg, target) - 1) * PPB
  }

  /** A slow segment's rounded reading is short exactly when its line is a whole unit short. */
  lemma SlowShort(s: int, x: int, rel: int)
    requires -PPB < s < 0 && x >= 0
    ensures Gain(s, x) < rel <==> x * (PPB + s) <= (rel - 1) * PPB
  {
    GainBounds(s, x);
    var g := Gain(s, x);
    if g < rel { MulMono(PPB, g, rel - 1); } else { MulMono(PPB, rel, g); }
  }

  /** The last segment whose oscillator starts short of the target, or -1 when none does. */
  function LastShort(skew: seq<Segment>, target: Instant): (j: int)
    ensures -1 <= j < |skew|
    ensures j >= 0 ==> Rel(skew[j], target) > 0
    ensures forall k :: j < k < |skew| ==> Rel(skew[k], target) <= 0
  {
    if skew == [] then -1
    else if Rel(skew[|skew| - 1], target) > 0 then |skew| - 1
    else LastShort(skew[..|skew| - 1], target)
  }

  /** A segment starts where the one before it ends. */
  lemma StartsAt(c: Clock, i: nat)
    requires Valid(c) && i < |c.skew|
    ensures Osc(c, c.skew[i].start) == c.skew[i].start + c.skew[i].off
    ensures i > 0 ==>
      Rel(c.skew[i - 1], c.skew[i].start + c.skew[i].off) ==
      Gain(c.skew[i - 1].slope, c.skew[i].start - c.skew[i - 1].start)
  {
    if i + 1 < |c.skew| { StartsSorted(c, i, i + 1); }
    InSegment(c, i, c.skew[i].start);
    assert c.skew[i].slope * 0 == 0;
    if i > 0 {
      assert Joins(c.skew[i - 1], c.skew[i]);
      OscIsGain(c.skew[i - 1], c.skew[i].start);
    }
  }

  /** Every segment up to the last short one starts short too, and so does not solve. */
  lemma {:induction false} SolveSkips(c: Clock, i: nat, j: nat, target: Instant)
    requires Valid(c) && i <= j < |c.skew| && Rel(c.skew[j], target) > 0
    ensures SolveFrom(c.skew, i, target) == SolveFrom(c.skew, j, target)
    decreases j - i
  {
    if i < j {
      StartsAt(c, i);
      StartsAt(c, i + 1);
      StartsAt(c, j);
      StartsSortedEq(c, i + 1, j);
      StartsSorted(c, i, i + 1);
      OscNeverFalls(c, c.skew[i].start, c.skew[j].start);
      OscNeverFalls(c, c.skew[i + 1].start, c.skew[j].start);
      ReachBeyond(c.skew[i].slope, Rel(c.skew[i], target), c.skew[i + 1].start - c.skew[i].start);
      SolveSkips(c, i + 1, j, target);
    }
  }

  /** What is not yet gained x in is gained later. */
  lemma ReachBeyond(s: int, rel: int, x: int)
    requires s > -PPB && rel >= 0 && x >= 0 && Gain(s, x) < rel
    ensures Reach(s, rel) > x
  {
    ReachGains(s, rel);
    if Reach(s, rel) <= x { GainMono(s, Reach(s, rel), x); }
  }

  /** The last short segment solves for the target itself, unless the next one starts
      first. */
  predicate SolvesInside(c: Clock, j: nat, target: Instant)
    requires j < |c.skew| && c.skew[j].slope > -PPB && Rel(c.skew[j], target) >= 0
  { j + 1 == |c.skew| || c.skew[j].start + Reach(c.skew[j].slope, Rel(c.skew[j], target)) < c.skew[j + 1].start }

  lemma SolveAt(c: Clock, j: nat, target: Instant)
    requires Valid(c) && j == LastShort(c.skew, target)
    ensures SolveOsc(c, target) ==
      if SolvesInside(c, j, target) then c.skew[j].start + Reach(c.skew[j].slope, Rel(c.skew[j], target))
      else c.skew[j + 1].start
  {
    SolveSkips(c, 0, j, target);
    if !SolvesInside(c, j, target) {
      assert Reach(c.skew[j + 1].slope, 0) == 0;
      if j + 2 < |c.skew| { StartsSorted(c, j + 1, j + 2); }
    }
  }

  /** The oscillator never falls, so only the instant before the answer matters. */
  lemma LastIsEnough(c: Clock, target: Instant, at: Instant)
    requires Valid(c) && at == SolveOsc(c, target) > 0
    ensures Earliest(c, target) <==> Osc(c, at - 1) < target
  {
    forall u | 0 <= u < at ensures Osc(c, u) <= Osc(c, at - 1) { OscNeverFalls(c, u, at - 1); }
  }

  /** The instant before the answer lies in the last short segment, short of its exact line. */
  lemma JustBefore(c: Clock, j: nat, target: Instant)
    requires Valid(c) && j == LastShort(c.skew, target)
    ensures var at := SolveOsc(c, target); var x := at - 1 - c.skew[j].start;
      && at > 0 && 0 <= x < Reach(c.skew[j].slope, Rel(c.skew[j], target))
      && (Osc(c, at - 1) < target <==> Gain(c.skew[j].slope, x) < Rel(c.skew[j], target))
  {
    var seg, at := c.skew[j], SolveOsc(c, target);
    StartsSortedEq(c, 0, j);
    SolveAt(c, j, target);
    assert seg.slope * 0 == 0;
    ReachBeyond(seg.slope, Rel(seg, target), 0);
    if j + 1 < |c.skew| { StartsSorted(c, j, j + 1); }
    InSegment(c, j, at - 1);
    OscIsGain(seg, at - 1);
  }

  /** The answer is the earliest instant exactly when every segment starts at or past the
      target, or the last that does not is not slow, or that one ends before its exact line
      has come within a unit of the target. */
  lemma EarliestIff(c: Clock, target: Instant)
    requires Valid(c)
    ensures var j := LastShort(c.skew, target);
      Earliest(c, target) <==>
        || j == -1 || c.skew[j].slope >= 0
        || (j + 1 < |c.skew| && UnitShort(c.skew[j], c.skew[j + 1].start - 1, target))
  {
    var j := LastShort(c.skew, target);
    if j >= 0 {
      var seg, at := c.skew[j], SolveOsc(c, target);
      JustBefore(c, j, target);
      LastIsEnough(c, target, at);
      SolveAt(c, j, target);
      if seg.slope >= 0 {
        ReachIsFirst(seg.slope, Rel(seg, target), at - 1 - seg.start);
      } else if SolvesInside(c, j, target) {
        SlowInsideIsLate(c, j, target);
      } else {
        SlowShort(seg.slope, at - 1 - seg.start, Rel(seg, target));
      }
    } else {
      assert Reach(c.skew[0].slope, 0) == 0;
      if |c.skew| > 1 { StartsSorted(c, 0, 1); }
    }
  }

  /** A slow segment that solves for the target itself always answers late, and its line is
      within a unit of the target from then to its end. */
  lemma SlowInsideIsLate(c: Clock, j: nat, target: Instant)
    requires Valid(c) && j == LastShort(c.skew, target) && c.skew[j].slope < 0 && SolvesInside(c, j, target)
    ensures !Earliest(c, target)
    ensures j + 1 < |c.skew| ==> !UnitShort(c.skew[j], c.skew[j + 1].start - 1, target)
  {
    var seg, at := c.skew[j], SolveOsc(c, target);
    var rel := Rel(seg, target);
    SolveAt(c, j, target);
    JustBefore(c, j, target);
    LastIsEnough(c, target, at);
    ReachIsLate(seg.slope, rel);
    if j + 1 < |c.skew| {
      var x := c.skew[j + 1].start - 1 - seg.start;
      GainMono(seg.slope, Reach(seg.slope, rel) - 1, x);
      SlowShort(seg.slope, x, rel);
    }
  }

  /** A clock at half speed reads one nanosecond one nanosecond in, and is said to reach it
      at two. */
  lemma SlowClockReadsAhead()
    ensures var c := Clock([Segment(0, 0, -500_000_000)], [], [], 1);
      Valid(c) && SolveOsc(c, 1) == 2 && Osc(c, 1) == 1
  {}

  method SolveOscLoop(c: Clock, target: Instant) returns (at: Instant)
    requires Valid(c)
    ensures at == SolveOsc(c, target)
  {
    var i := 0;
    while i < |c.skew|
      invariant 0 <= i < |c.skew| && SolveOsc(c, target) == SolveFrom(c.skew, i, target)
    {
      var seg := c.skew[i];
      var rel := target - seg.start - seg.off;
      if rel < 0 { return seg.start; }
      at := seg.start + CeilDiv(rel * PPB, PPB + seg.slope);
      if i == |c.skew| - 1 || at < c.skew[i + 1].start { return; }
      i := i + 1;
    }
  }

  // --- boots and ticks -------------------------------------------------------

  function BootAt(boots: seq<Instant>, t: Instant): Instant {
    if boots == [] then 0 else if boots[|boots| - 1] <= t then boots[|boots| - 1] else BootAt(boots[..|boots| - 1], t)
  }

  function Mono(c: Clock, t: Instant): int
    requires c.skew != []
  { Osc(c, t) - Osc(c, BootAt(c.boots, t)) }

  ghost predicate Rising(boots: seq<Instant>) { forall i, j :: 0 <= i < j < |boots| ==> boots[i] < boots[j] }

  /** The boot in force is the latest at or before t; before every boot it began at zero. */
  lemma {:induction false} BootAtMeaning(boots: seq<Instant>, t: Instant)
    ensures var b := BootAt(boots, t); if exists x :: x in boots && x <= t then b in boots && b <= t else b == 0
    ensures Rising(boots) ==> forall x :: x in boots && x <= t ==> x <= BootAt(boots, t)
  {
    if boots != [] && boots[|boots| - 1] > t {
      var pre := boots[..|boots| - 1];
      BootAtMeaning(pre, t);
      assert boots == pre + [boots[|boots| - 1]];
    }
  }

  /** With no restart in between, the boot in force is the same. */
  lemma {:induction false} SameBoot(boots: seq<Instant>, t: Instant, u: Instant)
    requires t <= u && forall i :: 0 <= i < |boots| ==> !(t < boots[i] <= u)
    ensures BootAt(boots, u) == BootAt(boots, t)
  {
    if boots != [] {
      var pre := boots[..|boots| - 1];
      assert forall i :: 0 <= i < |pre| ==> pre[i] == boots[i];
      if boots[|boots| - 1] > u { SameBoot(pre, t, u); }
    }
  }

  method BootAtLoop(c: Clock, t: Instant) returns (start: Instant)
    requires Valid(c)
    ensures start == BootAt(c.boots, t)
    ensures if exists x :: x in c.boots && x <= t then start in c.boots && start <= t else start == 0
    ensures forall x :: x in c.boots && x <= t ==> x <= start
  {
    BootAtMeaning(c.boots, t);
    start := 0;
    var i := 0;
    while i < |c.boots|
      invariant 0 <= i <= |c.boots| && start == BootAt(c.boots[..i], t)
      invariant forall j :: 0 <= j < i ==> c.boots[j] <= t
    {
      if c.boots[i] > t {
        BootAtSkips(c.boots, i, t);
        return;
      }
      assert c.boots[..i + 1][..i] == c.boots[..i];
      start := c.boots[i];
      i := i + 1;
    }
    assert c.boots[..i] == c.boots;
  }

  lemma {:induction false} BootAtSkips(boots: seq<Instant>, i: nat, t: Instant)
    requires i <= |boots| && (forall j :: i <= j < |boots| ==> boots[j] > t)
    ensures BootAt(boots, t) == BootAt(boots[..i], t)
  {
    if i < |boots| {
      BootAtSkips(boots[..|boots| - 1], i, t);
      assert boots[..|boots| - 1][..i] == boots[..i];
    } else {
      assert boots[..i] == boots;
    }
  }

  method NextBootAfter(c: Clock, t: Instant) returns (next: Instant, ok: bool)
    requires Valid(c)
    ensures ok ==> next in c.boots && next > t && NoBootIn(c.boots, t, next - 1)
    ensures !ok ==> forall u :: NoBootIn(c.boots, t, u)
  {
    var i := 0;
    while i < |c.boots|
      invariant 0 <= i <= |c.boots| && forall j :: 0 <= j < i ==> c.boots[j] <= t
    {
      if c.boots[i] > t { return c.boots[i], true; }
      i := i + 1;
    }
    return 0, false;
  }

  ghost predicate NoBootIn(boots: seq<Instant>, s: Instant, at: Instant) {
    forall i :: 0 <= i < |boots| ==> !(s < boots[i] <= at)
  }

  /** A tick counted from instant s: the first multiple of the interval the boot's own
      clock had not reached at s, at an instant where it has, before any restart. */
  ghost predicate TickFrom(c: Clock, s: Instant, interval: int, at: Instant, ordinal: int)
    requires c.skew != [] && interval > 0
  {
    && s < at && NoBootIn(c.boots, s, at) && BootAt(c.boots, at) == BootAt(c.boots, s)
    && ordinal == Mono(c, s) / interval + 1 >= 1
    && Mono(c, s) < ordinal * interval <= Mono(c, at)
  }

  lemma MonoNonNeg(c: Clock, t: Instant)
    requires Valid(c) && t >= 0
    ensures Mono(c, t) >= 0
  {
    BootAtMeaning(c.boots, t);
    OscNeverFalls(c, BootAt(c.boots, t), t);
  }

  lemma QuotientNonNeg(m: int, d: int)
    requires m >= 0 && d > 0
    ensures m / d >= 0
  {}

  lemma TimesSuccessor(q: int, d: int)
    ensures (q + 1) * d == d * q + d
  {}

  lemma NextMultiple(m: int, interval: int)
    requires m >= 0 && interval > 0
    ensures m / interval + 1 >= 1 && m < (m / interval + 1) * interval
  {
    var q := m / interval;
    QuotientNonNeg(m, interval);
    FloorBounds(m, interval);
    TimesSuccessor(q, interval);
  }

  /** An instant by which the oscillator is ahead of where it is at t is after t. */
  lemma AheadIsLater(c: Clock, t: Instant, target: Instant)
    requires Valid(c) && Osc(c, t) < target
    ensures SolveOsc(c, target) > t && Osc(c, SolveOsc(c, target)) >= target
  {
    SolveReaches(c, target);
    if SolveOsc(c, target) <= t { OscNeverFalls(c, SolveOsc(c, target), t); }
  }

  /** The target lies ahead of t, so the instant that reaches it is after t: the source's
      tie branch is never taken. */
  lemma TickIsLater(c: Clock, t: Instant, interval: int)
    requires Valid(c) && t >= 0 && interval > 0
    ensures var ordinal := Mono(c, t) / interval + 1;
      var target := Osc(c, BootAt(c.boots, t)) + ordinal * interval;
      && ordinal >= 1 && Mono(c, t) < ordinal * interval
      && SolveOsc(c, target) > t && Osc(c, SolveOsc(c, target)) >= target
  {
    MonoNonNeg(c, t);
    NextMultiple(Mono(c, t), interval);
    AheadIsLater(c, t, Osc(c, BootAt(c.boots, t)) + (Mono(c, t) / interval + 1) * interval);
  }

  /** When the next multiple of the interval is reached, counting from instant u. */
  function Due(c: Clock, u: Instant, interval: int): Instant
    requires c.skew != [] && interval > 0 && forall k :: 0 <= k < |c.skew| ==> c.skew[k].slope > -PPB
  { SolveOsc(c, Osc(c, BootAt(c.boots, u)) + (Mono(c, u) / interval + 1) * interval) }

  lemma TickHolds(c: Clock, s: Instant, interval: int, at: Instant, ordinal: int)
    requires Valid(c) && s >= 0 && interval > 0 && ordinal == Mono(c, s) / interval + 1
    requires at == Due(c, s, interval) && NoBootIn(c.boots, s, at)
    ensures TickFrom(c, s, interval, at, ordinal)
  {
    TickIsLater(c, s, interval);
    SameBoot(c.boots, s, at);
  }

  /** Boots not yet reached. */
  ghost function Ahead(boots: seq<Instant>, t: Instant): set<Instant> { set b | b in boots && b > t }

  /** An instant ticks may be counted from, after t: t itself or a later restart. */
  ghost predicate Start(c: Clock, t: Instant, u: Instant) { u == t || (u > t && u in c.boots) }

  /** Every start before s is cut short: the node restarts by the time its tick is due. */
  ghost predicate Cancelled(c: Clock, t: Instant, s: Instant, interval: int)
    requires Valid(c) && interval > 0
  { forall u :: Start(c, t, u) && u < s ==> !NoBootIn(c.boots, u, Due(c, u, interval)) }

  /** A restart by the time the tick is due cancels the start before it, and none lies between. */
  lemma CancelNext(c: Clock, t: Instant, s: Instant, next: Instant, interval: int)
    requires Valid(c) && interval > 0 && Cancelled(c, t, s, interval) && t <= s < next <= Due(c, s, interval)
    requires next in c.boots && NoBootIn(c.boots, s, next - 1)
    ensures Cancelled(c, t, next, interval)
  {
    assert !NoBootIn(c.boots, s, Due(c, s, interval));
  }

  /** Terminates with a tick strictly after t, counted from t or from a restart, with every
      start before that one cut short by the next. */
  method NextTick(c: Clock, t: Instant, interval: int) returns (at: Instant, ordinal: int, ghost s: Instant)
    requires Valid(c) && t >= 0 && interval > 0
    ensures at > t && Start(c, t, s) && TickFrom(c, s, interval, at, ordinal)
    ensures at == Due(c, s, interval) && Cancelled(c, t, s, interval)
  {
    var now := t;
    s := t;
    while true
      invariant now == s >= t && Start(c, t, s) && Cancelled(c, t, s, interval)
      decreases Ahead(c.boots, now)
    {
      var boot := BootAtLoop(c, now);
      ordinal := (Osc(c, now) - Osc(c, boot)) / interval + 1;
      TickIsLater(c, now, interval);
      at := SolveOscLoop(c, Osc(c, boot) + ordinal * interval);
      var next, ok := NextBootAfter(c, now);
      if !ok || at < next {
        TickHolds(c, now, interval, at, ordinal);
        return;
      }
      assert next in Ahead(c.boots, now) && next !in Ahead(c.boots, next);
      CancelNext(c, t, now, next, interval);
      now, s := next, next;
    }
  }

  /** The boot's own clock passes a multiple of the interval at v. */
  ghost predicate Ticks(c: Clock, interval: int, v: Instant)
    requires c.skew != [] && interval > 0
  { BootAt(c.boots, v - 1) == BootAt(c.boots, v) && Mono(c, v - 1) / interval < Mono(c, v) / interval }

  lemma SameQuotient(m: int, n: int, d: int)
    requires d > 0 && 0 <= m <= n < (m / d + 1) * d
    ensures n / d == m / d
  {
    FloorBounds(m, d);
    FloorBounds(n, d);
    TimesSuccessor(m / d, d);
    if n / d < m / d { MulMono(d, n / d, m / d); }
    if n / d > m / d { MulMono(d, m / d, n / d); }
  }

  lemma HigherQuotient(n: int, q: int, d: int)
    requires d > 0 && n >= q * d
    ensures n / d >= q
  {
    FloorBounds(n, d);
    if n / d < q { MulMono(d, n / d, q); }
  }

  /** Between a start and its due instant, with no restart and no slow segment, the boot's
      clock is still inside the same multiple. */
  lemma NotYetDue(c: Clock, interval: int, u: Instant, v: Instant)
    requires Valid(c) && interval > 0 && 0 <= u <= v < Due(c, u, interval) && NoBootIn(c.boots, u, v)
    requires forall k :: 0 <= k < |c.skew| ==> c.skew[k].slope >= 0
    ensures BootAt(c.boots, v) == BootAt(c.boots, u) && Mono(c, v) / interval == Mono(c, u) / interval
  {
    SameBoot(c.boots, u, v);
    OscNeverFalls(c, u, v);
    MonoNonNeg(c, u);
    SolveIsEarliest(c, Osc(c, BootAt(c.boots, u)) + (Mono(c, u) / interval + 1) * interval, v);
    SameQuotient(Mono(c, u), Mono(c, v), interval);
  }

  /** Where no segment is slow, what `NextTick` returns is the first tick after t. */
  lemma FirstTick(c: Clock, t: Instant, interval: int, s: Instant, at: Instant, ordinal: int)
    requires Valid(c) && t >= 0 && interval > 0 && (forall k :: 0 <= k < |c.skew| ==> c.skew[k].slope >= 0)
    requires Start(c, t, s) && TickFrom(c, s, interval, at, ordinal)
    requires at == Due(c, s, interval) && Cancelled(c, t, s, interval)
    ensures Ticks(c, interval, at) && forall v :: t < v < at ==> !Ticks(c, interval, v)
  {
    NotYetDue(c, interval, s, at - 1);
    HigherQuotient(Mono(c, at), ordinal, interval);
    forall v | t < v < at ensures !Ticks(c, interval, v) { NoTickBefore(c, t, interval, s, at, v); }
  }

  /** The start an instant after t belongs to. */
  lemma StartOf(c: Clock, t: Instant, v: Instant) returns (u: Instant)
    requires Rising(c.boots) && 0 <= t < v
    ensures Start(c, t, u) && t <= u <= v && NoBootIn(c.boots, u, v) && (u == v ==> BootAt(c.boots, v) == v)
  {
    BootAtMeaning(c.boots, v);
    u := if BootAt(c.boots, v) > t then BootAt(c.boots, v) else t;
    forall i | 0 <= i < |c.boots| ensures !(u < c.boots[i] <= v) { assert c.boots[i] in c.boots; }
  }

  lemma BootBetween(boots: seq<Instant>, u: Instant, v: Instant, d: Instant)
    requires NoBootIn(boots, u, v) && !NoBootIn(boots, u, d)
    ensures v < d
  {}

  /** Every instant before the tick is short of what is due from the start it belongs to. */
  lemma ShortOfDue(c: Clock, t: Instant, interval: int, s: Instant, at: Instant, u: Instant, v: Instant)
    requires Valid(c) && interval > 0 && Start(c, t, s) && NoBootIn(c.boots, s, at)
    requires at == Due(c, s, interval) && Cancelled(c, t, s, interval)
    requires Start(c, t, u) && u <= v < at && NoBootIn(c.boots, u, v)
    ensures v < Due(c, u, interval)
  {
    if u < s {
      BootBetween(c.boots, u, v, Due(c, u, interval));
    } else {
      assert u == s;
    }
  }

  lemma NoTickBefore(c: Clock, t: Instant, interval: int, s: Instant, at: Instant, v: Instant)
    requires Valid(c) && t >= 0 && interval > 0 && (forall k :: 0 <= k < |c.skew| ==> c.skew[k].slope >= 0)
    requires Start(c, t, s) && NoBootIn(c.boots, s, at) && at == Due(c, s, interval) && Cancelled(c, t, s, interval)
    requires t < v < at
    ensures !Ticks(c, interval, v)
  {
    var u := StartOf(c, t, v);
    ShortOfDue(c, t, interval, s, at, u, v);
    if u < v {
      NotYetDue(c, interval, u, v);
      NotYetDue(c, interval, u, v - 1);
    } else {
      BootAtMeaning(c.boots, v - 1);
    }
  }
}
