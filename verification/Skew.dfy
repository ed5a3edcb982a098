/** The largest disagreement of two wall clocks over a window, from finitely many
    readings. */
module Skew {
  import opened Timeline

  // --- walls -----------------------------------------------------------------

  /** The corrections at or before t, or strictly before it. */
  function StepsThrough(steps: seq<Step>, t: Instant, inclusive: bool): int {
    if steps == [] || steps[0].at > t || (!inclusive && steps[0].at == t) then 0
    else steps[0].delta + StepsThrough(steps[1..], t, inclusive)
  }

  function Wall(c: Clock, t: Instant): int
    requires c.skew != []
  { c.epoch + Osc(c, t) + StepsThrough(c.steps, t, true) }

  /** The reading approached from the left. */
  function WallLimit(c: Clock, t: Instant): int
    requires c.skew != []
  { c.epoch + Osc(c, t) + StepsThrough(c.steps, t, false) }

  /** The sum of the corrections at the instants chosen. */
  ghost function Sum(steps: seq<Step>, chosen: Instant -> bool): int {
    if steps == [] then 0 else (if chosen(steps[0].at) then steps[0].delta else 0) + Sum(steps[1..], chosen)
  }

  ghost predicate InTime(steps: seq<Step>) { forall i, j :: 0 <= i < j < |steps| ==> steps[i].at <= steps[j].at }

  lemma {:induction false} SumNone(steps: seq<Step>, chosen: Instant -> bool)
    requires forall i :: 0 <= i < |steps| ==> !chosen(steps[i].at)
    ensures Sum(steps, chosen) == 0
  {
    if steps != [] { SumNone(steps[1..], chosen); }
  }

  /** Stopping at the first later step misses none. */
  lemma {:induction false} StepsSum(steps: seq<Step>, t: Instant)
    requires InTime(steps)
    ensures StepsThrough(steps, t, true) == Sum(steps, (at: Instant) => at <= t)
    ensures StepsThrough(steps, t, false) == Sum(steps, (at: Instant) => at < t)
  {
    if steps != [] {
      if steps[0].at > t { SumNone(steps, (at: Instant) => at <= t); }
      if steps[0].at >= t { SumNone(steps, (at: Instant) => at < t); }
      StepsSum(steps[1..], t);
    }
  }

  lemma {:induction false} SumSplits(steps: seq<Step>, t: Instant)
    ensures Sum(steps, (at: Instant) => at <= t) ==
      Sum(steps, (at: Instant) => at < t) + Sum(steps, (at: Instant) => at == t)
  {
    if steps != [] { SumSplits(steps[1..], t); }
  }

  /** A wall is its epoch, its oscillator and every correction so far, and it jumps at an
      instant by exactly the corrections made there. */
  lemma WallReads(c: Clock, t: Instant)
    requires Valid(c)
    ensures Wall(c, t) == c.epoch + Osc(c, t) + Sum(c.steps, (at: Instant) => at <= t)
    ensures Wall(c, t) - WallLimit(c, t) == Sum(c.steps, (at: Instant) => at == t)
  {
    StepsSum(c.steps, t);
    SumSplits(c.steps, t);
  }

  function Abs(x: int): int { if x < 0 then -x else x }

  function Apart(a: Clock, b: Clock, t: Instant): int
    requires a.skew != [] && b.skew != []
  { Wall(a, t) - Wall(b, t) }

  function ApartBefore(a: Clock, b: Clock, t: Instant): int
    requires a.skew != [] && b.skew != []
  { WallLimit(a, t) - WallLimit(b, t) }

  // --- where a wall bends or jumps -------------------------------------------

  ghost predicate Bends(c: Clock, t: Instant) {
    (exists i :: 0 <= i < |c.skew| && c.skew[i].start == t) || (exists i :: 0 <= i < |c.steps| && c.steps[i].at == t)
  }

  ghost predicate Breakpoint(c: Clock, from: Instant, to: Instant, t: Instant) {
    t == from || t == to || (from < t < to && Bends(c, t))
  }

  /** The instants strictly inside a window, in the order given. */
  function Inside(ts: seq<Instant>, from: Instant, to: Instant): (out: seq<Instant>)
    ensures forall t :: t in out <==> t in ts && from < t < to
  {
    if ts == [] then []
    else
      var rest, t := Inside(ts[..|ts| - 1], from, to), ts[|ts| - 1];
      if from < t < to then rest + [t] else rest
  }

  function Starts(c: Clock): seq<Instant> { seq(|c.skew|, i requires 0 <= i < |c.skew| => c.skew[i].start) }

  function StepTimes(c: Clock): seq<Instant> { seq(|c.steps|, i requires 0 <= i < |c.steps| => c.steps[i].at) }

  /** The list as it is built: the window's ends, and between them the segment starts and
      then the steps. */
  function PointList(c: Clock, from: Instant, to: Instant): seq<Instant> {
    [from] + Inside(Starts(c), from, to) + Inside(StepTimes(c), from, to) + [to]
  }

  method Breakpoints(c: Clock, from: Instant, to: Instant) returns (out: seq<Instant>)
    ensures out == PointList(c, from, to) && forall t :: t in out <==> Breakpoint(c, from, to, t)
  {
    out := [from];
    var i := 0;
    while i < |c.skew|
      invariant 0 <= i <= |c.skew| && out == [from] + Inside(Starts(c)[..i], from, to)
    {
      assert Starts(c)[..i + 1][..i] == Starts(c)[..i];
      if from < c.skew[i].start < to { out := out + [c.skew[i].start]; }
      i := i + 1;
    }
    assert Starts(c)[..i] == Starts(c);
    ghost var bends := out;
    var j := 0;
    while j < |c.steps|
      invariant 0 <= j <= |c.steps| && out == bends + Inside(StepTimes(c)[..j], from, to)
    {
      assert StepTimes(c)[..j + 1][..j] == StepTimes(c)[..j];
      if from < c.steps[j].at < to { out := out + [c.steps[j].at]; }
      j := j + 1;
    }
    assert StepTimes(c)[..j] == StepTimes(c);
    out := out + [to];
    PointListHolds(c, from, to);
  }

  lemma PointListHolds(c: Clock, from: Instant, to: Instant)
    ensures forall t :: t in PointList(c, from, to) <==> Breakpoint(c, from, to, t)
  {
    forall t ensures t in Starts(c) <==> exists i :: 0 <= i < |c.skew| && c.skew[i].start == t {
      if i :| 0 <= i < |c.skew| && c.skew[i].start == t { assert Starts(c)[i] == t; }
    }
    forall t ensures t in StepTimes(c) <==> exists i :: 0 <= i < |c.steps| && c.steps[i].at == t {
      if i :| 0 <= i < |c.steps| && c.steps[i].at == t { assert StepTimes(c)[i] == t; }
    }
  }

  ghost predicate Ordered(x: seq<Instant>) { forall i, j :: 0 <= i < j < |x| ==> x[i] <= x[j] }

  lemma {:induction false} InsideOrdered(ts: seq<Instant>, from: Instant, to: Instant)
    requires Ordered(ts)
    ensures Ordered(Inside(ts, from, to))
  {
    if ts != [] {
      var pre := ts[..|ts| - 1];
      InsideOrdered(pre, from, to);
      var rest := Inside(pre, from, to);
      forall i | 0 <= i < |rest| ensures rest[i] <= ts[|ts| - 1] { assert rest[i] in pre; }
    }
  }

  lemma OrderedJoin(x: seq<Instant>, y: seq<Instant>)
    ensures Ordered(x + y) <==> Ordered(x) && Ordered(y) && forall s, t :: s in x && t in y ==> s <= t
  {
    var z := x + y;
    assert forall i :: 0 <= i < |x| ==> x[i] == z[i];
    assert forall j :: 0 <= j < |y| ==> y[j] == z[|x| + j];
    if Ordered(x) && Ordered(y) && forall s, t :: s in x && t in y ==> s <= t {
      forall i, j | 0 <= i < j < |z| ensures z[i] <= z[j] {
        if i < |x| <= j { assert x[i] in x && y[j - |x|] in y; }
      }
    }
  }

  lemma EndsFit(from: Instant, to: Instant, x: seq<Instant>, y: seq<Instant>)
    requires Ordered(x) && Ordered(y) && from <= to
    requires (forall t :: t in x ==> from < t < to) && (forall t :: t in y ==> from < t < to)
    ensures Ordered([from] + x + y + [to]) <==> forall s, t :: s in x && t in y ==> s <= t
  {
    OrderedJoin([from] + x + y, [to]);
    OrderedJoin([from] + x, y);
    OrderedJoin([from], x);
    assert forall s :: s in [from] + x <==> s == from || s in x;
    assert forall s :: s in [from] + x + y <==> s == from || s in x || s in y;
  }

  /** Every start inside the window is at or before every step inside it. */
  ghost predicate StartsFirst(c: Clock, from: Instant, to: Instant) {
    forall s, t :: s in Inside(Starts(c), from, to) && t in Inside(StepTimes(c), from, to) ==> s <= t
  }

  /** The list of breakpoints is in order exactly when, inside the window, no step comes
      before a segment starts. */
  lemma PointListOrdered(c: Clock, from: Instant, to: Instant)
    requires Valid(c) && from <= to
    ensures Ordered(PointList(c, from, to)) <==>
      forall i, j :: 0 <= i < |c.skew| && 0 <= j < |c.steps| && from < c.skew[i].start < to && from < c.steps[j].at < to
        ==> c.skew[i].start <= c.steps[j].at
  {
    var x, y := Inside(Starts(c), from, to), Inside(StepTimes(c), from, to);
    assert Ordered(x) by {
      forall i, j | 0 <= i < j < |c.skew| ensures Starts(c)[i] <= Starts(c)[j] { StartsSorted(c, i, j); }
      InsideOrdered(Starts(c), from, to);
    }
    assert Ordered(y) by { InsideOrdered(StepTimes(c), from, to); }
    EndsFit(from, to, x, y);
    StartsFirstMeans(c, from, to);
  }

  lemma StartsFirstMeans(c: Clock, from: Instant, to: Instant)
    ensures StartsFirst(c, from, to) <==>
      forall i, j :: 0 <= i < |c.skew| && 0 <= j < |c.steps| && from < c.skew[i].start < to && from < c.steps[j].at < to
        ==> c.skew[i].start <= c.steps[j].at
  {
    if StartsFirst(c, from, to) {
      forall i, j | 0 <= i < |c.skew| && 0 <= j < |c.steps| && from < c.skew[i].start < to && from < c.steps[j].at < to
        ensures c.skew[i].start <= c.steps[j].at
      {
        assert Starts(c)[i] in Inside(Starts(c), from, to) && StepTimes(c)[j] in Inside(StepTimes(c), from, to);
      }
    } else {
      var s, t :| s in Inside(Starts(c), from, to) && t in Inside(StepTimes(c), from, to) && s > t;
      var i :| 0 <= i < |c.skew| && Starts(c)[i] == s;
      var j :| 0 <= j < |c.steps| && StepTimes(c)[j] == t;
      assert c.skew[i].start > c.steps[j].at;
    }
  }

  /** A step at one and a segment from two: the list runs zero, two, one, three. */
  lemma StepBeforeStart(c: Clock)
    requires c == Clock([Segment(0, 0, 0), Segment(2, 0, 0)], [Step(1, 5)], [], 1)
    ensures Valid(c) && PointList(c, 0, 3) == [0, 2, 1, 3] && !Ordered(PointList(c, 0, 3))
  {
    assert Joins(c.skew[0], c.skew[1]);
    InsidePair(0, 2, 0, 3);
    InsidePair(1, 0, 0, 3);
    assert Starts(c) == [0, 2] && StepTimes(c) == [1];
    assert PointList(c, 0, 3) == [0, 2, 1, 3];
    assert [0, 2, 1, 3][1] > [0, 2, 1, 3][2];
  }

  lemma InsidePair(x: Instant, y: Instant, from: Instant, to: Instant)
    ensures Inside([x], from, to) == if from < x < to then [x] else []
    ensures Inside([x, y], from, to) == Inside([x], from, to) + if from < y < to then [y] else []
  {
    assert [x][..0] == [] && [x, y][..1] == [x];
  }

  ghost predicate Strict(x: seq<Instant>) { forall i, j :: 0 <= i < j < |x| ==> x[i] < x[j] }

  ghost predicate LastUpTo(out: seq<Instant>, x: seq<Instant>, i: nat) {
    out != [] && i < |x| ==> out[|out| - 1] <= x[i]
  }

  method Emit(out: seq<Instant>, next: Instant) returns (r: seq<Instant>)
    ensures forall t :: t in r <==> t in out || t == next
    ensures r != [] && r[|r| - 1] == next
    ensures Strict(out) && (out != [] ==> out[|out| - 1] <= next) ==> Strict(r)
  {
    r := out;
    if |out| == 0 || out[|out| - 1] != next { r := out + [next]; }
  }

  /** A two-cursor merge that drops adjacent duplicates. It loses no point and invents
      none, whatever the order of its inputs; from ordered inputs it is strictly ordered. */
  method MergePoints(x: seq<Instant>, y: seq<Instant>) returns (out: seq<Instant>)
    ensures forall t :: t in out <==> t in x || t in y
    ensures Ordered(x) && Ordered(y) ==> Strict(out)
  {
    out := [];
    var i, j := 0, 0;
    while i < |x| || j < |y|
      invariant 0 <= i <= |x| && 0 <= j <= |y|
      invariant forall t :: t in out <==> t in x[..i] || t in y[..j]
      invariant Ordered(x) && Ordered(y) ==> Strict(out) && LastUpTo(out, x, i) && LastUpTo(out, y, j)
      decreases |x| - i + |y| - j
    {
      if j == |y| || (i < |x| && x[i] <= y[j]) {
        assert x[..i + 1] == x[..i] + [x[i]];
        out := Emit(out, x[i]);
        i := i + 1;
      } else {
        assert y[..j + 1] == y[..j] + [y[j]];
        out := Emit(out, y[j]);
        j := j + 1;
      }
    }
    assert x[..i] == x && y[..j] == y;
  }

  // --- the maximum over the points -------------------------------------------

  ghost predicate Point(a: Clock, b: Clock, from: Instant, to: Instant, t: Instant) {
    Breakpoint(a, from, to, t) || Breakpoint(b, from, to, t)
  }

  method BothPoints(a: Clock, b: Clock, from: Instant, to: Instant) returns (points: seq<Instant>)
    ensures forall t :: t in points <==> Point(a, b, from, to, t)
  {
    var xs := Breakpoints(a, from, to);
    var ys := Breakpoints(b, from, to);
    points := MergePoints(xs, ys);
  }

  /** Readings on both sides of every point are within max. */
  ghost predicate Dominates(a: Clock, b: Clock, from: Instant, to: Instant, max: int)
    requires a.skew != [] && b.skew != []
  {
    forall p :: Point(a, b, from, to, p) ==>
      Abs(Apart(a, b, p)) <= max && (p > from ==> Abs(ApartBefore(a, b, p)) <= max)
  }

  /** The result is a reading some observer took, and no reading at a point exceeds it. */
  method MaxSkew(a: Clock, b: Clock, from: Instant, to: Instant) returns (max: int, at: Instant)
    requires Valid(a) && Valid(b)
    ensures Dominates(a, b, from, to, max) && Point(a, b, from, to, at)
    ensures max == Abs(Apart(a, b, at)) || (at > from && max == Abs(ApartBefore(a, b, at)))
  {
    var points := BothPoints(a, b, from, to);
    assert from in points;
    max, at := -1, 0;
    var i := 0;
    while i < |points|
      invariant 0 <= i <= |points| && (i == 0 ==> max == -1)
      invariant i > 0 ==> Point(a, b, from, to, at)
      invariant i > 0 ==> max == Abs(Apart(a, b, at)) || (at > from && max == Abs(ApartBefore(a, b, at)))
      invariant forall k :: 0 <= k < i ==> Abs(Apart(a, b, points[k])) <= max
      invariant forall k :: 0 <= k < i && points[k] > from ==> Abs(ApartBefore(a, b, points[k])) <= max
    {
      var t := points[i];
      assert t in points && Point(a, b, from, to, t);
      var d := Abs(Wall(a, t) - Wall(b, t));
      if d > max { max, at := d, t; }
      if t > from {
        var e := Abs(WallLimit(a, t) - WallLimit(b, t));
        if e > max { max, at := e, t; }
      }
      i := i + 1;
    }
    forall p | Point(a, b, from, to, p)
      ensures Abs(Apart(a, b, p)) <= max && (p > from ==> Abs(ApartBefore(a, b, p)) <= max)
    {
      assert p in points;
      var k :| 0 <= k < |points| && points[k] == p;
    }
  }

  // --- between points a wall is one rounded line ------------------------------

  ghost predicate Smooth(c: Clock, p: Instant, q: Instant) { forall t :: p < t < q ==> !Bends(c, t) }

  lemma SameSegment(c: Clock, p: Instant, q: Instant, u: Instant)
    requires Valid(c) && 0 <= p <= u < q && Smooth(c, p, q)
    ensures SegAt(c.skew, u) == SegAt(c.skew, p) && c.skew[SegAt(c.skew, p)].start <= p
  {
    ValidSorted(c);
    SegAtMeaning(c.skew, p);
    var k := SegAt(c.skew, p);
    if k + 1 < |c.skew| {
      assert Bends(c, c.skew[k + 1].start);
    }
    InSegment(c, k, u);
  }

  /** Up to the far end, where the next segment joins on. */
  lemma SegmentToEnd(c: Clock, p: Instant, q: Instant)
    requires Valid(c) && 0 <= p < q && Smooth(c, p, q)
    ensures Osc(c, q) == OscIn(c.skew[SegAt(c.skew, p)], q)
  {
    ValidSorted(c);
    SegAtMeaning(c.skew, p);
    var k := SegAt(c.skew, p);
    if k + 1 < |c.skew| && c.skew[k + 1].start <= q {
      assert Bends(c, c.skew[k + 1].start) && c.skew[k + 1].start == q;
      if k + 2 < |c.skew| { StartsSorted(c, k + 1, k + 2); }
      InSegment(c, k + 1, q);
      assert Joins(c.skew[k + 1 - 1], c.skew[k + 1]);
      assert c.skew[k + 1].slope * 0 == 0;
    } else {
      InSegment(c, k, q);
    }
  }

  lemma {:induction false} SameSteps(steps: seq<Step>, p: Instant, u: Instant)
    requires p <= u && forall i :: 0 <= i < |steps| ==> !(p < steps[i].at <= u)
    ensures StepsThrough(steps, u, true) == StepsThrough(steps, p, true)
  {
    if steps != [] && steps[0].at <= u {
      assert forall i :: 0 <= i < |steps[1..]| ==> steps[1..][i] == steps[i + 1];
      SameSteps(steps[1..], p, u);
    }
  }

  lemma {:induction false} StepsBefore(steps: seq<Step>, p: Instant, q: Instant)
    requires p < q && forall i :: 0 <= i < |steps| ==> !(p < steps[i].at < q)
    ensures StepsThrough(steps, q, false) == StepsThrough(steps, p, true)
  {
    if steps != [] && steps[0].at < q {
      assert forall i :: 0 <= i < |steps[1..]| ==> steps[1..][i] == steps[i + 1];
      StepsBefore(steps[1..], p, q);
    }
  }

  lemma NoStepInside(c: Clock, p: Instant, q: Instant)
    requires Smooth(c, p, q)
    ensures forall i :: 0 <= i < |c.steps| ==> !(p < c.steps[i].at < q)
  {
    forall i | 0 <= i < |c.steps| && p < c.steps[i].at < q ensures false { assert Bends(c, c.steps[i].at); }
  }

  ghost function Base(c: Clock, p: Instant): int { c.epoch + StepsThrough(c.steps, p, true) }

  /** On a smooth stretch the wall is one segment's oscillator on a constant, and so is its
      limit at the far end. */
  lemma StretchWall(c: Clock, p: Instant, q: Instant, u: Instant)
    requires Valid(c) && 0 <= p <= u < q && Smooth(c, p, q)
    ensures var seg := c.skew[SegAt(c.skew, p)];
      && seg.start <= p && seg.slope > -PPB
      && Wall(c, u) == Base(c, p) + OscIn(seg, u)
      && WallLimit(c, q) == Base(c, p) + OscIn(seg, q)
  {
    SameSegment(c, p, q, u);
    SegmentToEnd(c, p, q);
    NoStepInside(c, p, q);
    SameSteps(c.steps, p, u);
    StepsBefore(c.steps, p, q);
  }

  // --- rounded lines cannot escape their ends by more than one ----------------

  /** How far a reading is above the exact line, in billionths. */
  function Excess(seg: Segment, t: Instant): int {
    PPB * (OscIn(seg, t) - seg.start - seg.off) - (t - seg.start) * (PPB + seg.slope)
  }

  lemma ExcessBounds(seg: Segment, t: Instant)
    requires seg.slope > -PPB && t >= seg.start
    ensures if seg.slope >= 0 then -PPB < Excess(seg, t) <= 0 else 0 <= Excess(seg, t) < PPB
  {
    OscIsGain(seg, t);
    GainBounds(seg.slope, t - seg.start);
  }

  /** The difference of two exact lines, in billionths. */
  function Line(x: Segment, y: Segment, t: Instant): int {
    PPB * (x.start + x.off - y.start - y.off) + (t - x.start) * (PPB + x.slope) - (t - y.start) * (PPB + y.slope)
  }

  lemma DifferenceIsLine(x: Segment, y: Segment, t: Instant)
    ensures PPB * (OscIn(x, t) - OscIn(y, t)) == Line(x, y, t) + Excess(x, t) - Excess(y, t)
  {
    var gx, gy := OscIn(x, t) - x.start - x.off, OscIn(y, t) - y.start - y.off;
    assert OscIn(x, t) - OscIn(y, t) == x.start + x.off - y.start - y.off + gx - gy;
  }

  lemma LineMoves(x: Segment, y: Segment, t: Instant, u: Instant)
    ensures Line(x, y, u) - Line(x, y, t) == (u - t) * (x.slope - y.slope)
  {
    assert (u - x.start) * (PPB + x.slope) - (t - x.start) * (PPB + x.slope) == (u - t) * (PPB + x.slope) by {
      Distribute(u - x.start, t - x.start, PPB + x.slope);
    }
    assert (u - y.start) * (PPB + y.slope) - (t - y.start) * (PPB + y.slope) == (u - t) * (PPB + y.slope) by {
      Distribute(u - y.start, t - y.start, PPB + y.slope);
    }
    assert (u - t) * (PPB + x.slope) - (u - t) * (PPB + y.slope) == (u - t) * (x.slope - y.slope) by {
      DistributeRight(u - t, PPB + x.slope, PPB + y.slope);
    }
  }

  lemma Distribute(a: int, b: int, k: int)
    ensures a * k - b * k == (a - b) * k
  {}

  lemma DistributeRight(k: int, a: int, b: int)
    ensures k * a - k * b == k * (a - b)
  {}

  /** A line between p and q lies between its ends. */
  lemma LineBetween(x: Segment, y: Segment, p: Instant, t: Instant, q: Instant)
    requires p <= t <= q
    ensures Line(x, y, t) <= Line(x, y, p) || Line(x, y, t) <= Line(x, y, q)
    ensures Line(x, y, t) >= Line(x, y, p) || Line(x, y, t) >= Line(x, y, q)
  {
    LineMoves(x, y, p, t);
    LineMoves(x, y, t, q);
    var k := x.slope - y.slope;
    if k >= 0 {
      MulNonNeg(t - p, k);
      MulNonNeg(q - t, k);
    } else {
      MulNonNeg(t - p, -k);
      MulNonNeg(q - t, -k);
      assert (t - p) * (-k) == -((t - p) * k) && (q - t) * (-k) == -((q - t) * k);
    }
  }

  /** Two readings whose exact values are ordered are in that order, but for one unit. */
  lemma RoundedOrder(x: Segment, y: Segment, t: Instant, u: Instant)
    requires x.slope > -PPB && y.slope > -PPB && x.start <= t && y.start <= t && x.start <= u && y.start <= u
    requires Line(x, y, t) <= Line(x, y, u)
    ensures OscIn(x, t) - OscIn(y, t) <= OscIn(x, u) - OscIn(y, u) + 1
  {
    ExcessBounds(x, t);
    ExcessBounds(x, u);
    ExcessBounds(y, t);
    ExcessBounds(y, u);
    DifferenceIsLine(x, y, t);
    DifferenceIsLine(x, y, u);
    var m, n := OscIn(x, t) - OscIn(y, t), OscIn(x, u) - OscIn(y, u);
    assert PPB * m < PPB * n + 2 * PPB;
    assert PPB * m - PPB * n == PPB * (m - n) by { DistributeRight(PPB, m, n); }
  }

  lemma RoundedBetween(x: Segment, y: Segment, p: Instant, t: Instant, q: Instant)
    requires x.slope > -PPB && y.slope > -PPB && x.start <= p && y.start <= p && p <= t <= q
    ensures var dp, dt, dq := OscIn(x, p) - OscIn(y, p), OscIn(x, t) - OscIn(y, t), OscIn(x, q) - OscIn(y, q);
      (dt <= dp + 1 || dt <= dq + 1) && (dt >= dp - 1 || dt >= dq - 1)
  {
    LineBetween(x, y, p, t, q);
    if Line(x, y, t) <= Line(x, y, p) { RoundedOrder(x, y, t, p); } else { RoundedOrder(x, y, t, q); }
    if Line(x, y, p) <= Line(x, y, t) { RoundedOrder(x, y, p, t); } else { RoundedOrder(x, y, q, t); }
  }

  // --- the bound -------------------------------------------------------------

  lemma {:induction false} PointBelow(a: Clock, b: Clock, from: Instant, to: Instant, t: Instant) returns (p: Instant)
    requires from <= t <= to
    ensures from <= p <= t && Point(a, b, from, to, p) && forall u :: p < u <= t ==> !Point(a, b, from, to, u)
    decreases t - from
  {
    if Point(a, b, from, to, t) { p := t; } else { p := PointBelow(a, b, from, to, t - 1); }
  }

  lemma {:induction false} PointAbove(a: Clock, b: Clock, from: Instant, to: Instant, t: Instant) returns (q: Instant)
    requires from <= t <= to
    ensures t <= q <= to && Point(a, b, from, to, q) && forall u :: t <= u < q ==> !Point(a, b, from, to, u)
    decreases (to - t)
  {
    if Point(a, b, from, to, t) { q := t; } else { q := PointAbove(a, b, from, to, t + 1); }
  }

  /** Between two points with none inside, no reading escapes those at the ends by more
      than one. */
  lemma StretchBound(a: Clock, b: Clock, p: Instant, t: Instant, q: Instant, max: int)
    requires Valid(a) && Valid(b) && 0 <= p < t < q && Smooth(a, p, q) && Smooth(b, p, q)
    requires Abs(Apart(a, b, p)) <= max && Abs(ApartBefore(a, b, q)) <= max
    ensures Abs(Apart(a, b, t)) <= max + 1
  {
    StretchWall(a, p, q, p);
    StretchWall(a, p, q, t);
    StretchWall(b, p, q, p);
    StretchWall(b, p, q, t);
    RoundedBetween(a.skew[SegAt(a.skew, p)], b.skew[SegAt(b.skew, p)], p, t, q);
  }

  /** Every instant in the window reads within one nanosecond of the maximum taken at the
      breakpoints, one-sided limits included. */
  lemma SkewBound(a: Clock, b: Clock, from: Instant, to: Instant, max: int, t: Instant)
    requires Valid(a) && Valid(b) && 0 <= from <= t <= to && Dominates(a, b, from, to, max)
    ensures Abs(Apart(a, b, t)) <= max + 1
  {
    if !Point(a, b, from, to, t) {
      var p := PointBelow(a, b, from, to, t);
      var q := PointAbove(a, b, from, to, t);
      forall u | p < u < q ensures !Bends(a, u) && !Bends(b, u) { assert !Point(a, b, from, to, u); }
      StretchBound(a, b, p, t, q, max);
    }
  }
}
