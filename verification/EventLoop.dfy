/** The simulator's event queue, a binary heap changed in place, and the loop that fires
    events from it. */
module EventLoop {
  type Instant = int

  datatype Event = Event(at: Instant, seqNo: nat, kind: nat, node: nat)

  /** The total order: by instant, then by insertion. */
  predicate Before(e: Event, f: Event) { if e.at != f.at then e.at < f.at else e.seqNo < f.seqNo }

  predicate NotAfter(e: Event, f: Event) { !Before(f, e) }

  function Parent(i: nat): nat
    requires i > 0
  { (i - 1) / 2 }

  ghost predicate HeapAt(q: seq<Event>, i: nat)
    requires 0 < i < |q|
  { NotAfter(q[Parent(i)], q[i]) }

  ghost predicate Heap(q: seq<Event>) { forall i :: 0 < i < |q| ==> HeapAt(q, i) }

  /** A heap but for position i, which may be too early for its parent; everything below
      it is still no earlier than that parent. */
  ghost predicate HeapButUp(q: seq<Event>, i: nat) {
    && i < |q|
    && (forall k :: 0 < k < |q| && k != i ==> HeapAt(q, k))
    && (forall k :: 0 < k < |q| && i > 0 && Parent(k) == i ==> NotAfter(q[Parent(i)], q[k]))
  }

  /** A heap but for position i, which may be too late for its children. */
  ghost predicate HeapButDown(q: seq<Event>, i: nat) {
    && i < |q|
    && (forall k :: 0 < k < |q| && Parent(k) != i ==> HeapAt(q, k))
    && (forall k :: 0 < k < |q| && i > 0 && Parent(k) == i ==> NotAfter(q[Parent(i)], q[k]))
  }

  function Swap(q: seq<Event>, i: nat, j: nat): seq<Event>
    requires i < |q| && j < |q|
  { q[i := q[j]][j := q[i]] }

  lemma SwapKeepsAll(q: seq<Event>, i: nat, j: nat)
    requires i < |q| && j < |q|
    ensures multiset(Swap(q, i, j)) == multiset(q) && |Swap(q, i, j)| == |q|
  {}

  lemma UpStep(q: seq<Event>, i: nat)
    requires HeapButUp(q, i) && i > 0 && Before(q[i], q[Parent(i)])
    ensures HeapButUp(Swap(q, i, Parent(i)), Parent(i))
  {
    var p := Parent(i);
    var r := Swap(q, i, p);
    forall k | 0 < k < |r| && k != p ensures HeapAt(r, k) { if k != i { assert HeapAt(q, k); } }
    forall k | 0 < k < |r| && p > 0 && Parent(k) == p ensures NotAfter(r[Parent(p)], r[k]) {
      assert HeapAt(q, p);
      if k != i { assert HeapAt(q, k); }
    }
  }

  lemma UpDone(q: seq<Event>, i: nat)
    requires HeapButUp(q, i) && (i > 0 ==> !Before(q[i], q[Parent(i)]))
    ensures Heap(q)
  {
    forall k | 0 < k < |q| ensures HeapAt(q, k) {}
  }

  /** The child to descend to: the earliest of i and its children. */
  function Smallest(q: seq<Event>, i: nat): (s: nat)
    requires i < |q|
    ensures s < |q| && (s == i || s == 2 * i + 1 || s == 2 * i + 2)
    ensures NotAfter(q[s], q[i])
    ensures 2 * i + 1 < |q| ==> NotAfter(q[s], q[2 * i + 1])
    ensures 2 * i + 2 < |q| ==> NotAfter(q[s], q[2 * i + 2])
    ensures s != i ==> Before(q[s], q[i])
  {
    var s := if 2 * i + 1 < |q| && Before(q[2 * i + 1], q[i]) then 2 * i + 1 else i;
    if 2 * i + 2 < |q| && Before(q[2 * i + 2], q[s]) then 2 * i + 2 else s
  }

  lemma DownStep(q: seq<Event>, i: nat)
    requires HeapButDown(q, i) && Smallest(q, i) != i
    ensures HeapButDown(Swap(q, i, Smallest(q, i)), Smallest(q, i))
  {
    var s := Smallest(q, i);
    var r := Swap(q, i, s);
    forall k | 0 < k < |r| && Parent(k) != s ensures HeapAt(r, k) {
      if Parent(k) == i {
      } else if k == i {
        assert Parent(s) == i;
      } else {
        assert HeapAt(q, k);
      }
    }
    forall k | 0 < k < |r| && s > 0 && Parent(k) == s ensures NotAfter(r[Parent(s)], r[k]) {
      assert HeapAt(q, k);
    }
  }

  lemma DownDone(q: seq<Event>, i: nat)
    requires HeapButDown(q, i) && Smallest(q, i) == i
    ensures Heap(q)
  {
    forall k | 0 < k < |q| ensures HeapAt(q, k) {}
  }

  /** Nothing in a heap is before its root. */
  lemma {:induction false} RootIsFirst(q: seq<Event>, i: nat)
    requires Heap(q) && i < |q|
    ensures NotAfter(q[0], q[i])
  {
    if i > 0 {
      RootIsFirst(q, Parent(i));
      assert HeapAt(q, i);
    }
  }

  /** What popping leaves to be sifted: the last event in place of the root. */
  function Unrooted(q: seq<Event>): seq<Event>
    requires |q| > 1
  { [q[|q| - 1]] + q[1..|q| - 1] }

  lemma UnrootedHolds(q: seq<Event>)
    requires Heap(q) && |q| > 1
    ensures HeapButDown(Unrooted(q), 0) && multiset(Unrooted(q)) == multiset(q) - multiset{q[0]}
  {
    var r := Unrooted(q);
    forall k | 0 < k < |r| && Parent(k) != 0 ensures HeapAt(r, k) { assert HeapAt(q, k); }
    assert q == [q[0]] + q[1..|q| - 1] + [q[|q| - 1]];
  }

  class Queue {
    var events: seq<Event>

    constructor ()
      ensures events == []
    { events := []; }

    /** Sift-up keeps the heap and every event. */
    method Push(e: Event)
      requires Heap(events)
      modifies this
      ensures Heap(events) && multiset(events) == multiset(old(events)) + multiset{e}
    {
      ghost var q := events;
      events := events + [e];
      var i := |events| - 1;
      forall k | 0 < k < |events| && k != i ensures HeapAt(events, k) { assert HeapAt(q, k); }
      while i > 0
        invariant i >= 0 && HeapButUp(events, i) && multiset(events) == multiset(q) + multiset{e}
        decreases i
      {
        var p := (i - 1) / 2;
        if !Before(events[i], events[p]) { break; }
        UpStep(events, i);
        SwapKeepsAll(events, i, p);
        events := Swap(events, i, p);
        i := p;
      }
      UpDone(events, i);
    }

    method SiftDown()
      requires HeapButDown(events, 0)
      modifies this
      ensures Heap(events) && multiset(events) == multiset(old(events))
    {
      ghost var q := events;
      var i := 0;
      while true
        invariant HeapButDown(events, i) && multiset(events) == multiset(q) && |events| == |q|
        decreases |q| - i
      {
        var small := Smallest(events, i);
        if small == i {
          DownDone(events, i);
          return;
        }
        DownStep(events, i);
        SwapKeepsAll(events, i, small);
        events := Swap(events, i, small);
        i := small;
      }
    }

    /** The event removed is one no other is before, and nothing else leaves. */
    method Pop() returns (top: Event)
      requires Heap(events) && events != []
      modifies this
      ensures Heap(events) && top == old(events)[0] && multiset(events) == multiset(old(events)) - multiset{top}
      ensures forall e :: e in old(events) ==> NotAfter(top, e)
    {
      ghost var q := events;
      top := events[0];
      forall e | e in q ensures NotAfter(top, e) {
        var i :| 0 <= i < |q| && q[i] == e;
        RootIsFirst(q, i);
      }
      if |events| == 1 {
        assert q == [q[0]];
        events := [];
        return;
      }
      UnrootedHolds(q);
      events := Unrooted(events);
      SiftDown();
    }
  }

  // --- the loop --------------------------------------------------------------

  ghost predicate InOrder(fired: seq<Event>) { forall i, j :: 0 <= i < j < |fired| ==> Before(fired[i], fired[j]) }

  /** Insertion numbers name events. */
  ghost predicate Unique(m: multiset<Event>) {
    (forall e :: m[e] <= 1) && forall e, f :: e in m && f in m && e.seqNo == f.seqNo ==> e == f
  }

  /** What is waiting comes after what has fired, and not before now. */
  ghost predicate Ahead(waiting: multiset<Event>, fired: seq<Event>, now: Instant, seqNo: nat) {
    && Unique(waiting)
    && (forall e :: e in waiting ==> e.at >= now && e.seqNo <= seqNo)
    && (forall i, e :: 0 <= i < |fired| && e in waiting ==> Before(fired[i], e))
    && (forall i :: 0 <= i < |fired| ==> fired[i].at <= now && fired[i].seqNo <= seqNo)
  }

  lemma ScheduleAhead(w: multiset<Event>, fired: seq<Event>, now: Instant, seqNo: nat, e: Event)
    requires Ahead(w, fired, now, seqNo) && e.at >= now && e.seqNo == seqNo + 1
    ensures Ahead(w + multiset{e}, fired, now, seqNo + 1)
  {}

  /** Firing a least event: it comes after everything fired and before everything left,
      and time does not move backwards. */
  lemma FireAhead(w: multiset<Event>, fired: seq<Event>, now: Instant, seqNo: nat, top: Event)
    requires Ahead(w, fired, now, seqNo) && InOrder(fired) && top in w && forall e :: e in w ==> NotAfter(top, e)
    ensures now <= top.at && InOrder(fired + [top]) && Ahead(w - multiset{top}, fired + [top], top.at, seqNo)
  {
    var left := w - multiset{top};
    forall e | e in left ensures Before(top, e) { assert e in w && e != top; }
  }

  /** The loop's invariant: a heap of what waits, all of it ahead of what has fired in order,
      and nothing scheduled that is in neither. */
  ghost predicate Sound(q: seq<Event>, fired: seq<Event>, now: Instant, seqNo: nat, scheduled: multiset<Event>) {
    Heap(q) && InOrder(fired) && Ahead(multiset(q), fired, now, seqNo) && scheduled == multiset(fired) + multiset(q)
  }

  ghost predicate Open(z: int, q: seq<Event>, fired: seq<Event>, now: Instant, seqNo: nat, all: multiset<Event>) {
    true
  }

  /** The invariant sealed, so that the loop carries it without looking inside. */
  ghost predicate Kept(q: seq<Event>, fired: seq<Event>, now: Instant, seqNo: nat, all: multiset<Event>) {
    forall z: int {:trigger Open(z, q, fired, now, seqNo, all)} ::
      Open(z, q, fired, now, seqNo, all) ==> Sound(q, fired, now, seqNo, all)
  }

  lemma PushSound(q: seq<Event>, q': seq<Event>, fired: seq<Event>, now: Instant, seqNo: nat,
                  all: multiset<Event>, e: Event)
    requires Kept(q, fired, now, seqNo, all) && e.at >= now && e.seqNo == seqNo + 1
    requires Heap(q') && multiset(q') == multiset(q) + multiset{e}
    ensures Kept(q', fired, now, seqNo + 1, all + multiset{e})
  {
    assert Open(0, q, fired, now, seqNo, all);
    ScheduleAhead(multiset(q), fired, now, seqNo, e);
  }

  lemma PopSound(q: seq<Event>, q': seq<Event>, fired: seq<Event>, now: Instant, seqNo: nat,
                 all: multiset<Event>, top: Event)
    requires Kept(q, fired, now, seqNo, all) && top in q && forall e :: e in q ==> NotAfter(top, e)
    requires Heap(q') && multiset(q') == multiset(q) - multiset{top}
    ensures now <= top.at && Kept(q', fired + [top], top.at, seqNo, all)
  {
    assert Open(0, q, fired, now, seqNo, all);
    assert top in multiset(q) && forall e :: e in multiset(q) ==> e in q;
    FireAhead(multiset(q), fired, now, seqNo, top);
    assert multiset(fired + [top]) == multiset(fired) + multiset{top};
    assert multiset(q) == multiset(q') + multiset{top};
  }

  /** When the first event waiting is past the deadline, everything due by it has fired and
      the clock may move there. */
  lemma ExpireSound(q: seq<Event>, fired: seq<Event>, now: Instant, seqNo: nat, all: multiset<Event>, until: Instant)
    requires Kept(q, fired, now, seqNo, all) && q != [] && q[0].at > until >= now
    ensures Kept(q, fired, until, seqNo, all) && forall e :: e in all && e.at <= until ==> e in fired
  {
    assert Open(0, q, fired, now, seqNo, all);
    forall e | e in q ensures e.at > until {
      var k :| 0 <= k < |q| && q[k] == e;
      RootIsFirst(q, k);
    }
  }

  /** Nothing fires that was not scheduled, and all of it has exactly when nothing waits. */
  lemma EndFacts(q: seq<Event>, fired: seq<Event>, now: Instant, seqNo: nat, all: multiset<Event>)
    requires Kept(q, fired, now, seqNo, all)
    ensures Heap(q) && InOrder(fired) && multiset(fired) <= all && (multiset(fired) == all <==> q == [])
  {
    assert Open(0, q, fired, now, seqNo, all);
    if q != [] {
      assert q[0] in multiset(q);
      assert all[q[0]] > multiset(fired)[q[0]];
    }
  }

  datatype Request = Request(delay: nat, kind: nat, node: nat)

  /** What a handler does with an event: schedule others, and perhaps stop the run. */
  datatype Reaction = Reaction(asks: seq<Request>, halts: bool)

  /** How a run ends. The last is the model's own: it was told of no further reaction. */
  datatype Outcome = Quiescent | Deadline | StepLimit | Halted | Untold

  const TICK: nat := 1

  ghost function FirstTicks(ticks: seq<Instant>): multiset<Event> {
    if ticks == [] then multiset{}
    else FirstTicks(ticks[..|ticks| - 1]) + multiset{Event(ticks[|ticks| - 1], |ticks|, TICK, |ticks| - 1)}
  }

  class Loop {
    const q: Queue
    var now: Instant
    var seqNo: nat
    var steps: nat
    ghost var fired: seq<Event>
    ghost var scheduled: multiset<Event>

    ghost predicate Valid()
      reads this, q
    { Kept(q.events, fired, now, seqNo, scheduled) && steps == |fired| }

    /** A loop starts with each node's first tick scheduled. */
    constructor (ticks: seq<Instant>)
      requires forall i :: 0 <= i < |ticks| ==> ticks[i] >= 0
      ensures Valid() && fresh(q) && fired == [] && now == 0 && scheduled == FirstTicks(ticks)
    {
      q := new Queue();
      now, seqNo, steps := 0, 0, 0;
      fired, scheduled := [], multiset{};
      new;
      StartTicks(ticks);
    }

    method StartTicks(ticks: seq<Instant>)
      requires Valid() && fired == [] && scheduled == multiset{} && now == 0 && seqNo == 0
      requires forall i :: 0 <= i < |ticks| ==> ticks[i] >= 0
      modifies this, q
      ensures Valid() && fired == [] && now == 0 && scheduled == FirstTicks(ticks)
    {
      var i := 0;
      while i < |ticks|
        invariant 0 <= i <= |ticks| && Valid() && fired == [] && now == 0 && seqNo == i
        invariant scheduled == FirstTicks(ticks[..i])
      {
        At(ticks[i], TICK, i);
        assert ticks[..i + 1][..i] == ticks[..i];
        i := i + 1;
      }
      assert ticks[..i] == ticks;
    }

    /** Scheduling into the past would panic. */
    method At(at: Instant, kind: nat, node: nat)
      requires Valid() && at >= now
      modifies this, q
      ensures Valid() && fired == old(fired) && now == old(now) && seqNo == old(seqNo) + 1
      ensures scheduled == old(scheduled) + multiset{Event(at, old(seqNo) + 1, kind, node)}
    {
      ghost var w := q.events;
      EndFacts(w, fired, now, seqNo, scheduled);
      var e := Event(at, seqNo + 1, kind, node);
      q.Push(e);
      PushSound(w, q.events, fired, now, seqNo, scheduled, e);
      seqNo := seqNo + 1;
      scheduled := scheduled + multiset{e};
    }

    /** The check that time never moves backwards always passes. */
    method Fire() returns (ev: Event)
      requires Valid() && q.events != []
      modifies this, q
      ensures Valid() && fired == old(fired) + [ev] && ev == old(q.events)[0] && scheduled == old(scheduled)
      ensures now == ev.at >= old(now)
    {
      ghost var w := q.events;
      EndFacts(w, fired, now, seqNo, scheduled);
      ev := q.Pop();
      PopSound(w, q.events, fired, now, seqNo, scheduled, ev);
      assert !(ev.at < now);
      now := ev.at;
      steps := steps + 1;
      fired := fired + [ev];
    }

    /** One event fires, and its handler schedules what it asks for from then on. */
    method Step(asks: seq<Request>)
      requires Valid() && q.events != []
      modifies this, q
      ensures Valid() && old(fired) < fired && |fired| == |old(fired)| + 1
      ensures now == fired[|fired| - 1].at >= old(now) && fired[|fired| - 1] == old(q.events)[0]
      ensures old(scheduled) <= scheduled && |scheduled| == |old(scheduled)| + |asks|
    {
      var ev := Fire();
      ghost var f, s := fired, scheduled;
      var i := 0;
      while i < |asks|
        invariant 0 <= i <= |asks| && Valid() && fired == f && now == ev.at
        invariant s <= scheduled && |scheduled| == |s| + i
      {
        At(now + asks[i].delay, asks[i].kind, asks[i].node);
        i := i + 1;
      }
    }

    /** The tests before each step, in the source's order. */
    method Check(until: Instant, maxSteps: nat) returns (done: bool, o: Outcome)
      requires Valid() && (until != 0 ==> now <= until)
      modifies this`now
      ensures Valid() && (until != 0 ==> now <= until) && InOrder(fired) && multiset(fired) <= scheduled
      ensures done <==>
        q.events == [] || (until != 0 && q.events[0].at > until) || (maxSteps != 0 && |fired| >= maxSteps)
      ensures !done ==> now == old(now)
      ensures done ==>
        o == if q.events == [] then Quiescent else if until != 0 && q.events[0].at > until then Deadline else StepLimit
      ensures multiset(fired) == scheduled <==> q.events == []
      ensures done && o == Deadline ==> now == until && forall e :: e in scheduled && e.at <= until ==> e in fired
    {
      EndFacts(q.events, fired, now, seqNo, scheduled);
      if q.events == [] { return true, Quiescent; }
      if until != 0 && q.events[0].at > until {
        ExpireSound(q.events, fired, now, seqNo, scheduled, until);
        now := until;
        return true, Deadline;
      }
      return maxSteps != 0 && steps >= maxSteps, StepLimit;
    }

    /** Every run fires exactly the scheduled events in (instant, insertion) order: all of
        them when it goes quiet, and all but later ones when time runs out. Zero sets no
        deadline and no limit. */
    method Run(until: Instant, maxSteps: nat, script: seq<Reaction>) returns (o: Outcome)
      requires Valid() && (until != 0 ==> now <= until)
      modifies this, q
      ensures Valid() && old(fired) <= fired && InOrder(fired) && multiset(fired) <= scheduled
      ensures o == Quiescent ==> multiset(fired) == scheduled
      ensures o == Deadline ==> now == until && forall e :: e in scheduled && e.at <= until ==> e in fired
      ensures o == StepLimit ==> maxSteps != 0 && |fired| >= maxSteps && multiset(fired) != scheduled
      ensures o == Untold ==> |fired| == |old(fired)| + |script| && multiset(fired) != scheduled
      ensures o == Halted ==>
        |old(fired)| < |fired| <= |old(fired)| + |script| && script[|fired| - |old(fired)| - 1].halts
      ensures until != 0 ==> now <= until
    {
      ghost var before := fired;
      var i := 0;
      while true
        invariant 0 <= i <= |script| && Valid() && before <= fired && |fired| == |before| + i
        invariant until != 0 ==> now <= until
        decreases |script| - i
      {
        var done, e := Check(until, maxSteps);
        if done { return e; }
        if i == |script| { return Untold; }
        Step(script[i].asks);
        i := i + 1;
        if script[i - 1].halts {
          EndFacts(q.events, fired, now, seqNo, scheduled);
          return Halted;
        }
      }
    }
  }
}
