/** Hybrid logical clocks: a wall reading and a 32-bit counter whose low byte names the
    node that minted the timestamp. */
module Hlc {
  const LIMIT: nat := 0x1_0000_0000
  const STEP: nat := 256

  datatype Timestamp = Timestamp(wall: int, logical: nat)
  {
    predicate IsSet() { wall != 0 || logical != 0 }
    predicate Less(u: Timestamp) { if wall != u.wall then wall < u.wall else logical < u.logical }
    predicate LessEq(u: Timestamp) { !u.Less(this) }

    /** One logical tick, carrying into the wall when the counter is at its last value. */
    function Next(): Timestamp {
      if logical == LIMIT - 1 then Timestamp(wall + 1, 0) else Timestamp(wall, logical + 1)
    }

    /** The counter fits its 32 bits. */
    predicate Fits() { logical < LIMIT }
  }

  function MaxTs(a: Timestamp, b: Timestamp): Timestamp { if a.Less(b) then b else a }

  /** Nothing lies strictly between a timestamp and its successor. */
  lemma NextIsSuccessor(t: Timestamp, u: Timestamp)
    requires t.Fits() && u.Fits()
    ensures t.Less(t.Next()) && t.Next().Fits()
    ensures t.Less(u) <==> t.Next().LessEq(u)
  {}

  // --- tagging ---------------------------------------------------------------

  function NodeOf(t: Timestamp): nat { t.logical % STEP }

  /** The successor carrying id in its low byte, with the counter's wrap-around. */
  function NextTagged(t: Timestamp, id: nat): Timestamp {
    var base := t.logical - t.logical % STEP;
    if base + id > t.logical then Timestamp(t.wall, base + id)
    else Timestamp(t.wall, (base + STEP + id) % LIMIT)
  }

  /** The counter has room: the next slot for this tag does not wrap. */
  predicate Roomy(t: Timestamp, id: nat) {
    t.logical % STEP < id || t.logical - t.logical % STEP + STEP + id < LIMIT
  }

  /** It is above t exactly when the counter does not wrap, and then it is the least
      timestamp at that wall above t with that tag. */
  lemma NextTaggedLeast(t: Timestamp, id: nat, u: Timestamp)
    requires t.Fits() && id < STEP
    ensures t.Less(NextTagged(t, id)) <==> Roomy(t, id)
    ensures NextTagged(t, id).Fits() && NodeOf(NextTagged(t, id)) == id && NextTagged(t, id).wall == t.wall
    ensures Roomy(t, id) && u.wall == t.wall && t.Less(u) && NodeOf(u) == id ==> NextTagged(t, id).LessEq(u)
  {
    var q, r := t.logical / STEP, t.logical % STEP;
    var c := q * STEP + STEP + id;
    assert t.logical == q * STEP + r && q < LIMIT / STEP;
    assert (q * STEP + id) % STEP == id && c % STEP == id;
    if c >= LIMIT { assert q == LIMIT / STEP - 1 && c % LIMIT == id; }
    if Roomy(t, id) && u.wall == t.wall && t.Less(u) && NodeOf(u) == id {
      var p := u.logical / STEP;
      assert u.logical == p * STEP + id;
      assert p >= q;
    }
  }

  // --- clocks ----------------------------------------------------------------

  /** A clock's ordinal is its tag. It starts unset; a physical reading accompanies
      every operation. */
  datatype Event =
    | Issue(node: nat, phys: int)
    | Absorb(node: nat, phys: int, peer: Timestamp)

  /** The timestamp the next one must exceed. */
  function Floor(last: Timestamp, e: Event): Timestamp { if e.Issue? then last else MaxTs(last, e.peer) }

  /** A peer further ahead of the physical reading than the bound is refused. */
  predicate Refused(e: Event, maxOffset: nat) { e.Absorb? && e.peer.wall - e.phys > maxOffset }

  function Stamp(last: Timestamp, e: Event): Timestamp {
    var lb := Floor(last, e);
    if lb.wall < e.phys then Timestamp(e.phys, e.node) else NextTagged(lb, e.node)
  }

  function After(last: Timestamp, e: Event, maxOffset: nat): Timestamp {
    if Refused(e, maxOffset) then last else Stamp(last, e)
  }

  /** A node's clock after the events, of which only its own move it. */
  function LastOf(es: seq<Event>, node: nat, maxOffset: nat): Timestamp {
    if es == [] then Timestamp(0, 0)
    else
      var p := LastOf(es[..|es| - 1], node, maxOffset);
      if es[|es| - 1].node == node then After(p, es[|es| - 1], maxOffset) else p
  }

  /** The timestamp the j-th event issued, or moved the clock to. */
  function IssuedAt(es: seq<Event>, j: nat, maxOffset: nat): Timestamp
    requires j < |es|
  { LastOf(es[..j + 1], es[j].node, maxOffset) }

  ghost predicate RoomAt(es: seq<Event>, j: nat, maxOffset: nat)
    requires j < |es|
  {
    var lb := Floor(LastOf(es[..j], es[j].node, maxOffset), es[j]);
    !Refused(es[j], maxOffset) && es[j].phys <= lb.wall ==> Roomy(lb, es[j].node)
  }

  /** Ordinals fit their byte, peers' counters fit theirs, and no counter wraps. */
  ghost predicate Orderly(es: seq<Event>, maxOffset: nat) {
    && (forall j :: 0 <= j < |es| ==> es[j].node < STEP && (es[j].Absorb? ==> es[j].peer.Fits()))
    && (forall j :: 0 <= j < |es| ==> RoomAt(es, j, maxOffset))
  }

  lemma OrderlyPrefix(es: seq<Event>, k: nat, maxOffset: nat)
    requires Orderly(es, maxOffset) && k <= |es|
    ensures Orderly(es[..k], maxOffset)
  {
    forall j | 0 <= j < k ensures RoomAt(es[..k], j, maxOffset) {
      assert RoomAt(es, j, maxOffset) && es[..k][..j] == es[..j];
    }
  }

  lemma {:induction false} LastFits(es: seq<Event>, node: nat, maxOffset: nat)
    requires Orderly(es, maxOffset)
    ensures LastOf(es, node, maxOffset).Fits()
  {
    if es != [] {
      var e := es[|es| - 1];
      OrderlyPrefix(es, |es| - 1, maxOffset);
      LastFits(es[..|es| - 1], node, maxOffset);
      var lb := Floor(LastOf(es[..|es| - 1], node, maxOffset), e);
      NextTaggedLeast(lb, e.node, lb);
    }
  }

  /** An accepted operation moves the clock strictly above its floor and leaves its tag. */
  lemma StepRises(es: seq<Event>, j: nat, maxOffset: nat)
    requires Orderly(es, maxOffset) && j < |es| && !Refused(es[j], maxOffset)
    ensures var last := LastOf(es[..j], es[j].node, maxOffset);
      && Floor(last, es[j]).Less(IssuedAt(es, j, maxOffset)) && last.Less(IssuedAt(es, j, maxOffset))
      && NodeOf(IssuedAt(es, j, maxOffset)) == es[j].node
  {
    var last := LastOf(es[..j], es[j].node, maxOffset);
    OrderlyPrefix(es, j, maxOffset);
    LastFits(es[..j], es[j].node, maxOffset);
    assert es[..j + 1][..j] == es[..j] && RoomAt(es, j, maxOffset);
    NextTaggedLeast(Floor(last, es[j]), es[j].node, last);
  }

  lemma {:induction false} ClockNeverFalls(es: seq<Event>, i: nat, j: nat, node: nat, maxOffset: nat)
    requires Orderly(es, maxOffset) && i <= j <= |es|
    ensures LastOf(es[..i], node, maxOffset).LessEq(LastOf(es[..j], node, maxOffset))
  {
    if i < j {
      ClockNeverFalls(es, i, j - 1, node, maxOffset);
      assert es[..j][..j - 1] == es[..j - 1];
      if es[j - 1].node == node && !Refused(es[j - 1], maxOffset) { StepRises(es, j - 1, maxOffset); }
    }
  }

  // --- what a run promises ---------------------------------------------------

  /** Any two timestamps issued anywhere differ, and one node's are in order. */
  lemma IssuesDistinct(es: seq<Event>, i: nat, j: nat, maxOffset: nat)
    requires Orderly(es, maxOffset) && i < j < |es| && es[i].Issue? && es[j].Issue?
    ensures IssuedAt(es, i, maxOffset) != IssuedAt(es, j, maxOffset)
    ensures es[i].node == es[j].node ==> IssuedAt(es, i, maxOffset).Less(IssuedAt(es, j, maxOffset))
  {
    StepRises(es, i, maxOffset);
    StepRises(es, j, maxOffset);
    if es[i].node == es[j].node { ClockNeverFalls(es, i + 1, j, es[j].node, maxOffset); }
  }

  /** Whatever a node absorbed, it issues above. */
  lemma IssuesAboveAbsorbed(es: seq<Event>, i: nat, j: nat, maxOffset: nat)
    requires Orderly(es, maxOffset) && i < j < |es| && es[i].Absorb? && !Refused(es[i], maxOffset)
    requires es[j].Issue? && es[i].node == es[j].node
    ensures es[i].peer.Less(IssuedAt(es, j, maxOffset))
  {
    StepRises(es, i, maxOffset);
    StepRises(es, j, maxOffset);
    ClockNeverFalls(es, i + 1, j, es[j].node, maxOffset);
  }

  /** An accepted operation puts the clock at the greatest of its physical reading and what
      it must exceed, and starts the counter afresh when the reading is ahead. */
  lemma StampFollows(last: Timestamp, e: Event)
    ensures Stamp(last, e).wall == if last.wall < e.phys && (e.Absorb? ==> e.peer.wall < e.phys) then e.phys
                                   else Floor(last, e).wall
    ensures Stamp(last, e).wall >= e.phys && Stamp(last, e).wall >= last.wall
    ensures e.Absorb? ==> Stamp(last, e).wall >= e.peer.wall
    ensures Floor(last, e).wall < e.phys ==> Stamp(last, e) == Timestamp(e.phys, e.node)
  {}

  /** Every timestamp is at or above every reading its node has accepted up to then. */
  lemma IssuesFollowReadings(es: seq<Event>, i: nat, j: nat, maxOffset: nat)
    requires Orderly(es, maxOffset) && i <= j < |es| && es[i].node == es[j].node
    requires !Refused(es[i], maxOffset) && !Refused(es[j], maxOffset)
    ensures IssuedAt(es, j, maxOffset).wall >= es[i].phys
  {
    assert es[..i + 1][..i] == es[..i];
    StampFollows(LastOf(es[..i], es[i].node, maxOffset), es[i]);
    ClockNeverFalls(es, i + 1, j + 1, es[i].node, maxOffset);
  }

  ghost predicate ReadingsUpTo(es: seq<Event>, node: nat, high: int) {
    forall j :: 0 <= j < |es| && es[j].node == node ==> es[j].phys <= high
  }

  /** No peer drags a clock further than the bound above its own highest reading. A clock
      that has read only negative walls still starts at the zero timestamp. */
  lemma {:induction false} ClockWithinEnvelope(es: seq<Event>, node: nat, high: int, maxOffset: nat)
    requires ReadingsUpTo(es, node, high)
    ensures var w := LastOf(es, node, maxOffset).wall; w <= high + maxOffset || w <= 0
  {
    if es != [] {
      var pre := es[..|es| - 1];
      assert forall j :: 0 <= j < |pre| ==> pre[j] == es[j];
      ClockWithinEnvelope(pre, node, high, maxOffset);
    }
  }

  /** Every timestamp issued stays in the envelope, whatever the readings; while all of them
      are so far below zero that the envelope is too, it stays at or below the zero it
      started from. */
  lemma IssuesWithinEnvelope(es: seq<Event>, j: nat, high: int, maxOffset: nat)
    requires j < |es| && es[j].Issue? && ReadingsUpTo(es[..j + 1], es[j].node, high)
    ensures IssuedAt(es, j, maxOffset).wall <= if high + maxOffset >= 0 then high + maxOffset else 0
  {
    assert es[..j + 1][j] == es[j];
    ClockWithinEnvelope(es[..j + 1], es[j].node, high, maxOffset);
  }

  class Clock {
    const id: nat
    const maxOffset: nat
    var last: Timestamp
    var updatesRefused: nat
    var physRegressions: nat

    constructor (id: nat, maxOffset: nat)
      requires id < STEP
      ensures this.id == id && this.maxOffset == maxOffset && last == LastOf([], id, maxOffset)
    {
      this.id, this.maxOffset := id, maxOffset;
      last, updatesRefused, physRegressions := Timestamp(0, 0), 0, 0;
    }

    method Now(phys: int) returns (t: Timestamp)
      modifies this
      ensures t == last == After(old(last), Issue(id, phys), maxOffset)
      ensures t.wall == if old(last).wall < phys then phys else old(last).wall
      ensures old(last).wall < phys ==> t.logical == id
    {
      if last.wall < phys {
        last := Timestamp(phys, id);
        return last;
      }
      physRegressions := physRegressions + 1;
      last := NextTagged(last, id);
      return last;
    }

    method Update(peer: Timestamp, phys: int) returns (ok: bool)
      modifies this
      ensures ok == !Refused(Absorb(id, phys, peer), maxOffset)
      ensures last == After(old(last), Absorb(id, phys, peer), maxOffset)
      ensures !ok ==> last == old(last)
      ensures ok ==> last.wall >= phys && last.wall >= peer.wall && last.wall >= old(last).wall
      ensures ok ==> last.wall in {phys, peer.wall, old(last).wall}
      ensures updatesRefused == old(updatesRefused) + if ok then 0 else 1
    {
      if peer.wall - phys > maxOffset {
        updatesRefused := updatesRefused + 1;
        return false;
      }
      var lb := MaxTs(last, peer);
      if lb.wall < phys {
        last := Timestamp(phys, id);
        return true;
      }
      last := NextTagged(lb, id);
      return true;
    }
  }
}
