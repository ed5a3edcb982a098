/** Each elementary move of a server keeps the invariant. The handlers of `RaftNode` are
    compositions of these moves.

    The moves here change memory only: a role or a leader hint, a term and a vote under a
    fresh mark, and one entry merged into the log. Merging is the delicate one. It may cut
    the log, and the images on disk then no longer agree with memory beyond the cut, so
    the tail that counts as durable is pulled back and the acknowledgements of what was
    cut are dropped from the queue. What was committed or acknowledged in public survives,
    because the leader whose entries are merged holds it too, and the first entry that
    differs comes after it. */
module RaftSteps {
  import opened RaftTypes
  import opened RaftNode
  import opened RaftCluster
  import opened RaftHistory
  import opened RaftInvariant

  // --- moves that leave history alone ----------------------------------------

  /** A change of role, tables or commit index touches nothing durable or queued. */
  lemma SoftMove(h: History, s: Server, r: NodeId, n': Node)
    requires ServerInv(h, s, r)
    requires n' == s.node.(role := n'.role, leader := n'.leader, next := n'.next, matched := n'.matched,
                           granted := n'.granted, denied := n'.denied, commit := n'.commit, applied := n'.applied)
    requires Shaped(n') && RoleOk(h, s.(node := n'), r) && SafePrefix(h, n'.term, n'.log, n'.commit)
    ensures ServerInv(h, s.(node := n'), r)
  {
    var s' := s.(node := n');
    forall g | g in n'.gated ensures Withheld(h, s', r, g) { assert Withheld(h, s, r, g); }
    forall t: Term, i: Index | t in h.reigns && h.reigns[t].base < i && Acked(h, r, t, i)
      ensures Holds(h, s', t, i)
    { assert Holds(h, s, t, i); }
    forall j | 0 <= j < |s.images| ensures ImageOk(n', s.images[j]) { assert ImageOk(s.node, s.images[j]); }
  }

  lemma StepDown(h: History, s: Server, r: NodeId)
    requires ServerInv(h, s, r)
    ensures ServerInv(h, s.(node := s.node.(role := Follower)), r)
  {
    SoftMove(h, s, r, s.node.(role := Follower));
  }

  lemma HsLeTrans(a: Term, u: NodeId, b: Term, v: NodeId, c: Term, w: NodeId)
    requires HsLe(a, u, b, v) && HsLe(b, v, c, w)
    ensures HsLe(a, u, c, w)
  {}

  /** Dirtying the hard state opens a mark that nothing on disk has reached. */
  lemma SetHardDisk(s: Server, t: Term, v: NodeId)
    requires Disk(s) && HsLe(s.node.term, s.node.vote, t, v)
    ensures Disk(s.(node := SetHard(s.node, t, v)))
  {
    var n' := SetHard(s.node, t, v);
    forall j | 0 <= j < |s.images| ensures ImageOk(n', s.images[j]) {
      assert ImageOk(s.node, s.images[j]);
      HsLeTrans(s.images[j].term, s.images[j].vote, s.node.term, s.node.vote, t, v);
    }
  }

  lemma HardMove(h: History, s: Server, r: NodeId, t: Term, v: NodeId)
    requires ServerInv(h, s, r) && HsLe(s.node.term, s.node.vote, t, v)
    requires RoleOk(h, s.(node := SetHard(s.node, t, v)), r)
    ensures ServerInv(h, s.(node := SetHard(s.node, t, v)), r)
  {
    var n, n' := s.node, SetHard(s.node, t, v);
    var s' := s.(node := n');
    SetHardDisk(s, t, v);
    forall g | g in n'.gated ensures Withheld(h, s', r, g) {
      assert Withheld(h, s, r, g);
      forall u: Term, c: NodeId | Ballot(g.msg, u, c) ensures HsLe(u, c, t, v) {
        HsLeTrans(u, c, n.term, n.vote, t, v);
      }
    }
    forall t0: Term, i: Index | t0 in h.reigns && h.reigns[t0].base < i && Acked(h, r, t0, i)
      ensures Holds(h, s', t0, i)
    { assert Holds(h, s, t0, i); }
    if n.commit > 0 {
      var t0, i0 :| Vouches(h, t0, i0, n.term, n.log, n.commit);
      assert Vouches(h, t0, i0, t, n.log, n.commit);
    }
  }

  lemma Adopt(h: History, s: Server, r: NodeId, t: Term)
    requires ServerInv(h, s, r) && t > s.node.term
    ensures ServerInv(h, s.(node := BecomeFollower(s.node, t, 0)), r)
  {
    StepDown(h, s, r);
    HardMove(h, s.(node := s.node.(role := Follower)), r, t, 0);
    assert BecomeFollower(s.node, t, 0) == SetHard(s.node.(role := Follower), t, 0);
  }

  // --- merging a leader's entries --------------------------------------------

  lemma AgreeLess(x: seq<Entry>, y: seq<Entry>, i: Index, j: Index)
    requires AgreeUpTo(x, y, j) && i <= j
    ensures AgreeUpTo(x, y, i)
  {
    assert x[..i] == x[..j][..i] && y[..i] == y[..j][..i];
  }

  /** Cutting y at k and putting e there keeps its agreement with x below the cut. */
  lemma AgreeCut(x: seq<Entry>, y: seq<Entry>, i: Index, k: Index, e: Entry)
    requires AgreeUpTo(x, y, i) && i <= k <= |y|
    ensures AgreeUpTo(x, y[..k] + [e], i)
  {
    assert (y[..k] + [e])[..i] == y[..i];
  }

  /** A new entry over the cut at position i leaves every watermark below the cut. */
  lemma ReplacedMarks(n: Node, e: Entry)
    requires Shaped(n) && MarksOk(n) && 1 <= e.index <= |n.log| + 1
    requires TermOf(n.log, e.index) != e.term || e.index > |n.log|
    ensures var n' := MergeOne(n, e);
      && n'.log == n.log[..e.index - 1] + [e]
      && n'.tailPersisted == Min(n.tailPersisted, e.index - 1)
      && n'.tailHanded == Min(n.tailHanded, e.index - 1)
      && n' == n.(log := n'.log, tailPersisted := n'.tailPersisted, tailHanded := n'.tailHanded,
                  markLastIdx := n'.tailHanded, gated := n'.gated, nextMark := n'.nextMark,
                  dirtyMark := n'.dirtyMark, markHandedOff := n'.markHandedOff)
      && Shaped(n') && MarksOk(n')
      && (forall g :: g in n'.gated <==> g in n.gated && !(e.index <= |n.log| && AttestsFrom(g, e.index)))
  {
    assert e.index == |n.log| + 1 ==> n.log[..e.index - 1] == n.log;
  }

  lemma MergeOneDisk(s: Server, e: Entry)
    requires Disk(s) && 1 <= e.index <= |s.node.log| + 1
    requires TermOf(s.node.log, e.index) != e.term || e.index > |s.node.log|
    ensures Disk(s.(node := MergeOne(s.node, e)))
  {
    var n, n' := s.node, MergeOne(s.node, e);
    ReplacedMarks(n, e);
    forall j | 0 <= j < |s.images| ensures ImageOk(n', s.images[j]) {
      assert ImageOk(n, s.images[j]);
      AgreeLess(s.images[j].log, n.log, n'.tailPersisted, n.tailPersisted);
      AgreeCut(s.images[j].log, n.log, n'.tailPersisted, e.index - 1, e);
    }
    AgreeLess(Final(s).log, n.log, n'.tailHanded, n.tailHanded);
    AgreeCut(Final(s).log, n.log, n'.tailHanded, e.index - 1, e);
  }

  /** The next entry of term t's reign, offered to a log that agrees with the reign below it. */
  ghost predicate Offered(h: History, n: Node, e: Entry) {
    && n.term in h.reigns
    && 1 <= e.index <= |h.reigns[n.term].log|
    && e == h.reigns[n.term].log[e.index - 1]
    && Has(h, n.log, n.term, e.index - 1)
  }

  /** State machine safety, at the moment it matters: below the commit index the log
      agrees with the current term's leader, so a conflict is above it. */
  lemma CommitAgreesWithLeader(h: History, n: Node, p: Index)
    requires Completeness(h) && SafePrefix(h, n.term, n.log, n.commit) && n.term in h.reigns
    requires 1 <= p <= n.commit
    ensures p <= |h.reigns[n.term].log| && n.log[p - 1] == h.reigns[n.term].log[p - 1]
  {
    var t0, i0 :| Vouches(h, t0, i0, n.term, n.log, n.commit);
    VouchedBy(h, t0, i0, n.term, n.log, n.commit, n.term);
  }

  /** An acknowledged position still held is in the current leader's log, or can never
      be committed. */
  lemma AckAgreesWithLeader(h: History, n: Node, t: Term, i: Index, p: Index)
    requires Completeness(h) && t in h.reigns && n.term in h.reigns && h.reigns[t].base < i && t <= n.term
    requires Has(h, n.log, t, i) && 1 <= p <= i
    ensures Dead(h, t, i) || (p <= |h.reigns[n.term].log| && n.log[p - 1] == h.reigns[n.term].log[p - 1])
  {
    if !Dead(h, t, i) {
      if t < n.term { assert Complete(h, t, n.term, i); }
    }
  }

  /** Putting the leader's next entry over the cut gives a prefix of the leader's log. */
  lemma MergedLog(h: History, n: Node, e: Entry)
    requires Reigns(h) && Offered(h, n, e)
    ensures var x := n.log[..e.index - 1] + [e];
      x == h.reigns[n.term].log[..e.index] && LogOk(h, x) && TermsUpTo(x, n.term) && Has(h, x, n.term, e.index)
  {
    var l := h.reigns[n.term].log;
    var i := e.index;
    assert ReignOk(h, n.term);
    assert l[..i] == l[..i - 1] + [e];
  }

  lemma MergeOneMove(h: History, s: Server, r: NodeId, e: Entry)
    requires GlobalInv(h) && ServerInv(h, s, r) && s.node.role == Follower && Offered(h, s.node, e)
    requires e.index <= |s.node.log| ==> s.node.log[e.index - 1].term != e.term
    ensures ServerInv(h, s.(node := MergeOne(s.node, e)), r)
    ensures Has(h, MergeOne(s.node, e).log, s.node.term, e.index)
  {
    MergeOneDisk(s, e);
    MergeLogs(h, s, e);
    MergeCommit(h, s, e);
    MergeKeeps(h, s, r, e);
    MergeQueue(h, s, r, e);
    MergeRest(h, s, r, e);
  }

  lemma MergeRest(h: History, s: Server, r: NodeId, e: Entry)
    requires Out(h, s, r) && RoleOk(h, s, r) && s.node.role == Follower
    ensures Out(h, s.(node := MergeOne(s.node, e)), r) && RoleOk(h, s.(node := MergeOne(s.node, e)), r)
  {
    var s' := s.(node := MergeOne(s.node, e));
    forall m | m in s'.node.msgs && m.IsAck() ensures OnEveryImage(h, s', m) { assert OnEveryImage(h, s, m); }
  }

  lemma MergeLogs(h: History, s: Server, e: Entry)
    requires Reigns(h) && Logs(h, s) && Disk(s) && Offered(h, s.node, e)
    requires e.index <= |s.node.log| ==> s.node.log[e.index - 1].term != e.term
    ensures Logs(h, s.(node := MergeOne(s.node, e)))
    ensures Has(h, MergeOne(s.node, e).log, s.node.term, e.index)
  {
    ReplacedMarks(s.node, e);
    MergedLog(h, s.node, e);
  }

  lemma MergeCommit(h: History, s: Server, e: Entry)
    requires Completeness(h) && Disk(s) && Offered(h, s.node, e)
    requires SafePrefix(h, s.node.term, s.node.log, s.node.commit)
    requires e.index <= |s.node.log| ==> s.node.log[e.index - 1].term != e.term
    ensures SafePrefix(h, s.node.term, MergeOne(s.node, e).log, s.node.commit)
    ensures e.index <= |s.node.log| ==> s.node.commit < e.index
  {
    var n := s.node;
    ReplacedMarks(n, e);
    var x := n.log[..e.index - 1] + [e];
    if n.commit >= e.index { CommitAgreesWithLeader(h, n, e.index); }
    assert x[..n.commit] == n.log[..n.commit];
    SafePrefixExtend(h, n.term, n.log, x, n.commit);
  }

  lemma MergeKeeps(h: History, s: Server, r: NodeId, e: Entry)
    requires Completeness(h) && Messages(h) && Keeps(h, s, r) && Disk(s) && Out(h, s, r) && Offered(h, s.node, e)
    requires e.index <= |s.node.log| ==> s.node.log[e.index - 1].term != e.term
    ensures Keeps(h, s.(node := MergeOne(s.node, e)), r)
  {
    var n := s.node;
    ReplacedMarks(n, e);
    var s' := s.(node := MergeOne(n, e));
    forall t: Term, i: Index | t in h.reigns && h.reigns[t].base < i && Acked(h, r, t, i)
      ensures Holds(h, s', t, i)
    {
      assert Holds(h, s, t, i);
      HoldsCut(h, s, e, t, i);
    }
  }

  lemma HoldsCut(h: History, s: Server, e: Entry, t: Term, i: Index)
    requires Completeness(h) && Disk(s) && Offered(h, s.node, e)
    requires e.index <= |s.node.log| ==> s.node.log[e.index - 1].term != e.term
    requires t in h.reigns && h.reigns[t].base < i && t <= s.node.term && Holds(h, s, t, i)
    ensures Holds(h, s.(node := MergeOne(s.node, e)), t, i)
  {
    var n := s.node;
    ReplacedMarks(n, e);
    if !Dead(h, t, i) {
      if e.index <= i { AckAgreesWithLeader(h, n, t, i, e.index); }
      assert (n.log[..e.index - 1] + [e])[..i] == n.log[..i];
    }
  }

  lemma MergeQueue(h: History, s: Server, r: NodeId, e: Entry)
    requires Queue(h, s, r) && Disk(s) && Offered(h, s.node, e)
    requires e.index <= |s.node.log| ==> s.node.log[e.index - 1].term != e.term
    ensures Queue(h, s.(node := MergeOne(s.node, e)), r)
  {
    var n, n' := s.node, MergeOne(s.node, e);
    var s' := s.(node := n');
    ReplacedMarks(n, e);
    forall g | g in n'.gated ensures Withheld(h, s', r, g) {
      assert Withheld(h, s, r, g);
      if g.msg.IsAck() {
        assert n'.log[..g.msg.matchIndex] == n.log[..g.msg.matchIndex];
      }
    }
  }

}
