/** Winning an election: at most one leader per term, and every new leader holds every
    entry that could have been committed before it.

    A candidate wins on grants from a quorum. That quorum meets the one behind any other
    winner of the term, and no voter's two grants agree. It also meets every quorum that
    acknowledged an earlier position, so that position is in the winner's log, or some
    quorum has moved past the term it would have to be acknowledged in. */
module RaftElection {
  import opened RaftTypes
  import opened RaftNode
  import opened RaftCluster
  import opened RaftHistory
  import opened RaftInvariant
  import opened RaftSteps
  import opened RaftSends
  import opened RaftOffice

  ghost function Flagged(peers: seq<NodeId>, flags: seq<bool>): set<NodeId>
    requires |peers| == |flags|
  { set k | 0 <= k < |peers| && flags[k] :: peers[k] }

  lemma {:induction false} CountFlagged(peers: seq<NodeId>, flags: seq<bool>)
    requires |peers| == |flags| && forall i, j :: 0 <= i < j < |peers| ==> peers[i] != peers[j]
    ensures |Flagged(peers, flags)| == CountTrue(flags)
  {
    if peers != [] {
      CountFlagged(peers[1..], flags[1..]);
      var rest := Flagged(peers[1..], flags[1..]);
      assert peers[0] !in rest;
      forall p ensures p in Flagged(peers, flags) <==> p in rest || (flags[0] && p == peers[0]) {
        if p in Flagged(peers, flags) {
          var k :| 0 <= k < |peers| && flags[k] && peers[k] == p;
          if k > 0 { assert peers[1..][k - 1] == p && flags[1..][k - 1]; }
        }
        if p in rest {
          var k :| 0 <= k < |peers[1..]| && flags[1..][k] && peers[1..][k] == p;
          assert peers[k + 1] == p && flags[k + 1];
        }
      }
      assert Flagged(peers, flags) == if flags[0] then rest + {peers[0]} else rest;
    }
  }

  /** A majority of flags over the peer list is a quorum of voters. */
  lemma FlaggedQuorum(h: History, n: Node, flags: seq<bool>)
    requires |flags| == |n.peers| == |h.voters| && Shaped(n) && CountTrue(flags) >= Quorum(n)
    requires forall p :: p in n.peers <==> p in h.voters
    ensures IsQuorum(h.voters, Flagged(n.peers, flags))
  {
    CountFlagged(n.peers, flags);
  }

  ghost function Crown(h: History, n: Node): History {
    h.(reigns := h.reigns[n.term := Reign(n.log, |n.log|, n.id)])
  }

  /** The facts a majority of grants carries about its candidate. */
  ghost predicate Backed(h: History, n: Node, q: set<NodeId>) {
    && IsQuorum(h.voters, q)
    && forall v :: v in q ==>
         v in h.prom && h.prom[v] >= n.term && Voted(h, v, n.term, n.id) && VoteSafe(h, v, n.term, n.log, [])
  }

  lemma SelfBacks(h: History, s: Server, r: NodeId)
    requires Messages(h) && Keeps(h, s, r) && s.node.id == r && Asked(h, r, s.node.term)
    ensures r in h.prom && h.prom[r] >= s.node.term && Voted(h, r, s.node.term, r)
    ensures VoteSafe(h, r, s.node.term, s.node.log, [])
  {
    var a :| a in h.released && a.VoteReq? && a.from == r && a.term == s.node.term;
    assert ReleasedOk(h, a) && Ballot(a, s.node.term, r);
    forall t: Term, i: Index | t in h.reigns && h.reigns[t].base < i && (Acked(h, r, t, i) || HeldAck([], t, i))
      ensures Has(h, s.node.log, t, i) || Dead(h, t, i)
    { assert Holds(h, s, t, i); }
  }

  lemma MajorityBacks(h: History, s: Server, r: NodeId) returns (q: set<NodeId>)
    requires Messages(h) && Keeps(h, s, r) && RoleOk(h, s, r) && s.node.role == Candidate && Shaped(s.node)
    requires CountTrue(s.node.granted) >= Quorum(s.node) && |h.voters| >= 2
    ensures Backed(h, s.node, q) && Asked(h, r, s.node.term)
  {
    var n := s.node;
    q := Flagged(n.peers, n.granted);
    FlaggedQuorum(h, n, n.granted);
    if q <= {r} { CardinalitySubset(q, {r}); }
    var w :| w in q && w != r;
    SelfBacks(h, s, r);
    forall v | v in q
      ensures v in h.prom && h.prom[v] >= n.term && Voted(h, v, n.term, n.id) && VoteSafe(h, v, n.term, n.log, [])
    {
    }
  }

  /** Election safety: nobody has led the term a candidate is about to win. */
  lemma NoPriorLeader(h: History, s: Server, r: NodeId, q: set<NodeId>)
    requires Elections(h) && Ballots(h) && RoleOk(h, s, r) && s.node.role == Candidate && Backed(h, s.node, q)
    ensures s.node.term !in h.reigns
  {
    var u := s.node.term;
    if u in h.reigns {
      var q0 :| ElectedBy(h, u, q0);
      var v := QuorumsMeet(h.voters, q, q0);
      OneVote(h, v, u, r, h.reigns[u].who);
    }
  }

  lemma OneVote(h: History, v: NodeId, u: Term, a: NodeId, b: NodeId)
    requires Ballots(h) && Voted(h, v, u, a) && Voted(h, v, u, b)
    ensures a == b
  {
    var m1 :| m1 in h.released && m1.from == v && Ballot(m1, u, a);
    var m2 :| m2 in h.released && m2.from == v && Ballot(m2, u, b);
    assert OneBallot(m1, m2);
  }

  lemma CrownGrows(h: History, n: Node)
    requires n.term !in h.reigns
    ensures Grows(h, Crown(h, n), n.id)
  {
    var k := Crown(h, n);
    forall t: Term, i: Index | Acked(k, n.id, t, i) ensures Acked(h, n.id, t, i) { SameAcks(h, k, n.id, t, i); }
  }

  /** The step the whole proof rests on: a position a voter acknowledged is in the new
      leader's log, and one no voter acknowledged can never be committed. */
  lemma CrownComplete(h: History, n: Node, q: set<NodeId>, t: Term, i: Index)
    requires Backed(h, n, q) && n.term !in h.reigns && t in h.reigns && t < n.term && h.reigns[t].base < i
    ensures Complete(Crown(h, n), t, n.term, i)
  {
    var k := Crown(h, n);
    CrownGrows(h, n);
    if v :| v in q && Acked(h, v, t, i) {
    } else {
      assert Shut(h, q, t, i);
    }
  }

  /** A term won after a later one has begun can commit nothing. */
  lemma CrownLate(h: History, n: Node, w: Term, i: Index)
    requires Grounded(h) && Elections(h) && n.term !in h.reigns && w in h.reigns && n.term < w
    ensures Dead(Crown(h, n), n.term, i)
  {
    var k := Crown(h, n);
    var q :| ElectedBy(h, w, q);
    forall v | v in q ensures !Acked(k, v, n.term, i) {
      if Acked(k, v, n.term, i) { SameAcks(h, k, v, n.term, i); }
    }
    assert Shut(k, q, n.term, i);
  }

  lemma CrownReigns(h: History, n: Node)
    requires Reigns(h) && n.term !in h.reigns && LogOk(h, n.log) && n.term > 0 && TermsUpTo(n.log, n.term - 1)
    ensures Reigns(Crown(h, n))
  {
    var k := Crown(h, n);
    CrownGrows(h, n);
    LogOkMono(h, k, n.id, n.log);
    forall t | t in k.reigns ensures ReignOk(k, t) {
      if t in h.reigns {
        assert ReignOk(h, t);
        LogOkMono(h, k, n.id, h.reigns[t].log);
      }
    }
  }

  lemma CrownElections(h: History, n: Node, q: set<NodeId>)
    requires Elections(h) && n.term !in h.reigns && Backed(h, n, q)
    ensures Elections(Crown(h, n))
  {
    var k := Crown(h, n);
    CrownGrows(h, n);
    forall v | v in q ensures Voted(k, v, n.term, n.id) {
      var m :| m in h.released && m.from == v && Ballot(m, n.term, n.id);
    }
    assert ElectedBy(k, n.term, q);
    ElectionsGrow(h, k, n.id);
  }

  lemma CrownCompleteness(h: History, n: Node, q: set<NodeId>)
    requires Reigns(h) && Elections(h) && Completeness(h) && Grounded(h) && n.term !in h.reigns && Backed(h, n, q)
    ensures Completeness(Crown(h, n))
  {
    var k := Crown(h, n);
    CrownGrows(h, n);
    forall t: Term, u: Term, i: Index |
      t in k.reigns && u in k.reigns && t < u && k.reigns[t].base < i && (t !in h.reigns || u !in h.reigns)
      ensures Complete(k, t, u, i)
    {
      if t in h.reigns { CrownComplete(h, n, q, t, i); } else { CrownLate(h, n, u, i); }
    }
    CompletenessGrows(h, k, n.id);
  }

  lemma CrownGlobal(h: History, s: Server, r: NodeId, q: set<NodeId>)
    requires GlobalInv(h) && Logs(h, s) && RoleOk(h, s, r) && s.node.role == Candidate && Backed(h, s.node, q)
    ensures s.node.term !in h.reigns
    ensures GlobalInv(Crown(h, s.node)) && Grows(h, Crown(h, s.node), r)
  {
    NoPriorLeader(h, s, r, q);
    GlobalGrounded(h);
    CrownGrows(h, s.node);
    CrownReigns(h, s.node);
    CrownElections(h, s.node, q);
    CrownCompleteness(h, s.node, q);
    MessagesGrow(h, Crown(h, s.node), r);
  }

  lemma CrownKeeps(h: History, s: Server, r: NodeId)
    requires Grounded(h) && Keeps(h, s, r) && s.node.id == r && s.node.term !in h.reigns
    ensures Keeps(Crown(h, s.node), s, r)
  {
    var k := Crown(h, s.node);
    CrownGrows(h, s.node);
    forall t: Term, i: Index | t in k.reigns && k.reigns[t].base < i && Acked(k, r, t, i) ensures Holds(k, s, t, i) {
      SameAcks(h, k, r, t, i);
      HoldsMono(h, k, r, s, t, i);
    }
  }

  lemma CrownQueue(h: History, s: Server, r: NodeId)
    requires Grounded(h) && Queue(h, s, r) && s.node.id == r && s.node.term !in h.reigns && r in h.prom
    ensures Queue(Crown(h, s.node), s, r)
  {
    var k := Crown(h, s.node);
    CrownGrows(h, s.node);
    HeldAcksKnown(h, s, r);
    forall t: Term, i: Index | Acked(k, r, t, i) ensures Acked(h, r, t, i) { SameAcks(h, k, r, t, i); }
    forall g | g in s.node.gated ensures Withheld(k, s, r, g) { WithheldMono(h, k, r, s, r, g); }
  }

  lemma CrownRole(h: History, s: Server, r: NodeId)
    requires RoleOk(h, s, r) && Shaped(s.node) && s.node.term !in h.reigns && s.node.tailPersisted <= |s.node.log|
    requires |s.images| > 0 && s.node.term <= s.images[0].term
    ensures Shaped(TakeOffice(s.node)) && RoleOk(Crown(h, s.node), s.(node := TakeOffice(s.node)), r)
  {}

  /** Taking office, before the term-start no-op. */
  lemma ElectMove(h: History, s: Server, r: NodeId) returns (k: History)
    requires GlobalInv(h) && ServerInv(h, s, r) && s.node.role == Candidate && |h.voters| >= 2
    requires CountTrue(s.node.granted) >= Quorum(s.node)
    ensures GlobalInv(k) && Grows(h, k, r) && ServerInv(k, s.(node := TakeOffice(s.node)), r)
    ensures k == Crown(h, s.node)
  {
    var q := MajorityBacks(h, s, r);
    k := Crown(h, s.node);
    CrownGlobal(h, s, r, q);
    SelfBacks(h, s, r);
    GlobalGrounded(h);
    LogsMono(h, k, r, s);
    CrownKeeps(h, s, r);
    CrownQueue(h, s, r);
    CrownRole(h, s, r);
    OutMono(h, k, s, r);
    SafePrefixMono(h, k, s.node.term, s.node.log, s.node.commit);
    OfficeMove(k, s, r);
  }

  /** As SoftMove, when the old role no longer fits the history. */
  lemma OfficeMove(h: History, s: Server, r: NodeId)
    requires Disk(s) && Logs(h, s) && Keeps(h, s, r) && Queue(h, s, r) && Out(h, s, r)
    requires SafePrefix(h, s.node.term, s.node.log, s.node.commit)
    requires Shaped(TakeOffice(s.node)) && RoleOk(h, s.(node := TakeOffice(s.node)), r)
    ensures ServerInv(h, s.(node := TakeOffice(s.node)), r)
  {
    var s' := s.(node := TakeOffice(s.node));
    forall g | g in s'.node.gated ensures Withheld(h, s', r, g) { assert Withheld(h, s, r, g); }
    forall t: Term, i: Index | t in h.reigns && h.reigns[t].base < i && Acked(h, r, t, i)
      ensures Holds(h, s', t, i)
    { assert Holds(h, s, t, i); }
    forall j | 0 <= j < |s.images| ensures ImageOk(s'.node, s.images[j]) { assert ImageOk(s.node, s.images[j]); }
  }
}
