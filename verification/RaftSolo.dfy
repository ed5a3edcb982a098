/** The one-voter cluster. It leads without waiting for its term to be durable, sends
    nothing, and commits exactly what its own disk holds. */
module RaftSolo {
  import opened RaftTypes
  import opened RaftNode
  import opened RaftCluster
  import opened RaftHistory
  import opened RaftInvariant
  import opened RaftSteps
  import opened RaftOffice
  import opened RaftDisk

  /** What a crash cannot take away. */
  ghost function Durable(s: Server): seq<Entry>
    requires s.node.tailPersisted <= |s.node.log|
  { s.node.log[..s.node.tailPersisted] }

  ghost predicate Quiet(n: Node) { n.msgs == [] && n.gated == [] }

  ghost predicate SoloOk(s: Server, r: NodeId) {
    var n := s.node;
    && Disk(s) && n.id == r && n.peers == [r] && Quiet(n)
    && (forall j :: 0 <= j < |s.images| ==> Indexed(s.images[j].log))
    && n.commit <= n.tailPersisted
    && (n.role == Leader ==> |n.matched| == 1 && n.matched[0] <= n.tailPersisted)
  }

  /** The next state of the server is sound and has lost nothing durable. */
  ghost predicate Onward(s: Server, s': Server, r: NodeId) {
    SoloOk(s, r) && SoloOk(s', r) && Durable(s) <= Durable(s')
  }

  lemma OnwardTrans(a: Server, b: Server, c: Server, r: NodeId)
    requires Onward(a, b, r) && Onward(b, c, r)
    ensures Onward(a, c, r)
  {}

  lemma SoloAppend(s: Server, r: NodeId, e: Entry)
    requires SoloOk(s, r) && e.index == |s.node.log| + 1
    ensures Onward(s, s.(node := AppendEntry(s.node, e)), r)
  {
    AppendDisk(s, e);
    assert (s.node.log + [e])[..s.node.tailPersisted] == Durable(s);
  }

  lemma NobodyElse(n: Node)
    requires |n.peers| == 1 == |n.next| && n.peers[0] == n.id
    ensures Broadcast(n, |n.peers|) == n
  {
    assert Broadcast(n, 0) == n;
  }

  lemma SoloRole(s: Server, r: NodeId, n': Node)
    requires SoloOk(s, r) && Shaped(n')
    requires n' == s.node.(role := n'.role, leader := n'.leader, next := n'.next, matched := n'.matched,
                           granted := n'.granted, denied := n'.denied)
    requires n'.role == Leader ==> |n'.matched| == 1 && n'.matched[0] <= n'.tailPersisted
    ensures Onward(s, s.(node := n'), r)
  {
    forall j | 0 <= j < |s.images| ensures ImageOk(n', s.images[j]) { assert ImageOk(s.node, s.images[j]); }
  }

  lemma SoloLead(s: Server, r: NodeId)
    requires SoloOk(s, r)
    ensures Onward(s, s.(node := BecomeLeader(s.node)), r)
  {
    var n := s.node;
    var s1, l := s.(node := TakeOffice(n)), AppendEntry(TakeOffice(n), NoOp(n));
    SoloRole(s, r, TakeOffice(n));
    SoloAppend(s1, r, NoOp(n));
    OnwardTrans(s, s1, s.(node := l), r);
    NobodyElse(l);
  }

  lemma SoloCampaign(s: Server, r: NodeId)
    requires SoloOk(s, r)
    ensures Onward(s, s.(node := ForceCampaign(s.node)), r)
  {
    var c := s.(node := Declare(s.node));
    SoloLead(c, r);
    OnwardTrans(s, c, s.(node := BecomeLeader(c.node)), r);
  }

  lemma SoloSubmit(s: Server, r: NodeId, id: ProposalId, data: seq<bv8>)
    requires SoloOk(s, r)
    ensures Onward(s, s.(node := Propose(s.node, id, data)), r)
  {
    var n := s.node;
    if !id.Zero() && n.role == Leader {
      var e := Entry(Normal, n.term, |n.log| + 1, id, data);
      SoloAppend(s, r, e);
      NobodyElse(AppendEntry(n, e));
    }
  }

  lemma SoloDrain(s: Server, r: NodeId)
    requires SoloOk(s, r)
    ensures Onward(s, Drained(s), r)
  {
    DrainShape(s);
    DrainDisk(s, Drained(s));
  }

  /** Counting its own durable copy commits no further than the disk. */
  lemma SoloCount(s: Server, r: NodeId)
    requires SoloOk(s, r)
    ensures Onward(s, s.(node := CountSelf(s.node)), r)
  {
    var n := s.node;
    if n.role == Leader && n.tailPersisted > n.matched[0] {
      assert PeerIdx(n.peers, n.id) == 0;
      var m := n.(matched := n.matched[0 := n.tailPersisted]);
      SoloRole(s, r, m);
      SoloCommit(s.(node := m), r);
      OnwardTrans(s, s.(node := m), s.(node := MaybeCommit(m)), r);
    }
  }

  lemma SoloReach(n: Node, i: Index)
    requires |n.peers| == 1 == |n.matched| && Countable(n, i)
    ensures i <= n.matched[0]
  {
    var flags := Reached(n.matched, i);
    assert flags[1..] == [];
    assert CountTrue(flags) == if flags[0] then 1 else 0;
  }

  lemma SoloCommit(s: Server, r: NodeId)
    requires SoloOk(s, r) && s.node.role == Leader
    ensures Onward(s, s.(node := MaybeCommit(s.node)), r)
  {
    var n := s.node;
    var n' := MaybeCommit(n);
    if n'.commit != n.commit { SoloReach(n, n'.commit); }
    forall j | 0 <= j < |s.images| ensures ImageOk(n', s.images[j]) { assert ImageOk(n, s.images[j]); }
  }

  lemma SoloSync(s: Server, r: NodeId, k: nat)
    requires SoloOk(s, r) && 1 <= k < |s.images|
    ensures Onward(s, Synced(s, k), r)
  {
    SoloCount(Completed(s, k), r);
    CompletedMarks(s, k);
    OnwardTrans(s, Completed(s, k), Synced(s, k), r);
  }

  lemma SoloCrash(s: Server, r: NodeId, k: nat)
    requires SoloOk(s, r) && k < |s.images|
    ensures Onward(s, Recovered(s, k), r)
  {
    assert ImageOk(s.node, s.images[k]);
  }

  // --- runs ------------------------------------------------------------------

  ghost predicate SoloCluster(c: Cluster, r: NodeId) {
    c.peers == [r] && c.net == {} && c.servers.Keys == {r} && SoloOk(c.servers[r], r)
  }

  lemma SoloMove(c: Cluster, r: NodeId, a: Action)
    requires SoloCluster(c, r) && WellFormed(c) && Enabled(c, a)
    ensures a.at == r && Onward(c.servers[r], Moved(c.servers[r], a), r)
  {
    var s := c.servers[r];
    match a {
      case Deliver(_, m) =>
      case Campaign(_) => SoloCampaign(s, r);
      case Submit(_, id, data) => SoloSubmit(s, r, id, data);
      case Heartbeat(_) => NobodyElse(s.node);
      case Drain(_) => SoloDrain(s, r);
      case Sync(_, k) => SoloSync(s, r, k);
      case Crash(_, k) => SoloCrash(s, r, k);
    }
  }

  lemma SoloNext(c: Cluster, r: NodeId, d: Cluster)
    requires SoloCluster(c, r) && Steps(c, d)
    ensures SoloCluster(d, r) && Onward(c.servers[r], d.servers[r], r)
  {
    var a :| Enabled(c, a) && d == Next(c, a);
    SoloMove(c, r, a);
  }

  /** In a one-voter run every state is sound and whatever was durable stays. */
  lemma {:induction false} SoloLater(cs: seq<Cluster>, i: nat, j: nat, r: NodeId)
    requires Run(cs) && i <= j < |cs| && SoloCluster(cs[i], r)
    ensures SoloCluster(cs[j], r) && Durable(cs[i].servers[r]) <= Durable(cs[j].servers[r])
  {
    if i < j {
      SoloLater(cs, i, j - 1, r);
      assert StepsAt(cs, j);
      SoloNext(cs[j - 1], r, cs[j]);
    }
  }

  lemma SoloRun(cs: seq<Cluster>, i: nat, j: nat)
    requires Run(cs) && i <= j < |cs| && |cs[0].peers| == 1
    ensures var r := cs[0].peers[0];
      SoloCluster(cs[i], r) && SoloCluster(cs[j], r) && Durable(cs[i].servers[r]) <= Durable(cs[j].servers[r])
  {
    SoloLater(cs, 0, i, cs[0].peers[0]);
    SoloLater(cs, i, j, cs[0].peers[0]);
  }
}
