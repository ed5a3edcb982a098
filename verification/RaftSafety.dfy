/** The cluster theorems. */
module RaftSafety {
  import opened RaftTypes
  import opened RaftNode
  import opened RaftCluster
  import opened RaftPeers
  import opened RaftHistory
  import opened RaftInvariant
  import opened RaftSteps
  import opened RaftSends
  import opened RaftOffice
  import opened RaftElection
  import opened RaftDisk
  import opened RaftHandlers
  import Solo = RaftSolo

  // Election safety, state machine safety, leader completeness, persist-before-reply and
  // unreachability of the state machine's panics, over every run with lost, duplicated
  // and reordered messages and crashes at any moment.

  ghost predicate ClusterInv(c: Cluster, h: History) {
    && WellFormed(c)
    && (forall p :: p in h.voters <==> p in c.peers) && |c.peers| >= 2
    && c.net <= h.released
    && forall r :: r in c.servers ==> Fit(h, c.servers[r], r)
  }

  // --- the beginning ---------------------------------------------------------

  ghost function VoterSet(peers: seq<NodeId>): set<NodeId> { set p | p in peers }

  ghost function Genesis(c: Cluster): History {
    History(VoterSet(c.peers), {}, map[], map[], map p | p in VoterSet(c.peers) :: 0)
  }

  lemma {:induction false} DistinctCount(xs: seq<NodeId>)
    requires forall i, j :: 0 <= i < j < |xs| ==> xs[i] != xs[j]
    ensures |VoterSet(xs)| == |xs|
  {
    if xs != [] {
      var rest := VoterSet(xs[1..]);
      DistinctCount(xs[1..]);
      assert xs[0] !in rest;
      assert VoterSet(xs) == rest + {xs[0]};
    }
  }

  lemma GenesisServer(c: Cluster, r: NodeId)
    requires Init(c) && r in c.servers && |c.peers| >= 2
    ensures Fit(Genesis(c), c.servers[r], r)
  {
    DistinctCount(c.peers);
    assert ServerInv(Genesis(c), c.servers[r], r);
    GenesisGlobal(c);
  }

  lemma GenesisGlobal(c: Cluster)
    requires 0 !in c.peers
    ensures GlobalInv(Genesis(c))
  {}

  lemma InitInv(c: Cluster)
    requires Init(c) && |c.peers| >= 2
    ensures ClusterInv(c, Genesis(c))
  {
    assert WellFormed(c);
    forall r | r in c.servers ensures Fit(Genesis(c), c.servers[r], r) { GenesisServer(c, r); }
  }

  // --- one step --------------------------------------------------------------

  lemma DoDrain(h: History, s: Server, r: NodeId)
    requires Fit(h, s, r) && s.node.tailHanded <= |s.node.log| && |s.images| > 0
    ensures Fit(h, Drained(s), r)
  {
    assert Unseal(0, h, s, r);
    DrainShape(s);
    DrainMove(h, s, Drained(s), r);
  }

  lemma DoCrash(h: History, s: Server, r: NodeId, k: nat) returns (h': History)
    requires Fit(h, s, r) && k < |s.images|
    ensures Fit(h', Recovered(s, k), r) && Leads(h, h', r)
  {
    assert Unseal(0, h, s, r);
    h' := CrashMove(h, s, r, k);
  }

  /** Any action of a server keeps its invariant. */
  lemma ServerMove(h: History, c: Cluster, a: Action) returns (k: History)
    requires ClusterInv(c, h) && Enabled(c, a)
    ensures Fit(k, Moved(c.servers[a.at], a), a.at) && Leads(h, k, a.at)
  {
    var s, r := c.servers[a.at], a.at;
    k := h;
    LeadsRefl(h, r);
    match a {
      case Deliver(_, m) => k := StepMove(h, s, r, m);
      case Campaign(_) => k := CampaignMove(h, s, r);
      case Submit(_, id, data) => k := SubmitMove(h, s, r, id, data);
      case Heartbeat(_) => k := BroadcastMove(h, s, r, |s.node.peers|);
      case Drain(_) => DoDrain(h, s, r);
      case Sync(_, j) => k := SyncMove(h, s, r, j);
      case Crash(_, j) => k := DoCrash(h, s, r, j);
    }
  }

  /** The other servers keep theirs. */
  lemma OtherFits(h: History, k: History, r: NodeId, s: Server, q: NodeId, t: Server)
    requires Fit(h, s, q) && q != r && Leads(h, k, r) && Fit(k, t, r)
    ensures Fit(k, s, q)
  {
    assert Unseal(0, h, s, q) && Unseal(0, k, t, r) && UnsealPath(0, h, k);
    ServerOther(h, k, r, s, q);
  }

  lemma PathFacts(h: History, k: History, s: Server, r: NodeId)
    requires Leads(h, k, r) && Fit(k, s, r)
    ensures Continues(h, k) && Disk(s) && s.node.id == r
    ensures forall m :: m in s.node.msgs ==> m in k.released
  {
    assert Unseal(0, k, s, r) && UnsealPath(0, h, k);
  }

  lemma FitFacts(h: History, s: Server, r: NodeId)
    requires Fit(h, s, r)
    ensures Disk(s) && s.node.id == r && Completeness(h)
    ensures forall m :: m in s.node.msgs ==> m in h.released && m.from == r
    ensures s.node.role == Leader ==> LeaderOk(h, s.node)
    ensures SafePrefix(h, s.node.term, s.node.log, s.node.commit)
  {
    assert Unseal(0, h, s, r);
  }

  /** The cluster with server r replaced by t. */
  lemma Placed(c: Cluster, h: History, k: History, r: NodeId, t: Server, net: set<Message>)
    requires ClusterInv(c, h) && r in c.servers && Fit(k, t, r) && Leads(h, k, r)
    requires t.node.peers == c.peers && net <= k.released
    ensures ClusterInv(c.(servers := c.servers[r := t], net := net), k)
  {
    PathFacts(h, k, t, r);
    forall q | q in c.servers && q != r ensures Fit(k, c.servers[q], q) {
      OtherFits(h, k, r, c.servers[q], q, t);
    }
  }

  lemma NextInv(c: Cluster, h: History, a: Action) returns (k: History)
    requires ClusterInv(c, h) && Enabled(c, a)
    ensures ClusterInv(Next(c, a), k) && Continues(h, k)
  {
    var r := a.at;
    k := ServerMove(h, c, a);
    var t := Moved(c.servers[r], a);
    PathFacts(h, k, t, r);
    SamePeers(c.servers[r], a);
    FitFacts(h, c.servers[r], r);
    Placed(c, h, k, r, t, Next(c, a).net);
  }

  lemma StepsInv(c: Cluster, h: History, d: Cluster) returns (k: History)
    requires ClusterInv(c, h) && Steps(c, d)
    ensures ClusterInv(d, k) && Continues(h, k)
  {
    var a :| Enabled(c, a) && d == Next(c, a);
    k := NextInv(c, h, a);
  }

  // --- runs ------------------------------------------------------------------

  lemma StepAt(cs: seq<Cluster>, k: nat, h: History) returns (h': History)
    requires Run(cs) && 0 < k < |cs| && ClusterInv(cs[k - 1], h)
    ensures ClusterInv(cs[k], h') && Continues(h, h')
  {
    assert StepsAt(cs, k);
    h' := StepsInv(cs[k - 1], h, cs[k]);
  }

  /** A history that explains state i of a run goes on to one that explains any later
      state, and forgets nothing on the way. */
  lemma {:induction false} Later(cs: seq<Cluster>, i: nat, j: nat, h: History) returns (k: History)
    requires Run(cs) && i <= j < |cs| && ClusterInv(cs[i], h)
    ensures ClusterInv(cs[j], k) && Continues(h, k)
  {
    if i == j {
      k := h;
    } else {
      var k1 := Later(cs, i, j - 1, h);
      k := StepAt(cs, j, k1);
    }
  }

  /** Every reachable state is explained by some history. */
  lemma HistoryAt(cs: seq<Cluster>, k: nat) returns (h: History)
    requires Run(cs) && k < |cs| && |cs[0].peers| >= 2
    ensures ClusterInv(cs[k], h)
  {
    InitInv(cs[0]);
    h := Later(cs, 0, k, Genesis(cs[0]));
  }

  /** Any two states of a run are explained by histories one of which continues the other. */
  lemma TwoPoints(cs: seq<Cluster>, i: nat, j: nat) returns (h: History, k: History)
    requires Run(cs) && i < |cs| && j < |cs| && |cs[0].peers| >= 2
    ensures ClusterInv(cs[i], h) && ClusterInv(cs[j], k)
    ensures if i <= j then Continues(h, k) else Continues(k, h)
  {
    if i <= j {
      h := HistoryAt(cs, i);
      k := Later(cs, i, j, h);
    } else {
      k := HistoryAt(cs, j);
      h := Later(cs, j, i, k);
    }
  }

  // --- theorems --------------------------------------------------------------

  /** Steps are only taken from well-formed states, and no reachable state is otherwise. */
  lemma ReachableWellFormed(cs: seq<Cluster>, k: nat)
    requires Run(cs) && k < |cs|
    ensures WellFormed(cs[k])
  {
    if |cs[0].peers| == 1 { Solo.SoloRun(cs, k, k); } else { var h := HistoryAt(cs, k); }
  }

  lemma OneLeader(h: History, x: Server, a: NodeId, k: History, y: Server, b: NodeId)
    requires Fit(h, x, a) && Fit(k, y, b) && (Continues(h, k) || Continues(k, h))
    requires x.node.role == Leader && y.node.role == Leader && x.node.term == y.node.term
    ensures a == b
  {
    FitFacts(h, x, a);
    FitFacts(k, y, b);
  }

  /** At most one server ever leads in a term, across crashes and restarts. */
  lemma ElectionSafety(cs: seq<Cluster>, i: nat, j: nat, a: NodeId, b: NodeId)
    requires Run(cs) && i < |cs| && j < |cs| && a in cs[i].servers && b in cs[j].servers
    requires cs[i].servers[a].node.role == Leader && cs[j].servers[b].node.role == Leader
    requires cs[i].servers[a].node.term == cs[j].servers[b].node.term
    ensures a == b
  {
    if |cs[0].peers| == 1 {
      Solo.SoloRun(cs, i, i);
      Solo.SoloRun(cs, j, j);
    } else {
      var h, k := TwoPoints(cs, i, j);
      OneLeader(h, cs[i].servers[a], a, k, cs[j].servers[b], b);
    }
  }

  lemma CommitsAgree(h: History, x: Server, a: NodeId, k: History, y: Server, b: NodeId)
    requires Fit(h, x, a) && Fit(k, y, b) && Continues(h, k)
    ensures x.node.commit <= |x.node.log| && y.node.commit <= |y.node.log|
    ensures forall p :: 0 <= p < x.node.commit && p < y.node.commit ==> x.node.log[p] == y.node.log[p]
  {
    var m, n := x.node, y.node;
    FitFacts(h, x, a);
    FitFacts(k, y, b);
    SafePrefixMono(h, k, m.term, m.log, m.commit);
    CommittedAgree(k, m.term, m.log, m.commit, n.term, n.log, n.commit);
  }

  lemma CommitsAgreeAt(h: History, x: Server, a: NodeId, k: History, y: Server, b: NodeId, p: nat)
    requires Fit(h, x, a) && Fit(k, y, b) && (Continues(h, k) || Continues(k, h))
    requires p < x.node.commit && p < y.node.commit
    ensures x.node.commit <= |x.node.log| && y.node.commit <= |y.node.log| && x.node.log[p] == y.node.log[p]
  {
    if Continues(h, k) { CommitsAgree(h, x, a, k, y, b); } else { CommitsAgree(k, y, b, h, x, a); }
  }

  lemma SoloCommits(cs: seq<Cluster>, i: nat, j: nat, a: NodeId, b: NodeId, p: nat)
    requires Run(cs) && i < |cs| && j < |cs| && a in cs[i].servers && b in cs[j].servers && |cs[0].peers| == 1
    requires p < cs[i].servers[a].node.commit && p < cs[j].servers[b].node.commit
    ensures cs[i].servers[a].node.commit <= |cs[i].servers[a].node.log|
    ensures cs[j].servers[b].node.commit <= |cs[j].servers[b].node.log|
    ensures cs[i].servers[a].node.log[p] == cs[j].servers[b].node.log[p]
  {
    if i <= j { Solo.SoloRun(cs, i, j); } else { Solo.SoloRun(cs, j, i); }
    var x, y := cs[i].servers[a], cs[j].servers[b];
    assert x.node.log[p] == Solo.Durable(x)[p] && y.node.log[p] == Solo.Durable(y)[p];
  }

  /** No two servers, at no two moments, commit different entries at one position. */
  lemma StateMachineSafety(cs: seq<Cluster>, i: nat, j: nat, a: NodeId, b: NodeId, p: nat)
    requires Run(cs) && i < |cs| && j < |cs| && a in cs[i].servers && b in cs[j].servers
    requires p < cs[i].servers[a].node.commit && p < cs[j].servers[b].node.commit
    ensures cs[i].servers[a].node.commit <= |cs[i].servers[a].node.log|
    ensures cs[j].servers[b].node.commit <= |cs[j].servers[b].node.log|
    ensures cs[i].servers[a].node.log[p] == cs[j].servers[b].node.log[p]
  {
    if |cs[0].peers| == 1 {
      SoloCommits(cs, i, j, a, b, p);
    } else {
      var h, k := TwoPoints(cs, i, j);
      CommitsAgreeAt(h, cs[i].servers[a], a, k, cs[j].servers[b], b, p);
    }
  }

  lemma LeaderHolds(h: History, x: Server, a: NodeId, k: History, y: Server, b: NodeId)
    requires Fit(h, x, a) && Fit(k, y, b) && Continues(h, k)
    requires y.node.role == Leader && y.node.term >= x.node.term
    ensures x.node.commit <= |x.node.log| && x.node.log[..x.node.commit] <= y.node.log
  {
    var m, n := x.node, y.node;
    FitFacts(h, x, a);
    FitFacts(k, y, b);
    SafePrefixMono(h, k, m.term, m.log, m.commit);
    if m.commit > 0 {
      var t0, i0 :| Vouches(k, t0, i0, m.term, m.log, m.commit);
      VouchedBy(k, t0, i0, m.term, m.log, m.commit, n.term);
    }
  }

  /** An entry committed anywhere is in the log of every leader of that term or a later
      one, whenever it leads. */
  lemma CommittedIsForever(cs: seq<Cluster>, i: nat, j: nat, a: NodeId, b: NodeId)
    requires Run(cs) && i < |cs| && j < |cs| && a in cs[i].servers && b in cs[j].servers && i <= j
    requires cs[j].servers[b].node.role == Leader && cs[j].servers[b].node.term >= cs[i].servers[a].node.term
    ensures cs[i].servers[a].node.commit <= |cs[i].servers[a].node.log|
    ensures cs[i].servers[a].node.log[..cs[i].servers[a].node.commit] <= cs[j].servers[b].node.log
  {
    if |cs[0].peers| == 1 {
      Solo.SoloRun(cs, i, j);
      assert cs[i].servers[a].node.log[..cs[i].servers[a].node.commit] <= Solo.Durable(cs[i].servers[a]);
    } else {
      var h, k := TwoPoints(cs, i, j);
      LeaderHolds(h, cs[i].servers[a], a, k, cs[j].servers[b], b);
    }
  }

  lemma LogsMatch(h: History, s: Server, r: NodeId)
    requires Fit(h, s, r)
    ensures LogOk(h, s.node.log)
  {
    assert Unseal(0, h, s, r);
  }

  /** Two logs holding an entry of one term at one position agree up to it. */
  lemma LogMatchingHolds(cs: seq<Cluster>, k: nat, a: NodeId, b: NodeId, i: Index)
    requires Run(cs) && k < |cs| && a in cs[k].servers && b in cs[k].servers
    requires 1 <= i <= |cs[k].servers[a].node.log| && i <= |cs[k].servers[b].node.log|
    requires cs[k].servers[a].node.log[i - 1].term == cs[k].servers[b].node.log[i - 1].term
    ensures cs[k].servers[a].node.log[..i] == cs[k].servers[b].node.log[..i]
  {
    if |cs[0].peers| == 1 {
      Solo.SoloRun(cs, k, k);
    } else {
      var h := HistoryAt(cs, k);
      LogsMatch(h, cs[k].servers[a], a);
      LogsMatch(h, cs[k].servers[b], b);
      LogMatching(h, cs[k].servers[a].node.log, cs[k].servers[b].node.log, i);
    }
  }

  lemma PublicFacts(h: History, s: Server, r: NodeId, m: Message)
    requires Fit(h, s, r) && m in h.released && m.from == r
    ensures |s.images| > 0 && m.term <= s.images[0].term
    ensures m.IsGrant() ==> HsLe(m.term, m.to, s.images[0].term, s.images[0].vote) && m.to != 0
    ensures m.IsAck() && m in s.node.msgs ==> Has(h, s.images[0].log, m.term, m.matchIndex)
  {
    assert Unseal(0, h, s, r);
    assert ReleasedOk(h, m);
    if m.IsGrant() { assert Spent(m, s.images[0]) && Ballot(m, m.term, m.to); }
    if m.IsAck() && m in s.node.msgs { assert OnEveryImage(h, s, m); }
  }

  /** Persist before reply. Whatever a server has sent, its disk holds that term; a grant
      is on its disk, or a later term is. */
  lemma PersistBeforeReply(cs: seq<Cluster>, k: nat, m: Message)
    requires Run(cs) && k < |cs| && m in cs[k].net && m.from in cs[k].servers
    ensures var s := cs[k].servers[m.from];
      && |s.images| > 0 && m.term <= s.images[0].term
      && (m.IsGrant() ==> s.images[0].term > m.term || (s.images[0].term == m.term && s.images[0].vote == m.to))
  {
    if |cs[0].peers| == 1 {
      Solo.SoloRun(cs, k, k);
    } else {
      var h := HistoryAt(cs, k);
      PublicFacts(h, cs[k].servers[m.from], m.from, m);
    }
  }

  /** And at the moment an acknowledgement leaves, the disk holds every entry it
      acknowledges, exactly as the leader of that term has them. */
  lemma AckIsDurable(cs: seq<Cluster>, k: nat, r: NodeId, m: Message)
    requires Run(cs) && k < |cs| && r in cs[k].servers && m in cs[k].servers[r].node.msgs && m.IsAck()
    ensures var s := cs[k].servers[r];
      && |s.images| > 0 && m.matchIndex <= |s.images[0].log|
      && forall b ::
           b in cs[k].servers && cs[k].servers[b].node.role == Leader && cs[k].servers[b].node.term == m.term ==>
           s.images[0].log[..m.matchIndex] <= cs[k].servers[b].node.log
  {
    if |cs[0].peers| == 1 {
      Solo.SoloRun(cs, k, k);
    } else {
      var h := HistoryAt(cs, k);
      FitFacts(h, cs[k].servers[r], r);
      PublicFacts(h, cs[k].servers[r], r, m);
      forall b | b in cs[k].servers && cs[k].servers[b].node.role == Leader && cs[k].servers[b].node.term == m.term
        ensures cs[k].servers[r].images[0].log[..m.matchIndex] <= cs[k].servers[b].node.log
      { FitFacts(h, cs[k].servers[b], b); }
    }
  }

  // --- panics ----------------------------------------------------------------

  lemma CleanHere(h: History, s: Server, r: NodeId, m: Message, j: nat)
    requires Fit(h, s, r) && m in h.released && m.App? && m.term == s.node.term
    requires j < |m.entries| && Has(h, s.node.log, m.term, m.prevIndex + j)
    ensures CleanAt(s.node, m.entries[j])
  {
    AppFacts(h, s, r, m);
    FitFacts(h, s, r);
    var e := m.entries[j];
    var l := h.reigns[m.term].log;
    assert e == l[m.prevIndex + j];
    if e.index <= s.node.commit { CommitAgreesWithLeader(h, s.node, e.index); }
  }

  lemma CleanMerge(h: History, s: Server, r: NodeId, m: Message)
    requires Fit(h, s, r) && s.node.role == Follower && m in h.released && m.App? && m.term == s.node.term
    requires Matches(s.node, m.prevIndex, m.prevTerm)
    ensures MergeClean(s.node, m.entries)
  {
    PrevMatches(h, s, r, m);
    forall j | 0 <= j < |m.entries| ensures CleanAt(Merge(s.node, m.entries[..j]), m.entries[j]) {
      MergeMove(h, s, r, m, j);
      CleanHere(h, s.(node := Merge(s.node, m.entries[..j])), r, m, j);
    }
  }

  lemma CleanStep(h: History, s: Server, r: NodeId, m: Message)
    requires Fit(h, s, r) && m in h.released
    ensures StepClean(s.node, m)
  {
    if m.App? && m.term >= s.node.term {
      var u := s;
      if m.term > s.node.term {
        DoAdopt(h, s, r, m.term);
        u := s.(node := BecomeFollower(s.node, m.term, 0));
      }
      DoFollow(h, u, r, m.from);
      var f := u.(node := u.node.(role := Follower, leader := m.from));
      if Matches(f.node, m.prevIndex, m.prevTerm) {
        CleanMerge(h, f, r, m);
        AcceptMove(h, f, r, m);
        FitFacts(h, f.(node := Accept(f.node, m)), r);
      }
    }
  }

  /** In every reachable state and for every message on the wire, handling it appends
      without a gap, overwrites nothing committed, and finds a mark for what it acks. */
  lemma PanicsUnreachable(cs: seq<Cluster>, k: nat, m: Message)
    requires Run(cs) && k < |cs| && m in cs[k].net && m.to in cs[k].servers
    ensures StepClean(cs[k].servers[m.to].node, m)
  {
    if |cs[0].peers| == 1 {
      Solo.SoloRun(cs, k, k);
    } else {
      var h := HistoryAt(cs, k);
      CleanStep(h, cs[k].servers[m.to], m.to, m);
    }
  }
}
