/** A cluster of Raft nodes over an unreliable network and disks that crash.

    The network is the set of every message ever sent, and any of them may be delivered
    at any time and any number of times, so loss, duplication and reordering are all
    covered. Each server carries the disk image after every write still in flight:
    images[0] is durable, and a crash restores any one of them. */
module RaftCluster {
  import opened RaftTypes
  import opened RaftNode

  /** What the disk holds once the write named by `mark` has completed. */
  datatype Image = Image(mark: Mark, term: Term, vote: NodeId, log: seq<Entry>)

  datatype Server = Server(node: Node, images: seq<Image>)

  datatype Cluster = Cluster(peers: seq<NodeId>, servers: map<NodeId, Server>, net: set<Message>)

  datatype Action =
    | Deliver(at: NodeId, m: Message)
    | Campaign(at: NodeId)
    | Submit(at: NodeId, id: ProposalId, data: seq<bv8>)
    | Heartbeat(at: NodeId)
    | Drain(at: NodeId)
    | Sync(at: NodeId, k: nat)
    | Crash(at: NodeId, k: nat)

  /** The image a Ready's write leaves: entries land at their own index and the
      discarded suffix above a conflict goes with them. */
  function WriteOver(img: Image, rd: Ready): Image {
    Image(rd.mark,
          if rd.hard.Some? then rd.hard.value.term else img.term,
          if rd.hard.Some? then rd.hard.value.vote else img.vote,
          if rd.entries == [] then img.log
          else img.log[..Min(|img.log|, if rd.entries[0].index > 0 then rd.entries[0].index - 1 else 0)] + rd.entries)
  }

  function Drained(s: Server): Server
    requires s.node.tailHanded <= |s.node.log| && |s.images| > 0
  {
    var rd := ReadyOf(s.node);
    var n := AfterReady(s.node);
    Server(if rd.committed == [] then n else AckApplied(n, n.applied + |rd.committed|),
           if rd.mark == 0 then s.images else s.images + [WriteOver(s.images[|s.images| - 1], rd)])
  }

  function Synced(s: Server, k: nat): Server
    requires k < |s.images| && Shaped(s.node)
  { Server(AckPersisted(s.node, s.images[k].mark), s.images[k..]) }

  function Recovered(s: Server, k: nat): Server
    requires k < |s.images|
  {
    var i := s.images[k];
    Server(Restore(s.node.id, s.node.peers, HardState(i.term, i.vote), i.log), [i.(mark := 0)])
  }

  /** Every server is in the shape its transitions assume. */
  ghost predicate WellFormed(c: Cluster) {
    && (forall r :: r in c.servers <==> r in c.peers)
    && forall r :: r in c.servers ==>
         && Shaped(c.servers[r].node) && c.servers[r].node.id == r && c.servers[r].node.peers == c.peers
         && c.servers[r].node.tailHanded <= |c.servers[r].node.log| && |c.servers[r].images| > 0
  }

  ghost predicate Enabled(c: Cluster, a: Action)
    requires WellFormed(c)
  {
    && a.at in c.servers
    && (a.Deliver? ==> a.m in c.net && a.m.to == a.at)
    && (a.Campaign? ==> c.servers[a.at].node.role != Leader)
    && (a.Heartbeat? ==> c.servers[a.at].node.role == Leader)
    && (a.Sync? ==> 1 <= a.k < |c.servers[a.at].images|)
    && (a.Crash? ==> a.k < |c.servers[a.at].images|)
  }

  ghost function Moved(s: Server, a: Action): Server
    requires Shaped(s.node) && s.node.tailHanded <= |s.node.log| && |s.images| > 0
    requires a.Sync? || a.Crash? ==> a.k < |s.images|
  {
    match a
    case Deliver(_, m) => s.(node := Step(s.node, m))
    case Campaign(_) => s.(node := ForceCampaign(s.node))
    case Submit(_, id, data) => s.(node := Propose(s.node, id, data))
    case Heartbeat(_) => s.(node := Broadcast(s.node, |s.node.peers|))
    case Drain(_) => Drained(s)
    case Sync(_, k) => Synced(s, k)
    case Crash(_, k) => Recovered(s, k)
  }

  ghost function Next(c: Cluster, a: Action): Cluster
    requires WellFormed(c) && Enabled(c, a)
  {
    var s := c.servers[a.at];
    c.(servers := c.servers[a.at := Moved(s, a)],
       net := if a.Drain? then c.net + (set m | m in ReadyOf(s.node).messages) else c.net)
  }

  ghost predicate Init(c: Cluster) {
    && |c.peers| >= 1
    && 0 !in c.peers
    && (forall i, j :: 0 <= i < j < |c.peers| ==> c.peers[i] != c.peers[j])
    && (forall r :: r in c.servers <==> r in c.peers)
    && (forall r :: r in c.servers ==>
          c.servers[r] == Server(Restore(r, c.peers, HardState(0, 0), []), [Image(0, 0, 0, [])]))
    && c.net == {}
  }

  /** A run: an initial cluster and one enabled action after another. */
  ghost predicate Run(cs: seq<Cluster>) {
    && |cs| > 0
    && Init(cs[0])
    && forall k :: 0 < k < |cs| ==> StepsAt(cs, k)
  }

  ghost predicate StepsAt(cs: seq<Cluster>, k: nat)
    requires 0 < k < |cs|
  { Steps(cs[k - 1], cs[k]) }

  ghost predicate Steps(c: Cluster, d: Cluster) {
    WellFormed(c) && exists a :: Enabled(c, a) && d == Next(c, a)
  }
}
