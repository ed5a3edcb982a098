/** The voter list is fixed: no step of a node changes it. */
module RaftPeers {
  import opened RaftTypes
  import opened RaftNode
  import opened RaftCluster

  lemma {:induction false} MergePeers(n: Node, es: seq<Entry>)
    ensures Merge(n, es).peers == n.peers
  {
    if es != [] { MergePeers(n, es[..|es| - 1]); }
  }

  lemma AppPeers(n: Node, m: Message)
    requires m.App?
    ensures StepApp(n, m).peers == n.peers
  {
    MergePeers(BecomeFollower(n, m.term, n.vote).(leader := m.from), m.entries);
  }

  lemma VoteRespPeers(n: Node, m: Message)
    requires Shaped(n) && m.VoteResp?
    ensures StepVoteResp(n, m).peers == n.peers
  {
  }

  lemma SendPeers(n: Node, k: nat)
    requires k < |n.peers| == |n.next|
    ensures SendAppend(n, k).peers == n.peers
  {
  }

  lemma AppRespPeers(n: Node, m: Message)
    requires Shaped(n) && m.AppResp?
    ensures StepAppResp(n, m).peers == n.peers
  {
    if n.role == Leader && m.term == n.term && m.from in n.peers && !m.success {
      var k := PeerIdx(n.peers, m.from);
      SendPeers(n.(next := n.next[k := BackUp(n.next[k], m.hint)]), k);
    }
  }

  lemma StepPeers(n: Node, m: Message)
    requires Shaped(n)
    ensures Step(n, m).peers == n.peers
  {
    var u := if m.term > n.term then BecomeFollower(n, m.term, 0) else n;
    match m {
      case VoteReq(_, _, _, _, _) =>
      case VoteResp(_, _, _, _) => VoteRespPeers(u, m);
      case App(_, _, _, _, _, _, _) => AppPeers(u, m);
      case AppResp(_, _, _, _, _, _) => AppRespPeers(u, m);
    }
  }

  lemma SamePeers(s: Server, a: Action)
    requires Shaped(s.node) && s.node.tailHanded <= |s.node.log| && |s.images| > 0
    requires a.Sync? || a.Crash? ==> a.k < |s.images|
    ensures Moved(s, a).node.peers == s.node.peers
  {
    if a.Deliver? { StepPeers(s.node, a.m); }
  }
}
