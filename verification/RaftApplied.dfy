/** What servers hand to their state machines, over whole runs. */
module RaftApplied {
  import opened RaftTypes
  import opened RaftNode
  import opened RaftCluster
  import opened RaftHistory
  import opened RaftInvariant
  import Handlers = RaftHandlers
  import Safety = RaftSafety
  import Solo = RaftSolo

  // --- the commit index never falls ------------------------------------------

  ghost predicate Onward(n: Node, n': Node) { n'.applied == n.applied && n'.commit >= n.commit }

  lemma {:induction false} MergeOnward(n: Node, es: seq<Entry>)
    ensures Merge(n, es).applied == n.applied && Merge(n, es).commit == n.commit
  {
    if es != [] { MergeOnward(n, es[..|es| - 1]); }
  }

  /** An append never takes a commit back, because it carries the log at least as far as the
      commit index it announces. */
  lemma AppOnward(n: Node, m: Message)
    requires m.App? && m.commit <= m.prevIndex + |m.entries|
    ensures Onward(n, StepApp(n, m))
  {
    if m.term >= n.term {
      MergeOnward(BecomeFollower(n, m.term, n.vote).(leader := m.from), m.entries);
    }
  }

  lemma AppRespOnward(n: Node, m: Message)
    requires Shaped(n) && m.AppResp?
    ensures Onward(n, StepAppResp(n, m))
  {}

  lemma VoteRespOnward(n: Node, m: Message)
    requires Shaped(n) && m.VoteResp?
    ensures Onward(n, StepVoteResp(n, m))
  {}

  lemma StepOnward(n: Node, m: Message)
    requires Shaped(n) && (m.App? ==> m.commit <= m.prevIndex + |m.entries|)
    ensures Onward(n, Step(n, m))
  {
    var u := if m.term > n.term then BecomeFollower(n, m.term, 0) else n;
    match m {
      case VoteReq(_, _, _, _, _) =>
      case VoteResp(_, _, _, _) => VoteRespOnward(u, m);
      case App(_, _, _, _, _, _, _) => AppOnward(u, m);
      case AppResp(_, _, _, _, _, _) => AppRespOnward(u, m);
    }
  }

  /** Appends on the network announce no commit beyond what they carry. */
  lemma AppCarriesCommit(cs: seq<Cluster>, k: nat, m: Message)
    requires Run(cs) && k < |cs| && m in cs[k].net && m.App? && m.to in cs[k].servers
    ensures m.commit <= m.prevIndex + |m.entries|
  {
    if |cs[0].peers| == 1 {
      Solo.SoloRun(cs, 0, k);
    } else {
      var h := Safety.HistoryAt(cs, k);
      Handlers.AppFacts(h, cs[k].servers[m.to], m.to, m);
    }
  }

  lemma MovedOnward(s: Server, a: Action)
    requires Shaped(s.node) && s.node.tailHanded <= |s.node.log| && |s.images| > 0
    requires a.Sync? ==> a.k < |s.images|
    requires !a.Crash? && !a.Drain?
    requires a.Deliver? && a.m.App? ==> a.m.commit <= a.m.prevIndex + |a.m.entries|
    ensures Onward(s.node, Moved(s, a).node)
  {
    if a.Deliver? { StepOnward(s.node, a.m); }
  }

  // --- runs with their actions -----------------------------------------------

  ghost predicate ActAt(cs: seq<Cluster>, acts: seq<Action>, k: nat)
    requires k < |acts| && |cs| == |acts| + 1
  { WellFormed(cs[k]) && Enabled(cs[k], acts[k]) && cs[k + 1] == Next(cs[k], acts[k]) }

  ghost predicate Acts(cs: seq<Cluster>, acts: seq<Action>) {
    Run(cs) && |cs| == |acts| + 1 && forall k :: 0 <= k < |acts| ==> ActAt(cs, acts, k)
  }

  /** The committed entries server r has been handed to apply, in the order it was, since it
      last restarted. */
  ghost function AppliedBy(cs: seq<Cluster>, acts: seq<Action>, r: NodeId, k: nat): seq<Entry>
    requires Acts(cs, acts) && k < |cs| && r in cs[0].peers
  {
    if k == 0 then []
    else
      var before, a := AppliedBy(cs, acts, r, k - 1), acts[k - 1];
      assert ActAt(cs, acts, k - 1);
      if a.at != r then before
      else if a.Crash? then []
      else if a.Drain? then before + ReadyOf(cs[k - 1].servers[r].node).committed
      else before
  }

  /** The applied prefix, and how far it reaches. */
  ghost predicate Prefix(n: Node, done: seq<Entry>) {
    n.applied <= n.commit <= |n.log| && done == n.log[..n.applied]
  }

  lemma CommitFits(cs: seq<Cluster>, k: nat, r: NodeId)
    requires Run(cs) && k < |cs| && r in cs[k].servers
    ensures cs[k].servers[r].node.commit <= |cs[k].servers[r].node.log|
  {
    var n := cs[k].servers[r].node;
    if n.commit > 0 { Safety.StateMachineSafety(cs, k, k, r, r, n.commit - 1); }
  }

  lemma DrainApplies(s: Server, done: seq<Entry>)
    requires s.node.tailHanded <= |s.node.log| && |s.images| > 0 && Prefix(s.node, done)
    ensures ReadyOf(s.node).committed == s.node.log[s.node.applied..s.node.commit]
    ensures Prefix(Drained(s).node, done + ReadyOf(s.node).committed) && Drained(s).node.applied == s.node.commit
  {
    var n := s.node;
    assert n.log[..n.applied] + n.log[n.applied..n.commit] == n.log[..n.commit];
  }

  lemma OnwardApplies(cs: seq<Cluster>, k: nat, r: NodeId, done: seq<Entry>)
    requires Run(cs) && 0 < k < |cs| && r in cs[k - 1].servers && r in cs[k].servers
    requires Prefix(cs[k - 1].servers[r].node, done) && Onward(cs[k - 1].servers[r].node, cs[k].servers[r].node)
    ensures Prefix(cs[k].servers[r].node, done)
  {
    var n, n' := cs[k - 1].servers[r].node, cs[k].servers[r].node;
    CommitFits(cs, k, r);
    forall p | 0 <= p < n.applied ensures n'.log[p] == n.log[p] { Safety.StateMachineSafety(cs, k - 1, k, r, r, p); }
    assert n'.log[..n.applied] == n.log[..n.applied];
  }

  /** In every state of every run, what a server has been handed to apply since it last
      restarted is its log up to its applied index, each entry once and in order. */
  lemma {:induction false} AppliedIsPrefix(cs: seq<Cluster>, acts: seq<Action>, r: NodeId, k: nat)
    requires Acts(cs, acts) && k < |cs| && r in cs[0].peers
    ensures r in cs[k].servers && Prefix(cs[k].servers[r].node, AppliedBy(cs, acts, r, k))
  {
    if k > 0 {
      AppliedIsPrefix(cs, acts, r, k - 1);
      assert ActAt(cs, acts, k - 1);
      AppliedStep(cs, acts, r, k);
    }
  }

  lemma AppliedStep(cs: seq<Cluster>, acts: seq<Action>, r: NodeId, k: nat)
    requires Acts(cs, acts) && 0 < k < |cs| && r in cs[0].peers && ActAt(cs, acts, k - 1)
    requires r in cs[k - 1].servers && Prefix(cs[k - 1].servers[r].node, AppliedBy(cs, acts, r, k - 1))
    ensures r in cs[k].servers && Prefix(cs[k].servers[r].node, AppliedBy(cs, acts, r, k))
  {
    var a, s, done := acts[k - 1], cs[k - 1].servers[r], AppliedBy(cs, acts, r, k - 1);
    if a.at == r {
      assert cs[k].servers[r] == Moved(s, a);
      if a.Drain? {
        DrainApplies(s, done);
      } else if !a.Crash? {
        if a.Deliver? && a.m.App? { AppCarriesCommit(cs, k - 1, a.m); }
        MovedOnward(s, a);
        OnwardApplies(cs, k, r, done);
      }
    }
  }

  /** What any two servers have been handed to apply, at any two moments, are prefixes of one
      sequence. */
  lemma AppliedAgree(cs: seq<Cluster>, acts: seq<Action>, r: NodeId, i: nat, q: NodeId, j: nat)
    requires Acts(cs, acts) && i < |cs| && j < |cs| && r in cs[0].peers && q in cs[0].peers
    ensures
      || AppliedBy(cs, acts, r, i) <= AppliedBy(cs, acts, q, j)
      || AppliedBy(cs, acts, q, j) <= AppliedBy(cs, acts, r, i)
  {
    AppliedIsPrefix(cs, acts, r, i);
    AppliedIsPrefix(cs, acts, q, j);
    var x, y := AppliedBy(cs, acts, r, i), AppliedBy(cs, acts, q, j);
    forall p | 0 <= p < |x| && p < |y| ensures x[p] == y[p] { Safety.StateMachineSafety(cs, i, j, r, q, p); }
  }

  /** A server's commit index never falls but in a crash. */
  lemma CommitNeverFalls(cs: seq<Cluster>, acts: seq<Action>, r: NodeId, k: nat)
    requires Acts(cs, acts) && k < |acts| && r in cs[k].servers && !(acts[k].Crash? && acts[k].at == r)
    ensures r in cs[k + 1].servers && cs[k].servers[r].node.commit <= cs[k + 1].servers[r].node.commit
  {
    assert ActAt(cs, acts, k);
    var a, s := acts[k], cs[k].servers[r];
    if a.at == r && !a.Drain? {
      if a.Deliver? && a.m.App? { AppCarriesCommit(cs, k, a.m); }
      MovedOnward(s, a);
    }
  }
}
