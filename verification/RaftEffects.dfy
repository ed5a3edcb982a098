/** What each step of a node does for the cluster's progress. */
module RaftEffects {
  import opened RaftTypes
  import opened RaftNode
  import opened RaftElection
  import opened RaftHistory

  // --- what a node has sent ----------------------------------------------------

  /** The message is on its way out: ready to leave, or waiting for the disk. */
  ghost predicate Emitted(n: Node, m: Message) { m in n.msgs || exists g :: g in n.gated && g.msg == m }

  /** A send adds its message and loses none; one with nothing left to wait for may leave at
      once. */
  lemma SendEmits(n: Node, mark: Mark, m: Message)
    ensures Emitted(SendOn(n, mark, m), m)
    ensures forall x :: Emitted(SendOn(n, mark, m), x) <==> Emitted(n, x) || x == m
    ensures mark == 0 && TermMark(n) == 0 ==> SendOn(n, mark, m).msgs == n.msgs + [m]
  {
    var r := SendOn(n, mark, m);
    if mark == 0 && TermMark(n) == 0 {
    } else {
      var g := Gated(m, mark, TermMark(n));
      assert g in r.gated && g.msg == m;
      forall x ensures Emitted(r, x) <==> Emitted(n, x) || x == m {
        if h :| h in n.gated && h.msg == x { assert h in r.gated; }
      }
    }
  }

  /** The append that brings peer k up to date from where the leader thinks it is. */
  ghost predicate BringsUp(n: Node, k: nat, m: Message)
    requires k < |n.peers| == |n.next|
  {
    && m.App? && m.from == n.id && m.to == n.peers[k] && m.term == n.term && m.commit == n.commit
    && m.prevIndex == (if n.next[k] == 0 then 0 else n.next[k] - 1) && m.prevTerm == TermOf(n.log, m.prevIndex)
    && m.entries == (if m.prevIndex <= |n.log| then n.log[m.prevIndex..] else [])
  }

  lemma AppBringsUp(n: Node, k: nat)
    requires k < |n.peers| == |n.next|
    ensures BringsUp(n, k, AppFor(n, k))
  {}

  lemma AppendEmits(n: Node, b: Node, i: nat, j: nat)
    requires i < |n.peers| == |n.next| && j < |n.peers| && b == n.(msgs := b.msgs, gated := b.gated)
    requires i == j || Emitted(b, AppFor(n, j))
    ensures Emitted(SendAppend(b, i), AppFor(n, j))
  {
    assert AppFor(b, i) == AppFor(n, i);
    SendEmits(b, 0, AppFor(b, i));
  }

  lemma {:induction false} BroadcastEmits(n: Node, k: nat, j: nat)
    requires j < k <= |n.peers| == |n.next| && n.peers[j] != n.id
    ensures Emitted(Broadcast(n, k), AppFor(n, j))
  {
    if j < k - 1 { BroadcastEmits(n, k - 1, j); }
    if n.peers[k - 1] != n.id { AppendEmits(n, Broadcast(n, k - 1), k - 1, j); }
  }

  /** A broadcast sends every other voter the append that brings it up to date. */
  lemma BroadcastReaches(n: Node, j: nat)
    requires j < |n.peers| == |n.next| && n.peers[j] != n.id
    ensures exists m :: Emitted(Broadcast(n, |n.peers|), m) && BringsUp(n, j, m)
  {
    AppBringsUp(n, j);
    BroadcastEmits(n, |n.peers|, j);
  }

  // --- proposing and replicating -------------------------------------------------

  /** A leader's proposal is appended as given, and every other voter is sent an append that
      ends with it. */
  lemma ProposeActs(n: Node, id: ProposalId, data: seq<bv8>, j: nat)
    requires Shaped(n) && n.role == Leader && !id.Zero()
    requires j < |n.peers| && n.peers[j] != n.id && n.next[j] <= |n.log| + 1
    ensures var e := Entry(Normal, n.term, |n.log| + 1, id, data);
      var p := Propose(n, id, data);
      && p.log == n.log + [e] && p.commit == n.commit && p.term == n.term
      && exists m :: Emitted(p, m) && m.App? && m.to == n.peers[j] && m.term == n.term && m.entries != [] &&
                     m.entries[|m.entries| - 1] == e
  {
    var a := AppendEntry(n, Entry(Normal, n.term, |n.log| + 1, id, data));
    BroadcastReaches(a, j);
  }

  /** Wherever two logs hold an entry of one term at one position, it is the same entry. */
  ghost predicate Matching(x: seq<Entry>, y: seq<Entry>) {
    forall k :: 0 <= k < |x| && k < |y| && x[k].term == y[k].term ==> x[k] == y[k]
  }

  /** Merging a run of the leader's entries onto what precedes them gives the leader's log that
      far. */
  lemma {:induction false} MergeCopies(f: Node, l: seq<Entry>, p: nat, q: nat)
    requires Indexed(f.log) && Indexed(l) && p <= q <= |l| && p <= |f.log| && f.log[..p] == l[..p] && Matching(f.log, l)
    ensures var g := Merge(f, l[p..q]);
      && q <= |g.log| && g.log[..q] == l[..q] && Indexed(g.log) && Matching(g.log, l)
      && g.term == f.term && g.commit == f.commit && g.id == f.id && g.role == f.role
    decreases q
  {
    if p < q {
      var pre := l[p..q - 1];
      assert l[p..q][..|l[p..q]| - 1] == pre && l[p..q][|l[p..q]| - 1] == l[q - 1];
      MergeCopies(f, l, p, q - 1);
      CopyOne(Merge(f, pre), l, q);
    }
  }

  lemma CopyOne(g: Node, l: seq<Entry>, q: nat)
    requires Indexed(g.log) && Indexed(l) && 0 < q <= |l| && q - 1 <= |g.log| && g.log[..q - 1] == l[..q - 1]
    requires Matching(g.log, l)
    ensures var h := MergeOne(g, l[q - 1]);
      && q <= |h.log| && h.log[..q] == l[..q] && Indexed(h.log) && Matching(h.log, l)
      && h.term == g.term && h.commit == g.commit && h.id == g.id && h.role == g.role
  {
    var h, e := MergeOne(g, l[q - 1]), l[q - 1];
    assert l[..q] == l[..q - 1] + [e];
    if q <= |g.log| && g.log[q - 1].term == e.term {
      assert g.log[..q] == g.log[..q - 1] + [g.log[q - 1]];
    } else {
      assert h.log == g.log[..q - 1] + [e];
    }
  }

  lemma AcceptCopies(f: Node, l: seq<Entry>, m: Message)
    requires m.App? && Indexed(f.log) && Indexed(l) && Matching(f.log, l)
    requires m.prevIndex <= |l| && m.prevIndex <= |f.log| && f.log[..m.prevIndex] == l[..m.prevIndex]
    requires m.entries == l[m.prevIndex..] && m.commit <= |l|
    ensures var g := Accept(f, m);
      && |l| <= |g.log| && g.log[..|l|] == l && g.commit == Max(f.commit, m.commit)
      && g.term == f.term && g.id == f.id && g.role == f.role
  {
    MergeCopies(f, l, m.prevIndex, |l|);
    assert l[m.prevIndex..|l|] == m.entries && l[..|l|] == l;
  }

  lemma AgreesAt(f: Node, l: seq<Entry>, p: Index)
    requires p <= |l| && p <= |f.log| && f.log[..p] == l[..p]
    ensures Matches(f, p, TermOf(l, p))
  {
    if p > 0 { assert f.log[p - 1] == f.log[..p][p - 1] == l[p - 1]; }
  }

  /** A leader's append, taken by a follower that agrees up to where it starts, leaves the
      follower with the leader's whole log, its commit index and an acknowledgement of all
      of it on the way. */
  lemma Replicates(l: Node, k: nat, f: Node, m: Message)
    requires k < |l.peers| == |l.next| && BringsUp(l, k, m) && f.term == l.term
    requires Indexed(l.log) && Indexed(f.log) && Matching(f.log, l.log) && l.commit <= |l.log|
    requires m.prevIndex <= |l.log| && m.prevIndex <= |f.log| && f.log[..m.prevIndex] == l.log[..m.prevIndex]
    ensures var f' := StepApp(f, m);
      && |l.log| <= |f'.log| && f'.log[..|l.log|] == l.log && f'.commit == Max(f.commit, l.commit)
      && f'.term == l.term && f'.role == Follower
      && Emitted(f', AppResp(f.id, l.id, l.term, true, |l.log|, 0))
  {
    AgreesAt(f, l.log, m.prevIndex);
    TakesAppend(f, l.log, m);
  }

  lemma TakesAppend(f: Node, l: seq<Entry>, m: Message)
    requires m.App? && m.term == f.term && Indexed(f.log) && Indexed(l) && Matching(f.log, l) && m.commit <= |l|
    requires m.prevIndex <= |l| && m.prevIndex <= |f.log| && f.log[..m.prevIndex] == l[..m.prevIndex]
    requires m.entries == l[m.prevIndex..] && Matches(f, m.prevIndex, m.prevTerm)
    ensures var f' := StepApp(f, m);
      && |l| <= |f'.log| && f'.log[..|l|] == l && f'.commit == Max(f.commit, m.commit)
      && f'.term == f.term && f'.role == Follower && Emitted(f', AppResp(f.id, m.from, f.term, true, |l|, 0))
  {
    var u := BecomeFollower(f, m.term, f.vote).(leader := m.from);
    AcceptCopies(u, l, m);
    var a := Accept(u, m);
    SendEmits(a, MarkFor(a, |l|), AppResp(a.id, m.from, a.term, true, |l|, 0));
  }

  /** One that does not agree there keeps its log and says how far it goes. */
  lemma RefusesGap(f: Node, m: Message)
    requires m.App? && m.term == f.term && m.prevIndex > 0
    requires m.prevIndex > |f.log| || f.log[m.prevIndex - 1].term != m.prevTerm
    ensures StepApp(f, m).log == f.log && Emitted(StepApp(f, m), AppResp(f.id, m.from, f.term, false, 0, |f.log|))
  {
    var u := BecomeFollower(f, m.term, f.vote).(leader := m.from);
    SendEmits(u, 0, AppResp(u.id, m.from, u.term, false, 0, |u.log|));
  }

  // --- responses -----------------------------------------------------------------

  /** Backing up goes as far as the hint says and by at least one, and never below one. */
  lemma BackUpFalls(next: Index, hint: Index)
    ensures next > 1 ==> 1 <= BackUp(next, hint) < next && BackUp(next, hint) <= hint + 1
    ensures next > 1 ==> BackUp(next, hint) in {hint + 1, next - 1}
    ensures next <= 1 ==> BackUp(next, hint) == 1
  {}

  /** A refusal moves the peer's next index back so, and the append from there is sent. */
  lemma RefusalBacksUp(n: Node, m: Message, k: nat)
    requires Shaped(n) && n.role == Leader && m.AppResp? && !m.success && m.term == n.term
    requires k < |n.peers| && n.peers[k] == m.from
    ensures var n' := StepAppResp(n, m);
      && n' == n.(next := n.next[k := BackUp(n.next[k], m.hint)], msgs := n'.msgs, gated := n'.gated)
      && exists x :: Emitted(n', x) && BringsUp(n', k, x)
  {
    assert PeerIdx(n.peers, m.from) == k;
    var b := n.(next := n.next[k := BackUp(n.next[k], m.hint)]);
    AppBringsUp(b, k);
    SendEmits(b, 0, AppFor(b, k));
    assert BringsUp(StepAppResp(n, m), k, AppFor(b, k));
  }

  /** Voters whose match index has reached a position. */
  ghost function Reachers(n: Node, i: Index): set<NodeId>
    requires |n.peers| == |n.matched|
  { set k | 0 <= k < |n.peers| && n.matched[k] >= i :: n.peers[k] }

  lemma ReachersCount(n: Node, i: Index)
    requires Shaped(n)
    ensures |Reachers(n, i)| == ReplicasAt(n, i)
  {
    CountFlagged(n.peers, Reached(n.matched, i));
    assert Reachers(n, i) == Flagged(n.peers, Reached(n.matched, i));
  }

  /** The commit index rises to the highest entry of the leader's own term that a majority has,
      and to nothing else. */
  lemma CommitsMajority(n: Node)
    requires Shaped(n)
    ensures var c := MaybeCommit(n).commit;
      && c >= n.commit
      && (forall i :: n.commit < i <= |n.log| && n.log[i - 1].term == n.term && 2 * |Reachers(n, i)| > |n.peers|
            ==> i <= c)
      && (c > n.commit ==> c <= |n.log| && n.log[c - 1].term == n.term && 2 * |Reachers(n, c)| > |n.peers|)
      && MaybeCommit(n) == n.(commit := c)
  {
    var c := MaybeCommit(n).commit;
    forall i | n.commit < i <= |n.log| && n.log[i - 1].term == n.term && 2 * |Reachers(n, i)| > |n.peers|
      ensures i <= c
    {
      ReachersCount(n, i);
      assert Countable(n, i);
    }
    if c > n.commit { ReachersCount(n, c); }
  }

  /** An acknowledgement is recorded for the peer that sent it and no other, and the commit
      index follows. */
  lemma AckRecorded(n: Node, m: Message, k: nat)
    requires Shaped(n) && n.role == Leader && m.IsAck() && m.term == n.term && k < |n.peers| && n.peers[k] == m.from
    ensures var n' := StepAppResp(n, m);
      && |n'.matched| == |n.matched| && |n'.next| == |n.next| && n'.log == n.log && n'.term == n.term
      && n'.peers == n.peers && n'.commit >= n.commit
      && n'.matched[k] == Max(n.matched[k], m.matchIndex) && n'.next[k] > n'.matched[k] && n'.next[k] >= n.next[k]
      && (forall j :: 0 <= j < |n.matched| && j != k ==> n'.matched[j] == n.matched[j] && n'.next[j] == n.next[j])
      && forall i :: n.commit < i <= |n.log| && n.log[i - 1].term == n.term && 2 * |Reachers(n', i)| > |n.peers| ==>
           i <= n'.commit
  {
    assert PeerIdx(n.peers, m.from) == k;
    var p := Progress(n, k, m.matchIndex);
    CommitsMajority(p);
    assert forall i :: Reachers(StepAppResp(n, m), i) == Reachers(p, i);
  }

  lemma AckReaches(l: Node, k: nat, l': Node, i: Index)
    requires k < |l.peers| == |l.matched| == |l'.matched| && l'.peers == l.peers && l'.matched[k] >= i
    requires forall j :: 0 <= j < |l.matched| && j != k ==> l'.matched[j] == l.matched[j]
    ensures |Reachers(l, i) + {l.peers[k]}| <= |Reachers(l', i)|
  {
    forall p | p in Reachers(l, i) ensures p in Reachers(l', i) {
      var j :| 0 <= j < |l.peers| && l.matched[j] >= i && l.peers[j] == p;
      assert l'.matched[j] >= i;
    }
    CardinalitySubset(Reachers(l, i) + {l.peers[k]}, Reachers(l', i));
  }

  /** One round: the append, the follower's answer to it and the answer's arrival commit the
      leader's whole log, if with this follower a majority has it and it ends in this term. */
  lemma RoundCommits(l: Node, k: nat, f: Node, m: Message)
    requires Shaped(l) && l.role == Leader && l.log != [] && l.log[|l.log| - 1].term == l.term
    requires k < |l.peers| && l.peers[k] == f.id && BringsUp(l, k, m) && f.term == l.term
    requires Indexed(l.log) && Indexed(f.log) && Matching(f.log, l.log) && l.commit <= |l.log|
    requires m.prevIndex <= |l.log| && m.prevIndex <= |f.log| && f.log[..m.prevIndex] == l.log[..m.prevIndex]
    requires 2 * |Reachers(l, |l.log|) + {f.id}| > |l.peers|
    ensures exists a :: Emitted(StepApp(f, m), a) && a.AppResp? && StepAppResp(l, a).commit >= |l.log|
  {
    Replicates(l, k, f, m);
    var a := AppResp(f.id, l.id, l.term, true, |l.log|, 0);
    AckRecorded(l, a, k);
    AckReaches(l, k, StepAppResp(l, a), |l.log|);
    assert StepAppResp(l, a).commit >= |l.log|;
  }

  // --- elections -----------------------------------------------------------------

  /** A log at least as up to date: a later last term, or as long in the same one. */
  ghost predicate AtLeastAsNew(term: Term, length: nat, log: seq<Entry>) {
    log == [] || term > log[|log| - 1].term || (term == log[|log| - 1].term && length >= |log|)
  }

  /** A vote is given exactly when the request is of this term, the vote is free or this
      candidate's already, and its log is at least as up to date; the answer says which. */
  lemma VoteActs(n: Node, m: Message)
    requires m.VoteReq? && m.term <= n.term
    ensures var grant := m.term == n.term && (n.vote == 0 || n.vote == m.from) &&
                         AtLeastAsNew(m.lastTerm, m.lastIndex, n.log);
      var n' := StepVote(n, m);
      && Emitted(n', VoteResp(n.id, m.from, n.term, grant)) && n'.vote == (if grant then m.from else n.vote)
      && n'.term == n.term && n'.log == n.log && n'.role == n.role
  {
    var g := Grants(n, m);
    var v := if g then SetHard(n, n.term, m.from) else n;
    SendEmits(v, 0, VoteResp(n.id, m.from, n.term, g));
  }

  /** A request of a later term is answered in that term, by a follower whose vote is free. */
  lemma LaterVote(n: Node, m: Message)
    requires Shaped(n) && m.VoteReq? && m.term > n.term
    ensures var grant := AtLeastAsNew(m.lastTerm, m.lastIndex, n.log);
      var n' := Step(n, m);
      && Emitted(n', VoteResp(n.id, m.from, m.term, grant)) && n'.vote == (if grant then m.from else 0)
      && n'.term == m.term && n'.log == n.log && n'.role == Follower
  {
    VoteActs(BecomeFollower(n, m.term, 0), m);
  }

  /** An append of an earlier term is refused, with the later one. */
  lemma RefusesStale(n: Node, m: Message)
    requires Shaped(n) && m.App? && m.term < n.term
    ensures Step(n, m).log == n.log && Step(n, m).term == n.term
    ensures Emitted(Step(n, m), AppResp(n.id, m.from, n.term, false, 0, 0))
  {
    SendEmits(n, 0, AppResp(n.id, m.from, n.term, false, 0, 0));
  }

  /** Any other makes the node a follower of its sender, in its term. */
  lemma FollowsLeader(n: Node, m: Message)
    requires Shaped(n) && m.App? && m.term >= n.term
    ensures Step(n, m).role == Follower && Step(n, m).term == m.term && Step(n, m).leader == m.from
  {
    AppFollows(if m.term > n.term then BecomeFollower(n, m.term, 0) else n, m);
  }

  lemma AppFollows(n: Node, m: Message)
    requires m.App? && m.term == n.term
    ensures StepApp(n, m).role == Follower && StepApp(n, m).term == m.term && StepApp(n, m).leader == m.from
  {
    MergeKeeps(BecomeFollower(n, m.term, n.vote).(leader := m.from), m.entries);
  }

  lemma {:induction false} MergeKeeps(n: Node, es: seq<Entry>)
    ensures var g := Merge(n, es); g.role == n.role && g.term == n.term && g.leader == n.leader
  {
    if es != [] { MergeKeeps(n, es[..|es| - 1]); }
  }

  lemma {:induction false} SolicitEmits(n: Node, k: nat, j: nat)
    requires j < k <= |n.peers| && n.peers[j] != n.id
    ensures Emitted(Solicit(n, k), VoteReqFor(n, j))
  {
    var b := Solicit(n, k - 1);
    if j < k - 1 { SolicitEmits(n, k - 1, j); }
    if n.peers[k - 1] != n.id { SendEmits(b, 0, VoteReqFor(b, k - 1)); }
  }

  /** A campaign is for the next term, with the node's own vote and its own log's end put to
      every other voter. */
  lemma CampaignActs(n: Node, j: nat)
    requires Shaped(n) && |n.peers| > 1 && j < |n.peers| && n.peers[j] != n.id
    ensures var c := ForceCampaign(n);
      && c.term == n.term + 1 && c.vote == n.id && c.role == Candidate && c.log == n.log
      && Flagged(c.peers, c.granted) == {n.id} && Flagged(c.peers, c.denied) == {}
      && Emitted(c, VoteReq(n.id, n.peers[j], n.term + 1, |n.log|, if n.log == [] then 0 else n.log[|n.log| - 1].term))
  {
    var d := Declare(n);
    SolicitEmits(d, |d.peers|, j);
    var i := PeerIdx(n.peers, n.id);
    assert d.granted[i] && d.peers[i] == n.id;
  }

  lemma FlagOne(peers: seq<NodeId>, flags: seq<bool>, k: nat)
    requires |peers| == |flags| && k < |peers|
    ensures Flagged(peers, flags[k := true]) == Flagged(peers, flags) + {peers[k]}
  {
    var f := flags[k := true];
    forall p ensures p in Flagged(peers, f) <==> p in Flagged(peers, flags) || p == peers[k] {
      if p in Flagged(peers, f) {
        var j :| 0 <= j < |peers| && f[j] && peers[j] == p;
      }
      if p in Flagged(peers, flags) {
        var j :| 0 <= j < |peers| && flags[j] && peers[j] == p;
        assert f[j];
      }
      if p == peers[k] { assert f[k]; }
    }
  }

  /** The voters who have granted, and those who have denied. */
  ghost predicate Tallied(n: Node, yes: set<NodeId>, no: set<NodeId>) {
    && |n.granted| == |n.denied| == |n.peers|
    && Flagged(n.peers, n.granted) == yes && Flagged(n.peers, n.denied) == no
  }

  lemma TallyActs(n: Node, m: Message, yes: set<NodeId>, no: set<NodeId>)
    requires Shaped(n) && m.VoteResp? && m.from in n.peers && Tallied(n, yes, no)
    ensures Tallied(CountVote(n, m), yes + (if m.granted then {m.from} else {}),
                    no + (if m.granted then {} else {m.from}))
  {
    var k := PeerIdx(n.peers, m.from);
    if m.granted { FlagOne(n.peers, n.granted, k); } else { FlagOne(n.peers, n.denied, k); }
  }

  lemma OutcomeOf(n: Node, m: Message, yes: set<NodeId>, no: set<NodeId>)
    requires Shaped(n) && n.role == Candidate && m.VoteResp? && m.term == n.term && m.from in n.peers
    requires Tallied(CountVote(n, m), yes, no)
    ensures var n' := StepVoteResp(n, m);
      && (n'.role == Leader <==> 2 * |yes| > |n.peers|)
      && (n'.role == Follower <==> 2 * |yes| <= |n.peers| && 2 * |no| > |n.peers|)
      && (n'.role == Candidate ==> n' == CountVote(n, m))
  {
    var c := CountVote(n, m);
    CountFlagged(c.peers, c.granted);
    CountFlagged(c.peers, c.denied);
  }

  /** A candidate leads exactly when a majority has granted, gives up exactly when one has
      denied and none has granted, and goes on counting otherwise. */
  lemma VoteRespActs(n: Node, m: Message, yes: set<NodeId>, no: set<NodeId>)
    requires Shaped(n) && n.role == Candidate && m.VoteResp? && m.term == n.term && m.from in n.peers
    requires Tallied(n, yes, no)
    ensures var n' := StepVoteResp(n, m);
      var yes' := yes + (if m.granted then {m.from} else {});
      var no' := no + (if m.granted then {} else {m.from});
      && (n'.role == Leader <==> 2 * |yes'| > |n.peers|)
      && (n'.role == Follower <==> 2 * |yes'| <= |n.peers| && 2 * |no'| > |n.peers|)
      && (n'.role == Candidate ==> n'.peers == n.peers && Tallied(n', yes', no'))
  {
    TallyActs(n, m, yes, no);
    OutcomeOf(n, m, yes + (if m.granted then {m.from} else {}), no + (if m.granted then {} else {m.from}));
  }

  /** A new leader appends an empty entry of its term and sends it to every other voter, to
      follow the last entry before it. */
  lemma OfficeActs(n: Node, j: nat)
    requires Shaped(n) && j < |n.peers| && n.peers[j] != n.id
    ensures var e := Entry(Normal, n.term, |n.log| + 1, ProposalId(0, 0), []);
      var l := BecomeLeader(n);
      && l.role == Leader && l.leader == n.id && l.term == n.term && l.log == n.log + [e]
      && |l.matched| == |n.peers| && l.matched[j] == 0
      && Emitted(l, App(n.id, n.peers[j], n.term, |n.log|, TermOf(n.log, |n.log|), [e], n.commit))
  {
    var t := AppendEntry(TakeOffice(n), NoOp(n));
    OfficeAppend(n, j, t);
    BroadcastEmits(t, |t.peers|, j);
  }

  lemma OfficeAppend(n: Node, j: nat, t: Node)
    requires Shaped(n) && j < |n.peers| && n.peers[j] != n.id && t == AppendEntry(TakeOffice(n), NoOp(n))
    ensures t.peers == n.peers && |t.next| == |t.matched| == |t.peers| && t.matched[j] == 0 && t.id == n.id
    ensures AppFor(t, j) == App(n.id, n.peers[j], n.term, |n.log|, TermOf(n.log, |n.log|), [NoOp(n)], n.commit)
  {
    assert j != PeerIdx(n.peers, n.id);
    LastAlone(n.log, NoOp(n));
  }

  lemma LastAlone(log: seq<Entry>, e: Entry)
    ensures (log + [e])[|log|..] == [e] && TermOf(log + [e], |log|) == TermOf(log, |log|)
  {}

  // --- the disk --------------------------------------------------------------------

  /** An acknowledgement from the disk lets out every message whose marks it reaches, and keeps
      back the others. */
  lemma AckReleases(n: Node, m: Mark, g: Gated)
    requires Shaped(n) && m > n.persisted && g in n.gated
    ensures var n' := AckPersisted(n, m);
      if g.mark <= m && g.termMark <= m then g.msg in n'.msgs else g in n'.gated
  {
    LandedKept(n.gated, m, g);
  }

  lemma {:induction false} LandedKept(gs: seq<Gated>, m: Mark, g: Gated)
    requires g in gs
    ensures if g.mark <= m && g.termMark <= m then g.msg in Landed(gs, m) else g in Kept(gs, m)
  {
    var k := |gs| - 1;
    if g in gs[..k] { LandedKept(gs[..k], m, g); }
  }

  /** Once everything has been handed over and the last of it acknowledged, the whole log counts
      as durable and what is sent next leaves at once. */
  lemma AckSettles(n: Node, x: Message)
    requires Shaped(n) && MarksOk(n) && !n.hardDirty && n.tailHanded == |n.log| && n.lastHandedMark > n.persisted
    ensures var n' := AckPersisted(n, n.lastHandedMark);
      && n'.tailPersisted == |n'.log| && n'.log == n.log && n'.dirtyMark == 0
      && Send(n', x).msgs == n'.msgs + [x]
  {}

  /** Draining twice hands nothing over a second time. */
  lemma ReadyOnce(n: Node)
    requires n.tailHanded <= |n.log|
    ensures var n' := AfterReady(n);
      n'.tailHanded <= |n'.log| && ReadyOf(n') == Ready(None, [], 0, [], ReadyOf(n).committed)
  {}
}
