/** The node's handlers, as compositions of the elementary moves.

    Each handler of `RaftNode` is followed from entry to exit: adopting a term, granting
    or refusing a vote, merging entries one at a time, raising the commit index, counting
    a response, campaigning and proposing. The invariant is carried sealed from one move
    to the next, so a handler's proof sees only what its moves promise. What a handler
    learns from a message it learns through the history: the message was released, so what
    it says was true when it was sent and has stayed true. */
module RaftHandlers {
  import opened RaftTypes
  import opened RaftNode
  import opened RaftCluster
  import opened RaftHistory
  import opened RaftInvariant
  import opened RaftSteps
  import opened RaftSends
  import opened RaftOffice
  import opened RaftElection
  import opened RaftDisk

  // --- sending ----------------------------------------------------------------

  lemma DoSend(h: History, s: Server, r: NodeId, mark: Mark, m: Message) returns (k: History)
    requires Fit(h, s, r) && Sendable(h, s.node, mark, m)
    ensures Fit(k, s.(node := SendOn(s.node, mark, m)), r) && Leads(h, k, r)
  {
    assert Unseal(0, h, s, r);
    k := SendMove(h, s, r, mark, m);
  }

  /** A reply that attests to nothing but the term. */
  lemma DoReply(h: History, s: Server, r: NodeId, m: Message) returns (k: History)
    requires Fit(h, s, r) && m.from == s.node.id && m.term == s.node.term
    requires (m.VoteResp? && !m.granted) || (m.AppResp? && !m.success)
    ensures Fit(k, s.(node := Send(s.node, m)), r) && Leads(h, k, r)
  {
    k := DoSend(h, s, r, 0, m);
  }

  // --- votes -----------------------------------------------------------------

  /** A candidate whose log passes the up-to-date test holds whatever the voter holds, or
      the position can never be committed. */
  lemma UpToDateCovers(h: History, x: seq<Entry>, c: seq<Entry>, t: Term, i: Index)
    requires Reigns(h) && Completeness(h) && LogOk(h, x) && LogOk(h, c)
    requires UpToDate(x, |c|, LastTerm(c)) && t in h.reigns && h.reigns[t].base < i && Has(h, x, t, i)
    ensures Has(h, c, t, i) || Dead(h, t, i)
  {
    assert ReignOk(h, t);
    assert x[i - 1] == x[..i][i - 1] == h.reigns[t].log[..i][i - 1];
    assert x[i - 1].term == t;
    TermsSorted(h, x, i - 1, |x| - 1);
    var p := LastTerm(c);
    assert c != [];
    assert Has(h, c, p, |c|) && ReignOk(h, p);
    assert c[|c| - 1] == c[..|c|][|c| - 1] == h.reigns[p].log[..|c|][|c| - 1];
    if p == LastTerm(x) {
      assert Has(h, x, p, |x|);
      HasLess(h, x, p, i, |x|);
      HasLess(h, c, p, i, |c|);
    } else {
      assert Complete(h, t, p, i);
      assert |c| > h.reigns[p].base;
      if !Dead(h, t, i) { HasLess(h, c, p, i, |c|); }
    }
  }

  lemma GrantSafe(h: History, s: Server, r: NodeId, m: Message)
    requires Reigns(h) && Completeness(h) && Keeps(h, s, r) && Queue(h, s, r) && LogOk(h, s.node.log)
    requires m.VoteReq? && ReqOk(h, m) && UpToDate(s.node.log, m.lastIndex, m.lastTerm)
    ensures VoteSafe(h, r, m.term, h.cand[(m.term, m.from)], s.node.gated)
  {
    var c := h.cand[(m.term, m.from)];
    forall t: Term, i: Index |
      t in h.reigns && t < m.term && h.reigns[t].base < i && (Acked(h, r, t, i) || HeldAck(s.node.gated, t, i))
      ensures Has(h, c, t, i) || Dead(h, t, i)
    {
      if Has(h, s.node.log, t, i) { UpToDateCovers(h, s.node.log, c, t, i); }
    }
  }

  lemma GrantFacts(h: History, s: Server, r: NodeId, m: Message)
    requires Fit(h, s, r) && m in h.released && m.VoteReq? && Grants(s.node, m)
    ensures ReqOk(h, m) && Asked(h, m.from, m.term) && m.from != 0
    ensures VoteSafe(h, r, m.term, h.cand[(m.term, m.from)], s.node.gated)
  {
    assert Unseal(0, h, s, r);
    assert ReleasedOk(h, m);
    GrantSafe(h, s, r, m);
  }

  lemma SpendVote(h: History, s: Server, r: NodeId, c: NodeId)
    requires Fit(h, s, r) && c != 0 && (s.node.vote == 0 || s.node.vote == c)
    ensures Fit(h, s.(node := SetHard(s.node, s.node.term, c)), r) && s.node.id == r
  {
    assert Unseal(0, h, s, r);
    VoteRole(h, s, r, c);
    HardMove(h, s, r, s.node.term, c);
  }

  lemma GrantVote(h: History, s: Server, r: NodeId, m: Message)
    requires Fit(h, s, r) && m in h.released && m.VoteReq? && m.term <= s.node.term && Grants(s.node, m)
    ensures var v := SetHard(s.node, s.node.term, m.from);
      Fit(h, s.(node := v), r) && Sendable(h, v, 0, VoteResp(r, m.from, s.node.term, true))
  {
    GrantFacts(h, s, r, m);
    SpendVote(h, s, r, m.from);
  }

  lemma VoteRole(h: History, s: Server, r: NodeId, c: NodeId)
    requires RoleOk(h, s, r) && c != 0 && s.node.id != 0 && (s.node.vote == 0 || s.node.vote == c)
    ensures RoleOk(h, s.(node := SetHard(s.node, s.node.term, c)), r)
  {
    var n' := SetHard(s.node, s.node.term, c);
    if n'.role == Leader {
      forall i | 0 <= i < |n'.matched| ensures Counted(h, n', i) { assert Counted(h, s.node, i); }
    }
  }

  lemma FitId(h: History, s: Server, r: NodeId)
    requires Fit(h, s, r)
    ensures s.node.id == r && Shaped(s.node) && Disk(s) && Quorum(s.node) >= 2
  {
    assert Unseal(0, h, s, r);
  }

  lemma VoteMove(h: History, s: Server, r: NodeId, m: Message) returns (k: History)
    requires Fit(h, s, r) && m in h.released && m.VoteReq? && m.term <= s.node.term
    ensures Fit(k, s.(node := StepVote(s.node, m)), r) && Leads(h, k, r)
  {
    FitId(h, s, r);
    if Grants(s.node, m) {
      GrantVote(h, s, r, m);
      k := DoSend(h, s.(node := SetHard(s.node, s.node.term, m.from)), r, 0, VoteResp(r, m.from, s.node.term, true));
    } else {
      k := DoReply(h, s, r, VoteResp(r, m.from, s.node.term, false));
    }
  }

  /** An append to a peer not past the log's end carries a slice of it, up to its end. */
  lemma AppSlice(n: Node, j: nat)
    requires j < |n.peers| == |n.next| && n.next[j] <= |n.log| + 1
    ensures var m := AppFor(n, j);
      && m.prevIndex + |m.entries| == |n.log| && m.entries == n.log[m.prevIndex..m.prevIndex + |m.entries|]
      && m.prevTerm == TermOf(n.log, m.prevIndex)
  {
    var next := Max(n.next[j], 1);
    assert next <= |n.log| ==> n.log[next - 1..] == n.log[next - 1..|n.log|];
  }

  lemma AppSendable(h: History, s: Server, r: NodeId, j: nat)
    requires Shaped(s.node) && LeaderOk(h, s.node) && j < |s.node.peers|
    requires SafePrefix(h, s.node.term, s.node.log, s.node.commit)
    ensures Sendable(h, s.node, 0, AppFor(s.node, j))
  {
    AppSlice(s.node, j);
  }

  lemma SendAppendMove(h: History, s: Server, r: NodeId, j: nat) returns (k: History)
    requires Fit(h, s, r) && s.node.role == Leader && j < |s.node.peers| == |s.node.next|
    ensures Fit(k, s.(node := SendAppend(s.node, j)), r) && Leads(h, k, r)
  {
    assert Sendable(h, s.node, 0, AppFor(s.node, j)) by {
      assert Unseal(0, h, s, r);
      AppSendable(h, s, r, j);
    }
    k := DoSend(h, s, r, 0, AppFor(s.node, j));
  }

  lemma {:induction false} BroadcastMove(h: History, s: Server, r: NodeId, j: nat) returns (k: History)
    requires Fit(h, s, r) && s.node.role == Leader && j <= |s.node.peers| == |s.node.next|
    ensures Fit(k, s.(node := Broadcast(s.node, j)), r) && Leads(h, k, r)
  {
    if j == 0 {
      k := h;
      LeadsRefl(h, r);
    } else {
      var k1 := BroadcastMove(h, s, r, j - 1);
      if s.node.peers[j - 1] == s.node.id {
        k := k1;
      } else {
        k := SendAppendMove(k1, s.(node := Broadcast(s.node, j - 1)), r, j - 1);
        LeadsTrans(h, k1, k, r);
      }
    }
  }

  lemma DoAppend(h: History, s: Server, r: NodeId, e: Entry) returns (k: History)
    requires Fit(h, s, r) && s.node.role == Leader && NextEntry(s.node, e)
    ensures Fit(k, s.(node := AppendEntry(s.node, e)), r) && Leads(h, k, r)
  {
    assert Unseal(0, h, s, r);
    LeadAppend(h, s, r, e);
    k := Extend(h, s.node.term, e);
  }

  lemma DoElect(h: History, s: Server, r: NodeId) returns (k: History)
    requires Fit(h, s, r) && s.node.role == Candidate && CountTrue(s.node.granted) >= Quorum(s.node) && Shaped(s.node)
    ensures Fit(k, s.(node := TakeOffice(s.node)), r) && Leads(h, k, r)
  {
    assert Unseal(0, h, s, r);
    k := ElectMove(h, s, r);
  }

  lemma LeadMove(h: History, s: Server, r: NodeId) returns (k: History)
    requires Fit(h, s, r) && s.node.role == Candidate && CountTrue(s.node.granted) >= Quorum(s.node) && Shaped(s.node)
    ensures Fit(k, s.(node := BecomeLeader(s.node)), r) && Leads(h, k, r)
  {
    var n := s.node;
    var k1 := DoElect(h, s, r);
    var k2 := DoAppend(k1, s.(node := TakeOffice(n)), r, NoOp(n));
    LeadsTrans(h, k1, k2, r);
    var l := AppendEntry(TakeOffice(n), NoOp(n));
    k := BroadcastMove(k2, s.(node := l), r, |l.peers|);
    LeadsTrans(h, k2, k, r);
  }

  lemma CountVoteRole(h: History, s: Server, r: NodeId, m: Message)
    requires RoleOk(h, s, r) && Shaped(s.node) && s.node.role == Candidate && m in h.released && m.VoteResp?
    requires m.term == s.node.term && m.from in s.node.peers && m.to == r
    ensures Shaped(CountVote(s.node, m)) && RoleOk(h, s.(node := CountVote(s.node, m)), r)
  {
    var n, c := s.node, CountVote(s.node, m);
    forall i | 0 <= i < |c.peers| && c.granted[i]
      ensures c.peers[i] == c.id || VoteResp(c.peers[i], c.id, c.term, true) in h.released
    {
      if !n.granted[i] { assert m == VoteResp(c.peers[i], c.id, c.term, true); }
    }
  }

  lemma DoCountVote(h: History, s: Server, r: NodeId, m: Message)
    requires Fit(h, s, r) && s.node.role == Candidate && m in h.released && m.VoteResp? && Shaped(s.node)
    requires m.term == s.node.term && m.from in s.node.peers && m.to == r
    ensures Fit(h, s.(node := CountVote(s.node, m)), r) && Shaped(CountVote(s.node, m))
  {
    assert Unseal(0, h, s, r);
    CountVoteRole(h, s, r, m);
    SoftMove(h, s, r, CountVote(s.node, m));
  }

  lemma DoStepDown(h: History, s: Server, r: NodeId)
    requires Fit(h, s, r)
    ensures Fit(h, s.(node := s.node.(role := Follower)), r)
  {
    assert Unseal(0, h, s, r);
    StepDown(h, s, r);
  }

  lemma VoteRespMove(h: History, s: Server, r: NodeId, m: Message) returns (k: History)
    requires Fit(h, s, r) && m in h.released && m.VoteResp? && m.to == r && Shaped(s.node)
    ensures Fit(k, s.(node := StepVoteResp(s.node, m)), r) && Leads(h, k, r)
  {
    var n := s.node;
    k := h;
    LeadsRefl(h, r);
    if n.role == Candidate && m.term == n.term && m.from in n.peers {
      DoCountVote(h, s, r, m);
      var c := CountVote(n, m);
      if CountTrue(c.granted) >= Quorum(n) {
        k := LeadMove(h, s.(node := c), r);
      } else if CountTrue(c.denied) >= Quorum(n) {
        DoStepDown(h, s.(node := c), r);
      }
    }
  }

  // --- appends ---------------------------------------------------------------

  /** The j-th entry of an append is the leader's next, for a log that agrees below it. */
  lemma EntryOffered(h: History, s: Server, r: NodeId, m: Message, j: nat)
    requires Fit(h, s, r) && m in h.released && m.App? && m.term == s.node.term
    requires j < |m.entries| && Has(h, s.node.log, m.term, m.prevIndex + j)
    ensures Offered(h, s.node, m.entries[j]) && m.entries[j].index == m.prevIndex + j + 1
  {
    AppFacts(h, s, r, m);
    assert m.entries[j] == h.reigns[m.term].log[m.prevIndex + j];
  }

  lemma DoKeep(h: History, s: Server, r: NodeId, e: Entry)
    requires Fit(h, s, r) && Offered(h, s.node, e) && e.index <= |s.node.log| && s.node.log[e.index - 1].term == e.term
    ensures Has(h, s.node.log, s.node.term, e.index)
  {
    assert Unseal(0, h, s, r);
  }

  lemma DoReplace(h: History, s: Server, r: NodeId, e: Entry)
    requires Fit(h, s, r) && s.node.role == Follower && Offered(h, s.node, e)
    requires e.index <= |s.node.log| ==> s.node.log[e.index - 1].term != e.term
    ensures Fit(h, s.(node := MergeOne(s.node, e)), r) && Has(h, MergeOne(s.node, e).log, s.node.term, e.index)
  {
    assert Unseal(0, h, s, r);
    MergeOneMove(h, s, r, e);
  }

  lemma DoMergeOne(h: History, s: Server, r: NodeId, m: Message, j: nat)
    requires Fit(h, s, r) && s.node.role == Follower && m in h.released && m.App? && m.term == s.node.term
    requires j < |m.entries| && Has(h, s.node.log, m.term, m.prevIndex + j)
    ensures var n := MergeOne(s.node, m.entries[j]);
      Fit(h, s.(node := n), r) && Has(h, n.log, m.term, m.prevIndex + j + 1)
  {
    var e := m.entries[j];
    EntryOffered(h, s, r, m, j);
    if e.index <= |s.node.log| && s.node.log[e.index - 1].term == e.term {
      DoKeep(h, s, r, e);
    } else {
      DoReplace(h, s, r, e);
    }
  }

  lemma MergeOneFields(n: Node, e: Entry)
    ensures var n' := MergeOne(n, e); n'.role == n.role && n'.term == n.term && n'.commit == n.commit
  {}

  lemma MergeSnoc(n: Node, es: seq<Entry>, j: nat)
    requires 0 < j <= |es|
    ensures Merge(n, es[..j]) == MergeOne(Merge(n, es[..j - 1]), es[j - 1])
  {
    assert es[..j][..j - 1] == es[..j - 1];
  }

  /** The first j entries of an append merged: the log now agrees with the leader's
      through the last of them. */
  lemma {:induction false} MergeMove(h: History, s: Server, r: NodeId, m: Message, j: nat)
    requires Fit(h, s, r) && s.node.role == Follower && m in h.released && m.App? && m.term == s.node.term
    requires j <= |m.entries| && Has(h, s.node.log, m.term, m.prevIndex)
    ensures var n := Merge(s.node, m.entries[..j]);
      && Fit(h, s.(node := n), r) && Has(h, n.log, m.term, m.prevIndex + j)
      && n.role == Follower && n.term == m.term && n.commit == s.node.commit
  {
    if j > 0 {
      MergeMove(h, s, r, m, j - 1);
      var p := Merge(s.node, m.entries[..j - 1]);
      MergeSnoc(s.node, m.entries, j);
      MergeOneFields(p, m.entries[j - 1]);
      DoMergeOne(h, s.(node := p), r, m, j - 1);
    }
  }

  lemma AppFacts(h: History, s: Server, r: NodeId, m: Message)
    requires Fit(h, s, r) && m in h.released && m.App?
    ensures AppOk(h, m) && ReignOk(h, m.term) && LogOk(h, s.node.log)
  {
    assert Unseal(0, h, s, r);
    assert ReleasedOk(h, m);
  }

  lemma PrevMatches(h: History, s: Server, r: NodeId, m: Message)
    requires Fit(h, s, r) && m in h.released && m.App? && Matches(s.node, m.prevIndex, m.prevTerm)
    ensures Has(h, s.node.log, m.term, m.prevIndex)
  {
    AppFacts(h, s, r, m);
    if m.prevIndex > 0 { LogMatching(h, s.node.log, h.reigns[m.term].log, m.prevIndex); }
  }

  lemma ShorterSafe(h: History, t: Term, l: seq<Entry>, x: seq<Entry>, c: Index, d: Index, last: Index)
    requires SafePrefix(h, t, l, c) && d == Min(c, last) && last <= |l| && last <= |x| && x[..last] == l[..last]
    ensures SafePrefix(h, t, x, d)
  {
    if d > 0 {
      var t0, i0 :| Vouches(h, t0, i0, t, l, c);
      HasLess(h, l, t0, d, c);
      assert x[..d] == x[..last][..d] == l[..last][..d] == l[..d];
      assert Vouches(h, t0, i0, t, x, d);
    }
  }

  lemma DoSafeCommit(h: History, s: Server, r: NodeId, c: Index)
    requires Fit(h, s, r) && SafePrefix(h, s.node.term, s.node.log, c)
    ensures Fit(h, s.(node := s.node.(commit := c)), r)
  {
    assert Unseal(0, h, s, r);
    CommitRole(h, s, r, s.node.(commit := c));
    SoftMove(h, s, r, s.node.(commit := c));
  }

  lemma DoRaiseCommit(h: History, s: Server, r: NodeId, m: Message)
    requires Fit(h, s, r) && m in h.released && m.App? && m.term == s.node.term && s.node.role == Follower
    requires Has(h, s.node.log, m.term, m.prevIndex + |m.entries|)
    ensures Fit(h, s.(node := s.node.(commit := Min(m.commit, m.prevIndex + |m.entries|))), r)
  {
    var c := Min(m.commit, m.prevIndex + |m.entries|);
    AppFacts(h, s, r, m);
    ShorterSafe(h, m.term, h.reigns[m.term].log, s.node.log, m.commit, c, m.prevIndex + |m.entries|);
    DoSafeCommit(h, s, r, c);
  }

  lemma AcceptMove(h: History, s: Server, r: NodeId, m: Message)
    requires Fit(h, s, r) && s.node.role == Follower && m in h.released && m.App? && m.term == s.node.term
    requires Matches(s.node, m.prevIndex, m.prevTerm)
    ensures var a := Accept(s.node, m);
      Fit(h, s.(node := a), r) && a.term == m.term && Has(h, a.log, m.term, m.prevIndex + |m.entries|)
  {
    PrevMatches(h, s, r, m);
    MergeMove(h, s, r, m, |m.entries|);
    assert m.entries[..|m.entries|] == m.entries;
    var g := Merge(s.node, m.entries);
    if m.commit > g.commit { DoRaiseCommit(h, s.(node := g), r, m); }
  }

  lemma DoFollow(h: History, s: Server, r: NodeId, leader: NodeId)
    requires Fit(h, s, r)
    ensures Fit(h, s.(node := s.node.(role := Follower, leader := leader)), r)
  {
    assert Unseal(0, h, s, r);
    StepDown(h, s, r);
    SoftMove(h, s.(node := s.node.(role := Follower)), r, s.node.(role := Follower, leader := leader));
  }

  lemma AckMove(h: History, s: Server, r: NodeId, m: Message) returns (k: History)
    requires Fit(h, s, r) && m in h.released && m.App? && m.term == s.node.term
    requires Has(h, s.node.log, m.term, m.prevIndex + |m.entries|)
    ensures var last := m.prevIndex + |m.entries|;
      var reply := AppResp(s.node.id, m.from, s.node.term, true, last, 0);
      Fit(k, s.(node := SendOn(s.node, MarkFor(s.node, last), reply)), r)
    ensures Leads(h, k, r)
  {
    var last := m.prevIndex + |m.entries|;
    k := DoSend(h, s, r, MarkFor(s.node, last), AppResp(s.node.id, m.from, s.node.term, true, last, 0));
  }

  lemma AppMove(h: History, s: Server, r: NodeId, m: Message) returns (k: History)
    requires Fit(h, s, r) && m in h.released && m.App? && m.term <= s.node.term
    ensures Fit(k, s.(node := StepApp(s.node, m)), r) && Leads(h, k, r)
  {
    var n := s.node;
    if m.term < n.term {
      k := DoReply(h, s, r, AppResp(n.id, m.from, n.term, false, 0, 0));
    } else {
      DoFollow(h, s, r, m.from);
      var f := n.(role := Follower, leader := m.from);
      if !Matches(f, m.prevIndex, m.prevTerm) {
        k := DoReply(h, s.(node := f), r, AppResp(f.id, m.from, f.term, false, 0, |f.log|));
      } else {
        AcceptMove(h, s.(node := f), r, m);
        k := AckMove(h, s.(node := Accept(f, m)), r, m);
      }
    }
  }

  lemma ProgressRole(h: History, s: Server, r: NodeId, m: Message)
    requires RoleOk(h, s, r) && Shaped(s.node) && s.node.role == Leader && m in h.released && m.IsAck() && AckOk(h, m)
    requires m.term == s.node.term && m.from in s.node.peers
    ensures var n := Progress(s.node, PeerIdx(s.node.peers, m.from), m.matchIndex);
      Shaped(n) && RoleOk(h, s.(node := n), r)
  {
    var n := s.node;
    var k := PeerIdx(n.peers, m.from);
    var p := Progress(n, k, m.matchIndex);
    assert Counted(h, n, k);
    forall i | 0 <= i < |p.matched| ensures Counted(h, p, i) {
      assert Counted(h, n, i);
      if i == k && p.matched[k] == m.matchIndex { assert Acked(h, m.from, m.term, m.matchIndex); }
    }
  }

  lemma BackUpRole(h: History, s: Server, r: NodeId, j: nat, hint: Index)
    requires RoleOk(h, s, r) && Shaped(s.node) && s.node.role == Leader && j < |s.node.peers|
    ensures var n := s.node.(next := s.node.next[j := BackUp(s.node.next[j], hint)]);
      Shaped(n) && RoleOk(h, s.(node := n), r)
  {
    var n := s.node.(next := s.node.next[j := BackUp(s.node.next[j], hint)]);
    forall i | 0 <= i < |n.matched| ensures Counted(h, n, i) { assert Counted(h, s.node, i); }
  }

  lemma DoProgress(h: History, s: Server, r: NodeId, m: Message)
    requires Fit(h, s, r) && Shaped(s.node) && s.node.role == Leader && m in h.released && m.IsAck()
    requires m.term == s.node.term && m.from in s.node.peers
    ensures Fit(h, s.(node := MaybeCommit(Progress(s.node, PeerIdx(s.node.peers, m.from), m.matchIndex))), r)
  {
    assert Unseal(0, h, s, r);
    assert ReleasedOk(h, m);
    ProgressRole(h, s, r, m);
    var p := Progress(s.node, PeerIdx(s.node.peers, m.from), m.matchIndex);
    SoftMove(h, s, r, p);
    CommitMove(h, s.(node := p), r);
  }

  lemma DoBackUp(h: History, s: Server, r: NodeId, j: nat, hint: Index)
    requires Fit(h, s, r) && Shaped(s.node) && s.node.role == Leader && j < |s.node.peers|
    ensures Fit(h, s.(node := s.node.(next := s.node.next[j := BackUp(s.node.next[j], hint)])), r)
  {
    assert Unseal(0, h, s, r);
    BackUpRole(h, s, r, j, hint);
    SoftMove(h, s, r, s.node.(next := s.node.next[j := BackUp(s.node.next[j], hint)]));
  }

  lemma AppRespMove(h: History, s: Server, r: NodeId, m: Message) returns (k: History)
    requires Fit(h, s, r) && m in h.released && m.AppResp? && Shaped(s.node)
    ensures Fit(k, s.(node := StepAppResp(s.node, m)), r) && Leads(h, k, r)
  {
    var n := s.node;
    k := h;
    LeadsRefl(h, r);
    if n.role == Leader && m.term == n.term && m.from in n.peers {
      var j := PeerIdx(n.peers, m.from);
      if m.success {
        DoProgress(h, s, r, m);
      } else {
        DoBackUp(h, s, r, j, m.hint);
        k := SendAppendMove(h, s.(node := n.(next := n.next[j := BackUp(n.next[j], m.hint)])), r, j);
      }
    }
  }

  // --- the inputs ------------------------------------------------------------

  lemma DoAdopt(h: History, s: Server, r: NodeId, t: Term)
    requires Fit(h, s, r) && t > s.node.term
    ensures Fit(h, s.(node := BecomeFollower(s.node, t, 0)), r)
  {
    assert Unseal(0, h, s, r);
    Adopt(h, s, r, t);
  }

  lemma StepMove(h: History, s: Server, r: NodeId, m: Message) returns (k: History)
    requires Fit(h, s, r) && m in h.released && m.to == r && Shaped(s.node)
    ensures Fit(k, s.(node := Step(s.node, m)), r) && Leads(h, k, r)
  {
    var u := s;
    if m.term > s.node.term {
      DoAdopt(h, s, r, m.term);
      u := s.(node := BecomeFollower(s.node, m.term, 0));
      FitId(h, u, r);
    }
    match m {
      case VoteReq(_, _, _, _, _) => k := VoteMove(h, u, r, m);
      case VoteResp(_, _, _, _) => k := VoteRespMove(h, u, r, m);
      case App(_, _, _, _, _, _, _) => k := AppMove(h, u, r, m);
      case AppResp(_, _, _, _, _, _) => k := AppRespMove(h, u, r, m);
    }
  }

  lemma ReqSendable(h: History, s: Server, r: NodeId, j: nat)
    requires Fit(h, s, r) && s.node.role == Candidate && j < |s.node.peers|
    ensures Sendable(h, s.node, 0, VoteReqFor(s.node, j))
  {
    assert Unseal(0, h, s, r);
  }

  lemma SolicitOne(h: History, s: Server, r: NodeId, j: nat) returns (k: History)
    requires Fit(h, s, r) && s.node.role == Candidate && j < |s.node.peers|
    ensures Fit(k, s.(node := Send(s.node, VoteReqFor(s.node, j))), r) && Leads(h, k, r)
  {
    ReqSendable(h, s, r, j);
    k := DoSend(h, s, r, 0, VoteReqFor(s.node, j));
  }

  lemma {:induction false} SolicitMove(h: History, s: Server, r: NodeId, j: nat) returns (k: History)
    requires Fit(h, s, r) && s.node.role == Candidate && j <= |s.node.peers|
    ensures Fit(k, s.(node := Solicit(s.node, j)), r) && Leads(h, k, r)
  {
    if j == 0 {
      k := h;
      LeadsRefl(h, r);
    } else {
      var k1 := SolicitMove(h, s, r, j - 1);
      if s.node.peers[j - 1] == s.node.id {
        k := k1;
      } else {
        k := SolicitOne(k1, s.(node := Solicit(s.node, j - 1)), r, j - 1);
        LeadsTrans(h, k1, k, r);
      }
    }
  }

  lemma DoStand(h: History, s: Server, r: NodeId) returns (k: History)
    requires Fit(h, s, r) && s.node.role == Follower
    ensures Fit(k, s, r) && Leads(h, k, r)
    ensures (s.node.term + 1, r) in k.cand && k.cand[(s.node.term + 1, r)] == s.node.log
  {
    assert Unseal(0, h, s, r);
    k := Stand(h, s.node.term + 1, r, s.node.log);
    StandGlobal(h, s, r, s.node.term + 1, s.node.log);
    StandServer(h, s, r, s.node.term + 1, s.node.log);
  }

  lemma DoNextTerm(h: History, s: Server, r: NodeId)
    requires Fit(h, s, r) && s.node.role == Follower
    ensures Fit(h, s.(node := SetHard(s.node, s.node.term + 1, r)), r)
  {
    assert Unseal(0, h, s, r);
    HardMove(h, s, r, s.node.term + 1, r);
  }

  lemma DeclaredRoleFit(h: History, s: Server, r: NodeId)
    requires Fit(h, s, r) && Shaped(s.node)
    requires (s.node.term + 1, r) in h.cand && h.cand[(s.node.term + 1, r)] == s.node.log
    ensures RoleOk(h, s.(node := Declare(s.node)), r) && s.node.id == r
  {
    assert Unseal(0, h, s, r);
    DeclaredRole(h, s, r);
  }

  lemma DoSoft(h: History, s: Server, r: NodeId, c: Node)
    requires Fit(h, s, r) && Shaped(c) && RoleOk(h, s.(node := c), r)
    requires c == s.node.(role := c.role, leader := c.leader, granted := c.granted, denied := c.denied)
    ensures Fit(h, s.(node := c), r)
  {
    assert Unseal(0, h, s, r);
    SoftMove(h, s, r, c);
  }

  lemma DoDeclared(h: History, s: Server, r: NodeId)
    requires Fit(h, s, r) && s.node.role == Follower && Shaped(s.node)
    requires (s.node.term + 1, r) in h.cand && h.cand[(s.node.term + 1, r)] == s.node.log
    ensures Fit(h, s.(node := Declare(s.node)), r)
  {
    DoNextTerm(h, s, r);
    DeclaredRoleFit(h, s, r);
    DoSoft(h, s.(node := SetHard(s.node, s.node.term + 1, r)), r, Declare(s.node));
  }

  /** Declaring candidacy: the term moves on, the vote is spent on itself. */
  lemma DoDeclare(h: History, s: Server, r: NodeId) returns (k: History)
    requires Fit(h, s, r) && s.node.role != Leader && Shaped(s.node)
    ensures Fit(k, s.(node := Declare(s.node)), r) && Leads(h, k, r)
  {
    DoStepDown(h, s, r);
    var f := s.(node := s.node.(role := Follower));
    k := DoStand(h, f, r);
    DoDeclared(k, f, r);
    assert Declare(s.node) == Declare(f.node);
  }

  lemma CampaignMove(h: History, s: Server, r: NodeId) returns (k: History)
    requires Fit(h, s, r) && s.node.role != Leader && Shaped(s.node)
    ensures Fit(k, s.(node := ForceCampaign(s.node)), r) && Leads(h, k, r)
  {
    FitId(h, s, r);
    var k1 := DoDeclare(h, s, r);
    k := SolicitMove(k1, s.(node := Declare(s.node)), r, |s.node.peers|);
    LeadsTrans(h, k1, k, r);
  }

  lemma SubmitMove(h: History, s: Server, r: NodeId, id: ProposalId, data: seq<bv8>) returns (k: History)
    requires Fit(h, s, r) && Shaped(s.node)
    ensures Fit(k, s.(node := Propose(s.node, id, data)), r) && Leads(h, k, r)
  {
    var n := s.node;
    k := h;
    LeadsRefl(h, r);
    if !id.Zero() && n.role == Leader {
      var e := Entry(Normal, n.term, |n.log| + 1, id, data);
      var k1 := DoAppend(h, s, r, e);
      var a := AppendEntry(n, e);
      k := BroadcastMove(k1, s.(node := a), r, |a.peers|);
      LeadsTrans(h, k1, k, r);
    }
  }
}
