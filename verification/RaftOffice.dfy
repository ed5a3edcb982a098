/** Candidacy, election and leading keep the invariant.

    Standing records the candidate's log in the history before any vote is asked for, so
    that a later grant can be judged against the log it was granted to. Taking office
    opens the term's reign with that log and appends a no-op of the new term; proposing
    appends to the reign and to the leader's log together. The two stay equal for as long
    as the leader leads, and since only one server ever writes a reign, every log that
    holds an entry of the term holds the reign up to it. Appending changes no image and no
    acknowledgement, so everything that was durable, withheld or public before stays so,
    and only the log in memory has to be compared again with the history. */
module RaftOffice {
  import opened RaftTypes
  import opened RaftNode
  import opened RaftCluster
  import opened RaftHistory
  import opened RaftInvariant
  import opened RaftSteps
  import opened RaftSends

  // --- appending as leader ---------------------------------------------------

  ghost function Extend(h: History, t: Term, e: Entry): History
    requires t in h.reigns
  { h.(reigns := h.reigns[t := h.reigns[t].(log := h.reigns[t].log + [e])]) }

  ghost predicate NextEntry(n: Node, e: Entry) { e.term == n.term && e.index == |n.log| + 1 }

  lemma ExtendGrows(h: History, t: Term, e: Entry)
    requires t in h.reigns
    ensures Grows(h, Extend(h, t, e), h.reigns[t].who)
  {
    var k := Extend(h, t, e);
    var r := h.reigns[t].who;
    forall q: Term, i: Index | Acked(k, r, q, i) ensures Acked(h, r, q, i) { SameAcks(h, k, r, q, i); }
  }

  lemma SameAcks(h: History, k: History, q: NodeId, t: Term, i: Index)
    requires h.released == k.released && Acked(k, q, t, i)
    ensures Acked(h, q, t, i)
  {
    var a :| a in k.released && a.IsAck() && a.from == q && a.term == t && a.matchIndex >= i;
  }

  lemma ExtendReigns(h: History, n: Node, e: Entry)
    requires Reigns(h) && LeaderOk(h, n) && NextEntry(n, e) && Grows(h, Extend(h, n.term, e), n.id)
    ensures Reigns(Extend(h, n.term, e)) && LogOk(Extend(h, n.term, e), n.log + [e])
  {
    var k := Extend(h, n.term, e);
    assert ReignOk(h, n.term);
    LogOkMono(h, k, n.id, n.log);
    AppendLogOk(k, n.term, n.log, e);
    forall t | t in k.reigns ensures ReignOk(k, t) {
      assert ReignOk(h, t);
      LogOkMono(h, k, n.id, h.reigns[t].log);
    }
  }

  lemma ExtendGlobal(h: History, n: Node, e: Entry)
    requires GlobalInv(h) && LeaderOk(h, n) && NextEntry(n, e)
    ensures GlobalInv(Extend(h, n.term, e)) && Grows(h, Extend(h, n.term, e), n.id)
    ensures LogOk(Extend(h, n.term, e), n.log + [e])
  {
    var k := Extend(h, n.term, e);
    ExtendGrows(h, n.term, e);
    ExtendReigns(h, n, e);
    ElectionsGrow(h, k, n.id);
    CompletenessGrows(h, k, n.id);
    MessagesGrow(h, k, n.id);
  }

  lemma AppendLogOk(h: History, t: Term, x: seq<Entry>, e: Entry)
    requires LogOk(h, x) && t in h.reigns && h.reigns[t].log == x + [e] && e.term == t && e.index == |x| + 1
    ensures LogOk(h, x + [e])
  {
    var y := x + [e];
    forall k | 0 <= k < |y| ensures Has(h, y, y[k].term, k + 1) {
      if k < |x| {
        assert Has(h, x, x[k].term, k + 1);
        assert y[..k + 1] == x[..k + 1];
      }
    }
  }

  lemma LeadAppend(h: History, s: Server, r: NodeId, e: Entry)
    requires GlobalInv(h) && ServerInv(h, s, r) && s.node.role == Leader && NextEntry(s.node, e)
    ensures GlobalInv(Extend(h, s.node.term, e)) && Grows(h, Extend(h, s.node.term, e), r)
    ensures ServerInv(Extend(h, s.node.term, e), s.(node := AppendEntry(s.node, e)), r)
  {
    var k := Extend(h, s.node.term, e);
    ExtendGlobal(h, s.node, e);
    GlobalGrounded(h);
    AppendDisk(s, e);
    LogsMono(h, k, r, s);
    AppendLogs(k, s, e);
    AppendKeeps(h, k, s, r, e);
    AppendQueue(h, k, s, r, e);
    AppendRole(h, k, s, r, e);
    OutMono(h, k, s, r);
    AppendOut(k, s, r, e);
    AppendCommit(h, k, s.node, r, e);
  }

  lemma AppendDisk(s: Server, e: Entry)
    requires Disk(s) && e.index == |s.node.log| + 1
    ensures Disk(s.(node := AppendEntry(s.node, e)))
  {
    MergeOneDisk(s, e);
  }

  lemma AppendLogs(k: History, s: Server, e: Entry)
    requires Logs(k, s) && LogOk(k, s.node.log + [e]) && e.term == s.node.term
    ensures Logs(k, s.(node := AppendEntry(s.node, e)))
  {}

  lemma AppendOut(k: History, s: Server, r: NodeId, e: Entry)
    requires Out(k, s, r)
    ensures Out(k, s.(node := AppendEntry(s.node, e)), r)
  {
    forall m | m in s.node.msgs && m.IsAck() ensures OnEveryImage(k, s.(node := AppendEntry(s.node, e)), m) {
      assert OnEveryImage(k, s, m);
    }
  }

  lemma AppendCommit(h: History, k: History, n: Node, r: NodeId, e: Entry)
    requires Grows(h, k, r) && SafePrefix(h, n.term, n.log, n.commit)
    ensures SafePrefix(k, n.term, n.log + [e], n.commit)
  {
    SafePrefixMono(h, k, n.term, n.log, n.commit);
    assert (n.log + [e])[..n.commit] == n.log[..n.commit];
    SafePrefixExtend(k, n.term, n.log, n.log + [e], n.commit);
  }

  lemma AppendKeeps(h: History, k: History, s: Server, r: NodeId, e: Entry)
    requires Grounded(h) && Grows(h, k, r) && h.released == k.released && Keeps(h, s, r)
    ensures Keeps(k, s.(node := AppendEntry(s.node, e)), r)
  {
    var s' := s.(node := AppendEntry(s.node, e));
    forall t: Term, i: Index | t in k.reigns && k.reigns[t].base < i && Acked(k, r, t, i)
      ensures Holds(k, s', t, i)
    {
      var a :| a in k.released && a.IsAck() && a.from == r && a.term == t && a.matchIndex >= i;
      assert Acked(h, r, t, i) && Holds(h, s, t, i);
      HoldsMono(h, k, r, s, t, i);
    }
  }

  lemma AppendQueue(h: History, k: History, s: Server, r: NodeId, e: Entry)
    requires Grounded(h) && Grows(h, k, r) && h.released == k.released && h.cand == k.cand && r in h.prom
    requires Queue(h, s, r)
    ensures Queue(k, s.(node := AppendEntry(s.node, e)), r)
  {
    var s' := s.(node := AppendEntry(s.node, e));
    HeldAcksKnown(h, s, r);
    forall g | g in s'.node.gated ensures Withheld(k, s', r, g) {
      assert Withheld(h, s, r, g);
      forall t: Term, i: Index | Acked(k, r, t, i) ensures Acked(h, r, t, i) {
        var a :| a in k.released && a.IsAck() && a.from == r && a.term == t && a.matchIndex >= i;
      }
      WithheldMono(h, k, r, s, r, g);
    }
  }

  lemma AppendRole(h: History, k: History, s: Server, r: NodeId, e: Entry)
    requires Grows(h, k, r) && RoleOk(h, s, r) && s.node.role == Leader && k == Extend(h, s.node.term, e)
    ensures RoleOk(k, s.(node := AppendEntry(s.node, e)), r)
  {
    var n, n' := s.node, AppendEntry(s.node, e);
    forall i | 0 <= i < |n'.matched| ensures Counted(k, n', i) {
      assert Counted(h, n, i);
    }
  }

  // --- candidacy -------------------------------------------------------------

  ghost function Stand(h: History, u: Term, r: NodeId, x: seq<Entry>): History { h.(cand := h.cand[(u, r) := x]) }

  lemma StandGlobal(h: History, s: Server, r: NodeId, u: Term, x: seq<Entry>)
    requires GlobalInv(h) && Disk(s) && Out(h, s, r) && u > s.node.term
    ensures GlobalInv(Stand(h, u, r, x)) && Grows(h, Stand(h, u, r, x), r)
  {
    var k := Stand(h, u, r, x);
    assert ImageOk(s.node, s.images[0]);
    forall t: Term, i: Index | Acked(k, r, t, i) ensures Acked(h, r, t, i) {
      var a :| a in k.released && a.IsAck() && a.from == r && a.term == t && a.matchIndex >= i;
    }
    assert Grows(h, k, r);
    MessagesGrow(h, k, r);
    SameReigns(h, k, r);
  }

  lemma StandServer(h: History, s: Server, r: NodeId, u: Term, x: seq<Entry>)
    requires GlobalInv(h) && ServerInv(h, s, r) && u > s.node.term && s.node.role == Follower
    ensures ServerInv(Stand(h, u, r, x), s, r)
  {
    var k := Stand(h, u, r, x);
    StandGlobal(h, s, r, u, x);
    GlobalGrounded(h);
    LogsMono(h, k, r, s);
    OutMono(h, k, s, r);
    forall t: Term, i: Index ensures Acked(k, r, t, i) ==> Acked(h, r, t, i) {
      if Acked(k, r, t, i) {
        var a :| a in k.released && a.IsAck() && a.from == r && a.term == t && a.matchIndex >= i;
      }
    }
    forall t: Term, i: Index | t in k.reigns && k.reigns[t].base < i && Acked(k, r, t, i) ensures Holds(k, s, t, i) {
      assert Holds(h, s, t, i);
      HoldsMono(h, k, r, s, t, i);
    }
    HeldAcksKnown(h, s, r);
    forall g | g in s.node.gated ensures Withheld(k, s, r, g) {
      assert Withheld(h, s, r, g);
      StandWithheld(h, k, s, r, u, g);
    }
    SafePrefixMono(h, k, s.node.term, s.node.log, s.node.commit);
  }

  lemma StandWithheld(h: History, k: History, s: Server, r: NodeId, u: Term, g: Gated)
    requires Grounded(h) && Grows(h, k, r) && r in h.prom && Withheld(h, s, r, g) && h.reigns == k.reigns
    requires h.released == k.released
    requires forall g' :: g' in s.node.gated && g'.msg.IsAck() ==> g'.msg.term in h.reigns
    requires u > s.node.term
    requires forall key :: key in h.cand && key != (u, r) ==> key in k.cand && k.cand[key] == h.cand[key]
    requires forall t: Term, i: Index :: Acked(k, r, t, i) ==> Acked(h, r, t, i)
    ensures Withheld(k, s, r, g)
  {
    var m := g.msg;
    if m.VoteReq? {
      LogOkMono(h, k, r, h.cand[(m.term, m.from)]);
      assert SaysOk(k, m, s.node.gated);
    } else {
      SaysOkMono(h, k, r, m, s.node.gated, s.node.gated);
    }
    forall j | 0 <= j < |s.images| ensures LandsOn(k, g, s.images[j]) {
      assert LandsOn(h, g, s.images[j]);
    }
  }

  lemma DeclaredRole(h: History, s: Server, r: NodeId)
    requires RoleOk(h, s, r) && Disk(s) && Logs(h, s)
    requires (s.node.term + 1, r) in h.cand && h.cand[(s.node.term + 1, r)] == s.node.log
    ensures RoleOk(h, s.(node := Declare(s.node)), r)
  {
    var c := Declare(s.node);
    assert ImageOk(s.node, s.images[0]);
    assert forall i :: 0 <= i < |c.peers| && c.granted[i] ==> c.peers[i] == r;
  }
}
