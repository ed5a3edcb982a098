/** What holds of each server in every reachable cluster.

    Six things, all of them statements about one server and the shared history. Its disk
    is a row of images that agree with memory as far as memory thinks they do. Its logs,
    in memory and on every image, match the reigns their entries came from. It still holds
    what it acknowledged, unless that can never be committed. Its waiting messages will be
    true when they are released. Its public messages are true of every image that may
    survive a crash. And its role is backed by the history: a candidate by the grants it
    counted, a leader by its reign, any server by someone's word for what it committed.
    The whole is also given sealed, as `Fit`, so that later proofs can carry it from move
    to move without looking inside. */
module RaftInvariant {
  import opened RaftTypes
  import opened RaftNode
  import opened RaftCluster
  import opened RaftHistory

  /** A later term, or the same term with the vote unset before or unchanged. */
  ghost predicate HsLe(t: Term, v: NodeId, t': Term, v': NodeId) {
    t < t' || (t == t' && (v == 0 || v == v'))
  }

  ghost predicate AgreeUpTo(x: seq<Entry>, y: seq<Entry>, i: Index) {
    i <= |x| && i <= |y| && x[..i] == y[..i]
  }

  ghost function Final(s: Server): Image
    requires |s.images| > 0
  { s.images[|s.images| - 1] }

  /** How the in-flight images relate to the node's memory: the hard state only moves
      forward, the persisted tail is on every image, the handed tail on the last, and the
      images from hsMark on carry the current hard state. */
  ghost predicate Disk(s: Server) {
    var n := s.node;
    && Shaped(n) && MarksOk(n)
    && |s.images| > 0
    && s.images[0].mark == n.persisted
    && Final(s).mark == n.lastHandedMark
    && (forall i, j :: 0 <= i < j < |s.images| ==>
          && s.images[i].mark < s.images[j].mark
          && HsLe(s.images[i].term, s.images[i].vote, s.images[j].term, s.images[j].vote))
    && (forall j :: 0 <= j < |s.images| ==> ImageOk(n, s.images[j]))
    && AgreeUpTo(Final(s).log, n.log, n.tailHanded)
    && (n.tailHanded == |n.log| ==> Final(s).log == n.log)
  }

  ghost predicate ImageOk(n: Node, img: Image) {
    && HsLe(img.term, img.vote, n.term, n.vote)
    && AgreeUpTo(img.log, n.log, n.tailPersisted)
    && (!n.hardDirty && img.mark >= n.hsMark ==> img.term == n.term && img.vote == n.vote)
  }

  /** Log matching in memory and on every image. */
  ghost predicate Logs(h: History, s: Server) {
    && LogOk(h, s.node.log) && TermsUpTo(s.node.log, s.node.term)
    && forall j :: 0 <= j < |s.images| ==> LogOk(h, s.images[j].log) && TermsUpTo(s.images[j].log, s.images[j].term)
  }

  /** What r acknowledged it still holds, in memory and on every image, unless it can
      never be committed. */
  ghost predicate Keeps(h: History, s: Server, r: NodeId) {
    forall t: Term, i: Index :: t in h.reigns && h.reigns[t].base < i && Acked(h, r, t, i) ==> Holds(h, s, t, i)
  }

  ghost predicate Holds(h: History, s: Server, t: Term, i: Index) {
    || Dead(h, t, i)
    || (Has(h, s.node.log, t, i) && forall j :: 0 <= j < |s.images| ==> Has(h, s.images[j].log, t, i))
  }

  /** A withheld message will be true of every image its marks have landed on. */
  ghost predicate Withheld(h: History, s: Server, r: NodeId, g: Gated) {
    var m := g.msg;
    && m.from == r
    && m.term <= s.node.term
    && SaysOk(h, m, s.node.gated)
    && (m.IsAck() ==> Has(h, s.node.log, m.term, m.matchIndex))
    && (forall u: Term, c: NodeId :: Ballot(m, u, c) ==> HsLe(u, c, s.node.term, s.node.vote))
    && (forall j :: 0 <= j < |s.images| ==> LandsOn(h, g, s.images[j]))
  }

  ghost predicate LandsOn(h: History, g: Gated, img: Image) {
    var m := g.msg;
    && (g.termMark <= img.mark ==> m.term <= img.term)
    && (g.termMark <= img.mark ==> forall u: Term, c: NodeId :: Ballot(m, u, c) ==> HsLe(u, c, img.term, img.vote))
    && (m.IsAck() && Lands(g, img.mark) ==> Has(h, img.log, m.term, m.matchIndex))
    && (m.IsAck() && img.term > m.term ==> Lands(g, img.mark))
  }

  ghost predicate Queue(h: History, s: Server, r: NodeId) {
    && (forall g :: g in s.node.gated ==> Withheld(h, s, r, g))
    && (forall g, m :: g in s.node.gated && m in h.released ==> OneBallot(g.msg, m))
    && (forall g, g' :: g in s.node.gated && g' in s.node.gated ==> OneBallot(g.msg, g'.msg))
  }

  /** Nothing leaves the node unreleased, the durable term is the one promised, and
      every vote it spent in public is on its disk. */
  ghost predicate Out(h: History, s: Server, r: NodeId) {
    && |s.images| > 0
    && (forall m :: m in s.node.msgs ==> m in h.released && m.from == r)
    && (forall m :: m in s.node.msgs && m.IsAck() ==> OnEveryImage(h, s, m))
    && r in h.prom && h.prom[r] == s.images[0].term
    && (forall m :: m in h.released && m.from == r ==> Spent(m, s.images[0]))
  }

  /** What m acknowledges is on the disk now, and on it whichever write completes next. */
  ghost predicate OnEveryImage(h: History, s: Server, m: Message)
    requires m.IsAck()
  {
    forall j :: 0 <= j < |s.images| ==> Has(h, s.images[j].log, m.term, m.matchIndex)
  }

  ghost predicate Spent(m: Message, img: Image) {
    forall u: Term, c: NodeId :: Ballot(m, u, c) ==> HsLe(u, c, img.term, img.vote)
  }

  ghost predicate CandidateOk(h: History, n: Node) {
    && n.term > 0 && n.vote == n.id
    && (n.term, n.id) in h.cand && h.cand[(n.term, n.id)] == n.log
    && TermsUpTo(n.log, n.term - 1)
    && |n.granted| == |n.peers|
    && forall k :: 0 <= k < |n.peers| && n.granted[k] ==>
         n.peers[k] == n.id || VoteResp(n.peers[k], n.id, n.term, true) in h.released
  }

  ghost predicate LeaderOk(h: History, n: Node) {
    && n.term in h.reigns && h.reigns[n.term].who == n.id && h.reigns[n.term].log == n.log
    && |n.next| == |n.matched| == |n.peers|
    && (forall k :: 0 <= k < |n.next| ==> n.next[k] <= |n.log| + 1)
    && (forall k :: 0 <= k < |n.matched| ==> Counted(h, n, k))
  }

  ghost predicate Counted(h: History, n: Node, k: nat)
    requires k < |n.matched| == |n.peers| && n.term in h.reigns
  {
    && n.matched[k] <= |n.log|
    && (n.matched[k] > h.reigns[n.term].base ==> Acked(h, n.peers[k], n.term, n.matched[k]))
  }

  ghost predicate RoleOk(h: History, s: Server, r: NodeId) {
    var n := s.node;
    && n.id == r && (forall p :: p in n.peers <==> p in h.voters) && |n.peers| == |h.voters|
    && (n.role == Candidate ==> CandidateOk(h, n))
    && (n.role == Leader ==> LeaderOk(h, n))
    && forall t :: t in h.reigns && h.reigns[t].who == r ==>
         |s.images| > 0 && t <= s.images[0].term && (t == n.term ==> n.role != Candidate)
  }

  ghost predicate ServerInv(h: History, s: Server, r: NodeId) {
    && Disk(s) && Logs(h, s) && Keeps(h, s, r) && Queue(h, s, r) && Out(h, s, r) && RoleOk(h, s, r)
    && SafePrefix(h, s.node.term, s.node.log, s.node.commit)
  }

  // --- other servers' steps --------------------------------------------------

  lemma KeepsOther(h: History, k: History, r: NodeId, s: Server, q: NodeId)
    requires Grounded(h) && Grows(h, k, r) && q != r && q in h.prom && Keeps(h, s, q)
    ensures Keeps(k, s, q)
  {
    forall t: Term, i: Index | t in k.reigns && k.reigns[t].base < i && Acked(k, q, t, i)
      ensures Holds(k, s, t, i)
    {
      AckedOthers(h, k, r, q, t, i);
      HoldsMono(h, k, r, s, t, i);
    }
  }

  lemma HoldsMono(h: History, k: History, r: NodeId, s: Server, t: Term, i: Index)
    requires Grows(h, k, r) && Holds(h, s, t, i)
    ensures Holds(k, s, t, i)
  {
  }

  lemma LogsMono(h: History, k: History, r: NodeId, s: Server)
    requires Grows(h, k, r) && Logs(h, s)
    ensures Logs(k, s)
  {
    LogOkMono(h, k, r, s.node.log);
    forall j | 0 <= j < |s.images| ensures LogOk(k, s.images[j].log) {
      LogOkMono(h, k, r, s.images[j].log);
    }
  }

  /** A withheld message stays justified while history grows without new
      acknowledgements of r's own in earlier terms. */
  lemma WithheldMono(h: History, k: History, r: NodeId, s: Server, q: NodeId, g: Gated)
    requires Grounded(h) && Grows(h, k, r) && q in h.prom && Withheld(h, s, q, g)
    requires forall g' :: g' in s.node.gated && g'.msg.IsAck() ==> g'.msg.term in h.reigns
    requires q == r ==> h.cand == k.cand && NoNewAcks(h, k, r, g.msg.term, s.node.gated)
    ensures Withheld(k, s, q, g)
  {
    var m := g.msg;
    SaysOkMono(h, k, r, m, s.node.gated, s.node.gated);
    if m.IsAck() {
      forall j | 0 <= j < |s.images| ensures LandsOn(k, g, s.images[j]) {
        assert LandsOn(h, g, s.images[j]);
      }
    } else {
      forall j | 0 <= j < |s.images| ensures LandsOn(k, g, s.images[j]) {
        assert LandsOn(h, g, s.images[j]);
      }
    }
  }

  lemma HeldAcksKnown(h: History, s: Server, r: NodeId)
    requires Queue(h, s, r)
    ensures forall g :: g in s.node.gated && g.msg.IsAck() ==> g.msg.term in h.reigns
  {
    forall g | g in s.node.gated && g.msg.IsAck() ensures g.msg.term in h.reigns {
      assert Withheld(h, s, r, g);
    }
  }

  lemma QueueOther(h: History, k: History, r: NodeId, s: Server, q: NodeId)
    requires Grounded(h) && Grows(h, k, r) && q != r && q in h.prom && Queue(h, s, q)
    ensures Queue(k, s, q)
  {
    HeldAcksKnown(h, s, q);
    forall g | g in s.node.gated ensures Withheld(k, s, q, g) {
      WithheldMono(h, k, r, s, q, g);
    }
    forall g, m | g in s.node.gated && m in k.released ensures OneBallot(g.msg, m) {
      assert Withheld(h, s, q, g);
      if m !in h.released { assert m.from == r; }
    }
  }

  lemma MsgsMono(h: History, k: History, s: Server)
    requires Continues(h, k) && forall m :: m in s.node.msgs && m.IsAck() ==> OnEveryImage(h, s, m)
    ensures forall m :: m in s.node.msgs && m.IsAck() ==> OnEveryImage(k, s, m)
  {
    forall m | m in s.node.msgs && m.IsAck() ensures OnEveryImage(k, s, m) {
      forall j | 0 <= j < |s.images| ensures Has(k, s.images[j].log, m.term, m.matchIndex) {
      }
    }
  }

  lemma OutMono(h: History, k: History, s: Server, r: NodeId)
    requires Out(h, s, r) && Continues(h, k) && k.released == h.released && k.prom == h.prom
    ensures Out(k, s, r)
  {
    MsgsMono(h, k, s);
  }

  lemma RoleOther(h: History, k: History, r: NodeId, s: Server, q: NodeId)
    requires Grows(h, k, r) && q != r && RoleOk(h, s, q)
    ensures RoleOk(k, s, q)
  {
    var n := s.node;
    if n.role == Leader {
      forall i | 0 <= i < |n.matched| ensures Counted(k, n, i) {
        assert Counted(h, n, i);
      }
    }
  }

  lemma ServerOther(h: History, k: History, r: NodeId, s: Server, q: NodeId)
    requires Messages(h) && Grows(h, k, r) && q != r && ServerInv(h, s, q)
    ensures ServerInv(k, s, q)
  {
    GlobalGrounded(h);
    LogsMono(h, k, r, s);
    KeepsOther(h, k, r, s, q);
    QueueOther(h, k, r, s, q);
    RoleOther(h, k, r, s, q);
    MsgsMono(h, k, s);
    SafePrefixMono(h, k, s.node.term, s.node.log, s.node.commit);
  }

  // --- sealed composition ----------------------------------------------------

  /** Always true. A proof that needs the inside of `Fit` for one server and history
      names it once; a proof that only chains moves never unfolds the invariant. */
  ghost predicate Unseal(z: int, h: History, s: Server, r: NodeId) { true }

  ghost predicate UnsealPath(z: int, h: History, k: History) { true }

  /** The invariant of one server and the history around it. */
  ghost predicate Fit(h: History, s: Server, r: NodeId) {
    forall z: int {:trigger Unseal(z, h, s, r)} ::
      Unseal(z, h, s, r) ==> GlobalInv(h) && ServerInv(h, s, r) && |h.voters| >= 2
  }

  /** History k continues h through moves of server r. */
  ghost predicate Leads(h: History, k: History, r: NodeId) {
    forall z: int {:trigger UnsealPath(z, h, k)} :: UnsealPath(z, h, k) ==> Grows(h, k, r)
  }

  lemma LeadsTrans(a: History, b: History, c: History, r: NodeId)
    requires Leads(a, b, r) && Leads(b, c, r)
    ensures Leads(a, c, r)
  {
    assert UnsealPath(0, a, b) && UnsealPath(0, b, c);
  }

  lemma LeadsRefl(h: History, r: NodeId)
    ensures Leads(h, h, r)
  {
    GrowsRefl(h, r);
  }
}
