/** Sending keeps the invariant: this is where the durability marks are tied to what other
    servers may rely on.

    A message is either public at once or waits in the queue under two marks, one for the
    term it advertises and one for the entries it acknowledges. A waiting message must be
    true of every image both of its marks have landed on, and must not contradict any vote
    already public or waiting. A public message must be true of every image that may
    survive. Sending moves a message into one of the two states and shows that what it
    says already meets the demand, because the open mark covers whatever is not yet on
    disk. */
module RaftSends {
  import opened RaftTypes
  import opened RaftNode
  import opened RaftCluster
  import opened RaftHistory
  import opened RaftInvariant
  import opened RaftSteps

  /** A message the node may generate now: it says something true, speaks for the current
      term and vote, and is gated on the mark covering what it acknowledges. */
  ghost predicate Sendable(h: History, n: Node, mark: Mark, m: Message) {
    && m.from == n.id && m.term == n.term
    && SaysOk(h, m, n.gated)
    && (m.IsAck() ==> Has(h, n.log, m.term, m.matchIndex) && mark == MarkFor(n, m.matchIndex))
    && (!m.IsAck() ==> mark == 0)
    && (forall u: Term, c: NodeId :: Ballot(m, u, c) ==> c == n.vote && c != 0)
  }

  lemma HasLess(h: History, x: seq<Entry>, t: Term, i: Index, j: Index)
    requires Has(h, x, t, j) && i <= j
    ensures Has(h, x, t, i)
  {
    AgreeLess(x, h.reigns[t].log, i, j);
  }

  lemma MineOneBallot(h: History, n: Node, mark: Mark, m: Message, m2: Message)
    requires Sendable(h, n, mark, m)
    requires forall u: Term, c: NodeId :: Ballot(m2, u, c) ==> HsLe(u, c, n.term, n.vote) && c != 0
    ensures OneBallot(m, m2) && OneBallot(m2, m)
  {}

  lemma BallotNonZero(h: History, m: Message, held: seq<Gated>)
    requires SaysOk(h, m, held) && m.from != 0
    ensures forall u: Term, c: NodeId :: Ballot(m, u, c) ==> c != 0
  {}

  // --- withholding -----------------------------------------------------------

  lemma HoldNew(h: History, s: Server, r: NodeId, mark: Mark, m: Message)
    requires Disk(s) && s.node.id == r && Sendable(h, s.node, mark, m)
    ensures Withheld(h, s.(node := s.node.(gated := s.node.gated + [Gated(m, mark, TermMark(s.node))])), r,
                     Gated(m, mark, TermMark(s.node)))
  {
    var n := s.node;
    var g := Gated(m, mark, TermMark(n));
    var held' := n.gated + [g];
    forall j | 0 <= j < |s.images| ensures LandsOn(h, g, s.images[j]) {
      var img := s.images[j];
      assert ImageOk(n, img);
    }
  }

  lemma HoldOld(h: History, s: Server, r: NodeId, mark: Mark, m: Message, g: Gated)
    requires Withheld(h, s, r, g) && Sendable(h, s.node, mark, m)
    ensures Withheld(h, s.(node := s.node.(gated := s.node.gated + [Gated(m, mark, TermMark(s.node))])), r, g)
  {
  }

  lemma HoldQueue(h: History, s: Server, r: NodeId, mark: Mark, m: Message)
    requires Messages(h) && 0 !in h.voters && r in h.voters
    requires Disk(s) && Queue(h, s, r) && Out(h, s, r) && s.node.id == r && Sendable(h, s.node, mark, m)
    ensures Queue(h, s.(node := s.node.(gated := s.node.gated + [Gated(m, mark, TermMark(s.node))])), r)
  {
    var n := s.node;
    var g := Gated(m, mark, TermMark(n));
    var s' := s.(node := n.(gated := n.gated + [g]));
    HoldNew(h, s, r, mark, m);
    forall x | x in s'.node.gated ensures Withheld(h, s', r, x) {
      if x in n.gated { HoldOld(h, s, r, mark, m, x); }
    }
    forall x | x in n.gated ensures OneBallot(m, x.msg) && OneBallot(x.msg, m) {
      assert Withheld(h, s, r, x);
      BallotNonZero(h, x.msg, n.gated);
      MineOneBallot(h, n, mark, m, x.msg);
    }
    forall x | x in h.released ensures OneBallot(m, x) {
      if x.from == r { PublicBallot(h, s, r, mark, m, x); }
    }
  }

  lemma PublicBallot(h: History, s: Server, r: NodeId, mark: Mark, m: Message, x: Message)
    requires Messages(h) && r != 0 && Disk(s) && Out(h, s, r) && Sendable(h, s.node, mark, m)
    requires x in h.released && x.from == r
    ensures OneBallot(m, x) && OneBallot(x, m)
  {
    var n := s.node;
    assert ReleasedOk(h, x) && Spent(x, s.images[0]) && ImageOk(n, s.images[0]);
    BallotNonZero(h, x, []);
    forall u: Term, c: NodeId | Ballot(x, u, c) ensures HsLe(u, c, n.term, n.vote) {
      HsLeTrans(u, c, s.images[0].term, s.images[0].vote, n.term, n.vote);
    }
    MineOneBallot(h, n, mark, m, x);
  }

  lemma Hold(h: History, s: Server, r: NodeId, mark: Mark, m: Message)
    requires GlobalInv(h) && ServerInv(h, s, r) && Sendable(h, s.node, mark, m)
    requires mark != 0 || TermMark(s.node) != 0
    ensures ServerInv(h, s.(node := SendOn(s.node, mark, m)), r)
  {
    var n, n' := s.node, SendOn(s.node, mark, m);
    HoldQueue(h, s, r, mark, m);
    HoldRest(h, s, r, mark, m);
  }

  lemma HoldRest(h: History, s: Server, r: NodeId, mark: Mark, m: Message)
    requires Disk(s) && Logs(h, s) && Keeps(h, s, r) && Out(h, s, r) && RoleOk(h, s, r)
    requires mark == 0 || (m.IsAck() && mark == MarkFor(s.node, m.matchIndex))
    requires mark != 0 || TermMark(s.node) != 0
    ensures var s' := s.(node := SendOn(s.node, mark, m));
      Disk(s') && Logs(h, s') && Keeps(h, s', r) && Out(h, s', r) && RoleOk(h, s', r)
  {
    var n, n' := s.node, SendOn(s.node, mark, m);
    var s' := s.(node := n');
    forall j | 0 <= j < |s.images| ensures ImageOk(n', s.images[j]) { assert ImageOk(n, s.images[j]); }
    forall t: Term, i: Index | t in h.reigns && h.reigns[t].base < i && Acked(h, r, t, i)
      ensures Holds(h, s', t, i)
    { assert Holds(h, s, t, i); }
    if n.role == Leader {
      forall i | 0 <= i < |n.matched| ensures Counted(h, n', i) { assert Counted(h, n, i); }
    }
  }

  // --- releasing at once -----------------------------------------------------

  ghost function Publish(h: History, ms: set<Message>): History { h.(released := h.released + ms) }

  /** Everything the message speaks for is durable already. */
  ghost predicate Settled(h: History, s: Server, r: NodeId, m: Message) {
    && r in h.prom && |s.images| > 0
    && h.prom[r] == s.node.term
    && (m.IsGrant() || m.VoteReq? ==> s.images[0].vote == s.node.vote)
    && (m.IsAck() ==> forall j :: 0 <= j < |s.images| ==> Has(h, s.images[j].log, m.term, m.matchIndex))
  }

  /** A message released at once speaks for durable state alone. */
  lemma AtOnce(h: History, s: Server, r: NodeId, m: Message)
    requires Disk(s) && Out(h, s, r) && Sendable(h, s.node, 0, m) && TermMark(s.node) == 0
    ensures Settled(h, s, r, m)
  {
    if m.IsAck() {
      forall j | 0 <= j < |s.images| ensures Has(h, s.images[j].log, m.term, m.matchIndex) {
      }
    }
  }

  /** Publishing a message of the sender's own durable term grows history. */
  lemma PublishGrows(h: History, r: NodeId, m: Message)
    requires r in h.prom && m.from == r && m.term >= h.prom[r]
    ensures Grows(h, Publish(h, {m}), r)
    ensures forall u: Term, held: seq<Gated> :: u <= m.term ==> NoNewAcks(h, Publish(h, {m}), r, u, held)
  {
    var k := Publish(h, {m});
    forall q: NodeId, t: Term, i: Index | t < m.term && Acked(k, q, t, i) ensures Acked(h, q, t, i) {
      var a :| a in k.released && a.IsAck() && a.from == q && a.term == t && a.matchIndex >= i;
      assert a in h.released;
    }
  }

  lemma PublishGlobal(h: History, s: Server, r: NodeId, m: Message)
    requires GlobalInv(h) && Disk(s) && Queue(h, s, r) && Out(h, s, r) && s.node.id == r
    requires Sendable(h, s.node, 0, m) && Settled(h, s, r, m)
    ensures GlobalInv(Publish(h, {m})) && Grows(h, Publish(h, {m}), r)
  {
    var k := Publish(h, {m});
    PublishGrows(h, r, m);
    GlobalGrounded(h);
    HeldAcksKnown(h, s, r);
    SaysOkMono(h, k, r, m, s.node.gated, []);
    MessagesGrow(h, k, r);
    SameReigns(h, k, r);
    PublishBallots(h, s, r, m);
  }

  lemma PublishBallots(h: History, s: Server, r: NodeId, m: Message)
    requires Messages(h) && Ballots(h) && r != 0 && Disk(s) && Out(h, s, r) && s.node.id == r
    requires Sendable(h, s.node, 0, m)
    ensures Ballots(Publish(h, {m}))
  {
    forall x | x in h.released ensures OneBallot(m, x) && OneBallot(x, m) {
      if x.from == r { PublicBallot(h, s, r, 0, m, x); }
    }
    MineOneBallot(h, s.node, 0, m, m);
  }

  /** History that grew only in messages and promises keeps its reigns sound. */
  lemma SameReigns(h: History, k: History, r: NodeId)
    requires Reigns(h) && Elections(h) && Completeness(h) && Grows(h, k, r) && k.reigns == h.reigns
    ensures Reigns(k) && Elections(k) && Completeness(k)
  {
    forall t | t in k.reigns ensures ReignOk(k, t) {
      assert ReignOk(h, t);
      LogOkMono(h, k, r, h.reigns[t].log);
    }
    ElectionsGrow(h, k, r);
    CompletenessGrows(h, k, r);
  }

  lemma PublishKeeps(h: History, s: Server, r: NodeId, m: Message)
    requires Grows(h, Publish(h, {m}), r) && Keeps(h, s, r)
    requires m.IsAck() ==>
      && Has(h, s.node.log, m.term, m.matchIndex)
      && forall j :: 0 <= j < |s.images| ==> Has(h, s.images[j].log, m.term, m.matchIndex)
    ensures Keeps(Publish(h, {m}), s, r)
  {
    var k := Publish(h, {m});
    forall t: Term, i: Index | t in k.reigns && k.reigns[t].base < i && Acked(k, r, t, i)
      ensures Holds(k, s, t, i)
    {
      var a :| a in k.released && a.IsAck() && a.from == r && a.term == t && a.matchIndex >= i;
      if a in h.released {
        assert Acked(h, r, t, i);
        assert Holds(h, s, t, i);
      } else {
        HasLess(h, s.node.log, t, i, m.matchIndex);
        forall j | 0 <= j < |s.images| ensures Has(h, s.images[j].log, t, i) {
          HasLess(h, s.images[j].log, t, i, m.matchIndex);
        }
        assert Holds(h, s, t, i);
      }
      HoldsMono(h, k, r, s, t, i);
    }
  }

  lemma PublishQueue(h: History, s: Server, r: NodeId, m: Message)
    requires Grounded(h) && Grows(h, Publish(h, {m}), r) && Queue(h, s, r) && r in h.prom && m.term == s.node.term
    requires forall u: Term, held: seq<Gated> :: u <= m.term ==> NoNewAcks(h, Publish(h, {m}), r, u, held)
    requires forall g :: g in s.node.gated ==> OneBallot(g.msg, m)
    ensures Queue(Publish(h, {m}), s, r)
  {
    var k := Publish(h, {m});
    HeldAcksKnown(h, s, r);
    forall g | g in s.node.gated ensures Withheld(k, s, r, g) {
      assert Withheld(h, s, r, g);
      WithheldMono(h, k, r, s, r, g);
    }
  }

  lemma RoleMono(h: History, k: History, r: NodeId, s: Server)
    requires Grows(h, k, r) && RoleOk(h, s, r) && k.reigns == h.reigns && k.cand == h.cand
    ensures RoleOk(k, s, r)
  {
    var n := s.node;
    if n.role == Leader {
      forall i | 0 <= i < |n.matched| ensures Counted(k, n, i) {
        assert Counted(h, n, i);
      }
    }
  }

  lemma PublishServer(h: History, s: Server, r: NodeId, m: Message)
    requires GlobalInv(h) && ServerInv(h, s, r) && Sendable(h, s.node, 0, m) && Settled(h, s, r, m)
    ensures ServerInv(Publish(h, {m}), s, r)
  {
    var k := Publish(h, {m});
    PublishGrows(h, r, m);
    GlobalGrounded(h);
    LogsMono(h, k, r, s);
    PublishKeeps(h, s, r, m);
    forall g | g in s.node.gated ensures OneBallot(g.msg, m) {
      assert Withheld(h, s, r, g);
      BallotNonZero(h, g.msg, s.node.gated);
      MineOneBallot(h, s.node, 0, m, g.msg);
    }
    PublishQueue(h, s, r, m);
    MsgsMono(h, k, s);
    RoleMono(h, k, r, s);
    SafePrefixMono(h, k, s.node.term, s.node.log, s.node.commit);
  }

  /** Sending, gated or not. */
  lemma SendMove(h: History, s: Server, r: NodeId, mark: Mark, m: Message) returns (k: History)
    requires GlobalInv(h) && ServerInv(h, s, r) && Sendable(h, s.node, mark, m)
    ensures GlobalInv(k) && Grows(h, k, r) && ServerInv(k, s.(node := SendOn(s.node, mark, m)), r)
    ensures k.reigns == h.reigns && k.cand == h.cand && k.prom == h.prom
  {
    if mark == 0 && TermMark(s.node) == 0 {
      k := Publish(h, {m});
      AtOnce(h, s, r, m);
      PublishGlobal(h, s, r, m);
      PublishServer(h, s, r, m);
      assert m.IsAck() ==> OnEveryImage(k, s, m);
      Enqueue(k, s, r, m);
    } else {
      k := h;
      GrowsRefl(h, r);
      Hold(h, s, r, mark, m);
    }
  }

  lemma Enqueue(h: History, s: Server, r: NodeId, m: Message)
    requires ServerInv(h, s, r) && m in h.released && m.from == r && (m.IsAck() ==> OnEveryImage(h, s, m))
    ensures ServerInv(h, s.(node := s.node.(msgs := s.node.msgs + [m])), r)
  {
    var n, n' := s.node, s.node.(msgs := s.node.msgs + [m]);
    var s' := s.(node := n');
    forall j | 0 <= j < |s.images| ensures ImageOk(n', s.images[j]) { assert ImageOk(n, s.images[j]); }
    forall g | g in n'.gated ensures Withheld(h, s', r, g) { assert Withheld(h, s, r, g); }
    forall x | x in n'.msgs && x.IsAck() ensures OnEveryImage(h, s', x) { assert OnEveryImage(h, s, x); }
    forall t: Term, i: Index | t in h.reigns && h.reigns[t].base < i && Acked(h, r, t, i)
      ensures Holds(h, s', t, i)
    { assert Holds(h, s, t, i); }
    if n.role == Leader {
      forall i | 0 <= i < |n.matched| ensures Counted(h, n', i) { assert Counted(h, n, i); }
    }
  }
}
