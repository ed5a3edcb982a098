/** Handing writes over, completing them, and crashing keep the invariant.

    A server's disk is a row of images: the durable one first, then one for each write in
    flight, in the order they were handed over. Handing over appends an image, completing
    drops those before the one that landed, and a crash keeps any one image and forgets
    memory. Completing a write is what makes withheld messages public, so it is here that
    every grant and acknowledgement is shown to be on the disk before anyone can see it.
    A leader counting its own durable copy, and committing on the strength of it, comes
    last. */
module RaftDisk {
  import opened RaftTypes
  import opened RaftNode
  import opened RaftCluster
  import opened RaftHistory
  import opened RaftInvariant
  import opened RaftSteps
  import opened RaftSends
  import opened RaftElection

  // --- handing over ----------------------------------------------------------

  /** After a handover the last image is exactly the node's term, vote and log. */
  lemma HandedImage(s: Server)
    requires Disk(s) && HandsOver(s.node)
    ensures var n := s.node;
      ReadyOf(n).mark == n.dirtyMark != 0 &&
      WriteOver(Final(s), ReadyOf(n)) == Image(n.dirtyMark, n.term, n.vote, n.log)
  {
    var n := s.node;
    var rd := ReadyOf(n);
    assert ImageOk(n, Final(s));
    assert n.log == n.log[..n.tailHanded] + n.log[n.tailHanded..];
    if rd.entries != [] {
      assert rd.entries[0] == n.log[n.tailHanded];
      assert Final(s).log[..Min(|Final(s).log|, n.tailHanded)] == n.log[..n.tailHanded];
    }
  }

  lemma DrainedMarks(n: Node)
    requires Shaped(n) && MarksOk(n)
    ensures Shaped(AfterReady(n)) && MarksOk(AfterReady(n)) && AfterReady(n).msgs == [] && !AfterReady(n).hardDirty
    ensures HandsOver(n) ==> AfterReady(n) == n.(
      hsMark := if n.hardDirty then n.dirtyMark else n.hsMark, markHandedOff := true, lastHandedMark := n.dirtyMark,
      tailHanded := |n.log|, markLastIdx := |n.log|, msgs := [], hardDirty := false)
    ensures !HandsOver(n) ==> AfterReady(n) == n.(msgs := [])
  {}

  /** What a handover does to the server: one more image when there was anything to
      write, and it is exactly what the node holds. */
  ghost predicate Handed(s: Server, s': Server) {
    var n, n' := s.node, s'.node;
    && n' == n.(hsMark := n'.hsMark, markHandedOff := n'.markHandedOff, lastHandedMark := n'.lastHandedMark,
                tailHanded := |n.log|, markLastIdx := |n.log|, msgs := [], hardDirty := false, applied := n'.applied)
    && n'.hsMark == (if n.hardDirty then n.dirtyMark else n.hsMark)
    && n'.lastHandedMark == (if HandsOver(n) then n.dirtyMark else n.lastHandedMark)
    && s'.images == (if HandsOver(n) then s.images + [Image(n.dirtyMark, n.term, n.vote, n.log)] else s.images)
  }

  lemma DrainShape(s: Server)
    requires Disk(s)
    ensures Handed(s, Drained(s)) && Shaped(Drained(s).node) && MarksOk(Drained(s).node)
  {
    DrainedMarks(s.node);
    if HandsOver(s.node) { HandedImage(s); }
  }

  lemma DrainDisk(s: Server, s': Server)
    requires Disk(s) && Handed(s, s') && Shaped(s'.node) && MarksOk(s'.node)
    ensures Disk(s')
  {
    var n := s.node;
    forall j | 0 <= j < |s.images|
      ensures ImageOk(s'.node, s.images[j]) && s.images[j].mark <= n.lastHandedMark
      ensures HsLe(s.images[j].term, s.images[j].vote, n.term, n.vote)
    { assert ImageOk(n, s.images[j]) && s.images[j].mark <= Final(s).mark; }
  }

  lemma DrainKeeps(h: History, s: Server, s': Server, r: NodeId)
    requires Handed(s, s') && Logs(h, s) && Keeps(h, s, r)
    ensures Logs(h, s') && Keeps(h, s', r)
  {
    forall t: Term, i: Index | t in h.reigns && h.reigns[t].base < i && Acked(h, r, t, i)
      ensures Holds(h, s', t, i)
    { assert Holds(h, s, t, i); }
  }

  lemma DrainRole(h: History, s: Server, s': Server, r: NodeId)
    requires Handed(s, s') && Out(h, s, r) && RoleOk(h, s, r)
    ensures Out(h, s', r) && RoleOk(h, s', r)
  {
    assert s'.images[0] == s.images[0];
    if s.node.role == Leader {
      forall i | 0 <= i < |s.node.matched| ensures Counted(h, s'.node, i) { assert Counted(h, s.node, i); }
    }
  }

  lemma DrainQueue(h: History, s: Server, s': Server, r: NodeId)
    requires Disk(s) && Queue(h, s, r) && Handed(s, s')
    ensures Queue(h, s', r)
  {
    forall g | g in s'.node.gated ensures Withheld(h, s', r, g) {
      assert Withheld(h, s, r, g);
      forall j | 0 <= j < |s'.images| ensures LandsOn(h, g, s'.images[j]) {
        if j < |s.images| { assert LandsOn(h, g, s.images[j]); }
      }
    }
  }

  lemma DrainMove(h: History, s: Server, s': Server, r: NodeId)
    requires ServerInv(h, s, r) && Handed(s, s') && Shaped(s'.node) && MarksOk(s'.node)
    ensures ServerInv(h, s', r)
  {
    DrainDisk(s, s');
    DrainKeeps(h, s, s', r);
    DrainRole(h, s, s', r);
    DrainQueue(h, s, s', r);
  }

  // --- crashing --------------------------------------------------------------

  ghost function Promise(h: History, r: NodeId, t: Term): History { h.(prom := h.prom[r := t]) }

  lemma PromiseGlobal(h: History, r: NodeId, t: Term)
    requires GlobalInv(h) && r in h.prom && t >= h.prom[r]
    ensures GlobalInv(Promise(h, r, t)) && Grows(h, Promise(h, r, t), r)
  {
    var k := Promise(h, r, t);
    MessagesGrow(h, k, r);
    SameReigns(h, k, r);
  }

  lemma HsReach(s: Server, k: nat)
    requires Disk(s) && k < |s.images|
    ensures HsLe(s.images[0].term, s.images[0].vote, s.images[k].term, s.images[k].vote)
    ensures s.images[0].term <= s.images[k].term
  {}

  lemma RecoveredServer(h: History, s: Server, r: NodeId, k: nat)
    requires Disk(s) && Logs(h, s) && Out(h, s, r) && RoleOk(h, s, r) && k < |s.images|
    ensures var s' := Recovered(s, k);
      var h' := Promise(h, r, s.images[k].term);
      && Disk(s') && Out(h', s', r) && RoleOk(h', s', r) && Queue(h', s', r)
      && SafePrefix(h', s'.node.term, s'.node.log, s'.node.commit)
  {
    HsReach(s, k);
    forall m | m in h.released && m.from == r ensures Spent(m, s.images[k]) {
    }
  }

  lemma RecoveredKeeps(h: History, s: Server, r: NodeId, k: nat)
    requires Keeps(h, s, r) && r in h.prom && k < |s.images| && s.images[k].term >= h.prom[r]
    ensures Keeps(Promise(h, r, s.images[k].term), Recovered(s, k), r)
  {
    var h' := Promise(h, r, s.images[k].term);
    forall t: Term, i: Index | t in h'.reigns && h'.reigns[t].base < i && Acked(h', r, t, i)
      ensures Holds(h', Recovered(s, k), t, i)
    {
      assert Holds(h, s, t, i);
      HoldsMono(h, h', r, s, t, i);
    }
  }

  /** A crash back to any image at or after the durable one. */
  lemma CrashMove(h: History, s: Server, r: NodeId, k: nat) returns (h': History)
    requires GlobalInv(h) && ServerInv(h, s, r) && k < |s.images|
    ensures GlobalInv(h') && Grows(h, h', r) && ServerInv(h', Recovered(s, k), r)
  {
    h' := Promise(h, r, s.images[k].term);
    HsReach(s, k);
    PromiseGlobal(h, r, s.images[k].term);
    LogsMono(h, h', r, s);
    RecoveredServer(h, s, r, k);
    RecoveredKeeps(h, s, r, k);
  }

  // --- completing writes -----------------------------------------------------

  ghost function Landing(h: History, s: Server, r: NodeId, k: nat): History
    requires k < |s.images|
  {
    h.(released := h.released + (set m | m in Landed(s.node.gated, s.images[k].mark)),
       prom := h.prom[r := s.images[k].term])
  }

  ghost function Completed(s: Server, k: nat): Server
    requires k < |s.images|
  { Server(Release(Persisted(s.node, s.images[k].mark)), s.images[k..]) }

  lemma LandedFrom(h: History, s: Server, r: NodeId, k: nat, m: Message) returns (g: Gated)
    requires Queue(h, s, r) && k < |s.images| && m in Landing(h, s, r, k).released && m !in h.released
    ensures g in s.node.gated && g.msg == m && Lands(g, s.images[k].mark) && Withheld(h, s, r, g)
    ensures LandsOn(h, g, s.images[k])
  {
    g :| g in s.node.gated && Lands(g, s.images[k].mark) && g.msg == m;
    assert Withheld(h, s, r, g);
  }

  lemma LandedAck(h: History, s: Server, r: NodeId, k: nat, q: NodeId, t: Term, i: Index)
    requires Queue(h, s, r) && k < |s.images| && Acked(Landing(h, s, r, k), q, t, i)
    ensures Acked(h, q, t, i) ||
      (q == r && exists g :: g in s.node.gated && g.msg.IsAck() && g.msg.term == t && g.msg.matchIndex >= i &&
                             Lands(g, s.images[k].mark))
  {
    var h' := Landing(h, s, r, k);
    var a :| a in h'.released && a.IsAck() && a.from == q && a.term == t && a.matchIndex >= i;
    if a !in h.released { var g := LandedFrom(h, s, r, k, a); }
  }

  lemma LandingGrows(h: History, s: Server, r: NodeId, k: nat)
    requires Disk(s) && Queue(h, s, r) && Out(h, s, r) && k < |s.images|
    ensures Grows(h, Landing(h, s, r, k), r)
    ensures forall u: Term :: NoNewAcks(h, Landing(h, s, r, k), r, u, s.node.gated)
  {
    var h' := Landing(h, s, r, k);
    HsReach(s, k);
    forall m | m in h'.released && m !in h.released ensures m.from == r {
      var g := LandedFrom(h, s, r, k, m);
    }
    forall t: Term, i: Index | Acked(h', r, t, i)
      ensures Acked(h, r, t, i) || (HeldAck(s.node.gated, t, i) && t >= h.prom[r])
    {
      LandedAck(h, s, r, k, r, t, i);
      if !Acked(h, r, t, i) {
        var g :| g in s.node.gated && g.msg.IsAck() && g.msg.term == t && g.msg.matchIndex >= i &&
          Lands(g, s.images[k].mark);
        assert Withheld(h, s, r, g);
        assert LandsOn(h, g, s.images[0]);
      }
    }
  }

  lemma LandingMessages(h: History, s: Server, r: NodeId, k: nat)
    requires Messages(h) && Disk(s) && Queue(h, s, r) && Out(h, s, r) && k < |s.images|
    ensures Messages(Landing(h, s, r, k))
  {
    var h' := Landing(h, s, r, k);
    LandingGrows(h, s, r, k);
    GlobalGrounded(h);
    HeldAcksKnown(h, s, r);
    forall m | m in h'.released && m !in h.released ensures ReleasedOk(h', m) {
      var g := LandedFrom(h, s, r, k, m);
      SaysOkMono(h, h', r, m, s.node.gated, []);
    }
    MessagesGrow(h, h', r);
  }

  lemma LandingBallots(h: History, s: Server, r: NodeId, k: nat)
    requires Ballots(h) && Queue(h, s, r) && k < |s.images|
    ensures Ballots(Landing(h, s, r, k))
  {
    var h' := Landing(h, s, r, k);
    forall m1, m2 | m1 in h'.released && m2 in h'.released ensures OneBallot(m1, m2) {
      if m1 !in h.released {
        var g1 := LandedFrom(h, s, r, k, m1);
        if m2 !in h.released { var g2 := LandedFrom(h, s, r, k, m2); }
      } else if m2 !in h.released {
        var g2 := LandedFrom(h, s, r, k, m2);
        assert OneBallot(m2, m1);
      }
    }
  }

  lemma LandingGlobal(h: History, s: Server, r: NodeId, k: nat)
    requires GlobalInv(h) && Disk(s) && Queue(h, s, r) && Out(h, s, r) && k < |s.images|
    ensures GlobalInv(Landing(h, s, r, k)) && Grows(h, Landing(h, s, r, k), r)
  {
    LandingGrows(h, s, r, k);
    LandingMessages(h, s, r, k);
    LandingBallots(h, s, r, k);
    SameReigns(h, Landing(h, s, r, k), r);
  }

  lemma CompletedMarks(s: Server, k: nat)
    requires Disk(s) && 1 <= k < |s.images|
    ensures Shaped(Completed(s, k).node) && MarksOk(Completed(s, k).node)
    ensures s.images[k].mark > s.node.persisted
    ensures Completed(s, k).node.tailPersisted != s.node.tailPersisted ==>
      k == |s.images| - 1 && Completed(s, k).node.tailPersisted == s.node.tailHanded
  {
    assert s.images[0].mark < s.images[k].mark <= Final(s).mark;
    assert k < |s.images| - 1 ==> s.images[k].mark < Final(s).mark;
  }

  lemma CompletedDisk(s: Server, k: nat)
    requires Disk(s) && 1 <= k < |s.images|
    ensures Disk(Completed(s, k))
  {
    var n, s' := s.node, Completed(s, k);
    CompletedMarks(s, k);
    assert Final(s') == Final(s);
    forall j | 0 <= j < |s'.images| ensures ImageOk(s'.node, s'.images[j]) {
      assert s'.images[j] == s.images[k + j] && ImageOk(n, s.images[k + j]);
      assert s.images[k + j].mark >= s.images[k].mark;
    }
  }

  lemma CompletedKeeps(h: History, s: Server, r: NodeId, k: nat)
    requires Disk(s) && Queue(h, s, r) && Out(h, s, r) && Keeps(h, s, r) && k < |s.images|
    ensures Keeps(Landing(h, s, r, k), Completed(s, k), r)
  {
    var h', s' := Landing(h, s, r, k), Completed(s, k);
    LandingGrows(h, s, r, k);
    forall t: Term, i: Index | t in h'.reigns && h'.reigns[t].base < i && Acked(h', r, t, i)
      ensures Holds(h', s', t, i)
    {
      LandedAck(h, s, r, k, r, t, i);
      if Acked(h, r, t, i) {
        assert Holds(h, s, t, i);
        assert Holds(h, s', t, i);
      } else {
        var g :| g in s.node.gated && g.msg.IsAck() && g.msg.term == t && g.msg.matchIndex >= i &&
          Lands(g, s.images[k].mark);
        AckLanded(h, s, r, k, g, i);
      }
      HoldsMono(h, h', r, s', t, i);
    }
  }

  lemma AckLanded(h: History, s: Server, r: NodeId, k: nat, g: Gated, i: Index)
    requires Disk(s) && Queue(h, s, r) && k < |s.images| && g in s.node.gated && g.msg.IsAck() && g.msg.matchIndex >= i
    requires Lands(g, s.images[k].mark)
    ensures Holds(h, Completed(s, k), g.msg.term, i)
  {
    var s' := Completed(s, k);
    assert Withheld(h, s, r, g);
    HasLess(h, s.node.log, g.msg.term, i, g.msg.matchIndex);
    forall j | 0 <= j < |s'.images| ensures Has(h, s'.images[j].log, g.msg.term, i) {
      assert s'.images[j] == s.images[k + j] && s.images[k + j].mark >= s.images[k].mark;
      assert LandsOn(h, g, s.images[k + j]);
      HasLess(h, s.images[k + j].log, g.msg.term, i, g.msg.matchIndex);
    }
  }

  lemma CompletedQueue(h: History, s: Server, r: NodeId, k: nat)
    requires Messages(h) && Disk(s) && Queue(h, s, r) && Out(h, s, r) && 1 <= k < |s.images|
    ensures Queue(Landing(h, s, r, k), Completed(s, k), r)
  {
    var h', s' := Landing(h, s, r, k), Completed(s, k);
    LandingGrows(h, s, r, k);
    GlobalGrounded(h);
    HeldAcksKnown(h, s, r);
    forall t: Term, i: Index | HeldAck(s'.node.gated, t, i) ensures HeldAck(s.node.gated, t, i) {
      var x :| x in s'.node.gated && x.msg.IsAck() && x.msg.term == t && x.msg.matchIndex >= i;
    }
    forall g | g in s'.node.gated ensures Withheld(h', s', r, g) {
      assert Withheld(h, s, r, g);
      SaysOkMono(h, h', r, g.msg, s.node.gated, s'.node.gated);
      KeptWithheld(h, h', s, s', r, g, k);
    }
    forall g, m | g in s'.node.gated && m in h'.released ensures OneBallot(g.msg, m) {
      if m !in h.released { var g2 := LandedFrom(h, s, r, k, m); }
    }
  }

  lemma KeptWithheld(h: History, h': History, s: Server, s': Server, r: NodeId, g: Gated, k: nat)
    requires Grows(h, h', r) && Withheld(h, s, r, g) && SaysOk(h', g.msg, s'.node.gated) && k < |s.images|
    requires s'.images == s.images[k..] && s'.node.log == s.node.log
    requires s'.node.term == s.node.term && s'.node.vote == s.node.vote
    ensures Withheld(h', s', r, g)
  {
    var m := g.msg;
    forall j | 0 <= j < |s'.images| ensures LandsOn(h', g, s'.images[j]) {
      assert s'.images[j] == s.images[k + j] && LandsOn(h, g, s.images[k + j]);
    }
  }

  /** What is about to leave after the write is true of every image left. */
  lemma CompletedMsg(h: History, s: Server, r: NodeId, k: nat, m: Message)
    requires Disk(s) && Queue(h, s, r) && Out(h, s, r) && 1 <= k < |s.images| && m in Completed(s, k).node.msgs
    requires Continues(h, Landing(h, s, r, k))
    ensures m in Landing(h, s, r, k).released && m.from == r
    ensures m.IsAck() ==> OnEveryImage(Landing(h, s, r, k), Completed(s, k), m)
  {
    var h', s' := Landing(h, s, r, k), Completed(s, k);
    if m in s.node.msgs {
      if m.IsAck() {
        assert OnEveryImage(h, s, m);
        forall j | 0 <= j < |s'.images| ensures Has(h', s'.images[j].log, m.term, m.matchIndex) {
        }
      }
    }
  }

  lemma CompletedSpent(h: History, s: Server, r: NodeId, k: nat, m: Message)
    requires Disk(s) && Queue(h, s, r) && Out(h, s, r) && 1 <= k < |s.images|
    requires m in Landing(h, s, r, k).released && m.from == r
    ensures Spent(m, s.images[k])
  {
    HsReach(s, k);
    if m !in h.released { var g := LandedFrom(h, s, r, k, m); }
  }

  lemma CompletedOut(h: History, s: Server, r: NodeId, k: nat)
    requires Disk(s) && Queue(h, s, r) && Out(h, s, r) && 1 <= k < |s.images|
    ensures Out(Landing(h, s, r, k), Completed(s, k), r)
  {
    var h', s' := Landing(h, s, r, k), Completed(s, k);
    LandingGrows(h, s, r, k);
    forall m | m in h'.released && m.from == r ensures Spent(m, s.images[k]) { CompletedSpent(h, s, r, k, m); }
    forall m | m in s'.node.msgs
      ensures m in h'.released && m.from == r && (m.IsAck() ==> OnEveryImage(h', s', m))
    { CompletedMsg(h, s, r, k, m); }
  }

  lemma CompletedRole(h: History, h': History, s: Server, s': Server, r: NodeId)
    requires Grows(h, h', r) && RoleOk(h, s, r) && h'.reigns == h.reigns && h'.cand == h.cand
    requires |s.images| > 0 && |s'.images| > 0 && s.images[0].term <= s'.images[0].term
    requires var n := s'.node;
      n == s.node.(msgs := n.msgs, gated := n.gated, persisted := n.persisted, hsMark := n.hsMark,
                   tailPersisted := n.tailPersisted, dirtyMark := n.dirtyMark, markHandedOff := n.markHandedOff)
    ensures RoleOk(h', s', r)
  {
    var n := s.node;
    if n.role == Leader {
      forall i | 0 <= i < |n.matched| ensures Counted(h', s'.node, i) {
        assert Counted(h, n, i);
      }
    }
  }

  lemma CompleteMove(h: History, s: Server, r: NodeId, k: nat)
    requires GlobalInv(h) && ServerInv(h, s, r) && 1 <= k < |s.images|
    ensures GlobalInv(Landing(h, s, r, k)) && Grows(h, Landing(h, s, r, k), r)
    ensures ServerInv(Landing(h, s, r, k), Completed(s, k), r)
  {
    var h' := Landing(h, s, r, k);
    LandingGlobal(h, s, r, k);
    CompletedDisk(s, k);
    CompletedMarks(s, k);
    LogsMono(h, h', r, s);
    CompletedKeeps(h, s, r, k);
    CompletedQueue(h, s, r, k);
    CompletedOut(h, s, r, k);
    HsReach(s, k);
    CompletedRole(h, h', s, Completed(s, k), r);
    SafePrefixMono(h, h', s.node.term, s.node.log, s.node.commit);
  }

  // --- committing ------------------------------------------------------------

  lemma CountedCommits(h: History, n: Node, i: Index)
    requires Reigns(h) && LeaderOk(h, n) && Shaped(n) && Countable(n, i) && 1 <= i <= |n.log|
    requires |n.peers| == |h.voters| && forall p :: p in n.peers <==> p in h.voters
    ensures Committed(h, n.term, i) && SafePrefix(h, n.term, n.log, i)
  {
    assert ReignOk(h, n.term);
    var flags := Reached(n.matched, i);
    FlaggedQuorum(h, n, flags);
    var q := Flagged(n.peers, flags);
    forall v | v in q ensures Acked(h, v, n.term, i) {
      var k :| 0 <= k < |n.peers| && flags[k] && n.peers[k] == v;
      assert Counted(h, n, k);
    }
    assert AckedBy(h, q, n.term, i);
    assert Vouches(h, n.term, i, n.term, n.log, i);
  }

  lemma CommitMove(h: History, s: Server, r: NodeId)
    requires Reigns(h) && ServerInv(h, s, r) && s.node.role == Leader
    ensures ServerInv(h, s.(node := MaybeCommit(s.node)), r)
  {
    var n := s.node;
    var c := CommitScan(n, |n.log|);
    if c != n.commit { CountedCommits(h, n, c); }
    CommitRole(h, s, r, MaybeCommit(n));
    SoftMove(h, s, r, MaybeCommit(n));
  }

  lemma CommitRole(h: History, s: Server, r: NodeId, n': Node)
    requires RoleOk(h, s, r) && n' == s.node.(commit := n'.commit)
    ensures RoleOk(h, s.(node := n'), r)
  {
    if n'.role == Leader {
      forall i | 0 <= i < |n'.matched| ensures Counted(h, n', i) { assert Counted(h, s.node, i); }
    }
  }

  /** A leader acknowledging its own durable prefix to itself. */
  ghost function SelfAck(n: Node): Message { AppResp(n.id, n.id, n.term, true, n.tailPersisted, 0) }

  lemma SelfRole(h: History, s: Server, r: NodeId)
    requires RoleOk(h, s, r) && s.node.role == Leader && Shaped(s.node) && SelfAck(s.node) in h.released
    requires s.node.tailPersisted <= |s.node.log|
    ensures var n := s.node; var n' := n.(matched := n.matched[PeerIdx(n.peers, n.id) := n.tailPersisted]);
      Shaped(n') && RoleOk(h, s.(node := n'), r)
  {
    var n := s.node;
    var me := PeerIdx(n.peers, n.id);
    var n' := n.(matched := n.matched[me := n.tailPersisted]);
    forall i | 0 <= i < |n'.matched| ensures Counted(h, n', i) {
      assert Counted(h, n, i);
      if i == me { assert SelfAck(n) in h.released; }
    }
  }

  lemma DoSelfAck(h: History, s: Server, r: NodeId) returns (k: History)
    requires Fit(h, s, r) && s.node.role == Leader
    ensures Fit(k, s, r) && Leads(h, k, r) && SelfAck(s.node) in k.released
  {
    assert Unseal(0, h, s, r);
    k := Publish(h, {SelfAck(s.node)});
    PublishGlobal(h, s, r, SelfAck(s.node));
    PublishServer(h, s, r, SelfAck(s.node));
  }

  lemma DoSelfCount(h: History, s: Server, r: NodeId)
    requires Fit(h, s, r) && s.node.role == Leader && SelfAck(s.node) in h.released && Shaped(s.node)
    ensures var n := s.node; Fit(h, s.(node := n.(matched := n.matched[PeerIdx(n.peers, n.id) := n.tailPersisted])), r)
  {
    assert Unseal(0, h, s, r);
    var n := s.node;
    SelfRole(h, s, r);
    SoftMove(h, s, r, n.(matched := n.matched[PeerIdx(n.peers, n.id) := n.tailPersisted]));
  }

  lemma DoCommit(h: History, s: Server, r: NodeId)
    requires Fit(h, s, r) && s.node.role == Leader
    ensures Fit(h, s.(node := MaybeCommit(s.node)), r)
  {
    assert Unseal(0, h, s, r);
    CommitMove(h, s, r);
  }

  lemma CountSelfMove(h: History, s: Server, r: NodeId) returns (k: History)
    requires Fit(h, s, r) && Shaped(s.node)
    ensures Fit(k, s.(node := CountSelf(s.node)), r) && Leads(h, k, r)
  {
    var n := s.node;
    var me := PeerIdx(n.peers, n.id);
    if n.role == Leader && n.tailPersisted > n.matched[me] {
      k := DoSelfAck(h, s, r);
      DoSelfCount(k, s, r);
      DoCommit(k, s.(node := n.(matched := n.matched[me := n.tailPersisted])), r);
    } else {
      k := h;
      LeadsRefl(h, r);
    }
  }

  lemma DoComplete(h: History, s: Server, r: NodeId, k: nat)
    requires Fit(h, s, r) && 1 <= k < |s.images|
    ensures Fit(Landing(h, s, r, k), Completed(s, k), r) && Leads(h, Landing(h, s, r, k), r)
    ensures Shaped(Completed(s, k).node) && s.images[k].mark > s.node.persisted
  {
    assert Unseal(0, h, s, r);
    CompleteMove(h, s, r, k);
  }

  lemma SyncMove(h: History, s: Server, r: NodeId, k: nat) returns (h': History)
    requires Fit(h, s, r) && 1 <= k < |s.images| && Shaped(s.node)
    ensures Fit(h', Synced(s, k), r) && Leads(h, h', r)
  {
    DoComplete(h, s, r, k);
    h' := CountSelfMove(Landing(h, s, r, k), Completed(s, k), r);
    LeadsTrans(h, Landing(h, s, r, k), h', r);
  }
}
