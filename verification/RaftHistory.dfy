/** History variables for the cluster proof, and what they mean. They exist only in the
    proof: no transition reads them.

    The history remembers every message that was ever allowed out, the log each leader
    has written in its term, the log each candidate stood on and the highest term each
    server has on disk. All four only grow. A position is committed when a quorum has
    acknowledged it in its own term, and dead when a quorum has promised a later term
    without having acknowledged it; it cannot be both. */
module RaftHistory {
  import opened RaftTypes

  /** One leader's time in office: its log (append-only), how much of it was there at
      the election, and who led. */
  datatype Reign = Reign(log: seq<Entry>, base: nat, who: NodeId)

  /** `released` is every message whose durability points have landed, together with each
      leader's acknowledgement to itself; `cand` is each candidate's log; `prom` is each
      server's durable term. */
  datatype History = History(
    voters: set<NodeId>,
    released: set<Message>,
    reigns: map<Term, Reign>,
    cand: map<(Term, NodeId), seq<Entry>>,
    prom: map<NodeId, Term>)

  ghost predicate IsQuorum(voters: set<NodeId>, q: set<NodeId>) { q <= voters && 2 * |q| > |voters| }

  lemma QuorumsMeet(voters: set<NodeId>, a: set<NodeId>, b: set<NodeId>) returns (v: NodeId)
    requires IsQuorum(voters, a) && IsQuorum(voters, b)
    ensures v in a && v in b
  {
    if a * b == {} {
      assert |a + b| == |a| + |b|;
      CardinalitySubset(a + b, voters);
      assert false;
    }
    v :| v in a * b;
  }

  lemma CardinalitySubset(a: set<NodeId>, b: set<NodeId>)
    requires a <= b
    ensures |a| <= |b|
  {
    assert b == a + (b - a);
  }

  /** Log x holds the first i entries of term t's reign. */
  ghost predicate Has(h: History, x: seq<Entry>, t: Term, i: Index) {
    t in h.reigns && i <= |h.reigns[t].log| && i <= |x| && x[..i] == h.reigns[t].log[..i]
  }

  /** Log matching: every prefix of x is a prefix of the reign its last entry came from. */
  ghost predicate LogOk(h: History, x: seq<Entry>) {
    && Indexed(x)
    && forall k :: 0 <= k < |x| ==> Has(h, x, x[k].term, k + 1)
  }

  ghost predicate TermsUpTo(x: seq<Entry>, t: Term) { forall k :: 0 <= k < |x| ==> x[k].term <= t }

  /** Server q durably acknowledged the first i entries of term t's reign. */
  ghost predicate Acked(h: History, q: NodeId, t: Term, i: Index) {
    exists m :: m in h.released && m.IsAck() && m.from == q && m.term == t && m.matchIndex >= i
  }

  /** No member of r can acknowledge position i of term t, now or later. */
  ghost predicate Shut(h: History, r: set<NodeId>, t: Term, i: Index) {
    forall q :: q in r ==> q in h.prom && h.prom[q] > t && !Acked(h, q, t, i)
  }

  /** Position i of term t can never be committed by counting. */
  ghost predicate Dead(h: History, t: Term, i: Index) {
    exists r :: IsQuorum(h.voters, r) && Shut(h, r, t, i)
  }

  ghost predicate AckedBy(h: History, r: set<NodeId>, t: Term, i: Index) {
    forall q :: q in r ==> Acked(h, q, t, i)
  }

  /** Position i of term t's reign, an entry of that very term, is on a quorum of disks. */
  ghost predicate Committed(h: History, t: Term, i: Index) {
    && t in h.reigns
    && h.reigns[t].base < i <= |h.reigns[t].log|
    && exists r :: IsQuorum(h.voters, r) && AckedBy(h, r, t, i)
  }

  lemma CommittedNotDead(h: History, t: Term, i: Index)
    requires Committed(h, t, i)
    ensures !Dead(h, t, i)
  {
    if Dead(h, t, i) {
      var a :| IsQuorum(h.voters, a) && AckedBy(h, a, t, i);
      var b :| IsQuorum(h.voters, b) && Shut(h, b, t, i);
      var v := QuorumsMeet(h.voters, a, b);
    }
  }

  /** The first c entries of x are committed, on the word of a reign no later than t. */
  ghost predicate SafePrefix(h: History, t: Term, x: seq<Entry>, c: Index) {
    && c <= |x|
    && (c > 0 ==> exists t0: Term, i0: Index :: Vouches(h, t0, i0, t, x, c))
  }

  ghost predicate Vouches(h: History, t0: Term, i0: Index, t: Term, x: seq<Entry>, c: Index) {
    Committed(h, t0, i0) && t0 <= t && c <= i0 && Has(h, x, t0, c)
  }

  // --- what a message may say ------------------------------------------------

  ghost predicate VoteSafe(h: History, q: NodeId, u: Term, c: seq<Entry>, held: seq<Gated>) {
    forall t: Term, i: Index ::
      t in h.reigns && t < u && h.reigns[t].base < i && (Acked(h, q, t, i) || HeldAck(held, t, i))
      ==> Has(h, c, t, i) || Dead(h, t, i)
  }

  /** An acknowledgement of position i in term t is waiting in the queue. */
  ghost predicate HeldAck(held: seq<Gated>, t: Term, i: Index) {
    exists g :: g in held && g.msg.IsAck() && g.msg.term == t && g.msg.matchIndex >= i
  }

  ghost predicate Asked(h: History, c: NodeId, u: Term) {
    exists m :: m in h.released && m.VoteReq? && m.from == c && m.term == u
  }

  ghost predicate ReqOk(h: History, m: Message)
    requires m.VoteReq?
  {
    && (m.term, m.from) in h.cand
    && var c := h.cand[(m.term, m.from)];
      LogOk(h, c) && |c| == m.lastIndex && LastTerm(c) == m.lastTerm && m.term > 0 && TermsUpTo(c, m.term - 1)
  }

  ghost predicate GrantOk(h: History, m: Message, held: seq<Gated>)
    requires m.IsGrant()
  {
    && m.to != 0
    && Asked(h, m.to, m.term)
    && (m.term, m.to) in h.cand
    && VoteSafe(h, m.from, m.term, h.cand[(m.term, m.to)], held)
  }

  ghost predicate AppOk(h: History, m: Message)
    requires m.App?
  {
    && m.term in h.reigns && h.reigns[m.term].who == m.from
    && var l := h.reigns[m.term].log;
      && m.prevIndex + |m.entries| <= |l|
      && m.entries == l[m.prevIndex..m.prevIndex + |m.entries|]
      && m.prevTerm == TermOf(l, m.prevIndex)
      && SafePrefix(h, m.term, l, m.commit) && m.commit <= m.prevIndex + |m.entries|
  }

  ghost predicate AckOk(h: History, m: Message)
    requires m.IsAck()
  {
    m.term in h.reigns && m.matchIndex <= |h.reigns[m.term].log|
  }

  /** What a message may say, whatever its kind. `held` is the sender's own queue. */
  ghost predicate SaysOk(h: History, m: Message, held: seq<Gated>) {
    && (m.VoteReq? ==> ReqOk(h, m))
    && (m.IsGrant() ==> GrantOk(h, m, held))
    && (m.App? ==> AppOk(h, m))
    && (m.IsAck() ==> AckOk(h, m))
  }

  ghost predicate ReleasedOk(h: History, m: Message) {
    SaysOk(h, m, []) && m.from in h.prom && m.term <= h.prom[m.from]
  }

  // --- ballots ---------------------------------------------------------------

  /** Both a grant and a vote request spend the sender's vote. */
  ghost predicate Ballot(m: Message, u: Term, c: NodeId) {
    (m.IsGrant() && m.term == u && m.to == c) || (m.VoteReq? && m.term == u && m.from == c)
  }

  ghost predicate OneBallot(m1: Message, m2: Message) {
    forall u: Term, c1: NodeId, c2: NodeId :: m1.from == m2.from && Ballot(m1, u, c1) && Ballot(m2, u, c2) ==> c1 == c2
  }

  ghost predicate Voted(h: History, q: NodeId, u: Term, c: NodeId) {
    exists m :: m in h.released && m.from == q && Ballot(m, u, c)
  }

  // --- the global invariant --------------------------------------------------

  ghost predicate ReignOk(h: History, t: Term)
    requires t in h.reigns
  {
    var g := h.reigns[t];
    && t > 0 && g.base <= |g.log| && LogOk(h, g.log)
    && (forall k :: 0 <= k < g.base ==> g.log[k].term < t)
    && (forall k :: g.base <= k < |g.log| ==> g.log[k].term == t)
  }

  /** Leader completeness, in the form that is inductive: position i of term t is in
      every later leader's log at its election, or can never be committed. */
  ghost predicate Complete(h: History, t: Term, u: Term, i: Index)
    requires t in h.reigns && u in h.reigns
  {
    (i <= h.reigns[u].base && Has(h, h.reigns[u].log, t, i)) || Dead(h, t, i)
  }

  ghost predicate ElectedBy(h: History, t: Term, q: set<NodeId>)
    requires t in h.reigns
  {
    && IsQuorum(h.voters, q)
    && forall v :: v in q ==> v in h.prom && h.prom[v] >= t && Voted(h, v, t, h.reigns[t].who)
  }

  ghost predicate Reigns(h: History) { forall t :: t in h.reigns ==> ReignOk(h, t) }

  ghost predicate Elections(h: History) { forall t :: t in h.reigns ==> exists q :: ElectedBy(h, t, q) }

  ghost predicate Completeness(h: History) {
    forall t: Term, u: Term, i: Index :: t in h.reigns && u in h.reigns && t < u && h.reigns[t].base < i
      ==> Complete(h, t, u, i)
  }

  ghost predicate Messages(h: History) { forall m :: m in h.released ==> ReleasedOk(h, m) }

  ghost predicate Ballots(h: History) {
    forall m1, m2 :: m1 in h.released && m2 in h.released ==> OneBallot(m1, m2)
  }

  ghost predicate GlobalInv(h: History) {
    && h.prom.Keys == h.voters && 0 !in h.voters
    && Reigns(h) && Elections(h) && Completeness(h) && Messages(h) && Ballots(h)
  }

  // --- growth of history -----------------------------------------------------

  /** Nothing released or led is ever forgotten. */
  ghost predicate Continues(h: History, k: History) {
    && h.voters == k.voters
    && h.released <= k.released
    && (forall t :: t in h.reigns ==>
          && t in k.reigns && h.reigns[t].log <= k.reigns[t].log
          && k.reigns[t].base == h.reigns[t].base && k.reigns[t].who == h.reigns[t].who)
  }

  /** History only grows, and only server r's part of it moves. */
  ghost predicate Grows(h: History, k: History, r: NodeId) {
    && Continues(h, k)
    && (forall m :: m in k.released && m !in h.released ==> m.from == r)
    && (forall t :: t in h.reigns && h.reigns[t].who != r ==> h.reigns[t] == k.reigns[t])
    && (forall t :: t in k.reigns && t !in h.reigns ==> k.reigns[t].who == r)
    && (forall q :: q in h.prom ==> q in k.prom && h.prom[q] <= k.prom[q] && (q != r ==> h.prom[q] == k.prom[q]))
    && (forall t: Term, i: Index :: r in h.prom && t < h.prom[r] && Acked(k, r, t, i) ==> Acked(h, r, t, i))
    && (forall u: Term, c: NodeId :: (u, c) in h.cand && (c != r || (c in h.prom && u <= h.prom[c])) ==>
          (u, c) in k.cand && k.cand[(u, c)] == h.cand[(u, c)])
  }

  lemma AckedOthers(h: History, k: History, r: NodeId, q: NodeId, t: Term, i: Index)
    requires Grows(h, k, r) && q in h.prom
    requires Acked(k, q, t, i)
    requires q != r || t < h.prom[q]
    ensures Acked(h, q, t, i)
  {
    if q != r {
      var m :| m in k.released && m.IsAck() && m.from == q && m.term == t && m.matchIndex >= i;
      assert m in h.released;
    }
  }

  lemma LogOkMono(h: History, k: History, r: NodeId, x: seq<Entry>)
    requires Grows(h, k, r) && LogOk(h, x)
    ensures LogOk(k, x)
  {
    forall j | 0 <= j < |x| ensures Has(k, x, x[j].term, j + 1) {
    }
  }

  lemma SafePrefixMono(h: History, k: History, t: Term, x: seq<Entry>, c: Index)
    requires Continues(h, k) && SafePrefix(h, t, x, c)
    ensures SafePrefix(k, t, x, c)
  {
    if c > 0 {
      var t0, i0 :| Vouches(h, t0, i0, t, x, c);
      assert Vouches(k, t0, i0, t, x, c);
    }
  }

  /** Acknowledgements name reigns that exist, and vote requests are durable. */
  ghost predicate Grounded(h: History) {
    && (forall m :: m in h.released && m.IsAck() ==> m.term in h.reigns)
    && (forall m :: m in h.released && m.VoteReq? ==> m.from in h.prom && m.term <= h.prom[m.from])
  }

  lemma GlobalGrounded(h: History)
    requires Messages(h)
    ensures Grounded(h)
  {
    forall m | m in h.released ensures ReleasedOk(h, m) {}
  }

  lemma GrowsRefl(h: History, r: NodeId)
    ensures Grows(h, h, r)
  {}

  lemma GrantOkMono(h: History, k: History, r: NodeId, m: Message, held: seq<Gated>, held': seq<Gated>)
    requires Grounded(h) && Grows(h, k, r) && m.IsGrant() && GrantOk(h, m, held) && m.from in h.prom
    requires m.from == r && h.prom[r] < m.term ==> NoNewAcks(h, k, r, m.term, held)
    requires HeldWithin(held', held, m.term)
    requires forall g :: g in held && g.msg.IsAck() ==> g.msg.term in h.reigns
    ensures GrantOk(k, m, held')
  {
    var a :| a in h.released && a.VoteReq? && a.from == m.to && a.term == m.term;
    assert a in k.released;
    forall t: Term, i: Index | t < m.term && Acked(k, m.from, t, i)
      ensures Acked(h, m.from, t, i) || HeldAck(held, t, i)
    {
      if m.from != r || m.term <= h.prom[r] { AckedOthers(h, k, r, m.from, t, i); }
    }
  }

  /** Server r's acknowledgements below term u were all released or queued already. */
  ghost predicate NoNewAcks(h: History, k: History, r: NodeId, u: Term, held: seq<Gated>) {
    forall t: Term, i: Index :: t < u && Acked(k, r, t, i) ==> Acked(h, r, t, i) || HeldAck(held, t, i)
  }

  /** Below term u, one queue holds no acknowledgement the other does not. */
  ghost predicate HeldWithin(held': seq<Gated>, held: seq<Gated>, u: Term) {
    forall t: Term, i: Index :: t < u && HeldAck(held', t, i) ==> HeldAck(held, t, i)
  }

  lemma AppOkMono(h: History, k: History, r: NodeId, m: Message)
    requires Grows(h, k, r) && m.App? && AppOk(h, m)
    ensures AppOk(k, m)
  {
    var l, l' := h.reigns[m.term].log, k.reigns[m.term].log;
    SafePrefixMono(h, k, m.term, l, m.commit);
    SafePrefixExtend(k, m.term, l, l', m.commit);
    assert l' == l + l'[|l|..];
  }

  /** What a message says stays true as history grows, for the sender's queue as it was
      or with acknowledgements removed or added in its own later terms. */
  lemma SaysOkMono(h: History, k: History, r: NodeId, m: Message, held: seq<Gated>, held': seq<Gated>)
    requires Grounded(h) && Grows(h, k, r) && SaysOk(h, m, held) && m.from in h.prom
    requires m.VoteReq? ==> m.from != r || m.term <= h.prom[r] || h.cand == k.cand
    requires m.IsGrant() && m.from == r && h.prom[r] < m.term ==> NoNewAcks(h, k, r, m.term, held)
    requires HeldWithin(held', held, m.term)
    requires forall g :: g in held && g.msg.IsAck() ==> g.msg.term in h.reigns
    ensures SaysOk(k, m, held')
  {
    if m.IsGrant() { GrantOkMono(h, k, r, m, held, held'); }
    if m.App? { AppOkMono(h, k, r, m); }
  }

  lemma ReleasedOkMono(h: History, k: History, r: NodeId, m: Message)
    requires Grounded(h) && Grows(h, k, r) && ReleasedOk(h, m)
    ensures ReleasedOk(k, m)
  {
    SaysOkMono(h, k, r, m, [], []);
  }

  lemma SafePrefixExtend(h: History, t: Term, x: seq<Entry>, y: seq<Entry>, c: Index)
    requires SafePrefix(h, t, x, c) && c <= |y| && x[..c] == y[..c]
    ensures SafePrefix(h, t, y, c)
  {
    if c > 0 {
      var t0, i0 :| Vouches(h, t0, i0, t, x, c);
      assert Vouches(h, t0, i0, t, y, c);
    }
  }

  lemma ElectedMono(h: History, k: History, r: NodeId, t: Term)
    requires Grows(h, k, r) && t in h.reigns && exists q :: ElectedBy(h, t, q)
    ensures exists q :: ElectedBy(k, t, q)
  {
    var q :| ElectedBy(h, t, q);
    forall v | v in q ensures Voted(k, v, t, k.reigns[t].who) {
      var m :| m in h.released && m.from == v && Ballot(m, t, h.reigns[t].who);
      assert m in k.released;
    }
    assert ElectedBy(k, t, q);
  }

  lemma ElectionsGrow(h: History, k: History, r: NodeId)
    requires Elections(h) && Grows(h, k, r)
    requires forall t :: t in k.reigns && t !in h.reigns ==> exists q :: ElectedBy(k, t, q)
    ensures Elections(k)
  {
    forall t | t in k.reigns ensures exists q :: ElectedBy(k, t, q) {
      if t in h.reigns { ElectedMono(h, k, r, t); }
    }
  }

  lemma CompletenessGrows(h: History, k: History, r: NodeId)
    requires Completeness(h) && Reigns(h) && Grows(h, k, r)
    requires forall t: Term, u: Term, i: Index ::
               t in k.reigns && u in k.reigns && t < u && k.reigns[t].base < i && (t !in h.reigns || u !in h.reigns)
               ==> Complete(k, t, u, i)
    ensures Completeness(k)
  {
    forall t: Term, u: Term, i: Index | t in k.reigns && u in k.reigns && t < u && k.reigns[t].base < i
      ensures Complete(k, t, u, i)
    {
      if t in h.reigns && u in h.reigns {
        assert ReignOk(h, u) && Complete(h, t, u, i);
      }
    }
  }

  lemma MessagesGrow(h: History, k: History, r: NodeId)
    requires Messages(h) && Grows(h, k, r)
    requires forall m :: m in k.released && m !in h.released ==> ReleasedOk(k, m)
    ensures Messages(k)
  {
    GlobalGrounded(h);
    forall m | m in k.released ensures ReleasedOk(k, m) {
      if m in h.released { ReleasedOkMono(h, k, r, m); }
    }
  }

  // --- consequences ----------------------------------------------------------

  /** Two logs that agree on the term of one position agree up to it. */
  lemma LogMatching(h: History, x: seq<Entry>, y: seq<Entry>, i: Index)
    requires LogOk(h, x) && LogOk(h, y)
    requires 1 <= i <= |x| && i <= |y| && x[i - 1].term == y[i - 1].term
    ensures x[..i] == y[..i]
  {
    assert Has(h, x, x[i - 1].term, i) && Has(h, y, y[i - 1].term, i);
  }

  /** Terms never decrease along a log. */
  lemma TermsSorted(h: History, x: seq<Entry>, a: Index, b: Index)
    requires Reigns(h) && LogOk(h, x)
    requires 0 <= a <= b < |x|
    ensures x[a].term <= x[b].term
  {
    var t := x[b].term;
    assert Has(h, x, t, b + 1);
    assert ReignOk(h, t);
    assert x[a] == x[..b + 1][a] == h.reigns[t].log[..b + 1][a];
  }

  /** A committed position is in the log of every leader of a later term. */
  lemma LeaderCompleteness(h: History, t: Term, i: Index, u: Term)
    requires Completeness(h) && Committed(h, t, i) && u in h.reigns && t <= u
    ensures Has(h, h.reigns[u].log, t, i)
  {
    if t < u {
      assert Complete(h, t, u, i);
      CommittedNotDead(h, t, i);
    }
  }

  lemma VouchedBy(h: History, a: Term, i: Index, t: Term, x: seq<Entry>, c: Index, u: Term)
    requires Completeness(h) && Vouches(h, a, i, t, x, c) && u in h.reigns && a <= u
    ensures Has(h, x, u, c)
  {
    LeaderCompleteness(h, a, i, u);
    var l := h.reigns[u].log;
    assert l[..c] == l[..i][..c] == h.reigns[a].log[..i][..c] == h.reigns[a].log[..c];
  }

  /** Any two committed prefixes are prefixes of one another. */
  lemma CommittedAgree(h: History, t1: Term, x: seq<Entry>, c1: Index, t2: Term, y: seq<Entry>, c2: Index)
    requires Completeness(h) && SafePrefix(h, t1, x, c1) && SafePrefix(h, t2, y, c2)
    ensures forall j :: 0 <= j < c1 && j < c2 ==> x[j] == y[j]
  {
    if c1 > 0 && c2 > 0 {
      var a, i :| Vouches(h, a, i, t1, x, c1);
      var b, k :| Vouches(h, b, k, t2, y, c2);
      var top := if a <= b then b else a;
      VouchedBy(h, a, i, t1, x, c1, top);
      VouchedBy(h, b, k, t2, y, c2, top);
    }
  }

}
