/** First committer wins, over every run of `Transactions`. */
module FirstCommitter {
  import opened Bytes
  import opened Hlc
  import opened Mvcc
  import opened Transactions

  /** Transaction s has committed key k. */
  ghost predicate Won(kv: Kv, ps: Plans, k: Key, s: Timestamp) { s in ps && CommittedHere(kv, ps, k, s) }

  /** One of the two was over when the other began. */
  ghost predicate Apart(ps: Plans, s: Timestamp, t: Timestamp)
    requires s in ps && t in ps
  { ps[s].commit.LessEq(t) || ps[t].commit.LessEq(s) }

  /** Commits of one key lie apart, and whoever holds its lock began after all of them. */
  ghost predicate InTurn(kv: Kv, ps: Plans) {
    && (forall k, s, t :: Won(kv, ps, k, s) && Won(kv, ps, k, t) && s != t ==> Apart(ps, s, t))
    && (forall k, s :: Won(kv, ps, k, s) && k in kv.locks ==> ps[s].commit.LessEq(kv.locks[k].start))
  }

  // --- every step keeps it ---------------------------------------------------

  /** No new commit and no new lock, nothing to show. */
  lemma FewerInTurn(kv: Kv, ps: Plans, kv': Kv)
    requires InTurn(kv, ps) && (forall k, s :: Won(kv', ps, k, s) ==> Won(kv, ps, k, s))
    requires forall k :: k in kv'.locks ==> k in kv.locks && kv'.locks[k] == kv.locks[k]
    ensures InTurn(kv', ps)
  {}

  lemma PrewriteInTurn(kv: Kv, ps: Plans, k0: Key, l: Lock, v: Bytes)
    requires InTurn(kv, ps)
    ensures InTurn(DoPrewrite(kv, k0, l, v), ps)
  {
    var kv' := DoPrewrite(kv, k0, l, v);
    assert forall k, s :: Won(kv', ps, k, s) <==> Won(kv, ps, k, s);
    if Prewritable(kv, k0, l.start) {
      forall s | Won(kv, ps, k0, s) ensures ps[s].commit.LessEq(l.start) {
        assert !WrittenAbove(kv, k0, l.start) && (k0, ps[s].commit) in kv.writes;
      }
    }
  }

  /** The only commit a commit adds is its own. */
  lemma CommitWins(sys: System, ps: Plans, k0: Key, s0: Timestamp, k: Key, s: Timestamp)
    requires WellPlanned(ps) && s0 in ps && Won(DoCommit(sys.kv, k0, s0, ps[s0].commit), ps, k, s)
    ensures Won(sys.kv, ps, k, s) || (k == k0 && s == s0)
  {}

  lemma CommitInTurn(sys: System, ps: Plans, k0: Key, s0: Timestamp, at: Timestamp)
    requires WellPlanned(ps) && Consistent(sys, ps) && InTurn(sys.kv, ps)
    requires s0 in ps && (k0, s0) in sys.placed && Decided(sys.kv, ps, s0, Committed(at))
    ensures InTurn(DoCommit(sys.kv, k0, s0, at), ps)
  {
    var kv, kv' := sys.kv, DoCommit(sys.kv, k0, s0, at);
    assert RecordOk(sys, ps, ps[s0].primary, s0) && PlacedOk(sys, ps, k0, s0);
    forall k, s | Won(kv', ps, k, s) ensures Won(kv, ps, k, s) || (k == k0 && s == s0) {
      CommitWins(sys, ps, k0, s0, k, s);
    }
    if Won(kv, ps, k0, s0) { FewerInTurn(kv, ps, kv'); }
  }

  lemma RollbackInTurn(kv: Kv, ps: Plans, k0: Key, s0: Timestamp)
    requires WellPlanned(ps) && InTurn(kv, ps) && s0 in ps
    ensures InTurn(DoRollback(kv, k0, s0), ps)
  {
    var kv' := DoRollback(kv, k0, s0);
    forall k, s | Won(kv', ps, k, s) ensures Won(kv, ps, k, s) { assert (k, ps[s].commit) != (k0, s0); }
    FewerInTurn(kv, ps, kv');
  }

  lemma NextInTurn(sys: System, ps: Plans, c: Command)
    requires WellPlanned(ps) && Consistent(sys, ps) && InTurn(sys.kv, ps) && May(sys, ps, c)
    ensures InTurn(Next(sys, c).kv, ps)
  {
    match c {
      case Prewrite(k, p, s, deadline, v) => PrewriteInTurn(sys.kv, ps, k, Lock(p, s, deadline), v);
      case CommitKey(k, s, at) => CommitInTurn(sys, ps, k, s, at);
      case RollbackKey(k, s) => RollbackInTurn(sys.kv, ps, k, s);
      case ApplyResolution(k, s, d) =>
        if Locked(sys.kv, k, s) {
          assert LockOk(sys, ps, k);
          if d.Committed? { CommitInTurn(sys, ps, k, s, d.at); } else { RollbackInTurn(sys.kv, ps, k, s); }
        }
      case PutTxn(_, _, _) => FewerInTurn(sys.kv, ps, Next(sys, c).kv);
      case Get(_, _) => FewerInTurn(sys.kv, ps, Next(sys, c).kv);
      case ResolveStatus(_, _, _, _) => FewerInTurn(sys.kv, ps, Next(sys, c).kv);
    }
  }

  lemma {:induction false} RunInTurn(ps: Plans, ss: seq<System>, cs: seq<Command>, i: nat)
    requires Run(ps, ss, cs) && i < |ss|
    ensures InTurn(ss[i].kv, ps)
  {
    if i > 0 {
      RunInTurn(ps, ss, cs, i - 1);
      RunConsistent(ps, ss, cs, i - 1);
      assert StepOk(ps, ss, cs, i - 1);
      NextInTurn(ss[i - 1], ps, cs[i - 1]);
    }
  }

  // --- theorems --------------------------------------------------------------

  /** Of two transactions that committed one key, one began at or above the other's commit:
      no update is lost between them. */
  lemma FirstCommitterWins(ps: Plans, ss: seq<System>, cs: seq<Command>, i: nat, k: Key, s: Timestamp, t: Timestamp)
    requires Run(ps, ss, cs) && i < |ss| && s in ps && t in ps && s != t
    requires CommittedHere(ss[i].kv, ps, k, s) && CommittedHere(ss[i].kv, ps, k, t)
    ensures ps[s].commit.LessEq(t) || ps[t].commit.LessEq(s)
  {
    RunInTurn(ps, ss, cs, i);
    assert Won(ss[i].kv, ps, k, s) && Won(ss[i].kv, ps, k, t);
  }

  /** A transaction never holds the lock of a key it has committed. */
  lemma CommittedIsUnlocked(ps: Plans, ss: seq<System>, cs: seq<Command>, i: nat, k: Key, s: Timestamp)
    requires Run(ps, ss, cs) && i < |ss| && s in ps && CommittedHere(ss[i].kv, ps, k, s)
    ensures !Locked(ss[i].kv, k, s)
  {
    RunInTurn(ps, ss, cs, i);
    assert Won(ss[i].kv, ps, k, s);
  }

  /** A resolver's verdict, taken when its status entry is applied, is what the record says
      from then on; it waits only for an undecided owner that is not past its deadline. */
  lemma VerdictStands(ps: Plans, ss: seq<System>, cs: seq<Command>, i: nat, j: nat,
                      p: Key, s: Timestamp, deadline: Timestamp, now: Timestamp)
    requires Run(ps, ss, cs) && i < j < |ss| && cs[i] == ResolveStatus(p, s, deadline, now)
    ensures match ResolveLock(ss[i + 1].kv, Lock(p, s, deadline), now)
      case Wait => (p, s) !in ss[i + 1].kv.txns && now.LessEq(deadline)
      case Forward(c) => (p, s) in ss[j].kv.txns && ss[j].kv.txns[(p, s)] == Committed(c)
      case Back => (p, s) in ss[j].kv.txns && ss[j].kv.txns[(p, s)] == RolledBack
  {
    assert StepOk(ps, ss, cs, i);
    if (p, s) in ss[i + 1].kv.txns { DecisionsStand(ps, ss, cs, i + 1, j, p, s); }
  }
}
