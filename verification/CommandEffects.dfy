/** What each transaction command does, and what a run makes of it. */
module CommandEffects {
  import opened Bytes
  import opened Hlc
  import opened Mvcc
  import opened Transactions

  // --- one command -----------------------------------------------------------

  /** A prewrite that no guard refuses leaves its lock and its value; any other nothing. */
  lemma PrewriteActs(kv: Kv, k: Key, p: Key, s: Timestamp, deadline: Timestamp, v: Bytes)
    ensures var kv' := Apply(kv, Prewrite(k, p, s, deadline, v));
      if Prewritable(kv, k, s) then
        k in kv'.locks && kv'.locks[k] == Lock(p, s, deadline) && (k, s) in kv'.data && kv'.data[(k, s)] == v
      else kv' == kv
  {}

  /** Every lock but the one this transaction may hold at k is as it was. */
  ghost predicate OtherLocks(kv: Kv, kv': Kv, k: Key, s: Timestamp) {
    forall x :: x in kv.locks && !(x == k && kv.locks[x].start == s) ==> x in kv'.locks && kv'.locks[x] == kv.locks[x]
  }

  /** A commit leaves its record, no lock of its own and every other lock. */
  lemma CommitActs(kv: Kv, k: Key, s: Timestamp, c: Timestamp)
    requires s.IsSet() && c.IsSet() && s.LessEq(c)
    ensures var kv' := Apply(kv, CommitKey(k, s, c));
      && Real(kv', k, c) && kv'.writes[(k, c)].start == s && !Locked(kv', k, s) && kv'.data == kv.data
      && OtherLocks(kv, kv', k, s)
  {}

  /** A rollback leaves a tombstone, neither value nor lock of its own, and every other. */
  lemma RollbackActs(kv: Kv, k: Key, s: Timestamp)
    requires s.IsSet()
    ensures var kv' := Apply(kv, RollbackKey(k, s));
      && (k, s) in kv'.writes && kv'.writes[(k, s)] == Write(s, true) && !Locked(kv', k, s) && (k, s) !in kv'.data
      && (forall x, t :: (x, t) != (k, s) ==> ((x, t) in kv.data <==> (x, t) in kv'.data))
      && (forall x, t :: (x, t) in kv'.data ==> kv'.data[(x, t)] == kv.data[(x, t)])
      && OtherLocks(kv, kv', k, s)
  {}

  /** The first decision put is the one recorded. */
  lemma PutTxnActs(kv: Kv, p: Key, s: Timestamp, d: Decision)
    requires s.IsSet() && (d.Committed? ==> d.at.IsSet())
    ensures var kv' := Apply(kv, PutTxn(p, s, d));
      && (p, s) in kv'.txns
      && kv'.txns[(p, s)] == if (p, s) in kv.txns then kv.txns[(p, s)] else d
  {}

  /** A read leaves the key's mark at or above it, and no mark lower than before. */
  lemma GetActs(kv: Kv, k: Key, t: Timestamp)
    requires t.IsSet()
    ensures var kv' := Apply(kv, Get(k, t));
      && k in kv'.marks && t.LessEq(kv'.marks[k])
      && forall x :: x in kv.marks ==> x in kv'.marks && kv.marks[x].LessEq(kv'.marks[x])
  {}

  /** A resolver makes dead exactly the undecided owner whose deadline has passed. */
  lemma ResolveStatusActs(kv: Kv, p: Key, s: Timestamp, deadline: Timestamp, now: Timestamp)
    requires s.IsSet()
    ensures var kv' := Apply(kv, ResolveStatus(p, s, deadline, now));
      if (p, s) !in kv.txns && deadline.Less(now) then (p, s) in kv'.txns && kv'.txns[(p, s)] == RolledBack
      else kv' == kv
  {}

  /** A resolution settles the lock it finds, as the verdict says, and touches no other. */
  lemma ApplyResolutionActs(kv: Kv, k: Key, s: Timestamp, d: Decision)
    requires s.IsSet() && (d.Committed? ==> d.at.IsSet() && s.LessEq(d.at))
    ensures var kv' := Apply(kv, ApplyResolution(k, s, d));
      if Locked(kv, k, s) then
        && k !in kv'.locks
        && (d.Committed? ==> Real(kv', k, d.at) && kv'.writes[(k, d.at)].start == s && kv'.data == kv.data)
        && (d.RolledBack? ==> (k, s) in kv'.writes && kv'.writes[(k, s)] == Write(s, true) && (k, s) !in kv'.data)
      else kv' == kv
  {}

  // --- over runs -------------------------------------------------------------

  /** A commit command commits its key. */
  lemma CommitKeyCommits(ps: Plans, ss: seq<System>, cs: seq<Command>, i: nat, k: Key, s: Timestamp, at: Timestamp)
    requires Run(ps, ss, cs) && i < |cs| && cs[i] == CommitKey(k, s, at)
    ensures s in ps && at == ps[s].commit && CommittedHere(ss[i + 1].kv, ps, k, s)
  {
    RunConsistent(ps, ss, cs, i);
    assert StepOk(ps, ss, cs, i);
    assert RecordOk(ss[i], ps, ps[s].primary, s);
    CommitActs(ss[i].kv, k, s, at);
  }

  /** So does a resolution that rolls a lock forward. */
  lemma RollForwardCommits(ps: Plans, ss: seq<System>, cs: seq<Command>, i: nat, k: Key, s: Timestamp, at: Timestamp)
    requires Run(ps, ss, cs) && i < |cs| && cs[i] == ApplyResolution(k, s, Committed(at)) && Locked(ss[i].kv, k, s)
    ensures s in ps && at == ps[s].commit && CommittedHere(ss[i + 1].kv, ps, k, s)
  {
    RunConsistent(ps, ss, cs, i);
    assert StepOk(ps, ss, cs, i);
    assert RecordOk(ss[i], ps, ps[s].primary, s);
    ApplyResolutionActs(ss[i].kv, k, s, Committed(at));
  }

  lemma CommitKeepsOther(kv: Kv, ps: Plans, k0: Key, s0: Timestamp, k: Key, s: Timestamp)
    requires WellPlanned(ps) && s0 in ps && s in ps && CommittedHere(kv, ps, k, s)
    ensures CommittedHere(DoCommit(kv, k0, s0, ps[s0].commit), ps, k, s)
  {}

  lemma RollbackKeepsOther(kv: Kv, ps: Plans, k0: Key, s0: Timestamp, k: Key, s: Timestamp)
    requires WellPlanned(ps) && s0 in ps && s in ps && CommittedHere(kv, ps, k, s)
    ensures CommittedHere(DoRollback(kv, k0, s0), ps, k, s)
  {
    assert (k, ps[s].commit) != (k0, s0);
  }

  /** No command takes a commit back. */
  lemma NextKeepsCommit(sys: System, ps: Plans, c: Command, k: Key, s: Timestamp)
    requires WellPlanned(ps) && Consistent(sys, ps) && May(sys, ps, c) && s in ps && CommittedHere(sys.kv, ps, k, s)
    ensures CommittedHere(Next(sys, c).kv, ps, k, s)
  {
    match c {
      case CommitKey(k0, s0, at) =>
        assert RecordOk(sys, ps, ps[s0].primary, s0);
        CommitKeepsOther(sys.kv, ps, k0, s0, k, s);
      case RollbackKey(k0, s0) => RollbackKeepsOther(sys.kv, ps, k0, s0, k, s);
      case ApplyResolution(k0, s0, d) =>
        assert RecordOk(sys, ps, ps[s0].primary, s0);
        if d.Committed? {
          CommitKeepsOther(sys.kv, ps, k0, s0, k, s);
        } else {
          RollbackKeepsOther(sys.kv, ps, k0, s0, k, s);
        }
      case Prewrite(_, _, _, _, _) =>
      case PutTxn(_, _, _) =>
      case Get(_, _) =>
      case ResolveStatus(_, _, _, _) =>
    }
  }

  lemma {:induction false} CommitStays(ps: Plans, ss: seq<System>, cs: seq<Command>, i: nat, j: nat,
                                       k: Key, s: Timestamp)
    requires Run(ps, ss, cs) && i <= j < |ss| && s in ps && CommittedHere(ss[i].kv, ps, k, s)
    ensures CommittedHere(ss[j].kv, ps, k, s)
  {
    if i < j {
      CommitStays(ps, ss, cs, i, j - 1, k, s);
      RunConsistent(ps, ss, cs, j - 1);
      assert StepOk(ps, ss, cs, j - 1);
      NextKeepsCommit(ss[j - 1], ps, cs[j - 1], k, s);
    }
  }

  /** An unblocked, certain read finds what its newest commit made visible. */
  lemma FindsNewest(kv: Kv, k: Key, c: Timestamp, t: Timestamp, ceiling: Timestamp, r: ReadResult)
    requires Real(kv, k, c) && (k, kv.writes[(k, c)].start) in kv.data && c.LessEq(t) && t.IsSet() && kv.gcMark.Less(t)
    requires (k in kv.locks ==> t.Less(kv.locks[k].start)) && t.LessEq(ceiling)
    requires forall d :: Real(kv, k, d) ==> d.LessEq(c) || ceiling.Less(d)
    requires GetSpec(kv, k, t, ceiling, r)
    ensures r == Found(kv.data[(k, kv.writes[(k, c)].start)])
  {
    assert Newest(kv, k, t, c);
    assert forall d :: !UncertainAt(kv, k, t, ceiling, d);
    assert forall d :: Newest(kv, k, t, d) ==> d == c;
  }

  /** Once a key is committed, every later read at or above the commit that no lock blocks,
      no newer commit hides and nothing above makes uncertain finds the value written. */
  lemma ReadsCommitted(ps: Plans, ss: seq<System>, cs: seq<Command>, i: nat, j: nat, k: Key, s: Timestamp,
                       t: Timestamp, ceiling: Timestamp, r: ReadResult)
    requires Run(ps, ss, cs) && i <= j < |ss| && s in ps && CommittedHere(ss[i].kv, ps, k, s)
    requires var kv := ss[j].kv;
      && ps[s].commit.LessEq(t) && t.IsSet() && kv.gcMark.Less(t) && (k in kv.locks ==> t.Less(kv.locks[k].start))
      && forall c :: Real(kv, k, c) ==> c.LessEq(ps[s].commit) || ceiling.Less(c)
    requires t.LessEq(ceiling) && GetSpec(ss[j].kv, k, t, ceiling, r)
    ensures k in ps[s].writes && r == Found(ps[s].writes[k])
  {
    var kv, c := ss[j].kv, ps[s].commit;
    CommitStays(ps, ss, cs, i, j, k, s);
    RunConsistent(ps, ss, cs, j);
    assert WriteOk(ss[j], ps, k, c) && PlacedOk(ss[j], ps, k, s);
    FindsNewest(kv, k, c, t, ceiling, r);
  }
}
