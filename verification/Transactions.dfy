/** Atomicity and snapshot stability over every interleaving of coordinators, which may
    stop at any step and whose steps may be delayed or repeated, and of any number of
    resolvers. */
module Transactions {
  import opened Bytes
  import opened Hlc
  import opened Mvcc

  // --- the coordinators ------------------------------------------------------

  /** What one transaction means to do, named by its start timestamp. */
  datatype Plan = Plan(primary: Key, writes: map<Key, Bytes>, commit: Timestamp)

  type Plans = map<Timestamp, Plan>

  /** Timestamps are set and never coincide, and a commit is above its start. */
  ghost predicate WellPlanned(ps: Plans) {
    && (forall s :: s in ps ==> s.IsSet() && s.Less(ps[s].commit) && ps[s].primary in ps[s].writes)
    && (forall s :: s in ps ==> ps[s].commit !in ps && ps[s].commit.IsSet())
    && (forall s, t :: s in ps && t in ps && s != t ==> ps[s].commit != ps[t].commit)
  }

  /** The store, and every prewrite that has ever gone through. */
  datatype System = System(kv: Kv, placed: set<(Key, Timestamp)>)

  ghost predicate Decided(kv: Kv, ps: Plans, s: Timestamp, d: Decision)
    requires s in ps
  { (ps[s].primary, s) in kv.txns && kv.txns[(ps[s].primary, s)] == d }

  /** Who may take which step: a coordinator commits a key it prewrote once it has seen
      the primary's committed record, puts that record once every key is prewritten, and
      rolls back only what the record says is rolled back; a resolver carries the verdict
      of the record. */
  ghost predicate May(sys: System, ps: Plans, c: Command) {
    match c
    case Prewrite(k, p, s, _, v) => s in ps && k in ps[s].writes && ps[s].writes[k] == v && p == ps[s].primary
    case CommitKey(k, s, at) => s in ps && (k, s) in sys.placed && Decided(sys.kv, ps, s, Committed(at))
    case RollbackKey(k, s) => s in ps && k in ps[s].writes && Decided(sys.kv, ps, s, RolledBack)
    case PutTxn(p, s, d) =>
      && s in ps && p == ps[s].primary
      && (d.Committed? ==> d.at == ps[s].commit && forall k :: k in ps[s].writes ==> (k, s) in sys.placed)
    case Get(_, _) => true
    case ResolveStatus(p, s, _, _) => s in ps && p == ps[s].primary
    case ApplyResolution(_, s, d) => s in ps && Decided(sys.kv, ps, s, d)
  }

  ghost function Next(sys: System, c: Command): System {
    System(Apply(sys.kv, c),
           if c.Prewrite? && Prewritable(sys.kv, c.key, c.start) then sys.placed + {(c.key, c.start)} else sys.placed)
  }

  // --- the invariant ---------------------------------------------------------

  ghost predicate LockOk(sys: System, ps: Plans, k: Key)
    requires k in sys.kv.locks
  {
    var l := sys.kv.locks[k];
    l.start in ps && k in ps[l.start].writes && l.primary == ps[l.start].primary && (k, l.start) in sys.placed
  }

  /** A commit record speaks for a committed transaction at its one timestamp; a
      tombstone for a rolled-back one at its start. */
  ghost predicate WriteOk(sys: System, ps: Plans, k: Key, c: Timestamp)
    requires (k, c) in sys.kv.writes
  {
    var w := sys.kv.writes[(k, c)];
    && w.start in ps && k in ps[w.start].writes
    && (if w.rollback then c == w.start && Decided(sys.kv, ps, w.start, RolledBack)
        else c == ps[w.start].commit && Decided(sys.kv, ps, w.start, Committed(c)) && (k, w.start) in sys.placed)
  }

  ghost predicate Locked(kv: Kv, k: Key, s: Timestamp) { k in kv.locks && kv.locks[k].start == s }

  ghost predicate CommittedHere(kv: Kv, ps: Plans, k: Key, s: Timestamp)
    requires s in ps
  { (k, ps[s].commit) in kv.writes && kv.writes[(k, ps[s].commit)] == Write(s, false) }

  /** A prewritten key of a transaction not rolled back still has its value, and either
      its lock or its commit record. */
  ghost predicate PlacedOk(sys: System, ps: Plans, k: Key, s: Timestamp) {
    && s in ps && k in ps[s].writes
    && (Decided(sys.kv, ps, s, RolledBack) ||
        ((Locked(sys.kv, k, s) || CommittedHere(sys.kv, ps, k, s)) &&
         (k, s) in sys.kv.data && sys.kv.data[(k, s)] == ps[s].writes[k]))
  }

  ghost predicate RecordOk(sys: System, ps: Plans, p: Key, s: Timestamp)
    requires (p, s) in sys.kv.txns
  {
    && s in ps && p == ps[s].primary
    && (sys.kv.txns[(p, s)].Committed? ==>
          sys.kv.txns[(p, s)].at == ps[s].commit && forall k :: k in ps[s].writes ==> (k, s) in sys.placed)
  }

  ghost predicate Consistent(sys: System, ps: Plans) {
    && (forall k :: k in sys.kv.locks ==> LockOk(sys, ps, k))
    && (forall k, c :: (k, c) in sys.kv.writes ==> WriteOk(sys, ps, k, c))
    && (forall k, s :: (k, s) in sys.placed ==> PlacedOk(sys, ps, k, s))
    && (forall p, s :: (p, s) in sys.kv.txns ==> RecordOk(sys, ps, p, s))
  }

  // --- every step keeps it ---------------------------------------------------

  lemma PrewriteKeeps(sys: System, ps: Plans, c: Command)
    requires WellPlanned(ps) && Consistent(sys, ps) && May(sys, ps, c) && c.Prewrite?
    ensures Consistent(Next(sys, c), ps)
  {
    var sys' := Next(sys, c);
    if Prewritable(sys.kv, c.key, c.start) {
      forall k, s | (k, s) in sys'.placed ensures PlacedOk(sys', ps, k, s) {
        if (k, s) in sys.placed { assert PlacedOk(sys, ps, k, s); }
      }
      forall k, t | (k, t) in sys'.kv.writes ensures WriteOk(sys', ps, k, t) { assert WriteOk(sys, ps, k, t); }
      forall k | k in sys'.kv.locks ensures LockOk(sys', ps, k) { if k != c.key { assert LockOk(sys, ps, k); } }
      forall p, s | (p, s) in sys'.kv.txns ensures RecordOk(sys', ps, p, s) { assert RecordOk(sys, ps, p, s); }
    }
  }

  /** Writing one transaction's commit record touches no other's. */
  lemma CommitPlaced(sys: System, ps: Plans, k0: Key, s0: Timestamp, k: Key, s: Timestamp)
    requires WellPlanned(ps) && s0 in ps && Decided(sys.kv, ps, s0, Committed(ps[s0].commit)) && PlacedOk(sys, ps, k, s)
    ensures PlacedOk(System(DoCommit(sys.kv, k0, s0, ps[s0].commit), sys.placed), ps, k, s)
  {
    var kv' := DoCommit(sys.kv, k0, s0, ps[s0].commit);
    if CommittedHere(sys.kv, ps, k, s) { assert CommittedHere(kv', ps, k, s); }
  }

  lemma CommitKeeps(sys: System, ps: Plans, k0: Key, s0: Timestamp, at: Timestamp)
    requires WellPlanned(ps) && Consistent(sys, ps)
    requires s0 in ps && (k0, s0) in sys.placed && Decided(sys.kv, ps, s0, Committed(at))
    ensures Consistent(System(DoCommit(sys.kv, k0, s0, at), sys.placed), ps)
  {
    var sys' := System(DoCommit(sys.kv, k0, s0, at), sys.placed);
    assert RecordOk(sys, ps, ps[s0].primary, s0) && PlacedOk(sys, ps, k0, s0);
    forall k, s | (k, s) in sys'.placed ensures PlacedOk(sys', ps, k, s) { CommitPlaced(sys, ps, k0, s0, k, s); }
    forall k, t | (k, t) in sys'.kv.writes ensures WriteOk(sys', ps, k, t) {
      if (k, t) != (k0, at) { assert WriteOk(sys, ps, k, t); }
    }
    forall k | k in sys'.kv.locks ensures LockOk(sys', ps, k) { assert LockOk(sys, ps, k); }
    forall p, s | (p, s) in sys'.kv.txns ensures RecordOk(sys', ps, p, s) { assert RecordOk(sys, ps, p, s); }
  }

  lemma RollbackKeeps(sys: System, ps: Plans, k0: Key, s0: Timestamp)
    requires WellPlanned(ps) && Consistent(sys, ps)
    requires s0 in ps && k0 in ps[s0].writes && Decided(sys.kv, ps, s0, RolledBack)
    ensures Consistent(System(DoRollback(sys.kv, k0, s0), sys.placed), ps)
  {
    var sys' := System(DoRollback(sys.kv, k0, s0), sys.placed);
    forall k, s | (k, s) in sys'.placed ensures PlacedOk(sys', ps, k, s) { assert PlacedOk(sys, ps, k, s); }
    forall k, t | (k, t) in sys'.kv.writes ensures WriteOk(sys', ps, k, t) {
      if (k, t) != (k0, s0) { assert WriteOk(sys, ps, k, t); }
    }
    forall k | k in sys'.kv.locks ensures LockOk(sys', ps, k) { assert LockOk(sys, ps, k); }
    forall p, s | (p, s) in sys'.kv.txns ensures RecordOk(sys', ps, p, s) { assert RecordOk(sys, ps, p, s); }
  }

  lemma PutTxnKeeps(sys: System, ps: Plans, p0: Key, s0: Timestamp, d: Decision)
    requires WellPlanned(ps) && Consistent(sys, ps) && May(sys, ps, PutTxn(p0, s0, d))
    ensures Consistent(System(DoPutTxn(sys.kv, p0, s0, d), sys.placed), ps)
  {
    var sys' := System(DoPutTxn(sys.kv, p0, s0, d), sys.placed);
    forall k, s | (k, s) in sys'.placed ensures PlacedOk(sys', ps, k, s) { assert PlacedOk(sys, ps, k, s); }
    forall k, t | (k, t) in sys'.kv.writes ensures WriteOk(sys', ps, k, t) { assert WriteOk(sys, ps, k, t); }
    forall k | k in sys'.kv.locks ensures LockOk(sys', ps, k) { assert LockOk(sys, ps, k); }
    forall p, s | (p, s) in sys'.kv.txns ensures RecordOk(sys', ps, p, s) {
      if (p, s) in sys.kv.txns { assert RecordOk(sys, ps, p, s); }
    }
  }

  lemma NoteReadKeeps(sys: System, ps: Plans, k0: Key, t0: Timestamp)
    requires Consistent(sys, ps)
    ensures Consistent(System(DoNoteRead(sys.kv, k0, t0), sys.placed), ps)
  {
    var sys' := System(DoNoteRead(sys.kv, k0, t0), sys.placed);
    forall k, s | (k, s) in sys'.placed ensures PlacedOk(sys', ps, k, s) { assert PlacedOk(sys, ps, k, s); }
    forall k, t | (k, t) in sys'.kv.writes ensures WriteOk(sys', ps, k, t) { assert WriteOk(sys, ps, k, t); }
    forall k | k in sys'.kv.locks ensures LockOk(sys', ps, k) { assert LockOk(sys, ps, k); }
    forall p, s | (p, s) in sys'.kv.txns ensures RecordOk(sys', ps, p, s) { assert RecordOk(sys, ps, p, s); }
  }

  lemma ApplyResolutionKeeps(sys: System, ps: Plans, k: Key, s: Timestamp, d: Decision)
    requires WellPlanned(ps) && Consistent(sys, ps) && May(sys, ps, ApplyResolution(k, s, d))
    ensures Consistent(System(DoApplyResolution(sys.kv, k, s, d), sys.placed), ps)
  {
    if Locked(sys.kv, k, s) {
      assert LockOk(sys, ps, k);
      if d.Committed? { CommitKeeps(sys, ps, k, s, d.at); } else { RollbackKeeps(sys, ps, k, s); }
    }
  }

  lemma NextKeeps(sys: System, ps: Plans, c: Command)
    requires WellPlanned(ps) && Consistent(sys, ps) && May(sys, ps, c)
    ensures Consistent(Next(sys, c), ps)
  {
    match c {
      case Prewrite(_, _, _, _, _) => PrewriteKeeps(sys, ps, c);
      case CommitKey(k, s, at) => CommitKeeps(sys, ps, k, s, at);
      case RollbackKey(k, s) => RollbackKeeps(sys, ps, k, s);
      case PutTxn(p, s, d) => PutTxnKeeps(sys, ps, p, s, d);
      case Get(k, t) => NoteReadKeeps(sys, ps, k, t);
      case ResolveStatus(p, s, deadline, now) =>
        if DoResolveStatus(sys.kv, p, s, deadline, now) != sys.kv { PutTxnKeeps(sys, ps, p, s, RolledBack); }
      case ApplyResolution(k, s, d) => ApplyResolutionKeeps(sys, ps, k, s, d);
    }
  }

  // --- runs ------------------------------------------------------------------

  ghost predicate StepOk(ps: Plans, ss: seq<System>, cs: seq<Command>, k: nat)
    requires k < |cs| && |ss| == |cs| + 1
  { May(ss[k], ps, cs[k]) && ss[k + 1] == Next(ss[k], cs[k]) }

  /** A run from an empty store. */
  ghost predicate Run(ps: Plans, ss: seq<System>, cs: seq<Command>) {
    && WellPlanned(ps) && |ss| == |cs| + 1
    && ss[0].placed == {} && ss[0].kv.locks == map[] && ss[0].kv.writes == map[] && ss[0].kv.txns == map[]
    && forall k :: 0 <= k < |cs| ==> StepOk(ps, ss, cs, k)
  }

  lemma {:induction false} RunConsistent(ps: Plans, ss: seq<System>, cs: seq<Command>, k: nat)
    requires Run(ps, ss, cs) && k < |ss|
    ensures Consistent(ss[k], ps)
  {
    if k > 0 {
      RunConsistent(ps, ss, cs, k - 1);
      assert StepOk(ps, ss, cs, k - 1);
      NextKeeps(ss[k - 1], ps, cs[k - 1]);
    }
  }

  /** A decision once written never changes. */
  lemma {:induction false} DecisionsStand(ps: Plans, ss: seq<System>, cs: seq<Command>, i: nat, j: nat,
                                          p: Key, s: Timestamp)
    requires Run(ps, ss, cs) && i <= j < |ss| && (p, s) in ss[i].kv.txns
    ensures (p, s) in ss[j].kv.txns && ss[j].kv.txns[(p, s)] == ss[i].kv.txns[(p, s)]
  {
    if i < j {
      DecisionsStand(ps, ss, cs, i, j - 1, p, s);
      assert StepOk(ps, ss, cs, j - 1);
    }
  }

  /** All or nothing. A commit record on any key means the transaction's record is
      committed at that timestamp, and then every key of the transaction holds the value
      it wrote under a lock or a commit record at that same timestamp, with no tombstone. */
  lemma AtomicCommit(ps: Plans, ss: seq<System>, cs: seq<Command>, i: nat, k: Key, c: Timestamp, k': Key)
    requires Run(ps, ss, cs) && i < |ss|
    requires (k, c) in ss[i].kv.writes && !ss[i].kv.writes[(k, c)].rollback
    requires ss[i].kv.writes[(k, c)].start in ps && k' in ps[ss[i].kv.writes[(k, c)].start].writes
    ensures var kv, s := ss[i].kv, ss[i].kv.writes[(k, c)].start;
      && c == ps[s].commit && Decided(kv, ps, s, Committed(c))
      && (k', s) in kv.data && kv.data[(k', s)] == ps[s].writes[k']
      && (Locked(kv, k', s) || ((k', c) in kv.writes && kv.writes[(k', c)] == Write(s, false)))
      && (k', s) !in kv.writes
  {
    RunConsistent(ps, ss, cs, i);
    var kv, s := ss[i].kv, ss[i].kv.writes[(k, c)].start;
    assert WriteOk(ss[i], ps, k, c);
    assert RecordOk(ss[i], ps, ps[s].primary, s);
    assert PlacedOk(ss[i], ps, k', s);
  }

  /** A rolled-back transaction commits nowhere, ever. */
  lemma NothingAfterRollback(ps: Plans, ss: seq<System>, cs: seq<Command>, i: nat, j: nat,
                             s: Timestamp, k: Key, c: Timestamp)
    requires Run(ps, ss, cs) && i <= j < |ss| && s in ps && Decided(ss[i].kv, ps, s, RolledBack)
    requires (k, c) in ss[j].kv.writes && ss[j].kv.writes[(k, c)].start == s
    ensures ss[j].kv.writes[(k, c)].rollback
  {
    RunConsistent(ps, ss, cs, j);
    DecisionsStand(ps, ss, cs, i, j, ps[s].primary, s);
    assert WriteOk(ss[j], ps, k, c);
  }

  // --- snapshot reads --------------------------------------------------------

  /** The settled answer of a read of k at t: no undecided lock at or below t, and the
      value the newest commit at or below t makes visible, if there is one. */
  ghost predicate Answers(kv: Kv, k: Key, t: Timestamp, v: Option<Bytes>) {
    && (k in kv.locks ==> t.Less(kv.locks[k].start))
    && match v
       case None => forall c :: Real(kv, k, c) ==> t.Less(c)
       case Some(_) => exists c :: Newest(kv, k, t, c) && ValueAt(kv, k, kv.writes[(k, c)].start) == v
  }

  /** Commit c of k is what it was, and so is the value it makes visible. */
  ghost predicate SameCommit(a: Kv, b: Kv, k: Key, c: Timestamp) {
    && Real(a, k, c) == Real(b, k, c)
    && (Real(a, k, c) ==> a.writes[(k, c)] == b.writes[(k, c)])
    && (Real(a, k, c) ==> ValueAt(a, k, a.writes[(k, c)].start) == ValueAt(b, k, a.writes[(k, c)].start))
  }

  /** What an answered read of k at t has fixed. */
  ghost predicate Pinned(was: Kv, kv: Kv, k: Key, t: Timestamp) {
    && k in kv.marks && t.LessEq(kv.marks[k])
    && (k in kv.locks ==> t.LessEq(kv.locks[k].start))
    && forall c: Timestamp :: c.LessEq(t) ==> SameCommit(was, kv, k, c)
  }

  /** A commit at or below an answered read was already there: the read found no lock of
      its transaction, and a prewritten key has its lock or its commit record. */
  lemma NoLateCommit(sys: System, ps: Plans, was: Kv, s: Timestamp, k: Key, t: Timestamp)
    requires WellPlanned(ps) && PlacedOk(sys, ps, k, s) && Pinned(was, sys.kv, k, t)
    requires Decided(sys.kv, ps, s, Committed(ps[s].commit)) && ps[s].commit.LessEq(t)
    ensures CommittedHere(sys.kv, ps, k, s)
  {}

  lemma CommitBelowRead(sys: System, ps: Plans, was: Kv, k0: Key, s0: Timestamp, at: Timestamp, k: Key, t: Timestamp)
    requires WellPlanned(ps) && Consistent(sys, ps) && Pinned(was, sys.kv, k, t)
    requires s0 in ps && (k0, s0) in sys.placed && Decided(sys.kv, ps, s0, Committed(at))
    ensures Pinned(was, DoCommit(sys.kv, k0, s0, at), k, t)
  {
    assert RecordOk(sys, ps, ps[s0].primary, s0) && PlacedOk(sys, ps, k0, s0);
    if k0 == k && at.LessEq(t) { NoLateCommit(sys, ps, was, s0, k, t); }
    CommitElsewhere(sys.kv, was, k0, s0, at, k, t);
  }

  lemma CommitElsewhere(kv: Kv, was: Kv, k0: Key, s0: Timestamp, at: Timestamp, k: Key, t: Timestamp)
    requires Pinned(was, kv, k, t)
    requires k0 == k && at.LessEq(t) ==> (k, at) in kv.writes && kv.writes[(k, at)] == Write(s0, false)
    ensures Pinned(was, DoCommit(kv, k0, s0, at), k, t)
  {
    var kv' := DoCommit(kv, k0, s0, at);
    forall c: Timestamp | c.LessEq(t) ensures SameCommit(was, kv', k, c) { assert SameCommit(was, kv, k, c); }
  }

  lemma RollbackBelowRead(sys: System, ps: Plans, was: Kv, k0: Key, s0: Timestamp, k: Key, t: Timestamp)
    requires WellPlanned(ps) && Consistent(sys, ps) && Pinned(was, sys.kv, k, t)
    requires s0 in ps && Decided(sys.kv, ps, s0, RolledBack)
    ensures Pinned(was, DoRollback(sys.kv, k0, s0), k, t)
  {
    var kv' := DoRollback(sys.kv, k0, s0);
    forall c: Timestamp | c.LessEq(t) ensures SameCommit(was, kv', k, c) {
      assert SameCommit(was, sys.kv, k, c);
      if (k, c) in sys.kv.writes { assert WriteOk(sys, ps, k, c); }
    }
  }

  lemma PrewriteBelowRead(sys: System, ps: Plans, was: Kv, c0: Command, k: Key, t: Timestamp)
    requires WellPlanned(ps) && Consistent(sys, ps) && Pinned(was, sys.kv, k, t) && c0.Prewrite? && May(sys, ps, c0)
    ensures Pinned(was, Apply(sys.kv, c0), k, t)
  {
    var kv' := Apply(sys.kv, c0);
    forall c: Timestamp | c.LessEq(t) ensures SameCommit(was, kv', k, c) {
      assert SameCommit(was, sys.kv, k, c);
      if (k, c) in sys.kv.writes { assert WriteOk(sys, ps, k, c); }
    }
  }

  lemma OthersBelowRead(kv: Kv, was: Kv, kv': Kv, k: Key, t: Timestamp)
    requires Pinned(was, kv, k, t) && kv'.writes == kv.writes && kv'.data == kv.data && kv'.locks == kv.locks
    requires k in kv'.marks && t.LessEq(kv'.marks[k])
    ensures Pinned(was, kv', k, t)
  {
    forall c: Timestamp | c.LessEq(t) ensures SameCommit(was, kv', k, c) { assert SameCommit(was, kv, k, c); }
  }

  lemma NextPins(sys: System, ps: Plans, was: Kv, c: Command, k: Key, t: Timestamp)
    requires WellPlanned(ps) && Consistent(sys, ps) && Pinned(was, sys.kv, k, t) && May(sys, ps, c)
    ensures Pinned(was, Next(sys, c).kv, k, t)
  {
    match c {
      case Prewrite(_, _, _, _, _) => PrewriteBelowRead(sys, ps, was, c, k, t);
      case CommitKey(k0, s, at) => CommitBelowRead(sys, ps, was, k0, s, at, k, t);
      case RollbackKey(k0, s) => RollbackBelowRead(sys, ps, was, k0, s, k, t);
      case PutTxn(_, _, _) => OthersBelowRead(sys.kv, was, Next(sys, c).kv, k, t);
      case Get(_, _) => OthersBelowRead(sys.kv, was, Next(sys, c).kv, k, t);
      case ResolveStatus(_, _, _, _) => OthersBelowRead(sys.kv, was, Next(sys, c).kv, k, t);
      case ApplyResolution(k0, s, d) => ResolutionBelowRead(sys, ps, was, k0, s, d, k, t);
    }
  }

  lemma ResolutionBelowRead(sys: System, ps: Plans, was: Kv, k0: Key, s: Timestamp, d: Decision, k: Key, t: Timestamp)
    requires WellPlanned(ps) && Consistent(sys, ps) && Pinned(was, sys.kv, k, t)
    requires May(sys, ps, ApplyResolution(k0, s, d))
    ensures Pinned(was, DoApplyResolution(sys.kv, k0, s, d), k, t)
  {
    if Locked(sys.kv, k0, s) {
      assert LockOk(sys, ps, k0);
      if d.Committed? { CommitBelowRead(sys, ps, was, k0, s, d.at, k, t); }
      else { RollbackBelowRead(sys, ps, was, k0, s, k, t); }
    }
  }

  lemma {:induction false} RunPins(ps: Plans, ss: seq<System>, cs: seq<Command>, i: nat, j: nat, k: Key, t: Timestamp)
    requires Run(ps, ss, cs) && i <= j < |ss| && Pinned(ss[i].kv, ss[i].kv, k, t)
    ensures Pinned(ss[i].kv, ss[j].kv, k, t)
  {
    if i < j {
      RunPins(ps, ss, cs, i, j - 1, k, t);
      RunConsistent(ps, ss, cs, j - 1);
      assert StepOk(ps, ss, cs, j - 1);
      NextPins(ss[j - 1], ps, ss[i].kv, cs[j - 1], k, t);
    }
  }

  lemma SameAnswer(was: Kv, kv: Kv, k: Key, t: Timestamp, v: Option<Bytes>, w: Option<Bytes>)
    requires Pinned(was, kv, k, t) && Answers(was, k, t, v) && Answers(kv, k, t, w)
    ensures v == w
  {
    if v.Some? {
      var c :| Newest(was, k, t, c) && ValueAt(was, k, was.writes[(k, c)].start) == v;
      assert SameCommit(was, kv, k, c);
      var d :| Newest(kv, k, t, d) && ValueAt(kv, k, kv.writes[(k, d)].start) == w;
      assert SameCommit(was, kv, k, d);
    }
  }

  /** Snapshot stability. Once a read of k at t has been applied and answered, no later
      step makes a read of k at t settle on anything else. */
  lemma SnapshotStable(ps: Plans, ss: seq<System>, cs: seq<Command>, i: nat, j: nat, k: Key, t: Timestamp,
                       v: Option<Bytes>, w: Option<Bytes>)
    requires Run(ps, ss, cs) && i < j < |ss| && cs[i] == Get(k, t) && t.IsSet()
    requires Answers(ss[i + 1].kv, k, t, v) && Answers(ss[j].kv, k, t, w)
    ensures v == w
  {
    assert StepOk(ps, ss, cs, i);
    var kv := ss[i + 1].kv;
    forall c: Timestamp | c.LessEq(t) ensures SameCommit(kv, kv, k, c) {}
    RunPins(ps, ss, cs, i + 1, j, k, t);
    SameAnswer(kv, ss[j].kv, k, t, v, w);
  }
}
