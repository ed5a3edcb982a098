/** The versioned store and the steps of a transaction on it. Each step is one log entry,
    applied atomically; a refused step changes nothing.

    Records are kept by kind. Data versions and transaction records are addressed by
    start timestamp, commit records by commit timestamp, and a key holds at most one lock
    and one read mark. */
module Mvcc {
  import opened Bytes
  import opened Hlc

  type Key = Bytes

  datatype Option<T> = None | Some(value: T)

  datatype Lock = Lock(primary: Key, start: Timestamp, deadline: Timestamp)

  /** A commit record, or the tombstone of a rolled-back start. */
  datatype Write = Write(start: Timestamp, rollback: bool)

  datatype Decision = Committed(at: Timestamp) | RolledBack

  datatype Kv = Kv(
    data: map<(Key, Timestamp), Bytes>,
    locks: map<Key, Lock>,
    writes: map<(Key, Timestamp), Write>,
    txns: map<(Key, Timestamp), Decision>,
    marks: map<Key, Timestamp>,
    gcMark: Timestamp)

  datatype Command =
    | Prewrite(key: Key, primary: Key, start: Timestamp, deadline: Timestamp, value: Bytes)
    | CommitKey(key: Key, start: Timestamp, commit: Timestamp)
    | RollbackKey(key: Key, start: Timestamp)
    | PutTxn(key: Key, start: Timestamp, decision: Decision)
    | Get(key: Key, read: Timestamp)
    | ResolveStatus(key: Key, start: Timestamp, deadline: Timestamp, expireAt: Timestamp)
    | ApplyResolution(key: Key, start: Timestamp, decision: Decision)

  // --- the three first-committer-wins guards ---------------------------------

  /** Somebody wrote a commit record or a tombstone above the snapshot. */
  ghost predicate WrittenAbove(kv: Kv, k: Key, s: Timestamp) {
    exists c :: (k, c) in kv.writes && s.Less(c)
  }

  predicate ReadAbove(kv: Kv, k: Key, s: Timestamp) { k in kv.marks && s.Less(kv.marks[k]) }

  /** A prewrite goes through: above the collection mark, no lock, and no commit and no
      answered read above the snapshot. */
  ghost predicate Prewritable(kv: Kv, k: Key, s: Timestamp) {
    s.IsSet() && kv.gcMark.Less(s) && k !in kv.locks && !WrittenAbove(kv, k, s) && !ReadAbove(kv, k, s)
  }

  // --- the steps -------------------------------------------------------------

  ghost function DoPrewrite(kv: Kv, k: Key, l: Lock, v: Bytes): Kv {
    if Prewritable(kv, k, l.start) then kv.(locks := kv.locks[k := l], data := kv.data[(k, l.start) := v]) else kv
  }

  /** The lock dropped if, and only if, this transaction holds it. */
  function Release(kv: Kv, k: Key, s: Timestamp): Kv {
    if k in kv.locks && kv.locks[k].start == s then kv.(locks := kv.locks - {k}) else kv
  }

  function DoCommit(kv: Kv, k: Key, s: Timestamp, c: Timestamp): Kv {
    if !s.IsSet() || !c.IsSet() || c.Less(s) then kv
    else Release(kv.(writes := kv.writes[(k, c) := Write(s, false)]), k, s)
  }

  function DoRollback(kv: Kv, k: Key, s: Timestamp): Kv {
    if !s.IsSet() then kv
    else Release(kv.(writes := kv.writes[(k, s) := Write(s, true)], data := kv.data - {(k, s)}), k, s)
  }

  /** A decision is written where there is none and never overwritten. */
  function DoPutTxn(kv: Kv, p: Key, s: Timestamp, d: Decision): Kv {
    if !s.IsSet() || (d.Committed? && !d.at.IsSet()) || (p, s) in kv.txns then kv
    else kv.(txns := kv.txns[(p, s) := d])
  }

  function DoNoteRead(kv: Kv, k: Key, t: Timestamp): Kv {
    if !t.IsSet() || (k in kv.marks && t.LessEq(kv.marks[k])) then kv else kv.(marks := kv.marks[k := t])
  }

  datatype Resolution = Wait | Forward(at: Timestamp) | Back

  /** What a resolver makes of a lock, from the record its primary names. */
  function ResolveLock(kv: Kv, l: Lock, now: Timestamp): Resolution {
    if (l.primary, l.start) in kv.txns then
      match kv.txns[(l.primary, l.start)]
      case Committed(c) => Forward(c)
      case RolledBack => Back
    else if now.LessEq(l.deadline) then Wait
    else Back
  }

  /** An expired owner is not concluded dead but made dead, through the log. */
  function DoResolveStatus(kv: Kv, p: Key, s: Timestamp, deadline: Timestamp, now: Timestamp): Kv {
    if ResolveLock(kv, Lock(p, s, deadline), now).Back? && (p, s) !in kv.txns then DoPutTxn(kv, p, s, RolledBack)
    else kv
  }

  function DoApplyResolution(kv: Kv, k: Key, s: Timestamp, d: Decision): Kv {
    if k !in kv.locks || kv.locks[k].start != s then kv
    else if d.Committed? then DoCommit(kv, k, s, d.at)
    else DoRollback(kv, k, s)
  }

  ghost function Apply(kv: Kv, c: Command): Kv {
    match c
    case Prewrite(k, p, s, deadline, v) => DoPrewrite(kv, k, Lock(p, s, deadline), v)
    case CommitKey(k, s, at) => DoCommit(kv, k, s, at)
    case RollbackKey(k, s) => DoRollback(kv, k, s)
    case PutTxn(k, s, d) => DoPutTxn(kv, k, s, d)
    case Get(k, t) => DoNoteRead(kv, k, t)
    case ResolveStatus(k, s, deadline, now) => DoResolveStatus(kv, k, s, deadline, now)
    case ApplyResolution(k, s, d) => DoApplyResolution(kv, k, s, d)
  }

  // --- reading ---------------------------------------------------------------

  /** A commit record proper, not a tombstone. */
  ghost predicate Real(kv: Kv, k: Key, c: Timestamp) { (k, c) in kv.writes && !kv.writes[(k, c)].rollback }

  /** The newest commit at or below t. */
  ghost predicate Newest(kv: Kv, k: Key, t: Timestamp, c: Timestamp) {
    Real(kv, k, c) && c.LessEq(t) && forall d :: Real(kv, k, d) && d.LessEq(t) ==> d.LessEq(c)
  }

  ghost function ValueAt(kv: Kv, k: Key, s: Timestamp): Option<Bytes> {
    if (k, s) in kv.data then Some(kv.data[(k, s)]) else None
  }

  /** A real commit above the read and inside its uncertainty interval. */
  ghost predicate UncertainAt(kv: Kv, k: Key, t: Timestamp, ceiling: Timestamp, c: Timestamp) {
    Real(kv, k, c) && t.Less(c) && c.LessEq(ceiling)
  }

  datatype ReadResult = Unset | BelowMark | LockedBy(lock: Lock) | Uncertain(at: Timestamp)
                      | Missing(at: Timestamp) | Found(value: Bytes) | Absent

  /** A snapshot read: refused below the collection mark, blocked by a lock at or below
      the snapshot, else uncertain on the greatest real commit inside the interval, else
      the value of the newest real commit at or below the snapshot. */
  ghost predicate GetSpec(kv: Kv, k: Key, t: Timestamp, ceiling: Timestamp, r: ReadResult) {
    if !t.IsSet() then r == Unset
    else if t.LessEq(kv.gcMark) then r == BelowMark
    else if k in kv.locks && kv.locks[k].start.LessEq(t) then r == LockedBy(kv.locks[k])
    else if exists c :: UncertainAt(kv, k, t, ceiling, c) then
      && r.Uncertain? && UncertainAt(kv, k, t, ceiling, r.at)
      && forall c :: UncertainAt(kv, k, t, ceiling, c) ==> c.LessEq(r.at)
    else if exists c :: Newest(kv, k, t, c) then
      exists c :: Newest(kv, k, t, c) &&
        r == match ValueAt(kv, k, kv.writes[(k, c)].start) case Some(v) => Found(v) case None => Missing(c)
    else r == Absent
  }

  // --- plain versions --------------------------------------------------------

  ghost predicate NewestVersion(kv: Kv, k: Key, t: Timestamp, s: Timestamp) {
    (k, s) in kv.data && s.LessEq(t) && forall u :: (k, u) in kv.data && u.LessEq(t) ==> u.LessEq(s)
  }

  /** A plain read at t: the newest version at or below it. */
  ghost predicate ReadAtSpec(kv: Kv, k: Key, t: Timestamp, r: ReadResult) {
    if !t.IsSet() then r == Unset
    else if t.LessEq(kv.gcMark) then r == BelowMark
    else if exists s :: NewestVersion(kv, k, t, s) then
      exists s :: NewestVersion(kv, k, t, s) && r == Found(kv.data[(k, s)])
    else r == Absent
  }

  /** What a collection keeps: versions at or above the mark, and each key's newest below it. */
  ghost predicate GcKeeps(data: map<(Key, Timestamp), Bytes>, k: Key, s: Timestamp, to: Timestamp) {
    to.LessEq(s) || forall u :: (k, u) in data && u.Less(to) ==> u.LessEq(s)
  }

  ghost function AdvanceGC(kv: Kv, to: Timestamp): Kv {
    if !to.IsSet() || to.LessEq(kv.gcMark) then kv
    else kv.(data := map p | p in kv.data && GcKeeps(kv.data, p.0, p.1, to) :: kv.data[p], gcMark := to)
  }

  /** A collection changes no plain read above the new mark. */
  lemma GcPreservesReads(kv: Kv, to: Timestamp, k: Key, t: Timestamp, r: ReadResult)
    requires kv.gcMark.Less(to) && to.IsSet() && to.Less(t) && t.IsSet()
    ensures ReadAtSpec(kv, k, t, r) <==> ReadAtSpec(AdvanceGC(kv, to), k, t, r)
  {
    var kv' := AdvanceGC(kv, to);
    forall s ensures NewestVersion(kv, k, t, s) <==> NewestVersion(kv', k, t, s) { GcKeepsNewest(kv, to, k, t, s); }
  }

  /** A collection does collect: the mark moves, everything older than a key's newest version
      below it goes, and nothing but data does. */
  lemma GcCollects(kv: Kv, to: Timestamp, k: Key, s: Timestamp, u: Timestamp)
    requires kv.gcMark.Less(to) && to.IsSet() && (k, u) in kv.data && s.Less(u) && u.Less(to)
    ensures (k, s) !in AdvanceGC(kv, to).data
    ensures AdvanceGC(kv, to) == kv.(data := AdvanceGC(kv, to).data, gcMark := to)
  {}

  lemma GcKeepsNewest(kv: Kv, to: Timestamp, k: Key, t: Timestamp, s: Timestamp)
    requires kv.gcMark.Less(to) && to.IsSet() && to.Less(t)
    ensures NewestVersion(kv, k, t, s) <==> NewestVersion(AdvanceGC(kv, to), k, t, s)
  {
    var kv' := AdvanceGC(kv, to);
    if NewestVersion(kv', k, t, s) {
      forall u | (k, u) in kv.data && u.LessEq(t) ensures u.LessEq(s) {
        KeptAtOrAbove(kv, to, k, t, u);
        var w :| (k, w) in kv'.data && w.LessEq(t) && u.LessEq(w);
      }
    }
  }

  ghost function NewerVersions(kv: Kv, k: Key, u: Timestamp): set<(Key, Timestamp)> {
    set p | p in kv.data && p.0 == k && u.Less(p.1)
  }

  /** Every version at or below t is matched by a kept one at or above it. */
  lemma {:induction false} KeptAtOrAbove(kv: Kv, to: Timestamp, k: Key, t: Timestamp, u: Timestamp)
    requires kv.gcMark.Less(to) && to.IsSet() && to.Less(t) && (k, u) in kv.data && u.LessEq(t)
    ensures exists w :: (k, w) in AdvanceGC(kv, to).data && w.LessEq(t) && u.LessEq(w)
    decreases NewerVersions(kv, k, u)
  {
    if GcKeeps(kv.data, k, u, to) {
      assert (k, u) in AdvanceGC(kv, to).data;
    } else {
      var w :| (k, w) in kv.data && w.Less(to) && u.Less(w);
      assert (k, w) in NewerVersions(kv, k, u) && (k, w) !in NewerVersions(kv, k, w);
      KeptAtOrAbove(kv, to, k, t, w);
    }
  }
}
