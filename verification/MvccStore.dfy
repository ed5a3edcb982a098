/** The store as the program keeps it: records behind an ordered iterator, a collection
    mark and counters, changed in place by each transaction step. */
module MvccStore {
  import opened Bytes
  import opened Hlc
  import opened Mvcc
  import T = Transactions

  // --- the iterator ----------------------------------------------------------

  ghost predicate NewestFirst(ts: seq<Timestamp>) {
    forall i, j :: 0 <= i < j < |ts| ==> ts[j].Less(ts[i])
  }

  method Greatest(s: set<Timestamp>) returns (m: Timestamp)
    requires s != {}
    ensures m in s && forall t :: t in s ==> t.LessEq(m)
  {
    m :| m in s;
    var rest := s - {m};
    while rest != {}
      invariant m in s && rest <= s && forall t :: t in s && t !in rest ==> t.LessEq(m)
      decreases |rest|
    {
      var t :| t in rest;
      if m.Less(t) { m := t; }
      rest := rest - {t};
    }
  }

  /** A prefix scan, whose byte order is reverse timestamp order. */
  method Scan(s: set<Timestamp>) returns (ts: seq<Timestamp>)
    ensures NewestFirst(ts) && forall t :: t in ts <==> t in s
  {
    ts := [];
    var rest := s;
    while rest != {}
      invariant rest <= s && NewestFirst(ts)
      invariant forall t :: t in s <==> t in rest || t in ts
      invariant forall i, t :: 0 <= i < |ts| && t in rest ==> t.Less(ts[i])
      decreases |rest|
    {
      var m := Greatest(rest);
      ts := ts + [m];
      rest := rest - {m};
    }
  }

  function CommitsOf(kv: Kv, k: Key): (s: set<Timestamp>)
    ensures forall c :: c in s <==> (k, c) in kv.writes
  { set p | p in kv.writes && p.0 == k :: p.1 }

  function VersionsOf(kv: Kv, k: Key): (s: set<Timestamp>)
    ensures forall c :: c in s <==> (k, c) in kv.data
  { set p | p in kv.data && p.0 == k :: p.1 }

  datatype Refusal = UnsetTimestamp | BelowGCMark | KeyIsLocked | WriteConflict | AlreadyDecided | CommitBeforeStart

  class Store {
    var kv: Kv
    var readCount: nat
    var readsRefused: nat
    var readsBlocked: nat
    var uncertaintyRestarts: nat
    var prewrites: nat
    var readConflicts: nat
    var commits: nat
    var rollbacks: nat
    var foreignLocksKept: nat
    var readMarks: nat
    var versionsGCd: nat

    constructor ()
      ensures kv == Kv(map[], map[], map[], map[], map[], Timestamp(0, 0))
    {
      kv := Kv(map[], map[], map[], map[], map[], Timestamp(0, 0));
    }

    method NewestCommit(k: Key) returns (c: Option<Timestamp>)
      ensures c.None? <==> forall t :: (k, t) !in kv.writes
      ensures c.Some? ==> (k, c.value) in kv.writes && forall t :: (k, t) in kv.writes ==> t.LessEq(c.value)
    {
      var cs := Scan(CommitsOf(kv, k));
      if cs == [] {
        assert forall t :: t in CommitsOf(kv, k) <==> t in cs;
        return None;
      }
      assert cs[0] in CommitsOf(kv, k);
      assert forall t :: (k, t) in kv.writes ==> t in CommitsOf(kv, k) && t in cs;
      return Some(cs[0]);
    }

    /** Refused exactly when a guard refuses it, naming the first guard that does. */
    method PrewriteInto(k: Key, l: Lock, v: Bytes) returns (e: Option<Refusal>)
      modifies this
      ensures kv == DoPrewrite(old(kv), k, l, v)
      ensures e.None? <==> Prewritable(old(kv), k, l.start)
      ensures e == Some(KeyIsLocked) ==> k in old(kv).locks
      ensures e == Some(WriteConflict) ==>
        k !in old(kv).locks && (WrittenAbove(old(kv), k, l.start) || ReadAbove(old(kv), k, l.start))
    {
      if !l.start.IsSet() { return Some(UnsetTimestamp); }
      if l.start.LessEq(kv.gcMark) { return Some(BelowGCMark); }
      if k in kv.locks { return Some(KeyIsLocked); }
      var c := NewestCommit(k);
      if c.Some? && l.start.Less(c.value) {
        assert WrittenAbove(kv, k, l.start);
        return Some(WriteConflict);
      }
      assert !WrittenAbove(kv, k, l.start);
      if k in kv.marks && l.start.Less(kv.marks[k]) {
        readConflicts := readConflicts + 1;
        return Some(WriteConflict);
      }
      kv := kv.(locks := kv.locks[k := l], data := kv.data[(k, l.start) := v]);
      prewrites := prewrites + 1;
      return None;
    }

    method ReleaseLockOf(k: Key, s: Timestamp)
      modifies this`kv, this`foreignLocksKept
      ensures kv == Release(old(kv), k, s)
    {
      if k !in kv.locks || kv.locks[k].start != s {
        foreignLocksKept := foreignLocksKept + 1;
        return;
      }
      kv := kv.(locks := kv.locks - {k});
    }

    method CommitInto(k: Key, s: Timestamp, c: Timestamp) returns (e: Option<Refusal>)
      modifies this
      ensures kv == DoCommit(old(kv), k, s, c)
      ensures e.None? <==> s.IsSet() && c.IsSet() && s.LessEq(c)
      ensures e.None? ==> Real(kv, k, c) && kv.writes[(k, c)].start == s && !T.Locked(kv, k, s)
    {
      if !s.IsSet() || !c.IsSet() { return Some(UnsetTimestamp); }
      if c.Less(s) { return Some(CommitBeforeStart); }
      kv := kv.(writes := kv.writes[(k, c) := Write(s, false)]);
      ReleaseLockOf(k, s);
      commits := commits + 1;
      return None;
    }

    method RollbackInto(k: Key, s: Timestamp) returns (e: Option<Refusal>)
      modifies this
      ensures kv == DoRollback(old(kv), k, s)
      ensures e.None? <==> s.IsSet()
      ensures e.None? ==> (k, s) !in kv.data && (k, s) in kv.writes && kv.writes[(k, s)].rollback && !T.Locked(kv, k, s)
    {
      if !s.IsSet() { return Some(UnsetTimestamp); }
      kv := kv.(writes := kv.writes[(k, s) := Write(s, true)], data := kv.data - {(k, s)});
      ReleaseLockOf(k, s);
      rollbacks := rollbacks + 1;
      return None;
    }

    method PutTxnInto(p: Key, s: Timestamp, d: Decision) returns (e: Option<Refusal>)
      modifies this
      ensures kv == DoPutTxn(old(kv), p, s, d)
      ensures e == Some(AlreadyDecided) ==> (p, s) in old(kv).txns
      ensures e.None? ==> (p, s) !in old(kv).txns && (p, s) in kv.txns && kv.txns[(p, s)] == d
    {
      if !s.IsSet() || (d.Committed? && !d.at.IsSet()) { return Some(UnsetTimestamp); }
      if (p, s) in kv.txns { return Some(AlreadyDecided); }
      kv := kv.(txns := kv.txns[(p, s) := d]);
      return None;
    }

    method NoteReadInto(k: Key, t: Timestamp) returns (e: Option<Refusal>)
      modifies this
      ensures kv == DoNoteRead(old(kv), k, t)
      ensures e.None? ==> k in kv.marks && t.LessEq(kv.marks[k])
    {
      if !t.IsSet() { return Some(UnsetTimestamp); }
      if k in kv.marks && t.LessEq(kv.marks[k]) { return None; }
      kv := kv.(marks := kv.marks[k := t]);
      readMarks := readMarks + 1;
      return None;
    }

    /** One transaction command, as the log carries it. */
    method ApplyCommand(c: Command)
      modifies this
      ensures kv == Apply(old(kv), c)
    {
      match c {
        case Prewrite(k, p, s, deadline, v) => var _ := PrewriteInto(k, Lock(p, s, deadline), v);
        case CommitKey(k, s, at) => var _ := CommitInto(k, s, at);
        case RollbackKey(k, s) => var _ := RollbackInto(k, s);
        case PutTxn(k, s, d) => var _ := PutTxnInto(k, s, d);
        case Get(k, t) => var _ := NoteReadInto(k, t);
        case ResolveStatus(k, s, deadline, now) =>
          if ResolveLock(kv, Lock(k, s, deadline), now).Back? && (k, s) !in kv.txns {
            var _ := PutTxnInto(k, s, RolledBack);
          }
        case ApplyResolution(k, s, d) =>
          if k in kv.locks && kv.locks[k].start == s {
            if d.Committed? { var _ := CommitInto(k, s, d.at); } else { var _ := RollbackInto(k, s); }
          }
      }
    }

    /** The newest-first walk of the commit records. */
    method ScanCommits(k: Key, t: Timestamp, ceiling: Timestamp) returns (r: ReadResult)
      requires t.IsSet() && !t.LessEq(kv.gcMark) && (k in kv.locks ==> !kv.locks[k].start.LessEq(t))
      modifies this`uncertaintyRestarts
      ensures GetSpec(kv, k, t, ceiling, r)
    {
      var cs := Scan(CommitsOf(kv, k));
      assert forall c :: (k, c) in kv.writes <==> c in cs;
      var i := 0;
      while i < |cs|
        invariant 0 <= i <= |cs|
        invariant forall j :: 0 <= j < i && Real(kv, k, cs[j]) ==> t.Less(cs[j]) && ceiling.Less(cs[j])
      {
        var c := cs[i];
        var w := kv.writes[(k, c)];
        if t.Less(c) {
          if !w.rollback && c.LessEq(ceiling) {
            uncertaintyRestarts := uncertaintyRestarts + 1;
            assert UncertainAt(kv, k, t, ceiling, c);
            return Uncertain(c);
          }
        } else if !w.rollback {
          assert Newest(kv, k, t, c);
          if (k, w.start) !in kv.data { return Missing(c); }
          return Found(kv.data[(k, w.start)]);
        }
        i := i + 1;
      }
      return Absent;
    }

    method GetTxn(k: Key, t: Timestamp, ceiling: Timestamp) returns (r: ReadResult)
      modifies this
      ensures kv == old(kv) && GetSpec(kv, k, t, ceiling, r)
    {
      if !t.IsSet() { return Unset; }
      readCount := readCount + 1;
      if t.LessEq(kv.gcMark) {
        readsRefused := readsRefused + 1;
        return BelowMark;
      }
      if k in kv.locks && kv.locks[k].start.LessEq(t) {
        readsBlocked := readsBlocked + 1;
        return LockedBy(kv.locks[k]);
      }
      r := ScanCommits(k, t, ceiling);
    }

    /** One seek to (key, t): the first version the walk meets at or below t. */
    method ReadAt(k: Key, t: Timestamp) returns (r: ReadResult)
      modifies this
      ensures kv == old(kv) && ReadAtSpec(kv, k, t, r)
    {
      if !t.IsSet() { return Unset; }
      readCount := readCount + 1;
      if t.LessEq(kv.gcMark) {
        readsRefused := readsRefused + 1;
        return BelowMark;
      }
      var vs := Scan(VersionsOf(kv, k));
      assert forall s :: (k, s) in kv.data <==> s in vs;
      var i := 0;
      while i < |vs| && t.Less(vs[i])
        invariant 0 <= i <= |vs| && forall j :: 0 <= j < i ==> t.Less(vs[j])
      {
        i := i + 1;
      }
      if i == |vs| { return Absent; }
      assert NewestVersion(kv, k, t, vs[i]);
      return Found(kv.data[(k, vs[i])]);
    }

    /** One key's chain: everything below the mark but the newest is dropped. */
    method Doomed(k: Key, to: Timestamp) returns (gone: set<Timestamp>)
      ensures forall s :: s in gone <==> (k, s) in kv.data && !GcKeeps(kv.data, k, s, to)
    {
      var vs := Scan(VersionsOf(kv, k));
      assert forall s :: (k, s) in kv.data <==> s in vs;
      gone := {};
      var kept := false;
      ghost var keeper := 0;
      var i := 0;
      while i < |vs|
        invariant 0 <= i <= |vs| && 0 <= keeper <= i
        invariant if kept then keeper < i && vs[keeper].Less(to) else keeper == i && gone == {}
        invariant forall j :: 0 <= j < keeper ==> to.LessEq(vs[j])
        invariant forall s :: s in gone <==> exists j :: keeper < j < i && vs[j] == s
      {
        if to.LessEq(vs[i]) {
          if !kept { keeper := i + 1; }
        } else if !kept {
          kept := true;
        } else {
          gone := gone + {vs[i]};
        }
        i := i + 1;
      }
      forall j | 0 <= j < |vs| ensures GcKeeps(kv.data, k, vs[j], to) <==> j <= keeper {
        if keeper < j { assert (k, vs[keeper]) in kv.data && !vs[keeper].LessEq(vs[j]); }
      }
    }

    /** The walk over every key's chain. */
    method AdvanceGCInto(to: Timestamp) returns (e: Option<Refusal>)
      modifies this
      ensures kv == AdvanceGC(old(kv), to)
      ensures e.None? <==> to.IsSet()
    {
      if !to.IsSet() { return Some(UnsetTimestamp); }
      if to.LessEq(kv.gcMark) { return None; }
      var keys := set p | p in kv.data :: p.0;
      var rest := keys;
      var gone: set<(Key, Timestamp)> := {};
      while rest != {}
        invariant rest <= keys && kv == old(kv)
        invariant forall p :: p in gone <==> p in kv.data && p.0 !in rest && !GcKeeps(kv.data, p.0, p.1, to)
        decreases |rest|
      {
        var k :| k in rest;
        var g := Doomed(k, to);
        gone := gone + set s | s in g :: (k, s);
        rest := rest - {k};
      }
      versionsGCd := versionsGCd + |gone|;
      kv := kv.(data := kv.data - gone, gcMark := to);
      assert kv.data == AdvanceGC(old(kv), to).data;
      return None;
    }
  }

  // --- reads settle, and restarts end ----------------------------------------

  /** When each answer is given: refused, blocked and uncertain exactly on the store's say, and
      otherwise the value of the newest commit at or below the read, or none. */
  lemma GetDecides(kv: Kv, k: Key, t: Timestamp, ceiling: Timestamp, r: ReadResult)
    requires GetSpec(kv, k, t, ceiling, r)
    ensures r.Unset? <==> !t.IsSet()
    ensures r.BelowMark? <==> t.IsSet() && t.LessEq(kv.gcMark)
    ensures var open := t.IsSet() && kv.gcMark.Less(t);
      && (r.LockedBy? <==> open && k in kv.locks && kv.locks[k].start.LessEq(t))
      && (r.LockedBy? ==> r.lock == kv.locks[k])
    ensures var free := t.IsSet() && kv.gcMark.Less(t) && !(k in kv.locks && kv.locks[k].start.LessEq(t));
      && (r.Uncertain? <==> free && exists c :: Real(kv, k, c) && t.Less(c) && c.LessEq(ceiling))
      && (r.Found? || r.Missing? || r.Absent? <==> free && forall c :: Real(kv, k, c) && t.Less(c) ==> ceiling.Less(c))
  {
    if c :| UncertainAt(kv, k, t, ceiling, c) { assert Real(kv, k, c) && t.Less(c) && c.LessEq(ceiling); }
    if c :| Real(kv, k, c) && t.Less(c) && c.LessEq(ceiling) { assert UncertainAt(kv, k, t, ceiling, c); }
  }

  /** A read that returns, returns the settled answer. */
  lemma GetSettles(kv: Kv, k: Key, t: Timestamp, ceiling: Timestamp, r: ReadResult)
    requires GetSpec(kv, k, t, ceiling, r) && (r.Found? || r.Absent?)
    ensures T.Answers(kv, k, t, if r.Found? then Some(r.value) else None)
  {
    if r.Absent? {
      forall c | Real(kv, k, c) ensures t.Less(c) {
        if c.LessEq(t) { NewestExists(kv, k, t, c); }
      }
    }
  }

  ghost function CommitsFrom(kv: Kv, k: Key, t: Timestamp, c: Timestamp): set<(Key, Timestamp)> {
    set p | p in kv.writes && p.0 == k && c.Less(p.1)
  }

  lemma {:induction false} NewestExists(kv: Kv, k: Key, t: Timestamp, c: Timestamp)
    requires Real(kv, k, c) && c.LessEq(t)
    ensures exists d :: Newest(kv, k, t, d)
    decreases CommitsFrom(kv, k, t, c)
  {
    if !Newest(kv, k, t, c) {
      var d :| Real(kv, k, d) && d.LessEq(t) && c.Less(d);
      assert (k, d) in CommitsFrom(kv, k, t, c) && (k, d) !in CommitsFrom(kv, k, t, d);
      NewestExists(kv, k, t, d);
    }
  }

  /** How many timestamps lie from t up to the ceiling. */
  function RoomBelow(t: Timestamp, ceiling: Timestamp): nat {
    if ceiling.Less(t) then 0
    else
      var n := (ceiling.wall - t.wall) * LIMIT + ceiling.logical - t.logical;
      if n < 0 then 0 else n + 1
  }

  /** A restart goes strictly above the commit that caused it, and with the ceiling fixed
      the interval strictly shrinks. */
  lemma RestartShrinks(kv: Kv, k: Key, t: Timestamp, ceiling: Timestamp, r: ReadResult)
    requires GetSpec(kv, k, t, ceiling, r) && r.Uncertain? && t.Fits() && ceiling.Fits() && r.at.Fits()
    ensures r.at.Less(r.at.Next()) && r.at.Next().Fits()
    ensures RoomBelow(r.at.Next(), ceiling) < RoomBelow(t, ceiling)
  {
    var c := r.at;
    assert t.Less(c) && c.LessEq(ceiling);
  }

  ghost predicate Restarted(ts: seq<Timestamp>, ceiling: Timestamp, i: nat)
    requires i + 1 < |ts|
  {
    && ts[i].Fits() && ts[i].Less(ts[i + 1])
    && exists c: Timestamp :: c.Fits() && ts[i].Less(c) && c.LessEq(ceiling) && ts[i + 1] == c.Next()
  }

  /** However the store changes between attempts, the number of restarts is bounded. */
  lemma {:induction false} RestartsEnd(ts: seq<Timestamp>, ceiling: Timestamp)
    requires ts != [] && ceiling.Fits() && ts[0].Fits() && forall i :: 0 <= i < |ts| - 1 ==> Restarted(ts, ceiling, i)
    ensures |ts| - 1 <= RoomBelow(ts[0], ceiling)
  {
    if |ts| > 1 {
      assert Restarted(ts, ceiling, 0);
      var c: Timestamp :| c.Fits() && ts[0].Less(c) && c.LessEq(ceiling) && ts[1] == c.Next();
      RoomDrops(ts[0], c, ceiling);
      forall i | 0 <= i < |ts[1..]| - 1 ensures Restarted(ts[1..], ceiling, i) { assert Restarted(ts, ceiling, i + 1); }
      RestartsEnd(ts[1..], ceiling);
    }
  }

  lemma RoomDrops(t: Timestamp, c: Timestamp, ceiling: Timestamp)
    requires t.Fits() && c.Fits() && ceiling.Fits() && t.Less(c) && c.LessEq(ceiling)
    ensures c.Next().Fits() && RoomBelow(c.Next(), ceiling) < RoomBelow(t, ceiling)
  {}
}
