/** Splits across the whole key space: the extents always tile it, of two splits cut from
    one extent at most one takes effect, and a transaction step means the same to a range
    as to the whole store. */
module Splits {
  import opened Bytes
  import opened Hlc
  import opened Mvcc
  import opened RangeMachine
  import opened ApplyPaths

  // --- extents tile the key space --------------------------------------------

  ghost predicate Owns(ds: set<Descriptor>, d: Descriptor, k: Key) { d in ds && Contains(d, k) }

  ghost predicate Covered(ds: set<Descriptor>, k: Key) { exists d :: Owns(ds, d, k) }

  /** Every key is in exactly one extent. */
  ghost predicate Tiles(ds: set<Descriptor>) {
    && (forall k :: Covered(ds, k))
    && (forall d, e, k :: Owns(ds, d, k) && Owns(ds, e, k) ==> d == e)
  }

  const FirstRange := Descriptor(1, [], Unbounded, 1)

  lemma FirstRangeTiles(ds: set<Descriptor>)
    requires ds == {FirstRange}
    ensures Tiles(ds)
  {
    forall k: Key ensures Covered(ds, k) { assert Owns(ds, FirstRange, k); }
  }

  ghost function AfterSplit(ds: set<Descriptor>, d: Descriptor, s: SplitSpec): set<Descriptor> {
    ds - {d} + {s.left, s.right}
  }

  lemma OwnerAfter(ds: set<Descriptor>, d: Descriptor, s: SplitSpec, ds': set<Descriptor>, k: Key)
    requires Tiles(ds) && d in ds && CutOf(d, s) && ds' == AfterSplit(ds, d, s)
    ensures Covered(ds', k)
  {
    assert Covered(ds, k);
    var e :| Owns(ds, e, k);
    if e == d {
      HalvesPartition(d, s, k);
      if Contains(s.left, k) { assert Owns(ds', s.left, k); } else { assert Owns(ds', s.right, k); }
    } else {
      assert Owns(ds', e, k);
    }
  }

  lemma OneOwnerAfter(ds: set<Descriptor>, d: Descriptor, s: SplitSpec, ds': set<Descriptor>,
                      a: Descriptor, b: Descriptor, k: Key)
    requires Tiles(ds) && d in ds && CutOf(d, s) && ds' == AfterSplit(ds, d, s) && Owns(ds', a, k) && Owns(ds', b, k)
    ensures a == b
  {
    HalvesPartition(d, s, k);
    if a in ds && a != d && b in ds && b != d { assert Owns(ds, a, k) && Owns(ds, b, k); }
    else if a in ds && a != d { assert Owns(ds, a, k) && Owns(ds, d, k); }
    else if b in ds && b != d { assert Owns(ds, b, k) && Owns(ds, d, k); }
  }

  lemma SplitKeepsTiling(ds: set<Descriptor>, d: Descriptor, s: SplitSpec)
    requires Tiles(ds) && d in ds && CutOf(d, s)
    ensures Tiles(AfterSplit(ds, d, s))
  {
    var ds' := AfterSplit(ds, d, s);
    forall k: Key ensures Covered(ds', k) { OwnerAfter(ds, d, s, ds', k); }
    forall a, b, k | Owns(ds', a, k) && Owns(ds', b, k) ensures a == b { OneOwnerAfter(ds, d, s, ds', a, b, k); }
  }

  /** A current split, whoever proposed it and when, is a cut of the extent it meets. */
  lemma CurrentIsCut(d: Descriptor, s: SplitSpec)
    requires WellCut(Split(s)) && Current(d, s) && d.end != Below([]) && s.left.id == d.id
    ensures CutOf(d, s) && s.left.end != Below([]) && s.right.end != Below([])
  {
    var o :| CutOf(o, s);
    assert o == d;
  }

  /** One committed split entry in range d's log: it takes effect if current, else is
      skipped. Whoever led range d when it was proposed cut it from an extent of d. */
  ghost predicate SplitTo(ds: set<Descriptor>, d: Descriptor, s: SplitSpec, ds': set<Descriptor>) {
    && d in ds && WellCut(Split(s)) && s.left.id == d.id
    && ds' == if Current(d, s) then AfterSplit(ds, d, s) else ds
  }

  ghost predicate Splitting(ds: set<Descriptor>, ds': set<Descriptor>) { exists d, s :: SplitTo(ds, d, s, ds') }

  ghost predicate StepAt(dss: seq<set<Descriptor>>, i: nat)
    requires i + 1 < |dss|
  { Splitting(dss[i], dss[i + 1]) }

  ghost predicate SplitRun(dss: seq<set<Descriptor>>) {
    dss != [] && dss[0] == {FirstRange} && forall i :: 0 <= i < |dss| - 1 ==> StepAt(dss, i)
  }

  ghost predicate ProperEnds(ds: set<Descriptor>) { forall d :: d in ds ==> d.end != Below([]) }

  lemma StepTiles(ds: set<Descriptor>, d: Descriptor, s: SplitSpec, ds': set<Descriptor>)
    requires Tiles(ds) && ProperEnds(ds) && SplitTo(ds, d, s, ds')
    ensures Tiles(ds') && ProperEnds(ds')
  {
    if Current(d, s) {
      CurrentIsCut(d, s);
      SplitKeepsTiling(ds, d, s);
    }
  }

  /** Whatever split entries commit, on whatever ranges, stale or current, the extents
      partition the key space. */
  lemma {:induction false} ExtentsAlwaysTile(dss: seq<set<Descriptor>>, i: nat)
    requires SplitRun(dss) && i < |dss|
    ensures Tiles(dss[i]) && ProperEnds(dss[i])
  {
    if i == 0 {
      FirstRangeTiles(dss[0]);
    } else {
      ExtentsAlwaysTile(dss, i - 1);
      assert StepAt(dss, i - 1) && Splitting(dss[i - 1], dss[i]);
      var d, s :| SplitTo(dss[i - 1], d, s, dss[i]);
      StepTiles(dss[i - 1], d, s, dss[i]);
    }
  }

  // --- at most one of two ----------------------------------------------------

  lemma {:induction false} EpochNeverFalls(m: Machine, ops: seq<Op>, i: nat, j: nat)
    requires i <= j <= |ops|
    ensures ApplyAll(m, ops[..i]).desc.epoch <= ApplyAll(m, ops[..j]).desc.epoch
  {
    if i < j {
      EpochNeverFalls(m, ops, i, j - 1);
      assert ops[..j][..j - 1] == ops[..j - 1];
    }
  }

  /** Two splits computed from one descriptor, both committed: the second is stale. */
  lemma AtMostOneSplit(m: Machine, ops: seq<Op>, i: nat, j: nat, d: Descriptor, s: SplitSpec, t: SplitSpec)
    requires i < j < |ops| && ops[i] == Split(s) && ops[j] == Split(t) && CutOf(d, s) && CutOf(d, t)
    requires Current(ApplyAll(m, ops[..i]).desc, s)
    ensures !Current(ApplyAll(m, ops[..j]).desc, t)
    ensures ApplyAll(m, ops[..j + 1]) == ApplyAll(m, ops[..j])
  {
    assert ops[..i + 1][..i] == ops[..i] && ops[..j + 1][..j] == ops[..j];
    EpochNeverFalls(m, ops, i + 1, j);
  }

  // --- a range is a window on the whole store --------------------------------

  lemma WrittenAboveLocal(kv: Kv, d: Descriptor, k: Key, s: Timestamp)
    requires Contains(d, k)
    ensures WrittenAbove(Restrict(kv, d), k, s) <==> WrittenAbove(kv, k, s)
  {
    forall c ensures (k, c) in Restrict(kv, d).writes <==> (k, c) in kv.writes {}
  }

  lemma DataLocal(kv: Kv, d: Descriptor, k: Key, t: Timestamp, v: Bytes)
    ensures var h := Restrict(kv, d); var m := Restrict(kv.(data := kv.data[(k, t) := v]), d);
      m == if Contains(d, k) then h.(data := h.data[(k, t) := v]) else h
  {
    var h, m := Restrict(kv, d), Restrict(kv.(data := kv.data[(k, t) := v]), d);
    if Contains(d, k) { assert m.data == h.data[(k, t) := v]; } else { assert m.data == h.data; }
  }

  lemma DropLocal(kv: Kv, d: Descriptor, k: Key, t: Timestamp)
    ensures var h := Restrict(kv, d); var m := Restrict(kv.(data := kv.data - {(k, t)}), d);
      m == if Contains(d, k) then h.(data := h.data - {(k, t)}) else h
  {
    var h, m := Restrict(kv, d), Restrict(kv.(data := kv.data - {(k, t)}), d);
    if Contains(d, k) { assert m.data == h.data - {(k, t)}; } else { assert m.data == h.data; }
  }

  lemma LockLocal(kv: Kv, d: Descriptor, k: Key, l: Lock)
    ensures var h := Restrict(kv, d); var m := Restrict(kv.(locks := kv.locks[k := l]), d);
      m == if Contains(d, k) then h.(locks := h.locks[k := l]) else h
  {
    var h, m := Restrict(kv, d), Restrict(kv.(locks := kv.locks[k := l]), d);
    if Contains(d, k) { assert m.locks == h.locks[k := l]; } else { assert m.locks == h.locks; }
  }

  lemma WriteLocal(kv: Kv, d: Descriptor, k: Key, t: Timestamp, w: Write)
    ensures var h := Restrict(kv, d); var m := Restrict(kv.(writes := kv.writes[(k, t) := w]), d);
      m == if Contains(d, k) then h.(writes := h.writes[(k, t) := w]) else h
  {
    var h, m := Restrict(kv, d), Restrict(kv.(writes := kv.writes[(k, t) := w]), d);
    if Contains(d, k) { assert m.writes == h.writes[(k, t) := w]; } else { assert m.writes == h.writes; }
  }

  lemma PrewriteLocal(kv: Kv, d: Descriptor, k: Key, l: Lock, v: Bytes)
    ensures Restrict(DoPrewrite(kv, k, l, v), d) ==
      if Contains(d, k) then DoPrewrite(Restrict(kv, d), k, l, v) else Restrict(kv, d)
  {
    if Contains(d, k) {
      WrittenAboveLocal(kv, d, k, l.start);
      assert Prewritable(Restrict(kv, d), k, l.start) <==> Prewritable(kv, k, l.start);
    }
    LockLocal(kv, d, k, l);
    DataLocal(kv.(locks := kv.locks[k := l]), d, k, l.start, v);
  }

  lemma ReleaseLocal(kv: Kv, d: Descriptor, k: Key, s: Timestamp)
    ensures Restrict(Release(kv, k, s), d) == if Contains(d, k) then Release(Restrict(kv, d), k, s) else Restrict(kv, d)
  {
    var a := Restrict(Release(kv, k, s), d);
    var b := if Contains(d, k) then Release(Restrict(kv, d), k, s) else Restrict(kv, d);
    assert a.locks == b.locks;
  }

  lemma CommitLocal(kv: Kv, d: Descriptor, k: Key, s: Timestamp, c: Timestamp)
    ensures Restrict(DoCommit(kv, k, s, c), d) ==
      if Contains(d, k) then DoCommit(Restrict(kv, d), k, s, c) else Restrict(kv, d)
  {
    WriteLocal(kv, d, k, c, Write(s, false));
    ReleaseLocal(kv.(writes := kv.writes[(k, c) := Write(s, false)]), d, k, s);
  }

  lemma RollbackLocal(kv: Kv, d: Descriptor, k: Key, s: Timestamp)
    ensures Restrict(DoRollback(kv, k, s), d) ==
      if Contains(d, k) then DoRollback(Restrict(kv, d), k, s) else Restrict(kv, d)
  {
    var m := kv.(writes := kv.writes[(k, s) := Write(s, true)]);
    WriteLocal(kv, d, k, s, Write(s, true));
    DropLocal(m, d, k, s);
    ReleaseLocal(m.(data := m.data - {(k, s)}), d, k, s);
  }

  lemma RecordLocal(kv: Kv, d: Descriptor, k: Key, s: Timestamp, x: Decision)
    ensures Restrict(DoPutTxn(kv, k, s, x), d) ==
      if Contains(d, k) then DoPutTxn(Restrict(kv, d), k, s, x) else Restrict(kv, d)
  {
    var a := Restrict(DoPutTxn(kv, k, s, x), d);
    var b := if Contains(d, k) then DoPutTxn(Restrict(kv, d), k, s, x) else Restrict(kv, d);
    assert a.txns == b.txns;
  }

  lemma MarkLocal(kv: Kv, d: Descriptor, k: Key, t: Timestamp)
    ensures Restrict(DoNoteRead(kv, k, t), d) ==
      if Contains(d, k) then DoNoteRead(Restrict(kv, d), k, t) else Restrict(kv, d)
  {
    var a := Restrict(DoNoteRead(kv, k, t), d);
    var b := if Contains(d, k) then DoNoteRead(Restrict(kv, d), k, t) else Restrict(kv, d);
    assert a.marks == b.marks;
  }

  /** Applying a step to the whole store and looking at one range is looking first and
      applying there, or nothing if the key lives elsewhere. */
  lemma StepsAreLocal(kv: Kv, d: Descriptor, c: Command)
    ensures Restrict(Apply(kv, c), d) == if Contains(d, c.key) then Apply(Restrict(kv, d), c) else Restrict(kv, d)
  {
    match c {
      case Prewrite(k, p, s, deadline, v) => PrewriteLocal(kv, d, k, Lock(p, s, deadline), v);
      case CommitKey(k, s, at) => CommitLocal(kv, d, k, s, at);
      case RollbackKey(k, s) => RollbackLocal(kv, d, k, s);
      case PutTxn(k, s, x) => RecordLocal(kv, d, k, s, x);
      case Get(k, t) => MarkLocal(kv, d, k, t);
      case ResolveStatus(k, s, _, _) => RecordLocal(kv, d, k, s, RolledBack);
      case ApplyResolution(k, s, x) =>
        if x.Committed? { CommitLocal(kv, d, k, s, x.at); } else { RollbackLocal(kv, d, k, s); }
    }
  }
}
