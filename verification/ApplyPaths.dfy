/** Two paths from the committed log to a range's state: the driver's, which applies
    Readys of any size, and the replay's, which walks the whole log. Both stage plain
    writes into a batch and flush it before anything that reads. */
module ApplyPaths {
  import opened Bytes
  import opened Hlc
  import opened Mvcc
  import opened RangeMachine
  import MvccStore

  /** What a committed entry says to the state machine. Term-start no-ops, reads and
      entries that do not decode say nothing. */
  datatype Op =
    | Idle
    | Txn(cmd: Command)
    | Split(spec: SplitSpec)
    | Collect(to: Timestamp)
    | Put(key: Key, at: Timestamp, value: Bytes)

  datatype Machine = Machine(desc: Descriptor, kv: Kv)

  predicate PutOk(kv: Kv, at: Timestamp) { at.IsSet() && kv.gcMark.Less(at) }

  function DoPut(kv: Kv, k: Key, at: Timestamp, v: Bytes): Kv { kv.(data := kv.data[(k, at) := v]) }

  /** One entry at a time, each seeing everything before it. */
  ghost function ApplyOp(m: Machine, op: Op): Machine {
    match op
    case Idle => m
    case Txn(c) => if Contains(m.desc, c.key) then m.(kv := Apply(m.kv, c)) else m
    case Split(s) => if Current(m.desc, s) then Machine(s.left, Restrict(m.kv, s.left)) else m
    case Collect(to) => m.(kv := AdvanceGC(m.kv, to))
    case Put(k, at, v) => if Contains(m.desc, k) && PutOk(m.kv, at) then m.(kv := DoPut(m.kv, k, at, v)) else m
  }

  ghost function ApplyAll(m: Machine, ops: seq<Op>): Machine {
    if ops == [] then m else ApplyOp(ApplyAll(m, ops[..|ops| - 1]), ops[|ops| - 1])
  }

  lemma {:induction false} ApplyAllAppend(m: Machine, a: seq<Op>, b: seq<Op>)
    ensures ApplyAll(m, a + b) == ApplyAll(ApplyAll(m, a), b)
  {
    if b == [] {
      assert a + b == a;
    } else {
      ApplyAllAppend(m, a, b[..|b| - 1]);
      assert (a + b)[..|a + b| - 1] == a + b[..|b| - 1];
    }
  }

  // --- staging ---------------------------------------------------------------

  datatype Staged = Staged(key: Key, at: Timestamp, value: Bytes)

  function Flushed(kv: Kv, batch: seq<Staged>): (out: Kv)
    ensures out == kv.(data := out.data)
  {
    if batch == [] then kv
    else
      var w := batch[|batch| - 1];
      DoPut(Flushed(kv, batch[..|batch| - 1]), w.key, w.at, w.value)
  }

  /** A split in the log was cut from some extent at a key strictly inside it. */
  ghost predicate CutOf(d: Descriptor, s: SplitSpec) {
    Contains(d, s.key) && Before(d.start, s.key) && s == Cut(d, s.key, s.right.id)
  }

  ghost predicate WellCut(op: Op) { op.Split? ==> exists d :: CutOf(d, op.spec) }

  /** Where a leader cuts: the median of the keys it holds. */
  function SplitKeyFor(keys: seq<Key>): Option<Key> {
    if |keys| < 2 then None else Some(keys[|keys| / 2])
  }

  /** The median of at least two keys of the range, in order, is strictly inside it and
      leaves a key on either side. */
  lemma MedianCuts(d: Descriptor, keys: seq<Key>, rightId: nat)
    requires |keys| >= 2 && (forall k :: k in keys ==> Contains(d, k))
    requires forall i, j :: 0 <= i < j < |keys| ==> Before(keys[i], keys[j])
    ensures SplitKeyFor(keys).Some? && CutOf(d, Cut(d, SplitKeyFor(keys).value, rightId))
    ensures var s := Cut(d, SplitKeyFor(keys).value, rightId);
      Contains(s.left, keys[0]) && Contains(s.right, keys[|keys| - 1])
  {
    var m := |keys| / 2;
    assert Contains(d, keys[0]) && Contains(d, keys[m]) && Contains(d, keys[|keys| - 1]);
    BeforeTrichotomy(keys[0], d.start);
    if keys[0] != d.start { BeforeTransitive(d.start, keys[0], keys[m]); }
    BeforeIrreflexive(keys[m]);
    if m < |keys| - 1 { BeforeTrichotomy(keys[m], keys[|keys| - 1]); }
  }

  /** A current cut is a cut of this extent. */
  lemma CurrentCut(d: Descriptor, s: SplitSpec, k: Key)
    requires WellCut(Split(s)) && Current(d, s) && d.end != Below([])
    ensures Contains(d, k) ==> (Contains(s.left, k) != Contains(s.right, k))
    ensures Contains(s.left, k) ==> Contains(d, k) && !Contains(s.right, k)
  {
    var o :| CutOf(o, s);
    assert o.end != Below([]);
    assert o.start == d.start && o.end == d.end;
    HalvesPartition(o, s, k);
  }

  ghost predicate Sound(m: Machine) { Within(m.kv, m.desc) && m.desc.end != Below([]) }

  /** A command writes no record of another key. */
  lemma TxnLocal(kv: Kv, c: Command, r: Rec)
    requires r.key != c.key && Holds(Apply(kv, c), r)
    ensures Holds(kv, r)
  {
    match c
    case Prewrite(_, _, _, _, _) =>
    case CommitKey(_, _, _) =>
    case RollbackKey(_, _) =>
    case PutTxn(_, _, _) =>
    case Get(_, _) =>
    case ResolveStatus(_, _, _, _) =>
    case ApplyResolution(_, _, _) =>
  }

  lemma TxnWithin(kv: Kv, d: Descriptor, c: Command)
    requires Within(kv, d) && Contains(d, c.key)
    ensures Within(Apply(kv, c), d)
  {
    forall r | Holds(Apply(kv, c), r) ensures Contains(d, r.key) { if r.key != c.key { TxnLocal(kv, c, r); } }
  }

  lemma GcWithin(kv: Kv, d: Descriptor, to: Timestamp)
    requires Within(kv, d)
    ensures Within(AdvanceGC(kv, to), d)
  {
    forall r | Holds(AdvanceGC(kv, to), r) ensures Contains(d, r.key) { assert Holds(kv, r); }
  }

  lemma PutWithin(kv: Kv, d: Descriptor, k: Key, at: Timestamp, v: Bytes)
    requires Within(kv, d) && Contains(d, k)
    ensures Within(DoPut(kv, k, at, v), d)
  {
    forall r | Holds(DoPut(kv, k, at, v), r) ensures Contains(d, r.key) { if r.key != k { assert Holds(kv, r); } }
  }

  /** No entry puts a record outside the extent. */
  lemma OpSound(m: Machine, op: Op)
    requires Sound(m) && WellCut(op)
    ensures Sound(ApplyOp(m, op))
  {
    match op {
      case Idle =>
      case Txn(c) => if Contains(m.desc, c.key) { TxnWithin(m.kv, m.desc, c); }
      case Split(s) =>
        if Current(m.desc, s) {
          forall r | Holds(Restrict(m.kv, s.left), r) ensures Contains(s.left, r.key) {
            SplitInventsNothing(m.kv, s.left, r);
          }
          var o :| CutOf(o, s);
        }
      case Collect(to) => GcWithin(m.kv, m.desc, to);
      case Put(k, at, v) => if Contains(m.desc, k) && PutOk(m.kv, at) { PutWithin(m.kv, m.desc, k, at, v); }
    }
  }

  lemma {:induction false} AllSound(m: Machine, ops: seq<Op>)
    requires Sound(m) && forall op :: op in ops ==> WellCut(op)
    ensures Sound(ApplyAll(m, ops))
  {
    if ops != [] {
      AllSound(m, ops[..|ops| - 1]);
      OpSound(ApplyAll(m, ops[..|ops| - 1]), ops[|ops| - 1]);
    }
  }

  // --- what an entry does ------------------------------------------------------

  /** A write inside the extent and above the mark is what a read at its timestamp finds, and
      no other version changes. */
  lemma PutActs(m: Machine, k: Key, at: Timestamp, v: Bytes)
    requires Contains(m.desc, k) && PutOk(m.kv, at)
    ensures var m' := ApplyOp(m, Put(k, at, v));
      && ReadAtSpec(m'.kv, k, at, Found(v)) && m'.desc == m.desc && m'.kv == m.kv.(data := m'.kv.data)
      && (k, at) in m'.kv.data && m'.kv.data[(k, at)] == v
      && forall x, t :: (x, t) != (k, at) ==>
           ((x, t) in m'.kv.data <==> (x, t) in m.kv.data) &&
           ((x, t) in m.kv.data ==> m'.kv.data[(x, t)] == m.kv.data[(x, t)])
  {
    var m' := ApplyOp(m, Put(k, at, v));
    assert NewestVersion(m'.kv, k, at, at);
  }

  /** Outside the extent, or at or below the mark, it changes nothing. */
  lemma PutRefused(m: Machine, k: Key, at: Timestamp, v: Bytes)
    requires !Contains(m.desc, k) || !at.IsSet() || at.LessEq(m.kv.gcMark)
    ensures ApplyOp(m, Put(k, at, v)) == m
  {}

  /** A command acts on the store inside the extent and on nothing outside it. */
  lemma TxnActs(m: Machine, c: Command)
    ensures ApplyOp(m, Txn(c)).desc == m.desc
    ensures ApplyOp(m, Txn(c)).kv == if Contains(m.desc, c.key) then Apply(m.kv, c) else m.kv
  {}

  /** A collection moves the mark up to where it says, and reads at or below it are refused
      from then on. */
  lemma CollectActs(m: Machine, to: Timestamp, k: Key, t: Timestamp)
    requires to.IsSet() && m.kv.gcMark.Less(to) && t.IsSet() && t.LessEq(to)
    ensures ApplyOp(m, Collect(to)).kv.gcMark == to && ReadAtSpec(ApplyOp(m, Collect(to)).kv, k, t, BelowMark)
  {}

  /** The entry neither writes nor removes version (k, at), and leaves mark and extent alone. */
  predicate Spares(op: Op, k: Key, at: Timestamp) {
    match op
    case Idle => true
    case Txn(c) => c.key != k
    case Split(_) => false
    case Collect(_) => false
    case Put(x, t, _) => (x, t) != (k, at)
  }

  lemma SparedStays(m: Machine, op: Op, k: Key, at: Timestamp)
    requires Spares(op, k, at) && (k, at) in m.kv.data
    ensures var m' := ApplyOp(m, op);
      (k, at) in m'.kv.data && m'.kv.data[(k, at)] == m.kv.data[(k, at)] && m'.kv.gcMark == m.kv.gcMark
  {
    if op.Txn? && Contains(m.desc, op.cmd.key) { TxnSpares(m.kv, op.cmd, k, at); }
  }

  lemma TxnSpares(kv: Kv, c: Command, k: Key, at: Timestamp)
    requires c.key != k && (k, at) in kv.data
    ensures var kv' := Apply(kv, c);
      (k, at) in kv'.data && kv'.data[(k, at)] == kv.data[(k, at)] && kv'.gcMark == kv.gcMark
  {
    match c
    case Prewrite(_, _, _, _, _) =>
    case CommitKey(_, _, _) =>
    case RollbackKey(_, _) =>
    case PutTxn(_, _, _) =>
    case Get(_, _) =>
    case ResolveStatus(_, _, _, _) =>
    case ApplyResolution(_, _, _) =>
  }

  /** Entry i is a write of version (k, at) that is accepted, and nothing after it collects,
      splits or writes that version. */
  ghost predicate LastPut(m: Machine, ops: seq<Op>, i: nat, k: Key, at: Timestamp, v: Bytes) {
    && i < |ops| && ops[i] == Put(k, at, v)
    && (var before := ApplyAll(m, ops[..i]); Contains(before.desc, k) && PutOk(before.kv, at))
    && forall j :: i < j < |ops| ==> Spares(ops[j], k, at)
  }

  /** The version is there with this value, above the mark. */
  predicate Holding(m: Machine, k: Key, at: Timestamp, v: Bytes) {
    (k, at) in m.kv.data && m.kv.data[(k, at)] == v && PutOk(m.kv, at)
  }

  lemma SparedHolds(m: Machine, op: Op, k: Key, at: Timestamp, v: Bytes)
    requires Spares(op, k, at) && Holding(m, k, at, v)
    ensures Holding(ApplyOp(m, op), k, at, v)
  {
    SparedStays(m, op, k, at);
  }

  lemma {:induction false} AllSpared(m: Machine, ops: seq<Op>, k: Key, at: Timestamp, v: Bytes)
    requires Holding(m, k, at, v) && forall op :: op in ops ==> Spares(op, k, at)
    ensures Holding(ApplyAll(m, ops), k, at, v)
  {
    if ops != [] {
      AllSpared(m, ops[..|ops| - 1], k, at, v);
      SparedHolds(ApplyAll(m, ops[..|ops| - 1]), ops[|ops| - 1], k, at, v);
    }
  }

  lemma LastPutStays(m: Machine, ops: seq<Op>, i: nat, k: Key, at: Timestamp, v: Bytes)
    requires LastPut(m, ops, i, k, at, v)
    ensures Holding(ApplyAll(m, ops), k, at, v)
  {
    var n := ApplyAll(m, ops[..i]);
    PutActs(n, k, at, v);
    assert ops[..i + 1][..i] == ops[..i] && ops == ops[..i + 1] + ops[i + 1..];
    ApplyAllAppend(m, ops[..i + 1], ops[i + 1..]);
    AllSpared(ApplyOp(n, ops[i]), ops[i + 1..], k, at, v);
  }

  /** The last accepted write of a version is what a read at its timestamp finds at the end of
      the log. */
  lemma LastPutReads(m: Machine, ops: seq<Op>, i: nat, k: Key, at: Timestamp, v: Bytes)
    requires LastPut(m, ops, i, k, at, v)
    ensures ReadAtSpec(ApplyAll(m, ops).kv, k, at, Found(v))
  {
    LastPutStays(m, ops, i, k, at, v);
    assert NewestVersion(ApplyAll(m, ops).kv, k, at, at);
  }

  // --- listing and partitioning ----------------------------------------------

  function RecordSet(kv: Kv): (s: set<Rec>)
    ensures forall r :: r in s <==> Holds(kv, r)
  {
    (set p | p in kv.data :: DataRec(p.0, p.1, kv.data[p])) +
    (set k | k in kv.locks :: LockRec(k, kv.locks[k])) +
    (set p | p in kv.writes :: WriteRec(p.0, p.1, kv.writes[p])) +
    (set p | p in kv.txns :: TxnRec(p.0, p.1, kv.txns[p])) +
    (set k | k in kv.marks :: MarkRec(k, kv.marks[k]))
  }

  /** Everything the store holds, every kind. */
  method Records(kv: Kv) returns (rs: seq<Rec>)
    ensures Lists(rs, kv)
  {
    rs := [];
    var rest := RecordSet(kv);
    while rest != {}
      invariant forall r :: Holds(kv, r) <==> r in rs || r in rest
      decreases |rest|
    {
      var r :| r in rest;
      rs := rs + [r];
      rest := rest - {r};
    }
  }

  /** The driver's partition, which panics on a record neither half covers. */
  method Partition(rs: seq<Rec>, s: SplitSpec) returns (left: seq<Rec>, right: seq<Rec>)
    requires forall r :: r in rs ==> Contains(s.left, r.key) != Contains(s.right, r.key)
    ensures left == Inside(rs, s.left) && right == Inside(rs, s.right)
  {
    left, right := [], [];
    var i := 0;
    while i < |rs|
      invariant 0 <= i <= |rs| && left == Inside(rs[..i], s.left) && right == Inside(rs[..i], s.right)
    {
      assert rs[..i + 1][..i] == rs[..i];
      if Contains(s.right, rs[i].key) {
        right := right + [rs[i]];
      } else {
        left := left + [rs[i]];
      }
      i := i + 1;
    }
    assert rs[..i] == rs;
  }

  method KeepInside(rs: seq<Rec>, d: Descriptor) returns (kept: seq<Rec>)
    ensures kept == Inside(rs, d)
  {
    kept := [];
    var i := 0;
    while i < |rs|
      invariant 0 <= i <= |rs| && kept == Inside(rs[..i], d)
    {
      assert rs[..i + 1][..i] == rs[..i];
      if Contains(d, rs[i].key) { kept := kept + [rs[i]]; }
      i := i + 1;
    }
    assert rs[..i] == rs;
  }

  // --- the two paths ---------------------------------------------------------

  lemma FlushOne(kv: Kv, batch: seq<Staged>, w: Staged)
    ensures Flushed(kv, batch + [w]) == DoPut(Flushed(kv, batch), w.key, w.at, w.value)
  {
    assert (batch + [w])[..|batch|] == batch;
  }

  /** Staging an acceptable write is applying it. */
  lemma StageOne(d: Descriptor, kv: Kv, batch: seq<Staged>, w: Staged)
    ensures var m := Machine(d, Flushed(kv, batch));
      ApplyOp(m, Put(w.key, w.at, w.value)) ==
      if Contains(d, w.key) && PutOk(kv, w.at) then Machine(d, Flushed(kv, batch + [w])) else m
  {
    FlushOne(kv, batch, w);
  }

  /** The log a sequence of Readys hands over. */
  ghost function Joined(readys: seq<seq<Op>>): seq<Op> {
    if readys == [] then [] else Joined(readys[..|readys| - 1]) + readys[|readys| - 1]
  }

  lemma {:induction false} JoinedHolds(readys: seq<seq<Op>>, i: nat)
    requires i < |readys|
    ensures forall op :: op in readys[i] ==> op in Joined(readys)
  {
    if i < |readys| - 1 { JoinedHolds(readys[..|readys| - 1], i); }
  }

  method Flatten(readys: seq<seq<Op>>) returns (log: seq<Op>)
    ensures log == Joined(readys)
  {
    log := [];
    var i := 0;
    while i < |readys|
      invariant 0 <= i <= |readys| && log == Joined(readys[..i])
    {
      assert readys[..i + 1][..i] == readys[..i];
      log := log + readys[i];
      i := i + 1;
    }
    assert readys[..i] == readys;
  }

  /** The machine a path has reached: its store with the staged writes on top. */
  class Path {
    var desc: Descriptor
    var store: MvccStore.Store
    var batch: seq<Staged>
    /** The ranges this node holds a replica of. */
    var held: set<nat>

    ghost function At(): Machine
      reads this, store
    { Machine(desc, Flushed(store.kv, batch)) }

    constructor (desc: Descriptor, store: MvccStore.Store, held: set<nat>)
      ensures this.desc == desc && this.store == store && batch == [] && this.held == held
    {
      this.desc, this.store, batch, this.held := desc, store, [], held;
    }

    method Flush()
      modifies this`batch, store
      ensures At() == old(At()) && batch == [] && store.kv == old(At()).kv
    {
      ghost var kv := store.kv;
      ghost var all := batch;
      var i := 0;
      while i < |batch|
        invariant 0 <= i <= |batch| && batch == all && store.kv == Flushed(kv, all[..i])
      {
        FlushOne(kv, all[..i], all[i]);
        assert all[..i + 1] == all[..i] + [all[i]];
        store.kv := DoPut(store.kv, batch[i].key, batch[i].at, batch[i].value);
        i := i + 1;
      }
      assert all[..i] == all;
      batch := [];
    }

    method StagePut(k: Key, at: Timestamp, v: Bytes)
      modifies this`batch
      ensures At() == ApplyOp(old(At()), Put(k, at, v))
      ensures if Contains(desc, k) && PutOk(old(At()).kv, at) then ReadAtSpec(At().kv, k, at, Found(v))
              else At() == old(At())
    {
      if Contains(desc, k) && PutOk(At().kv, at) { PutActs(At(), k, at, v); }
      StageOne(desc, store.kv, batch, Staged(k, at, v));
      if Contains(desc, k) && PutOk(store.kv, at) {
        batch := batch + [Staged(k, at, v)];
      }
    }

    /** The replay's transaction step. */
    method ApplyTxn(c: Command)
      modifies this`batch, store
      ensures At() == ApplyOp(old(At()), Txn(c))
    {
      if Contains(desc, c.key) {
        Flush();
        store.ApplyCommand(c);
        Flush();
      }
    }

    /** A decision staged into a batch that is not flushed: the check that there is none reads
        the store, so it does not see one staged before. */
    method StageDecision(staged: seq<(Key, Timestamp)>, p: Key, s: Timestamp) returns (out: seq<(Key, Timestamp)>)
      ensures out == if s.IsSet() && (p, s) !in store.kv.txns then staged + [(p, s)] else staged
    {
      if !s.IsSet() || (p, s) in store.kv.txns { return staged; }
      return staged + [(p, s)];
    }

    /** The driver's transaction step. Where it finds an owner past its deadline it declares it
        dead itself and then runs the shared step, which finds the same and stages the same
        record once more. */
    method DriveTxn(c: Command)
      modifies this`batch, store
      ensures At() == ApplyOp(old(At()), Txn(c))
    {
      if Contains(desc, c.key) && c.ResolveStatus? {
        Flush();
        ghost var kv := store.kv;
        var staged: seq<(Key, Timestamp)> := [];
        if (c.key, c.start) !in store.kv.txns && !c.expireAt.LessEq(c.deadline) {
          staged := StageDecision(staged, c.key, c.start);
        }
        var verdict := ResolveLock(store.kv, Lock(c.key, c.start, c.deadline), c.expireAt);
        if verdict.Back? && (c.key, c.start) !in store.kv.txns {
          staged := StageDecision(staged, c.key, c.start);
        }
        var i := 0;
        while i < |staged|
          invariant 0 <= i <= |staged| && batch == [] && desc == old(desc)
          invariant store.kv == if i == 0 then kv else kv.(txns := kv.txns[(c.key, c.start) := RolledBack])
        {
          store.kv := store.kv.(txns := store.kv.txns[staged[i] := RolledBack]);
          i := i + 1;
        }
      } else {
        ApplyTxn(c);
      }
    }

    method CollectTo(to: Timestamp)
      modifies this`batch, store
      ensures At() == ApplyOp(old(At()), Collect(to))
    {
      Flush();
      var _ := store.AdvanceGCInto(to);
    }

    /** The driver's split: flush, partition every record, keep the left half. The right
        half's records are what the new range is born with, unless this node holds it
        already. */
    method DriveSplit(s: SplitSpec) returns (right: Option<seq<Rec>>)
      requires Sound(At()) && WellCut(Split(s))
      modifies this`batch, this`desc, this`held, store
      ensures At() == ApplyOp(old(At()), Split(s))
      ensures right.Some? <==> Current(old(At()).desc, s) && s.right.id !in old(held)
      ensures held == if right.Some? then old(held) + {s.right.id} else old(held)
      ensures right.Some? ==>
        forall over: Kv :: Ingest(over, right.value, old(At()).kv.gcMark) == Restrict(old(At()).kv, s.right)
    {
      right := None;
      Flush();
      if !Current(desc, s) { return; }
      var rs := Records(store.kv);
      forall r | r in rs ensures Contains(s.left, r.key) != Contains(s.right, r.key) { CurrentCut(desc, s, r.key); }
      var left, rest := Partition(rs, s);
      ghost var kv := store.kv;
      forall over: Kv ensures Ingest(over, rest, kv.gcMark) == Restrict(kv, s.right) {
        IngestHalf(kv, rs, s.right, over);
      }
      IngestHalf(kv, rs, s.left, kv);
      store.kv := Ingest(store.kv, left, store.kv.gcMark);
      desc := s.left;
      if s.right.id in held { return; }
      right, held := Some(rest), held + {s.right.id};
    }

    /** The replay's split: keep what the left half contains. */
    method ReplaySplit(s: SplitSpec)
      modifies this`batch, this`desc, store
      ensures At() == ApplyOp(old(At()), Split(s))
    {
      if !Current(desc, s) { return; }
      Flush();
      var rs := Records(store.kv);
      var kept := KeepInside(rs, s.left);
      IngestHalf(store.kv, rs, s.left, store.kv);
      store.kv := Ingest(store.kv, kept, store.kv.gcMark);
      desc := s.left;
    }

    /** The driver applies one Ready's committed entries and leaves nothing staged. */
    method DriveReady(ops: seq<Op>)
      requires Sound(At()) && forall op :: op in ops ==> WellCut(op)
      modifies this`batch, this`desc, this`held, store
      ensures At() == ApplyAll(old(At()), ops) && Sound(At()) && batch == []
    {
      ghost var m := At();
      var i := 0;
      while i < |ops|
        invariant 0 <= i <= |ops| && At() == ApplyAll(m, ops[..i]) && Sound(At())
      {
        assert ops[..i + 1][..i] == ops[..i] && WellCut(ops[i]);
        OpSound(At(), ops[i]);
        match ops[i] {
          case Idle =>
          case Txn(c) => DriveTxn(c);
          case Split(s) => var _ := DriveSplit(s);
          case Collect(to) => CollectTo(to);
          case Put(k, at, v) => StagePut(k, at, v);
        }
        i := i + 1;
      }
      assert ops[..i] == ops;
      Flush();
    }

    /** A driver that has applied a Ready reads back its last write of a version. */
    method DriveAndRead(ops: seq<Op>, k: Key, at: Timestamp, ghost i: nat, ghost v: Bytes) returns (r: ReadResult)
      requires Sound(At()) && (forall op :: op in ops ==> WellCut(op)) && LastPut(At(), ops, i, k, at, v)
      modifies this`batch, this`desc, this`held, store
      ensures r == Found(v)
    {
      LastPutStays(At(), ops, i, k, at, v);
      DriveReady(ops);
      r := store.ReadAt(k, at);
      assert NewestVersion(store.kv, k, at, at);
    }

    /** The driver takes Readys as they come. */
    method DriveReadys(readys: seq<seq<Op>>)
      requires Sound(At()) && forall op :: op in Joined(readys) ==> WellCut(op)
      modifies this`batch, this`desc, this`held, store
      ensures At() == ApplyAll(old(At()), Joined(readys)) && Sound(At())
    {
      ghost var m := At();
      var i := 0;
      while i < |readys|
        invariant 0 <= i <= |readys| && At() == ApplyAll(m, Joined(readys[..i])) && Sound(At())
      {
        assert readys[..i + 1][..i] == readys[..i];
        JoinedHolds(readys, i);
        ApplyAllAppend(m, Joined(readys[..i]), readys[i]);
        DriveReady(readys[i]);
        i := i + 1;
      }
      assert readys[..i] == readys;
    }

    /** The replay advances over the entries past its cursor. */
    method ReplayFrom(ops: seq<Op>, next: nat)
      requires next <= |ops|
      modifies this`batch, this`desc, store
      ensures At() == ApplyAll(old(At()), ops[next..]) && batch == []
    {
      ghost var m := At();
      var i := next;
      while i < |ops|
        invariant next <= i <= |ops| && At() == ApplyAll(m, ops[next..i])
      {
        assert ops[next..i + 1][..i - next] == ops[next..i];
        match ops[i] {
          case Idle =>
          case Txn(c) => ApplyTxn(c);
          case Split(s) => ReplaySplit(s);
          case Collect(to) => CollectTo(to);
          case Put(k, at, v) => StagePut(k, at, v);
        }
        i := i + 1;
      }
      assert ops[next..i] == ops[next..];
      Flush();
    }
  }

  /** A driver fed Readys and a replay of the whole log, from one state, end in one state,
      however the log was cut. */
  method DriveAndReplay(d: Path, r: Path, readys: seq<seq<Op>>)
    requires d != r && d.store != r.store && d.At() == r.At()
    requires Sound(d.At()) && forall op :: op in Joined(readys) ==> WellCut(op)
    modifies d`batch, d`desc, d`held, d.store, r`batch, r`desc, r.store
    ensures d.At() == r.At() == ApplyAll(old(d.At()), Joined(readys))
  {
    d.DriveReadys(readys);
    var log := Flatten(readys);
    assert log[0..] == log;
    r.ReplayFrom(log, 0);
  }

  /** Installing the snapshot of any applied prefix, over any store, and applying the tail
      lands where applying the whole log does. */
  lemma SnapshotPlusTail(m: Machine, ops: seq<Op>, i: nat, rs: seq<Rec>, over: Kv)
    requires i <= |ops| && Lists(rs, ApplyAll(m, ops[..i]).kv)
    ensures var at := ApplyAll(m, ops[..i]);
      ApplyAll(Machine(at.desc, Ingest(over, rs, at.kv.gcMark)), ops[i..]) == ApplyAll(m, ops)
  {
    SnapshotRoundTrip(ApplyAll(m, ops[..i]).kv, rs, over);
    ApplyAllAppend(m, ops[..i], ops[i..]);
    assert ops == ops[..i] + ops[i..];
  }
}
