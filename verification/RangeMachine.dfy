/** One range's state machine: an extent and a store, driven by the committed log. */
module RangeMachine {
  import opened Bytes
  import opened Hlc
  import opened Mvcc

  datatype Descriptor = Descriptor(id: nat, start: Bytes, end: Bound, epoch: nat)

  predicate Contains(d: Descriptor, k: Key) { !Before(k, d.start) && Under(k, d.end) }

  datatype SplitSpec = SplitSpec(key: Key, left: Descriptor, right: Descriptor)

  /** What a leader proposes: its extent cut at a key, the left half one epoch on. */
  function Cut(d: Descriptor, key: Key, rightId: nat): SplitSpec {
    SplitSpec(key, d.(end := Below(key), epoch := d.epoch + 1), Descriptor(rightId, key, d.end, 1))
  }

  /** An extent's end as the bytes it is compared by, where unbounded is empty. */
  function EndBytes(b: Bound): Bytes { if b.Below? then b.end else [] }

  /** The entry was computed against exactly this extent. */
  predicate Current(d: Descriptor, s: SplitSpec) {
    s.left.epoch == d.epoch + 1 && s.left.start == d.start && EndBytes(s.right.end) == EndBytes(d.end)
  }

  // --- records ---------------------------------------------------------------

  datatype Rec =
    | DataRec(key: Key, at: Timestamp, value: Bytes)
    | LockRec(key: Key, lock: Lock)
    | WriteRec(key: Key, at: Timestamp, write: Write)
    | TxnRec(key: Key, at: Timestamp, decision: Decision)
    | MarkRec(key: Key, at: Timestamp)

  ghost predicate Holds(kv: Kv, r: Rec) {
    match r
    case DataRec(k, t, v) => (k, t) in kv.data && kv.data[(k, t)] == v
    case LockRec(k, l) => k in kv.locks && kv.locks[k] == l
    case WriteRec(k, t, w) => (k, t) in kv.writes && kv.writes[(k, t)] == w
    case TxnRec(k, t, d) => (k, t) in kv.txns && kv.txns[(k, t)] == d
    case MarkRec(k, t) => k in kv.marks && kv.marks[k] == t
  }

  /** The whole state machine enumerated. */
  ghost predicate Lists(rs: seq<Rec>, kv: Kv) { forall r :: r in rs <==> Holds(kv, r) }

  function SetRec(kv: Kv, r: Rec): Kv {
    match r
    case DataRec(k, t, v) => kv.(data := kv.data[(k, t) := v])
    case LockRec(k, l) => kv.(locks := kv.locks[k := l])
    case WriteRec(k, t, w) => kv.(writes := kv.writes[(k, t) := w])
    case TxnRec(k, t, d) => kv.(txns := kv.txns[(k, t) := d])
    case MarkRec(k, t) => kv.(marks := kv.marks[k := t])
  }

  function SetAll(kv: Kv, rs: seq<Rec>): Kv {
    if rs == [] then kv else SetRec(SetAll(kv, rs[..|rs| - 1]), rs[|rs| - 1])
  }

  /** Every kind cleared, then the records set, in one batch. */
  function Ingest(kv: Kv, rs: seq<Rec>, mark: Timestamp): Kv {
    SetAll(Kv(map[], map[], map[], map[], map[], mark), rs)
  }

  /** What remains of a store inside an extent. */
  ghost function Restrict(kv: Kv, d: Descriptor): Kv {
    Kv(map p | p in kv.data && Contains(d, p.0) :: kv.data[p],
       map k | k in kv.locks && Contains(d, k) :: kv.locks[k],
       map p | p in kv.writes && Contains(d, p.0) :: kv.writes[p],
       map p | p in kv.txns && Contains(d, p.0) :: kv.txns[p],
       map k | k in kv.marks && Contains(d, k) :: kv.marks[k],
       kv.gcMark)
  }

  /** No record lies outside the extent. */
  ghost predicate Within(kv: Kv, d: Descriptor) { forall r :: Holds(kv, r) ==> Contains(d, r.key) }

  // --- ingesting what was listed gives it back -------------------------------

  lemma {:induction false} SetAllHolds(kv: Kv, rs: seq<Rec>, mark: Timestamp)
    requires forall r :: r in rs ==> Holds(kv, r)
    ensures Ingest(kv, rs, mark).gcMark == mark
    ensures forall r :: Holds(Ingest(kv, rs, mark), r) <==> r in rs
  {
    if rs != [] {
      var pre, x := rs[..|rs| - 1], rs[|rs| - 1];
      SetAllHolds(kv, pre, mark);
      assert rs == pre + [x];
      forall r ensures Holds(Ingest(kv, rs, mark), r) <==> r in rs { SetOne(kv, pre, mark, x, r); }
    }
  }

  lemma SetOne(kv: Kv, pre: seq<Rec>, mark: Timestamp, x: Rec, r: Rec)
    requires forall y :: Holds(Ingest(kv, pre, mark), y) <==> y in pre
    requires (forall y :: y in pre ==> Holds(kv, y)) && Holds(kv, x)
    ensures Holds(SetRec(Ingest(kv, pre, mark), x), r) <==> r in pre || r == x
  {
    var m := Ingest(kv, pre, mark);
    if r != x && Holds(m, r) { assert r in pre && Holds(kv, r); }
  }

  lemma SameRecords(a: Kv, b: Kv)
    requires a.gcMark == b.gcMark && forall r :: Holds(a, r) <==> Holds(b, r)
    ensures a == b
  {
    forall p | p in a.data ensures p in b.data && a.data[p] == b.data[p] {
      assert Holds(a, DataRec(p.0, p.1, a.data[p]));
    }
    forall p | p in b.data ensures p in a.data { assert Holds(b, DataRec(p.0, p.1, b.data[p])); }
    forall p | p in a.writes ensures p in b.writes && a.writes[p] == b.writes[p] {
      assert Holds(a, WriteRec(p.0, p.1, a.writes[p]));
    }
    forall p | p in b.writes ensures p in a.writes { assert Holds(b, WriteRec(p.0, p.1, b.writes[p])); }
    forall p | p in a.txns ensures p in b.txns && a.txns[p] == b.txns[p] {
      assert Holds(a, TxnRec(p.0, p.1, a.txns[p]));
    }
    forall p | p in b.txns ensures p in a.txns { assert Holds(b, TxnRec(p.0, p.1, b.txns[p])); }
    forall k | k in a.locks ensures k in b.locks && a.locks[k] == b.locks[k] {
      assert Holds(a, LockRec(k, a.locks[k]));
    }
    forall k | k in b.locks ensures k in a.locks { assert Holds(b, LockRec(k, b.locks[k])); }
    forall k | k in a.marks ensures k in b.marks && a.marks[k] == b.marks[k] {
      assert Holds(a, MarkRec(k, a.marks[k]));
    }
    forall k | k in b.marks ensures k in a.marks { assert Holds(b, MarkRec(k, b.marks[k])); }
  }

  /** A snapshot taken and installed, over whatever the store held, is the store it was
      taken from. */
  lemma SnapshotRoundTrip(kv: Kv, rs: seq<Rec>, over: Kv)
    requires Lists(rs, kv)
    ensures Ingest(over, rs, kv.gcMark) == kv
  {
    SetAllHolds(kv, rs, kv.gcMark);
    SameRecords(Ingest(over, rs, kv.gcMark), kv);
  }

  function Inside(rs: seq<Rec>, d: Descriptor): (out: seq<Rec>)
    ensures forall r :: r in out <==> r in rs && Contains(d, r.key)
  {
    if rs == [] then []
    else
      var p := Inside(rs[..|rs| - 1], d);
      assert rs == rs[..|rs| - 1] + [rs[|rs| - 1]];
      if Contains(d, rs[|rs| - 1].key) then p + [rs[|rs| - 1]] else p
  }

  /** Ingesting one half's records gives the store restricted to that half. */
  lemma IngestHalf(kv: Kv, rs: seq<Rec>, d: Descriptor, over: Kv)
    requires Lists(rs, kv)
    ensures Ingest(over, Inside(rs, d), kv.gcMark) == Restrict(kv, d)
  {
    SetAllHolds(kv, Inside(rs, d), kv.gcMark);
    SameRecords(Ingest(over, Inside(rs, d), kv.gcMark), Restrict(kv, d));
  }

  // --- splits ----------------------------------------------------------------

  /** The halves of a cut divide the extent: every key of it is in exactly one. */
  lemma HalvesPartition(d: Descriptor, s: SplitSpec, k: Key)
    requires s == Cut(d, s.key, s.right.id) && Contains(d, s.key)
    ensures Contains(d, k) <==> Contains(s.left, k) || Contains(s.right, k)
    ensures !(Contains(s.left, k) && Contains(s.right, k))
  {
    BeforeTrichotomy(k, s.key);
    if Before(k, s.key) && d.end.Below? { BeforeTransitive(k, s.key, d.end.end); }
    if !Before(k, s.key) && Before(k, d.start) { if k != s.key { BeforeTransitive(s.key, k, d.start); } }
  }

  /** Every record of the range lands in exactly one half, unchanged. */
  lemma SplitPartitionsRecords(kv: Kv, d: Descriptor, s: SplitSpec, r: Rec)
    requires s == Cut(d, s.key, s.right.id) && Contains(d, s.key) && Within(kv, d) && Holds(kv, r)
    ensures Holds(Restrict(kv, s.left), r) != Holds(Restrict(kv, s.right), r)
  {
    HalvesPartition(d, s, r.key);
  }

  lemma SplitInventsNothing(kv: Kv, d: Descriptor, r: Rec)
    requires Holds(Restrict(kv, d), r)
    ensures Holds(kv, r) && Contains(d, r.key)
  {}

  /** Every snapshot read of an owned key answers as it did before the split. */
  lemma RestrictKeepsGets(kv: Kv, d: Descriptor, k: Key, t: Timestamp, ceiling: Timestamp, r: ReadResult)
    requires Contains(d, k)
    ensures GetSpec(Restrict(kv, d), k, t, ceiling, r) <==> GetSpec(kv, k, t, ceiling, r)
  {
    var h := Restrict(kv, d);
    forall c ensures Real(h, k, c) <==> Real(kv, k, c) {}
    forall c ensures UncertainAt(h, k, t, ceiling, c) <==> UncertainAt(kv, k, t, ceiling, c) {}
    forall c ensures Newest(h, k, t, c) <==> Newest(kv, k, t, c) {}
  }

  /** And so does every plain read, at every timestamp. */
  lemma RestrictKeepsReads(kv: Kv, d: Descriptor, k: Key, t: Timestamp, r: ReadResult)
    requires Contains(d, k)
    ensures ReadAtSpec(Restrict(kv, d), k, t, r) <==> ReadAtSpec(kv, k, t, r)
  {
    var h := Restrict(kv, d);
    forall s ensures NewestVersion(h, k, t, s) <==> NewestVersion(kv, k, t, s) {}
  }
}
