/** The driver between Raft and the engine. Writes become visible at once and durable
    later, in order; a crash keeps exactly the durable prefix. Beside the engine, which
    is a map changed by sets and range deletes, the driver keeps its own record of what
    is durable as a sequence, folded forward one completed write at a time. */
module StorageDriver {
  import opened RaftTypes

  type SeqNum = nat

  datatype SnapMeta = SnapMeta(index: Index, term: Term, voters: seq<NodeId>, learners: seq<NodeId>)

  /** What a restart reads back, and what the driver believes it would. */
  datatype Record = Record(hs: HardState, snap: SnapMeta, log: seq<Entry>)

  // --- the engine ------------------------------------------------------------

  /** One replica's keys. Log keys sort by index. */
  datatype Store = Store(hs: HardState, snap: SnapMeta, log: map<Index, Entry>)

  datatype Op =
    | SetHard(hs: HardState)
    | SetSnap(meta: SnapMeta)
    | SetEntry(e: Entry)
    | DeleteRange(lo: Index, hi: Option<Index>)

  predicate InRange(i: Index, lo: Index, hi: Option<Index>) { lo <= i && (hi.Some? ==> i < hi.value) }

  function ApplyOp(s: Store, op: Op): Store {
    match op
    case SetHard(hs) => s.(hs := hs)
    case SetSnap(meta) => s.(snap := meta)
    case SetEntry(e) => s.(log := s.log[e.index := e])
    case DeleteRange(lo, hi) => s.(log := map i | i in s.log && !InRange(i, lo, hi) :: s.log[i])
  }

  /** Within a batch later operations win. */
  function ApplyBatch(s: Store, ops: seq<Op>): Store {
    if ops == [] then s else ApplyOp(ApplyBatch(s, ops[..|ops| - 1]), ops[|ops| - 1])
  }

  datatype Engine = Engine(durable: Store, durableSeq: SeqNum, pending: seq<Store>)
  {
    function VisibleSeq(): SeqNum { durableSeq + |pending| }

    /** The contents after sequence number s. */
    function At(s: SeqNum): Store
      requires durableSeq <= s <= VisibleSeq()
    { if s == durableSeq then durable else pending[s - durableSeq - 1] }

    function Visible(): Store { At(VisibleSeq()) }

    function Apply(ops: seq<Op>): Engine { this.(pending := pending + [ApplyBatch(Visible(), ops)]) }

    function AdvanceDurable(s: SeqNum): Engine
      requires s <= VisibleSeq()
    { if s <= durableSeq then this else Engine(At(s), s, pending[s - durableSeq..]) }

    function Crash(): Engine { this.(pending := []) }
  }

  /** The iterator's walk over log keys below n, in order. */
  function Scan(m: map<Index, Entry>, n: Index): seq<Entry> {
    if n == 0 then [] else Scan(m, n - 1) + if n - 1 in m then [m[n - 1]] else []
  }

  // --- writes in flight ------------------------------------------------------

  datatype Write = Write(seq_: SeqNum, mark: Mark, hs: Option<HardState>, entries: seq<Entry>, snap: Option<SnapMeta>,
                         clearAll: bool, clearBelow: Index, clearAbove: Index)

  function EntryOps(es: seq<Entry>): seq<Op> { seq(|es|, i requires 0 <= i < |es| => SetEntry(es[i])) }

  /** The batch a Ready's hard state and entries become. */
  function ReadyBatch(hs: Option<HardState>, es: seq<Entry>, writtenLast: Index): seq<Op> {
    (if hs.Some? then [SetHard(hs.value)] else [])
    + (if es != [] && es[0].index <= writtenLast then [DeleteRange(es[|es| - 1].index + 1, None)] else [])
    + EntryOps(es)
  }

  function ReadyWrite(s: SeqNum, mark: Mark, hs: Option<HardState>, es: seq<Entry>, writtenLast: Index): Write {
    Write(s, mark, hs, es, None, false, 0,
          if es != [] && es[0].index <= writtenLast then es[|es| - 1].index else 0)
  }

  function InstallBatch(meta: SnapMeta): seq<Op> { [SetSnap(meta), DeleteRange(0, None)] }

  function InstallWrite(s: SeqNum, meta: SnapMeta): Write { Write(s, 0, None, [], Some(meta), true, 0, 0) }

  function CompactBatch(meta: SnapMeta): seq<Op> { [SetSnap(meta), DeleteRange(0, Some(meta.index + 1))] }

  function CompactWrite(s: SeqNum, meta: SnapMeta): Write { Write(s, 0, None, [], Some(meta), false, meta.index, 0) }

  // --- folding a completed write into the record -----------------------------

  function KeepAbove(log: seq<Entry>, i: Index): seq<Entry> {
    if log == [] then []
    else
      var rest := KeepAbove(log[..|log| - 1], i);
      if log[|log| - 1].index > i then rest + [log[|log| - 1]] else rest
  }

  /** Each entry over its position, or at the end. */
  function Place(log: seq<Entry>, base: Index, es: seq<Entry>): seq<Entry> {
    if es == [] then log
    else
      var l := Place(log, base, es[..|es| - 1]);
      var e := es[|es| - 1];
      if base < e.index <= base + |l| then l[e.index - base - 1 := e] else l + [e]
  }

  function CutAbove(log: seq<Entry>, base: Index, i: Index): seq<Entry> {
    if i > 0 && base <= i < base + |log| then log[..i - base] else log
  }

  function Fold(r: Record, w: Write): Record {
    var snap := if w.snap.Some? then w.snap.value else r.snap;
    var l0 := if w.clearAll then [] else r.log;
    var l1 := if w.clearBelow > 0 then KeepAbove(l0, w.clearBelow) else l0;
    var l2 := Place(l1, snap.index, w.entries);
    Record(if w.hs.Some? then w.hs.value else r.hs, snap, CutAbove(l2, snap.index, w.clearAbove))
  }

  // --- agreement -------------------------------------------------------------

  ghost predicate Gapless(log: seq<Entry>, base: Index) {
    forall k :: 0 <= k < |log| ==> log[k].index == base + k + 1
  }

  function LastOf(r: Record): Index { r.snap.index + |r.log| }

  /** At log key i the engine holds what the record holds. */
  ghost predicate Slot(s: Store, r: Record, i: Index) {
    && (i in s.log <==> r.snap.index < i <= LastOf(r))
    && (i in s.log ==> s.log[i] == r.log[i - r.snap.index - 1])
  }

  /** The engine holds exactly what the record says, and the record's log is gapless. */
  ghost predicate Agrees(s: Store, r: Record) {
    && s.hs == r.hs && s.snap == r.snap
    && Gapless(r.log, r.snap.index)
    && forall i: Index :: Slot(s, r, i)
  }

  /** Entries raft may hand over: consecutive, above the snapshot, leaving no gap. */
  ghost predicate Fits(r: Record, es: seq<Entry>) {
    && (forall k :: 0 <= k < |es| ==> es[k].index == es[0].index + k)
    && (es != [] ==> r.snap.index < es[0].index <= LastOf(r) + 1)
  }

  // --- each batch does to the map what the fold does to the sequence ----------

  lemma {:induction false} KeepAboveSuffix(log: seq<Entry>, base: Index, i: Index)
    requires Gapless(log, base) && base <= i
    ensures KeepAbove(log, i) == if i < base + |log| then log[i - base..] else []
  {
    if log != [] {
      KeepAboveSuffix(log[..|log| - 1], base, i);
    }
  }

  /** Placing consecutive entries keeps what is below them and, if the old log was
      longer, what is above. */
  lemma {:induction false} PlaceSplices(log: seq<Entry>, base: Index, es: seq<Entry>)
    requires Gapless(log, base) && es != [] && base < es[0].index <= base + |log| + 1
    requires forall k :: 0 <= k < |es| ==> es[k].index == es[0].index + k
    ensures var p := es[0].index - base - 1;
      Place(log, base, es) == log[..p] + es + if p + |es| < |log| then log[p + |es|..] else []
  {
    var p := es[0].index - base - 1;
    var pre, e := es[..|es| - 1], es[|es| - 1];
    if pre != [] {
      PlaceSplices(log, base, pre);
    }
    assert es == pre + [e];
  }

  /** A conflicting or plain append replaces everything from its first index on. */
  lemma FoldAppend(r: Record, s: SeqNum, mark: Mark, hs: Option<HardState>, es: seq<Entry>)
    requires Gapless(r.log, r.snap.index) && Fits(r, es)
    ensures var r' := Fold(r, ReadyWrite(s, mark, hs, es, LastOf(r)));
      && r'.hs == (if hs.Some? then hs.value else r.hs) && r'.snap == r.snap
      && r'.log == (if es == [] then r.log else r.log[..es[0].index - r.snap.index - 1] + es)
      && Gapless(r'.log, r.snap.index)
  {
    if es != [] {
      PlaceSplices(r.log, r.snap.index, es);
    }
  }

  lemma {:induction false} BatchAppend(s: Store, a: seq<Op>, b: seq<Op>)
    ensures ApplyBatch(s, a + b) == ApplyBatch(ApplyBatch(s, a), b)
  {
    if b == [] {
      assert a + b == a;
    } else {
      BatchAppend(s, a, b[..|b| - 1]);
      assert (a + b)[..|a + b| - 1] == a + b[..|b| - 1];
    }
  }

  ghost predicate Covers(es: seq<Entry>, i: Index) { es != [] && es[0].index <= i < es[0].index + |es| }

  /** Setting consecutive entries. */
  lemma {:induction false} EntryOpsSet(s: Store, es: seq<Entry>)
    requires forall k :: 0 <= k < |es| ==> es[k].index == es[0].index + k
    ensures var t := ApplyBatch(s, EntryOps(es));
      && t.hs == s.hs && t.snap == s.snap
      && (forall i: Index :: i in t.log <==> i in s.log || Covers(es, i))
      && (forall i: Index :: i in t.log ==> t.log[i] == if Covers(es, i) then es[i - es[0].index] else s.log[i])
  {
    if es != [] {
      var pre := es[..|es| - 1];
      EntryOpsSet(s, pre);
      assert EntryOps(es)[..|es| - 1] == EntryOps(pre);
    }
  }

  /** Clearing above the last new entry, when anything there might be stale. */
  lemma ClearStale(s: Store, hs: Option<HardState>, es: seq<Entry>, written: Index)
    ensures var a := (if hs.Some? then [SetHard(hs.value)] else []) +
        (if es != [] && es[0].index <= written then [DeleteRange(es[|es| - 1].index + 1, None)] else []);
      var t := ApplyBatch(s, a);
      && t.hs == (if hs.Some? then hs.value else s.hs) && t.snap == s.snap
      && (forall i: Index :: i in t.log <==>
            i in s.log && !(es != [] && es[0].index <= written && i > es[|es| - 1].index))
      && (forall i: Index :: i in t.log ==> t.log[i] == s.log[i])
  {
    var a := if hs.Some? then [SetHard(hs.value)] else [];
    var b := if es != [] && es[0].index <= written then [DeleteRange(es[|es| - 1].index + 1, None)] else [];
    BatchAppend(s, a, b);
    assert a != [] ==> a[..0] == [];
    assert b != [] ==> b[..0] == [];
  }

  ghost predicate Stale(es: seq<Entry>, written: Index, i: Index) {
    es != [] && es[0].index <= written && i > es[|es| - 1].index
  }

  /** What a Ready's batch does to each log key. */
  lemma ReadySets(s: Store, hs: Option<HardState>, es: seq<Entry>, written: Index, i: Index)
    requires forall k :: 0 <= k < |es| ==> es[k].index == es[0].index + k
    ensures var t := ApplyBatch(s, ReadyBatch(hs, es, written));
      && t.hs == (if hs.Some? then hs.value else s.hs) && t.snap == s.snap
      && (i in t.log <==> (i in s.log && !Stale(es, written, i)) || Covers(es, i))
      && (i in t.log ==> t.log[i] == if Covers(es, i) then es[i - es[0].index] else s.log[i])
  {
    var a := (if hs.Some? then [SetHard(hs.value)] else []) +
      (if es != [] && es[0].index <= written then [DeleteRange(es[|es| - 1].index + 1, None)] else []);
    BatchAppend(s, a, EntryOps(es));
    ClearStale(s, hs, es, written);
    EntryOpsSet(ApplyBatch(s, a), es);
  }

  lemma ReadySlot(s: Store, r: Record, r': Record, hs: Option<HardState>, es: seq<Entry>, i: Index)
    requires Slot(s, r, i) && Fits(r, es) && r'.snap == r.snap
    requires r'.log == if es == [] then r.log else r.log[..es[0].index - r.snap.index - 1] + es
    ensures Slot(ApplyBatch(s, ReadyBatch(hs, es, LastOf(r))), r', i)
  {
    ReadySets(s, hs, es, LastOf(r), i);
  }

  lemma ReadyAgrees(s: Store, r: Record, q: SeqNum, mark: Mark, hs: Option<HardState>, es: seq<Entry>)
    requires Agrees(s, r) && Fits(r, es)
    ensures Agrees(ApplyBatch(s, ReadyBatch(hs, es, LastOf(r))), Fold(r, ReadyWrite(q, mark, hs, es, LastOf(r))))
  {
    var t, r' := ApplyBatch(s, ReadyBatch(hs, es, LastOf(r))), Fold(r, ReadyWrite(q, mark, hs, es, LastOf(r)));
    FoldAppend(r, q, mark, hs, es);
    ReadySets(s, hs, es, LastOf(r), 0);
    forall i: Index ensures Slot(t, r', i) {
      assert Slot(s, r, i);
      ReadySlot(s, r, r', hs, es, i);
    }
  }

  lemma TwoOps(s: Store, x: Op, y: Op)
    ensures ApplyBatch(s, [x, y]) == ApplyOp(ApplyOp(s, x), y)
  {
    assert [x, y][..1] == [x] && [x][..0] == [];
    assert ApplyBatch(s, [x]) == ApplyOp(s, x);
  }

  lemma InstallAgrees(s: Store, r: Record, q: SeqNum, meta: SnapMeta)
    requires Agrees(s, r)
    ensures Agrees(ApplyBatch(s, InstallBatch(meta)), Fold(r, InstallWrite(q, meta)))
  {
    TwoOps(s, SetSnap(meta), DeleteRange(0, None));
  }

  lemma FoldCompact(r: Record, q: SeqNum, meta: SnapMeta)
    requires Gapless(r.log, r.snap.index) && r.snap.index < meta.index <= LastOf(r)
    ensures Fold(r, CompactWrite(q, meta)) == Record(r.hs, meta, r.log[meta.index - r.snap.index..])
  {
    KeepAboveSuffix(r.log, r.snap.index, meta.index);
  }

  /** A compaction drops what the snapshot covers and keeps the last index where it was. */
  lemma CompactAgrees(s: Store, r: Record, q: SeqNum, meta: SnapMeta)
    requires Agrees(s, r) && r.snap.index < meta.index <= LastOf(r)
    ensures Agrees(ApplyBatch(s, CompactBatch(meta)), Fold(r, CompactWrite(q, meta)))
    ensures LastOf(Fold(r, CompactWrite(q, meta))) == LastOf(r)
  {
    TwoOps(s, SetSnap(meta), DeleteRange(0, Some(meta.index + 1)));
    FoldCompact(r, q, meta);
    var t, r' := ApplyBatch(s, CompactBatch(meta)), Fold(r, CompactWrite(q, meta));
    forall i: Index ensures Slot(t, r', i) { assert Slot(s, r, i); }
  }

  /** Reading the engine back in key order gives exactly the record's log. */
  lemma {:induction false} ScanReads(s: Store, r: Record, n: Index)
    requires Agrees(s, r)
    ensures Scan(s.log, n) ==
      if n <= r.snap.index + 1 then [] else if n <= LastOf(r) + 1 then r.log[..n - r.snap.index - 1] else r.log
  {
    if n > 0 {
      ScanReads(s, r, n - 1);
      assert Slot(s, r, n - 1);
    }
  }
}
