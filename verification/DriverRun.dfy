/** Every run of the storage driver: hand-overs, installs, compactions, other replicas'
    batches, completions and crashes in any order. */
module DriverRun {
  import opened RaftTypes
  import opened StorageDriver

  datatype Driver = Driver(db: Engine, rec: Record, pending: seq<Write>, written: Index)

  const Empty := Record(HardState(0, 0), SnapMeta(0, 0, [], []), [])

  function Fresh(): Driver {
    Driver(Engine(Store(Empty.hs, Empty.snap, map[]), 0, []), Empty, [], 0)
  }

  // --- folding through a sequence number -------------------------------------

  /** The record after every write at or below s. */
  function FoldThrough(r: Record, ws: seq<Write>, s: SeqNum): Record {
    if ws == [] then r
    else
      var p := FoldThrough(r, ws[..|ws| - 1], s);
      if ws[|ws| - 1].seq_ <= s then Fold(p, ws[|ws| - 1]) else p
  }

  /** The writes still in flight after s. */
  function After(ws: seq<Write>, s: SeqNum): (out: seq<Write>)
    ensures forall w :: w in out <==> w in ws && w.seq_ > s
  {
    if ws == [] then []
    else
      var p := After(ws[..|ws| - 1], s);
      assert ws == ws[..|ws| - 1] + [ws[|ws| - 1]];
      if ws[|ws| - 1].seq_ <= s then p else p + [ws[|ws| - 1]]
  }

  /** The highest mark among the writes at or below s. */
  function MarkThrough(ws: seq<Write>, s: SeqNum): (m: Mark)
    ensures forall w :: w in ws && w.seq_ <= s ==> w.mark <= m
    ensures m == 0 || exists w :: w in ws && w.seq_ <= s && w.mark == m
  {
    if ws == [] then 0
    else
      var p := MarkThrough(ws[..|ws| - 1], s);
      assert ws == ws[..|ws| - 1] + [ws[|ws| - 1]];
      if ws[|ws| - 1].seq_ <= s then Max(p, ws[|ws| - 1].mark) else p
  }

  ghost predicate Before(a: Write, b: Write) { a.seq_ < b.seq_ && (b.mark != 0 ==> a.mark < b.mark) }

  /** Sequence numbers increase, and so do the marks of the writes that carry one. */
  ghost predicate Ordered(ws: seq<Write>) {
    ws == [] || (Ordered(ws[..|ws| - 1]) && AllBefore(ws[..|ws| - 1], ws[|ws| - 1]))
  }

  ghost predicate AllBefore(ws: seq<Write>, b: Write) { forall w :: w in ws ==> Before(w, b) }

  lemma {:induction false} OrderedAt(ws: seq<Write>, i: nat, j: nat)
    requires Ordered(ws) && i < j < |ws|
    ensures Before(ws[i], ws[j])
  {
    if j < |ws| - 1 { OrderedAt(ws[..|ws| - 1], i, j); } else { assert ws[..|ws| - 1][i] == ws[i]; }
  }

  lemma {:induction false} FoldNone(r: Record, ws: seq<Write>, s: SeqNum)
    requires forall w :: w in ws ==> w.seq_ > s
    ensures FoldThrough(r, ws, s) == r
  {
    if ws != [] { FoldNone(r, ws[..|ws| - 1], s); }
  }

  lemma {:induction false} AfterAll(ws: seq<Write>, s: SeqNum)
    requires forall w :: w in ws ==> w.seq_ <= s
    ensures After(ws, s) == []
  {
    if ws != [] { AfterAll(ws[..|ws| - 1], s); }
  }

  /** Folding in two goes is folding in one. */
  lemma {:induction false} FoldSplit(r: Record, ws: seq<Write>, s: SeqNum, t: SeqNum)
    requires Ordered(ws) && s <= t
    ensures FoldThrough(FoldThrough(r, ws, s), After(ws, s), t) == FoldThrough(r, ws, t)
  {
    if ws != [] {
      var pre, w := ws[..|ws| - 1], ws[|ws| - 1];
      FoldSplit(r, pre, s, t);
      if w.seq_ <= s {
        AfterAll(pre, s);
      } else {
        assert (After(pre, s) + [w])[..|After(pre, s) + [w]| - 1] == After(pre, s);
      }
    }
  }

  lemma {:induction false} AfterOrdered(ws: seq<Write>, s: SeqNum)
    requires Ordered(ws)
    ensures Ordered(After(ws, s))
  {
    if ws != [] {
      var pre, w := ws[..|ws| - 1], ws[|ws| - 1];
      AfterOrdered(pre, s);
      assert (After(pre, s) + [w])[..|After(pre, s)|] == After(pre, s);
    }
  }

  // --- the steps -------------------------------------------------------------

  datatype Event =
    | Handover(hs: Option<HardState>, es: seq<Entry>, mark: Mark)
    | Install(meta: SnapMeta)
    | Compact(meta: SnapMeta)
    | Elsewhere
    | Durable(s: SeqNum)
    | Crash

  /** What raft hands over: entries that leave no gap and replace nothing below the
      snapshot, a compaction of what is written, marks in order. */
  ghost predicate Allowed(d: Driver, e: Event) {
    var base := d.db.Visible().snap.index;
    match e
    case Handover(_, es, mark) =>
      && (forall k :: 0 <= k < |es| ==> es[k].index == es[0].index + k)
      && (es != [] ==> base < es[0].index <= d.written + 1)
      && (forall w :: w in d.pending ==> w.mark < mark)
    case Install(_) => true
    case Compact(meta) => base < meta.index <= d.written
    case Elsewhere => true
    case Durable(s) => s <= d.db.VisibleSeq()
    case Crash => true
  }

  function Handed(d: Driver, hs: Option<HardState>, es: seq<Entry>, mark: Mark): Driver {
    var s := d.db.VisibleSeq() + 1;
    d.(db := d.db.Apply(ReadyBatch(hs, es, d.written)),
       pending := d.pending + [ReadyWrite(s, mark, hs, es, d.written)],
       written := if es == [] then d.written else es[|es| - 1].index)
  }

  function Installed(d: Driver, meta: SnapMeta): Driver {
    d.(db := d.db.Apply(InstallBatch(meta)),
       pending := d.pending + [InstallWrite(d.db.VisibleSeq() + 1, meta)],
       written := meta.index)
  }

  function Compacted(d: Driver, meta: SnapMeta): Driver {
    d.(db := d.db.Apply(CompactBatch(meta)),
       pending := d.pending + [CompactWrite(d.db.VisibleSeq() + 1, meta)])
  }

  function Completed(d: Driver, s: SeqNum): Driver
    requires s <= d.db.VisibleSeq()
  {
    d.(db := d.db.AdvanceDurable(s), rec := FoldThrough(d.rec, d.pending, s), pending := After(d.pending, s))
  }

  function Crashed(d: Driver): Driver {
    d.(db := d.db.Crash(), pending := [], written := LastOf(d.rec))
  }

  function Next(d: Driver, e: Event): Driver
    requires e.Durable? ==> e.s <= d.db.VisibleSeq()
  {
    match e
    case Handover(hs, es, mark) => Handed(d, hs, es, mark)
    case Install(meta) => Installed(d, meta)
    case Compact(meta) => Compacted(d, meta)
    case Elsewhere => d.(db := d.db.Apply([]))
    case Durable(s) => Completed(d, s)
    case Crash => Crashed(d)
  }

  // --- the invariant ---------------------------------------------------------

  /** At sequence number s the engine holds the record folded through s. */
  ghost predicate AgreesAt(d: Driver, s: SeqNum)
    requires d.db.durableSeq <= s <= d.db.VisibleSeq()
  { Agrees(d.db.At(s), FoldThrough(d.rec, d.pending, s)) }

  ghost predicate InFlight(ws: seq<Write>, lo: SeqNum, hi: SeqNum) {
    Ordered(ws) && forall w :: w in ws ==> lo < w.seq_ <= hi
  }

  ghost predicate AgreesThroughout(d: Driver) {
    forall s :: d.db.durableSeq <= s <= d.db.VisibleSeq() ==> AgreesAt(d, s)
  }

  /** No entry of the write lies at or below the snapshot it is folded over. */
  ghost predicate AboveBase(r: Record, w: Write) {
    forall e :: e in w.entries ==> e.index > if w.snap.Some? then w.snap.value.index else r.snap.index
  }

  ghost predicate SeatedAt(d: Driver, w: Write) {
    w in d.pending ==> w.seq_ > 0 && AboveBase(FoldThrough(d.rec, d.pending, w.seq_ - 1), w)
  }

  ghost predicate Seated(d: Driver) { forall w :: SeatedAt(d, w) }

  ghost predicate Sound(d: Driver) {
    && InFlight(d.pending, d.db.durableSeq, d.db.VisibleSeq())
    && AgreesThroughout(d) && Seated(d)
    && d.written == LastOf(FoldThrough(d.rec, d.pending, d.db.VisibleSeq()))
  }

  /** Always true. `Good` is `Sound`, unfolded only by a proof that names `Open`. */
  ghost predicate Open(z: int, d: Driver) { true }

  ghost predicate Good(d: Driver) {
    forall z: int {:trigger Open(z, d)} :: Open(z, d) ==> Sound(d)
  }

  lemma GoodVisible(d: Driver)
    requires Good(d)
    ensures Agrees(d.db.Visible(), FoldThrough(d.rec, d.pending, d.db.VisibleSeq()))
    ensures d.written == LastOf(FoldThrough(d.rec, d.pending, d.db.VisibleSeq()))
  {
    assert Open(0, d) && AgreesAt(d, d.db.VisibleSeq());
  }

  /** One more version, whose write folds to what the batch leaves. */
  lemma Extended(d: Driver, ops: seq<Op>, w: Write, r: Record, d': Driver)
    requires Good(d) && w.seq_ == d.db.VisibleSeq() + 1
    requires AboveBase(FoldThrough(d.rec, d.pending, d.db.VisibleSeq()), w)
    requires w.mark != 0 ==> forall x :: x in d.pending ==> x.mark < w.mark
    requires r == Fold(FoldThrough(d.rec, d.pending, d.db.VisibleSeq()), w)
    requires Agrees(ApplyBatch(d.db.Visible(), ops), r)
    requires d' == Driver(d.db.Apply(ops), d.rec, d.pending + [w], LastOf(r))
    ensures Good(d')
  {
    var top := d.db.VisibleSeq();
    assert InFlight(d'.pending, d'.db.durableSeq, d'.db.VisibleSeq()) by {
      assert Open(0, d);
    }
    assert d'.written == LastOf(FoldThrough(d'.rec, d'.pending, d'.db.VisibleSeq())) by {
      assert Open(0, d);
      ExtendedTop(d, ops, w, r, d');
    }
    assert AgreesThroughout(d') by {
      assert Open(0, d);
      ExtendedTop(d, ops, w, r, d');
      ExtendedAll(d, ops, w, d');
    }
    assert Seated(d') by {
      assert Open(0, d);
      ExtendedSeats(d, w, d');
    }
  }

  lemma ExtendedAll(d: Driver, ops: seq<Op>, w: Write, d': Driver)
    requires AgreesThroughout(d) && w.seq_ == d.db.VisibleSeq() + 1 == d'.db.VisibleSeq() && AgreesAt(d', w.seq_)
    requires d'.db == d.db.Apply(ops) && d'.rec == d.rec && d'.pending == d.pending + [w]
    ensures AgreesThroughout(d')
  {
    forall s | d'.db.durableSeq <= s <= d'.db.VisibleSeq() ensures AgreesAt(d', s) {
      if s < w.seq_ { ExtendedAt(d, ops, w, d', s); }
    }
  }

  lemma ExtendedTop(d: Driver, ops: seq<Op>, w: Write, r: Record, d': Driver)
    requires InFlight(d.pending, d.db.durableSeq, d.db.VisibleSeq()) && w.seq_ == d.db.VisibleSeq() + 1
    requires r == Fold(FoldThrough(d.rec, d.pending, d.db.VisibleSeq()), w)
    requires Agrees(ApplyBatch(d.db.Visible(), ops), r)
    requires d'.db == d.db.Apply(ops) && d'.rec == d.rec && d'.pending == d.pending + [w]
    ensures d'.db.VisibleSeq() == w.seq_ && FoldThrough(d'.rec, d'.pending, w.seq_) == r && AgreesAt(d', w.seq_)
  {
    FoldTop(d.rec, d.pending, w);
    assert d'.db.At(w.seq_) == d'.db.Visible() == ApplyBatch(d.db.Visible(), ops);
  }

  lemma ExtendedSeats(d: Driver, w: Write, d': Driver)
    requires Seated(d) && w.seq_ > 0 && (forall x :: x in d.pending ==> x.seq_ < w.seq_)
    requires AboveBase(FoldThrough(d.rec, d.pending, w.seq_ - 1), w) && d'.rec == d.rec && d'.pending == d.pending + [w]
    ensures Seated(d')
  {
    forall x ensures SeatedAt(d', x) {
      assert SeatedAt(d, x);
      if x in d'.pending {
        assert x in d.pending || x == w;
      }
    }
  }

  lemma FoldTop(r: Record, ws: seq<Write>, w: Write)
    requires w.seq_ > 0 && forall x :: x in ws ==> x.seq_ < w.seq_
    ensures FoldThrough(r, ws + [w], w.seq_) == Fold(FoldThrough(r, ws, w.seq_ - 1), w)
  {
    FoldLater(r, ws, w.seq_ - 1);
  }

  lemma ExtendedAt(d: Driver, ops: seq<Op>, w: Write, d': Driver, s: SeqNum)
    requires AgreesThroughout(d) && d.db.durableSeq <= s <= d.db.VisibleSeq() < w.seq_
    requires d'.db == d.db.Apply(ops) && d'.rec == d.rec && d'.pending == d.pending + [w]
    ensures s <= d'.db.VisibleSeq() && d'.db.durableSeq == d.db.durableSeq && AgreesAt(d', s)
  {
    assert AgreesAt(d, s);
  }

  /** Nothing in flight lies above the visible sequence number. */
  lemma {:induction false} FoldLater(r: Record, ws: seq<Write>, top: SeqNum)
    requires forall w :: w in ws ==> w.seq_ <= top
    ensures FoldThrough(r, ws, top + 1) == FoldThrough(r, ws, top)
  {
    if ws != [] { FoldLater(r, ws[..|ws| - 1], top); }
  }

  lemma ElsewhereAt(d: Driver, s: SeqNum)
    requires InFlight(d.pending, d.db.durableSeq, d.db.VisibleSeq()) && AgreesThroughout(d)
    requires d.db.durableSeq <= s <= d.db.VisibleSeq() + 1
    ensures d.db.Apply([]).VisibleSeq() == d.db.VisibleSeq() + 1 && AgreesAt(d.(db := d.db.Apply([])), s)
  {
    var top := d.db.VisibleSeq();
    if s <= top {
      assert AgreesAt(d, s);
    } else {
      assert AgreesAt(d, top);
      FoldLater(d.rec, d.pending, top);
      assert d.db.Apply([]).At(s) == d.db.Apply([]).Visible() == d.db.Visible();
    }
  }

  lemma ElsewhereSound(d: Driver)
    requires Sound(d)
    ensures Sound(d.(db := d.db.Apply([])))
  {
    var d', top := d.(db := d.db.Apply([])), d.db.VisibleSeq();
    assert d'.db.VisibleSeq() == top + 1;
    assert Seated(d') by {
      forall w ensures SeatedAt(d', w) { assert SeatedAt(d, w); }
    }
    assert AgreesThroughout(d') by {
      forall s | d'.db.durableSeq <= s <= d'.db.VisibleSeq() ensures AgreesAt(d', s) { ElsewhereAt(d, s); }
    }
    FoldLater(d.rec, d.pending, top);
  }

  lemma HandoverFolds(st: Store, r: Record, s: SeqNum, mark: Mark, hs: Option<HardState>, es: seq<Entry>)
    requires Agrees(st, r) && Fits(r, es)
    ensures var w := ReadyWrite(s, mark, hs, es, LastOf(r));
      && Agrees(ApplyBatch(st, ReadyBatch(hs, es, LastOf(r))), Fold(r, w)) && AboveBase(r, w)
      && LastOf(Fold(r, w)) == if es == [] then LastOf(r) else es[|es| - 1].index
  {
    ReadyAgrees(st, r, s, mark, hs, es);
    FoldAppend(r, s, mark, hs, es);
    forall e | e in es ensures e.index > r.snap.index { var k :| 0 <= k < |es| && es[k] == e; }
  }

  lemma HandoverGood(d: Driver, hs: Option<HardState>, es: seq<Entry>, mark: Mark)
    requires Good(d) && Allowed(d, Handover(hs, es, mark))
    ensures Good(Handed(d, hs, es, mark))
  {
    var top := d.db.VisibleSeq();
    var r, w := FoldThrough(d.rec, d.pending, top), ReadyWrite(top + 1, mark, hs, es, d.written);
    GoodVisible(d);
    HandoverFolds(d.db.Visible(), r, top + 1, mark, hs, es);
    Extended(d, ReadyBatch(hs, es, d.written), w, Fold(r, w), Handed(d, hs, es, mark));
  }

  lemma InstallGood(d: Driver, meta: SnapMeta)
    requires Good(d)
    ensures Good(Installed(d, meta))
  {
    var top := d.db.VisibleSeq();
    var r, w := FoldThrough(d.rec, d.pending, top), InstallWrite(top + 1, meta);
    GoodVisible(d);
    InstallAgrees(d.db.Visible(), r, top + 1, meta);
    Extended(d, InstallBatch(meta), w, Fold(r, w), Installed(d, meta));
  }

  lemma CompactGood(d: Driver, meta: SnapMeta)
    requires Good(d) && Allowed(d, Compact(meta))
    ensures Good(Compacted(d, meta))
  {
    var top := d.db.VisibleSeq();
    var r, w := FoldThrough(d.rec, d.pending, top), CompactWrite(top + 1, meta);
    GoodVisible(d);
    CompactAgrees(d.db.Visible(), r, top + 1, meta);
    Extended(d, CompactBatch(meta), w, Fold(r, w), Compacted(d, meta));
  }

  lemma DurableAt(d: Driver, s: SeqNum, t: SeqNum)
    requires InFlight(d.pending, d.db.durableSeq, d.db.VisibleSeq()) && AgreesThroughout(d)
    requires s <= d.db.VisibleSeq() && d.db.AdvanceDurable(s).durableSeq <= t <= d.db.VisibleSeq()
    ensures d.db.AdvanceDurable(s).VisibleSeq() == d.db.VisibleSeq() && AgreesAt(Completed(d, s), t)
  {
    assert AgreesAt(d, t);
    if s <= t {
      FoldSplit(d.rec, d.pending, s, t);
    } else {
      FoldNone(d.rec, d.pending, s);
      AfterNone(d.pending, s);
    }
  }

  lemma DurableSeats(d: Driver, s: SeqNum)
    requires Ordered(d.pending) && Seated(d) && s <= d.db.VisibleSeq()
    ensures Seated(Completed(d, s))
  {
    var d' := Completed(d, s);
    forall w ensures SeatedAt(d', w) {
      assert SeatedAt(d, w);
      if w in d'.pending { FoldSplit(d.rec, d.pending, s, w.seq_ - 1); }
    }
  }

  lemma DurableSound(d: Driver, s: SeqNum)
    requires Sound(d) && s <= d.db.VisibleSeq()
    ensures Sound(Completed(d, s))
  {
    var d' := Completed(d, s);
    assert InFlight(d'.pending, d'.db.durableSeq, d'.db.VisibleSeq()) by { AfterOrdered(d.pending, s); }
    assert Seated(d') by { DurableSeats(d, s); }
    assert AgreesThroughout(d') by {
      forall t | d'.db.durableSeq <= t <= d'.db.VisibleSeq() ensures AgreesAt(d', t) { DurableAt(d, s, t); }
    }
    FoldSplit(d.rec, d.pending, s, d.db.VisibleSeq());
  }

  lemma {:induction false} AfterNone(ws: seq<Write>, s: SeqNum)
    requires forall w :: w in ws ==> w.seq_ > s
    ensures After(ws, s) == ws
  {
    if ws != [] {
      AfterNone(ws[..|ws| - 1], s);
      assert ws == ws[..|ws| - 1] + [ws[|ws| - 1]];
    }
  }

  lemma CrashSound(d: Driver)
    requires Sound(d)
    ensures Sound(Crashed(d)) && Agrees(d.db.durable, d.rec)
  {
    assert AgreesAt(d, d.db.durableSeq);
    FoldNone(d.rec, d.pending, d.db.durableSeq);
  }

  lemma ElsewhereGood(d: Driver)
    requires Good(d)
    ensures Good(d.(db := d.db.Apply([])))
  {
    assert Open(0, d);
    ElsewhereSound(d);
  }

  lemma DurableGood(d: Driver, s: SeqNum)
    requires Good(d) && s <= d.db.VisibleSeq()
    ensures Good(Completed(d, s))
  {
    assert Open(0, d);
    DurableSound(d, s);
  }

  lemma CrashGood(d: Driver)
    requires Good(d)
    ensures Good(Crashed(d))
  {
    assert Open(0, d);
    CrashSound(d);
  }

  lemma GoodNext(d: Driver, e: Event)
    requires Good(d) && Allowed(d, e)
    ensures Good(Next(d, e))
  {
    match e {
      case Handover(hs, es, mark) => HandoverGood(d, hs, es, mark);
      case Install(meta) => InstallGood(d, meta);
      case Compact(meta) => CompactGood(d, meta);
      case Elsewhere => ElsewhereGood(d);
      case Durable(s) => DurableGood(d, s);
      case Crash => CrashGood(d);
    }
  }

  lemma GoodFacts(d: Driver)
    requires Good(d)
    ensures Ordered(d.pending) && Seated(d) && Gapless(d.rec.log, d.rec.snap.index)
  {
    assert Open(0, d);
    CrashSound(d);
  }

  lemma {:induction false} FoldTail(r: Record, ws: seq<Write>, k: nat, t: SeqNum)
    requires k <= |ws| && forall i :: k <= i < |ws| ==> ws[i].seq_ > t
    ensures FoldThrough(r, ws, t) == FoldThrough(r, ws[..k], t)
  {
    if k < |ws| {
      FoldTail(r, ws[..|ws| - 1], k, t);
      assert ws[..|ws| - 1][..k] == ws[..k];
    } else {
      assert ws[..k] == ws;
    }
  }

  /** In the order of their sequence numbers, a write is folded over what comes before it. */
  lemma FoldPrefix(r: Record, ws: seq<Write>, k: nat, s: SeqNum)
    requires Ordered(ws) && k < |ws| && ws[k].seq_ > 0 && s >= ws[k].seq_
    ensures FoldThrough(r, ws[..k], s) == FoldThrough(r, ws, ws[k].seq_ - 1)
  {
    var t := ws[k].seq_ - 1;
    forall i | k <= i < |ws| ensures ws[i].seq_ > t { if i > k { OrderedAt(ws, k, i); } }
    FoldTail(r, ws, k, t);
    forall w | w in ws[..k] ensures w.seq_ <= s && w.seq_ <= t {
      var i :| 0 <= i < k && ws[i] == w;
      OrderedAt(ws, i, k);
    }
    FoldBoth(r, ws[..k], s, t);
  }

  lemma {:induction false} FoldBoth(r: Record, ws: seq<Write>, s: SeqNum, t: SeqNum)
    requires forall w :: w in ws ==> w.seq_ <= s && w.seq_ <= t
    ensures FoldThrough(r, ws, s) == FoldThrough(r, ws, t)
  {
    if ws != [] { FoldBoth(r, ws[..|ws| - 1], s, t); }
  }

  // --- runs ------------------------------------------------------------------

  ghost predicate StepOk(ds: seq<Driver>, es: seq<Event>, k: nat)
    requires k < |es| && |ds| == |es| + 1
  { Allowed(ds[k], es[k]) && ds[k + 1] == Next(ds[k], es[k]) }

  ghost predicate Run(ds: seq<Driver>, es: seq<Event>) {
    && |ds| == |es| + 1 && ds[0] == Fresh()
    && forall k :: 0 <= k < |es| ==> StepOk(ds, es, k)
  }

  lemma FreshGood()
    ensures Good(Fresh())
  {
    assert AgreesAt(Fresh(), 0);
  }

  lemma {:induction false} RunGood(ds: seq<Driver>, es: seq<Event>, k: nat)
    requires Run(ds, es) && k < |ds|
    ensures Good(ds[k])
  {
    if k == 0 {
      FreshGood();
    } else {
      RunGood(ds, es, k - 1);
      assert StepOk(ds, es, k - 1);
      GoodNext(ds[k - 1], es[k - 1]);
    }
  }

  /** What recovery reads: the keys, and the log in key order up to a bound past its end. */
  function ReadBack(s: Store, bound: Index): Record { Record(s.hs, s.snap, Scan(s.log, bound)) }

  ghost predicate Bounds(s: Store, bound: Index) { forall i :: i in s.log ==> i < bound }

  /** At every point of every run and for every write that may have completed last, the
      engine reads back exactly the record folded that far, and its log is gapless. */
  lemma RecordIsEngine(ds: seq<Driver>, es: seq<Event>, k: nat, s: SeqNum, bound: Index)
    requires Run(ds, es) && k < |ds| && ds[k].db.durableSeq <= s <= ds[k].db.VisibleSeq()
    requires Bounds(ds[k].db.At(s), bound)
    ensures var r := FoldThrough(ds[k].rec, ds[k].pending, s);
      ReadBack(ds[k].db.At(s), bound) == r && Gapless(r.log, r.snap.index)
  {
    RunGood(ds, es, k);
    assert Open(0, ds[k]) && AgreesAt(ds[k], s);
    var st, r := ds[k].db.At(s), FoldThrough(ds[k].rec, ds[k].pending, s);
    ScanReads(st, r, bound);
    if r.log != [] { assert Slot(st, r, LastOf(r)); }
  }

  /** A crash at any point recovers the record, and the recovered log is gapless. */
  lemma CrashRecovers(ds: seq<Driver>, es: seq<Event>, k: nat, bound: Index)
    requires Run(ds, es) && k < |ds| && Bounds(ds[k].db.durable, bound)
    ensures var d := Crashed(ds[k]);
      ReadBack(d.db.Visible(), bound) == ds[k].rec && Gapless(d.rec.log, d.rec.snap.index)
  {
    RunGood(ds, es, k);
    assert Open(0, ds[k]);
    RecordIsEngine(ds, es, k, ds[k].db.durableSeq, bound);
    FoldNone(ds[k].rec, ds[k].pending, ds[k].db.durableSeq);
  }

  /** A completion acknowledges a mark only when every write under it, and under every
      earlier mark, is durable. */
  lemma AckCoversMark(ds: seq<Driver>, es: seq<Event>, k: nat, s: SeqNum, w: Write)
    requires Run(ds, es) && k < |ds| && s <= ds[k].db.VisibleSeq()
    requires w in ds[k].pending && w.mark != 0 && w.mark <= MarkThrough(ds[k].pending, s)
    ensures w.seq_ <= s
  {
    RunGood(ds, es, k);
    GoodFacts(ds[k]);
    MarksInOrder(ds[k].pending, s, w);
  }

  lemma MarksInOrder(ws: seq<Write>, s: SeqNum, w: Write)
    requires Ordered(ws) && w in ws && w.mark != 0
    ensures w.seq_ <= s <==> w.mark <= MarkThrough(ws, s)
  {
    if MarkThrough(ws, s) != 0 {
      var x :| x in ws && x.seq_ <= s && x.mark == MarkThrough(ws, s);
      var i :| 0 <= i < |ws| && ws[i] == w;
      var j :| 0 <= j < |ws| && ws[j] == x;
      if i < j { OrderedAt(ws, i, j); } else if j < i { OrderedAt(ws, j, i); }
    }
  }
}
