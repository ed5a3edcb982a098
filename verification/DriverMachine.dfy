/** The driver as the program keeps it, its fields changed in place and its slices
    filtered by loops, and the tie between its batches and the cluster model's disk. */
module DriverMachine {
  import opened RaftTypes
  import opened StorageDriver
  import D = DriverRun
  import E = DriverEffects
  import Node = RaftNode
  import Cluster = RaftCluster
  import Inv = RaftInvariant

  method KeepAboveLoop(log: seq<Entry>, i: Index) returns (kept: seq<Entry>)
    ensures kept == KeepAbove(log, i)
  {
    kept := [];
    var k := 0;
    while k < |log|
      invariant 0 <= k <= |log| && kept == KeepAbove(log[..k], i)
    {
      assert log[..k + 1][..k] == log[..k];
      if log[k].index > i { kept := kept + [log[k]]; }
      k := k + 1;
    }
    assert log[..k] == log;
  }

  /** Indexing below the log would panic, so no entry may lie at or below the base. */
  method PlaceLoop(log: seq<Entry>, base: Index, es: seq<Entry>) returns (out: seq<Entry>)
    requires forall e :: e in es ==> e.index > base
    ensures out == Place(log, base, es)
  {
    out := log;
    var k := 0;
    while k < |es|
      invariant 0 <= k <= |es| && out == Place(log, base, es[..k])
    {
      var e := es[k];
      assert es[..k + 1][..k] == es[..k];
      var p := e.index - base - 1;
      if p < |out| { out := out[p := e]; } else { out := out + [e]; }
      k := k + 1;
    }
    assert es[..k] == es;
  }

  /** Compares hard state, snapshot and every entry's index, term, identity and data. */
  method SameDurableState(r: Record, got: Record) returns (same: bool)
    ensures got == r ==> same
    ensures same ==> r.hs == got.hs && r.snap == got.snap && |r.log| == |got.log|
    ensures same ==> forall i :: 0 <= i < |r.log| ==>
      r.log[i].index == got.log[i].index && r.log[i].term == got.log[i].term &&
      r.log[i].id == got.log[i].id && r.log[i].data == got.log[i].data
  {
    if r.hs != got.hs || r.snap != got.snap || |r.log| != |got.log| { return false; }
    var i := 0;
    while i < |r.log|
      invariant 0 <= i <= |r.log|
      invariant forall j :: 0 <= j < i ==>
        r.log[j].index == got.log[j].index && r.log[j].term == got.log[j].term &&
        r.log[j].id == got.log[j].id && r.log[j].data == got.log[j].data
    {
      var a, b := r.log[i], got.log[i];
      if a.index != b.index || a.term != b.term || a.id != b.id || a.data != b.data { return false; }
      i := i + 1;
    }
    return true;
  }

  /** What one more write does to the fold, the writes kept and the mark. */
  lemma StepFold(r: Record, ws: seq<Write>, k: nat, s: SeqNum)
    requires k < |ws|
    ensures var w := ws[k];
      if w.seq_ <= s then
        && D.FoldThrough(r, ws[..k + 1], s) == Fold(D.FoldThrough(r, ws[..k], s), w)
        && D.After(ws[..k + 1], s) == D.After(ws[..k], s)
        && D.MarkThrough(ws[..k + 1], s) == Max(D.MarkThrough(ws[..k], s), w.mark)
      else
        && D.FoldThrough(r, ws[..k + 1], s) == D.FoldThrough(r, ws[..k], s)
        && D.After(ws[..k + 1], s) == D.After(ws[..k], s) + [w]
        && D.MarkThrough(ws[..k + 1], s) == D.MarkThrough(ws[..k], s)
  {
    assert ws[..k + 1][..k] == ws[..k];
  }

  class Replica {
    var db: Engine
    var pending: seq<Write>
    var durHS: HardState
    var durSnap: SnapMeta
    var durLog: seq<Entry>
    var writtenLast: Index

    ghost function View(): D.Driver
      reads this
    { D.Driver(db, Rec(), pending, writtenLast) }

    function Rec(): Record
      reads this
    { Record(durHS, durSnap, durLog) }

    constructor ()
      ensures View() == D.Fresh() && D.Good(View())
    {
      db := D.Fresh().db;
      pending := [];
      durHS, durSnap, durLog := D.Empty.hs, D.Empty.snap, [];
      writtenLast := 0;
      new;
      D.FreshGood();
    }

    /** The log half of a Ready, as one batch under one mark. */
    method Persist(hs: Option<HardState>, es: seq<Entry>, mark: Mark)
      requires D.Good(View()) && D.Allowed(View(), D.Handover(hs, es, mark))
      modifies this
      ensures View() == D.Handed(old(View()), hs, es, mark) && D.Good(View())
      ensures E.Spliced(old(E.Settled(View())), hs, es, E.Settled(View()))
    {
      ghost var was := View();
      E.HandoverSettles(was, hs, es, mark);
      var s := db.VisibleSeq() + 1;
      db := db.Apply(ReadyBatch(hs, es, writtenLast));
      pending := pending + [ReadyWrite(s, mark, hs, es, writtenLast)];
      writtenLast := if es != [] then es[|es| - 1].index else writtenLast;
      D.GoodNext(was, D.Handover(hs, es, mark));
    }

    method Install(meta: SnapMeta)
      requires D.Good(View())
      modifies this
      ensures View() == D.Installed(old(View()), meta) && D.Good(View())
      ensures E.Settled(View()) == Record(old(E.Settled(View())).hs, meta, [])
      ensures db.Visible() == Store(old(db.Visible()).hs, meta, map[])
    {
      E.InstallSettles(View(), meta);
      D.GoodNext(View(), D.Event.Install(meta));
      pending := pending + [InstallWrite(db.VisibleSeq() + 1, meta)];
      db := db.Apply(InstallBatch(meta));
      writtenLast := meta.index;
    }

    method TakeSnapshot(meta: SnapMeta)
      requires D.Good(View()) && D.Allowed(View(), D.Compact(meta))
      modifies this
      ensures View() == D.Compacted(old(View()), meta) && D.Good(View())
      ensures E.Trimmed(old(E.Settled(View())), meta, E.Settled(View()))
    {
      E.CompactSettles(View(), meta);
      D.GoodNext(View(), D.Compact(meta));
      pending := pending + [CompactWrite(db.VisibleSeq() + 1, meta)];
      db := db.Apply(CompactBatch(meta));
    }

    method FoldWrite(w: Write)
      requires D.AboveBase(Rec(), w)
      modifies this`durHS, this`durSnap, this`durLog
      ensures Rec() == Fold(old(Rec()), w)
    {
      if w.hs.Some? { durHS := w.hs.value; }
      if w.snap.Some? { durSnap := w.snap.value; }
      if w.clearAll { durLog := []; }
      if w.clearBelow > 0 { durLog := KeepAboveLoop(durLog, w.clearBelow); }
      durLog := PlaceLoop(durLog, durSnap.index, w.entries);
      if w.clearAbove > 0 {
        var keep := w.clearAbove - durSnap.index;
        if keep >= 0 && keep < |durLog| { durLog := durLog[..keep]; }
      }
    }

    /** Folds the writes at or below s, in order, and keeps the rest in flight. */
    method FoldThrough(s: SeqNum) returns (mark: Mark)
      requires D.Ordered(pending) && D.Seated(View())
      modifies this`durHS, this`durSnap, this`durLog, this`pending
      ensures Rec() == D.FoldThrough(old(Rec()), old(pending), s) && pending == D.After(old(pending), s)
      ensures mark == D.MarkThrough(old(pending), s)
    {
      ghost var v, r, ws := View(), Rec(), pending;
      var kept: seq<Write> := [];
      mark := 0;
      var k := 0;
      while k < |pending|
        invariant 0 <= k <= |pending| && pending == ws
        invariant Rec() == D.FoldThrough(r, ws[..k], s)
        invariant kept == D.After(ws[..k], s) && mark == D.MarkThrough(ws[..k], s)
      {
        var w := pending[k];
        StepFold(r, ws, k, s);
        if w.seq_ <= s {
          assert D.SeatedAt(v, w);
          D.FoldPrefix(r, ws, k, s);
          FoldWrite(w);
          if w.mark > mark { mark := w.mark; }
        } else {
          kept := kept + [w];
        }
        k := k + 1;
      }
      assert ws[..k] == ws;
      pending := kept;
    }

    /** The mark to acknowledge: held back if a write under it is still in flight, which
        with one batch per mark never happens. */
    method MarkToAck(mark: Mark, ghost was: seq<Write>, ghost s: SeqNum) returns (m: Mark)
      requires D.Ordered(was) && mark == D.MarkThrough(was, s) && pending == D.After(was, s)
      ensures m == mark
    {
      m := mark;
      if |pending| > 0 && pending[0].mark != 0 && pending[0].mark <= mark {
        NoMarkSpans(was, s);
        assert false;
      }
    }

    /** The record against the engine, when nothing is in flight: they always agree. */
    method CrossCheck(bound: Index)
      requires D.Good(View()) && D.Bounds(db.Visible(), bound)
    {
      if db.VisibleSeq() == db.durableSeq && |pending| == 0 {
        ReadsBack(View(), bound);
        var same := SameDurableState(Rec(), D.ReadBack(db.Visible(), bound));
        assert same;
      }
    }

    /** A sync completion: the engine's watermark moves, the writes it covers are folded,
        the record is compared with the engine, and the mark now durable is returned. */
    method OnDurable(s: SeqNum, bound: Index) returns (mark: Mark)
      requires D.Good(View()) && s <= db.VisibleSeq() && D.Bounds(db.Visible(), bound)
      modifies this
      ensures View() == D.Completed(old(View()), s) && D.Good(View())
      ensures mark == D.MarkThrough(old(pending), s)
      ensures E.Settled(View()) == old(E.Settled(View()))
      ensures s == old(db.VisibleSeq()) ==>
        Rec() == old(E.Settled(View())) && pending == [] && db.durable == old(db.Visible())
    {
      E.DurableSettles(View(), s);
      E.AllDurable(View());
      D.GoodNext(View(), D.Durable(s));
      D.GoodFacts(View());
      ghost var ws := pending;
      mark := FoldThrough(s);
      db := db.AdvanceDurable(s);
      mark := MarkToAck(mark, ws, s);
      assert View() == D.Completed(old(View()), s);
      CrossCheck(bound);
    }

    method OnCrash()
      requires D.Good(View())
      modifies this
      ensures View() == D.Crashed(old(View())) && D.Good(View())
      ensures Rec() == old(Rec()) == E.Settled(View()) && db.Visible() == old(db.durable)
    {
      D.GoodNext(View(), D.Event.Crash);
      D.GoodFacts(View());
      db := db.Crash();
      pending := [];
      writtenLast := durSnap.index;
      var last := if durLog == [] then 0 else durLog[|durLog| - 1].index;
      assert durLog != [] ==> last == durSnap.index + |durLog|;
      if last > writtenLast { writtenLast := last; }
    }

    /** Recovery never finds a disagreement, and what it recovers is what Restore takes. */
    method Restart(bound: Index) returns (got: Record)
      requires D.Good(View()) && db.pending == [] && pending == [] && D.Bounds(db.Visible(), bound)
      ensures got == Rec() && Gapless(got.log, got.snap.index)
    {
      got := D.ReadBack(db.Visible(), bound);
      ReadsBack(View(), bound);
      var same := SameDurableState(Rec(), got);
      assert same;
    }
  }

  lemma ReadsBack(d: D.Driver, bound: Index)
    requires D.Good(d) && d.pending == [] && d.db.VisibleSeq() == d.db.durableSeq && D.Bounds(d.db.Visible(), bound)
    ensures D.ReadBack(d.db.Visible(), bound) == d.rec && Gapless(d.rec.log, d.rec.snap.index)
  {
    assert D.Open(0, d) && D.AgreesAt(d, d.db.durableSeq);
    ScanReads(d.db.Visible(), d.rec, bound);
    if d.rec.log != [] { assert Slot(d.db.Visible(), d.rec, LastOf(d.rec)); }
  }

  /** One batch per mark: what stays in flight carries no mark already folded. */
  lemma NoMarkSpans(ws: seq<Write>, s: SeqNum)
    requires D.Ordered(ws)
    ensures forall w :: w in D.After(ws, s) && w.mark != 0 ==> w.mark > D.MarkThrough(ws, s)
  {
    forall w | w in D.After(ws, s) && w.mark != 0 ensures w.mark > D.MarkThrough(ws, s) { D.MarksInOrder(ws, s, w); }
  }

  // --- the cluster model's disk is this driver's disk -------------------------

  ghost predicate Holds(r: Record, img: Cluster.Image) {
    r.snap.index == 0 && r.log == img.log && r.hs == HardState(img.term, img.vote)
  }

  /** Every Ready of a node whose disk is in order fits the record of its last write. */
  lemma RaftHandsOverFits(s: Cluster.Server, r: Record)
    requires Inv.Disk(s) && Holds(r, Inv.Final(s))
    ensures Fits(r, Node.ReadyOf(s.node).entries)
  {}

  /** And folding it gives the next disk image of the cluster model. */
  lemma FoldIsWriteOver(img: Cluster.Image, rd: Ready, r: Record, q: SeqNum)
    requires Holds(r, img) && Gapless(r.log, 0) && Fits(r, rd.entries)
    ensures Holds(Fold(r, ReadyWrite(q, rd.mark, rd.hard, rd.entries, LastOf(r))), Cluster.WriteOver(img, rd))
  {
    FoldAppend(r, q, rd.mark, rd.hard, rd.entries);
  }
}
