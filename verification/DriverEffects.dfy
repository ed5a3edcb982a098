/** What each driver event makes of the record a restart would read. */
module DriverEffects {
  import opened RaftTypes
  import opened StorageDriver
  import opened DriverRun

  /** The record once everything in flight has completed. */
  ghost function Settled(d: Driver): Record { FoldThrough(d.rec, d.pending, d.db.VisibleSeq()) }

  lemma SettledNext(d: Driver, ops: seq<Op>, w: Write, d': Driver)
    requires Good(d) && w.seq_ == d.db.VisibleSeq() + 1
    requires d'.db == d.db.Apply(ops) && d'.rec == d.rec && d'.pending == d.pending + [w]
    ensures Settled(d') == Fold(Settled(d), w) && d'.db.VisibleSeq() == w.seq_
    ensures d'.db.Visible() == ApplyBatch(d.db.Visible(), ops)
  {
    assert Open(0, d);
    FoldTop(d.rec, d.pending, w);
  }

  /** A Ready's hard state replaces the old one, and its entries replace the log from the
      first of them on. */
  ghost predicate Spliced(r: Record, hs: Option<HardState>, es: seq<Entry>, r': Record) {
    && r'.hs == (if hs.Some? then hs.value else r.hs) && r'.snap == r.snap
    && (es == [] ==> r'.log == r.log)
    && (es != [] ==> r.snap.index < es[0].index <= r.snap.index + |r.log| + 1 &&
                     r'.log == r.log[..es[0].index - r.snap.index - 1] + es)
  }

  lemma HandoverSettles(d: Driver, hs: Option<HardState>, es: seq<Entry>, mark: Mark)
    requires Good(d) && Allowed(d, Handover(hs, es, mark))
    ensures Spliced(Settled(d), hs, es, Settled(Next(d, Handover(hs, es, mark))))
  {
    GoodVisible(d);
    var w := ReadyWrite(d.db.VisibleSeq() + 1, mark, hs, es, d.written);
    SettledNext(d, ReadyBatch(hs, es, d.written), w, Handed(d, hs, es, mark));
    FoldAppend(Settled(d), w.seq_, mark, hs, es);
  }

  /** An install leaves the snapshot it was given, an empty log and the hard state. */
  lemma InstallSettles(d: Driver, meta: SnapMeta)
    requires Good(d)
    ensures Settled(Next(d, Install(meta))) == Record(Settled(d).hs, meta, [])
    ensures Next(d, Install(meta)).db.Visible() == Store(d.db.Visible().hs, meta, map[])
  {
    var w := InstallWrite(d.db.VisibleSeq() + 1, meta);
    SettledNext(d, InstallBatch(meta), w, Installed(d, meta));
    TwoOps(d.db.Visible(), SetSnap(meta), DeleteRange(0, None));
  }

  /** A compaction leaves the snapshot it was given, the log above it and the hard state. */
  ghost predicate Trimmed(r: Record, meta: SnapMeta, r': Record) {
    && r.snap.index < meta.index <= r.snap.index + |r.log|
    && r' == Record(r.hs, meta, r.log[meta.index - r.snap.index..])
  }

  lemma CompactSettles(d: Driver, meta: SnapMeta)
    requires Good(d) && Allowed(d, Compact(meta))
    ensures Trimmed(Settled(d), meta, Settled(Next(d, Compact(meta))))
  {
    GoodVisible(d);
    var w := CompactWrite(d.db.VisibleSeq() + 1, meta);
    SettledNext(d, CompactBatch(meta), w, Compacted(d, meta));
    FoldCompact(Settled(d), w.seq_, meta);
  }

  /** Another replica's batch changes nothing of it. */
  lemma ElsewhereSettles(d: Driver)
    requires Good(d)
    ensures Settled(Next(d, Elsewhere)) == Settled(d)
  {
    assert Open(0, d);
    FoldLater(d.rec, d.pending, d.db.VisibleSeq());
  }

  /** Nor does a completion, however far it reaches. */
  lemma DurableSettles(d: Driver, s: SeqNum)
    requires Good(d) && s <= d.db.VisibleSeq()
    ensures Settled(Next(d, Durable(s))) == Settled(d)
  {
    var top := d.db.VisibleSeq();
    assert d.db.AdvanceDurable(s).VisibleSeq() == top;
    assert Ordered(d.pending) by { GoodFacts(d); }
    FoldSplit(d.rec, d.pending, s, top);
  }

  /** One that reaches everything makes it the record, with nothing in flight. */
  lemma AllDurable(d: Driver)
    requires Good(d)
    ensures var c := Next(d, Durable(d.db.VisibleSeq()));
      c.rec == Settled(d) && c.pending == [] && c.db.durableSeq == c.db.VisibleSeq() && c.db.durable == d.db.Visible()
  {
    assert forall w :: w in d.pending ==> w.seq_ <= d.db.VisibleSeq() by { assert Open(0, d); }
    AfterAll(d.pending, d.db.VisibleSeq());
  }

  /** A crash leaves the record. */
  lemma CrashSettles(d: Driver)
    ensures Settled(Next(d, Crash)) == d.rec && Next(d, Crash).rec == d.rec
  {}

  /** Once everything has completed after a hand-over, its mark is the one acknowledged. */
  lemma HandoverAcks(d: Driver, hs: Option<HardState>, es: seq<Entry>, mark: Mark)
    requires Good(d) && Allowed(d, Handover(hs, es, mark))
    ensures var d' := Next(d, Handover(hs, es, mark)); MarkThrough(d'.pending, d'.db.VisibleSeq()) == mark
  {
    assert Open(0, d);
    var d' := Handed(d, hs, es, mark);
    var w := d'.pending[|d.pending|];
    assert w in d'.pending && w.seq_ == d'.db.VisibleSeq() && w.mark == mark;
    assert forall x :: x in d'.pending ==> x in d.pending || x == w;
  }
}
