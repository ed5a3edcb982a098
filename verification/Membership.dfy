/** Cluster membership as a function of the log: a base configuration and the
    configuration entries above it, each taking effect when appended. */
module Membership {
  type NodeId = nat
  type Index = nat

  /** Both lists strictly increasing, so no node is counted twice. */
  datatype Configuration = Configuration(voters: seq<NodeId>, learners: seq<NodeId>)

  datatype ChangeKind = AddVoter | AddLearner | RemoveNode | Invalid | Unknown

  datatype Change = Change(kind: ChangeKind, node: NodeId)

  /** A configuration entry as it decodes. */
  datatype ConfEntry = ConfEntry(simple: bool, changes: seq<Change>)

  /** What one log entry says about membership. */
  datatype Item = Ordinary | Garbled | Conf(entry: ConfEntry)

  datatype Result = Accepted(conf: Configuration) | Refused

  ghost predicate Rising(xs: seq<NodeId>) { forall i, j :: 0 <= i < j < |xs| ==> xs[i] < xs[j] }

  ghost predicate WellFormed(c: Configuration) {
    Rising(c.voters) && Rising(c.learners) && c.voters != [] && forall n :: n in c.voters ==> n !in c.learners
  }

  // --- lists -----------------------------------------------------------------

  function Insert(xs: seq<NodeId>, n: NodeId): (out: seq<NodeId>)
    ensures forall x :: x in out <==> x in xs || x == n
  {
    if xs == [] then [n]
    else if n == xs[0] then xs
    else if n < xs[0] then [n] + xs
    else assert xs == [xs[0]] + xs[1..]; [xs[0]] + Insert(xs[1..], n)
  }

  lemma {:induction false} InsertRises(xs: seq<NodeId>, n: NodeId)
    requires Rising(xs)
    ensures Rising(Insert(xs, n))
  {
    if xs != [] && n > xs[0] {
      var r := Insert(xs[1..], n);
      InsertRises(xs[1..], n);
      forall i | 0 <= i < |r| ensures xs[0] < r[i] {
        assert r[i] in r;
        if r[i] in xs[1..] { var k :| 0 <= k < |xs[1..]| && xs[1..][k] == r[i]; assert xs[k + 1] == r[i]; }
      }
    }
  }

  function Remove(xs: seq<NodeId>, n: NodeId): (out: seq<NodeId>)
    ensures forall x :: x in out <==> x in xs && x != n
  {
    if xs == [] then []
    else
      var r := Remove(xs[..|xs| - 1], n);
      assert xs == xs[..|xs| - 1] + [xs[|xs| - 1]];
      if xs[|xs| - 1] == n then r else r + [xs[|xs| - 1]]
  }

  lemma {:induction false} RemoveRises(xs: seq<NodeId>, n: NodeId)
    requires Rising(xs)
    ensures Rising(Remove(xs, n))
  {
    if xs != [] {
      var pre, x := xs[..|xs| - 1], xs[|xs| - 1];
      var r := Remove(pre, n);
      RemoveRises(pre, n);
      forall i | 0 <= i < |r| ensures r[i] < x {
        assert r[i] in r && r[i] in pre;
        var k :| 0 <= k < |pre| && pre[k] == r[i];
        assert xs[k] == r[i];
      }
    }
  }

  ghost predicate SortedTo(xs: seq<NodeId>, n: nat)
    requires n <= |xs|
  { forall i, j :: 0 <= i < j < n ==> xs[i] <= xs[j] }

  /** The insertion sort, by exchanges. */
  method SortIDs(xs: seq<NodeId>) returns (out: seq<NodeId>)
    ensures SortedTo(out, |out|) && multiset(out) == multiset(xs)
  {
    out := xs;
    var i := 1;
    while i < |out|
      invariant |out| == |xs| && 1 <= i && (|xs| > 0 ==> i <= |xs|) && multiset(out) == multiset(xs)
      invariant i <= |out| ==> SortedTo(out, i)
    {
      var j := i;
      while j > 0 && out[j - 1] > out[j]
        invariant 0 <= j <= i < |out| == |xs| && multiset(out) == multiset(xs)
        invariant forall a, b :: 0 <= a < b <= i && b != j ==> out[a] <= out[b]
      {
        out := out[j - 1 := out[j]][j := out[j - 1]];
        j := j - 1;
      }
      i := i + 1;
    }
  }

  lemma MultisetMembers(a: seq<NodeId>, b: seq<NodeId>)
    requires multiset(a) == multiset(b)
    ensures forall x :: x in a <==> x in b
  {
    forall x ensures x in a <==> x in b { assert x in a <==> x in multiset(a); assert x in b <==> x in multiset(b); }
  }

  lemma SameHead(a: seq<NodeId>, b: seq<NodeId>)
    requires Rising(a) && Rising(b) && a != [] && b != [] && forall x :: x in a <==> x in b
    ensures a[0] == b[0]
  {
    assert a[0] in b && b[0] in a;
    var i :| 0 <= i < |b| && b[i] == a[0];
    var j :| 0 <= j < |a| && a[j] == b[0];
  }

  lemma TailMembers(a: seq<NodeId>, x: NodeId)
    requires Rising(a) && a != []
    ensures x in a[1..] <==> x in a && x != a[0]
  {
    assert a == [a[0]] + a[1..];
    assert a[0] !in a[1..] by {
      forall k | 0 <= k < |a[1..]| ensures a[1..][k] != a[0] { assert a[1..][k] == a[k + 1]; }
    }
  }

  /** Two strictly increasing lists with the same members are the same list. */
  lemma {:induction false} RisingUnique(a: seq<NodeId>, b: seq<NodeId>)
    requires Rising(a) && Rising(b) && forall x :: x in a <==> x in b
    ensures a == b
  {
    if a == [] {
      assert forall i :: 0 <= i < |b| ==> b[i] in b;
    } else {
      assert a[0] in b;
      SameHead(a, b);
      forall x ensures x in a[1..] <==> x in b[1..] {
        TailMembers(a, x);
        TailMembers(b, x);
      }
      RisingUnique(a[1..], b[1..]);
      assert a == [a[0]] + a[1..] && b == [b[0]] + b[1..];
    }
  }

  lemma {:induction false} NoRepeats(xs: seq<NodeId>)
    requires Rising(xs)
    ensures forall x :: multiset(xs)[x] <= 1
  {
    if xs != [] {
      var pre := xs[..|xs| - 1];
      NoRepeats(pre);
      assert xs == pre + [xs[|xs| - 1]];
      assert xs[|xs| - 1] !in pre;
    }
  }

  lemma TwiceCountsTwice(out: seq<NodeId>, i: nat, j: nat)
    requires i < j < |out|
    ensures out[i] == out[j] ==> multiset(out)[out[i]] >= 2
  {
    if out[i] == out[j] {
      assert out == out[..i] + [out[i]] + out[i + 1..j] + [out[j]] + out[j + 1..];
    }
  }

  lemma SortedUniqueRises(out: seq<NodeId>)
    requires SortedTo(out, |out|) && forall x :: multiset(out)[x] <= 1
    ensures Rising(out)
  {
    forall i, j | 0 <= i < j < |out| ensures out[i] < out[j] { TwiceCountsTwice(out, i, j); }
  }

  method InsertID(xs: seq<NodeId>, n: NodeId) returns (out: seq<NodeId>)
    requires Rising(xs)
    ensures out == Insert(xs, n)
  {
    InsertRises(xs, n);
    if n in xs {
      RisingUnique(xs, Insert(xs, n));
      return xs;
    }
    out := SortIDs(xs + [n]);
    MultisetMembers(out, xs + [n]);
    NoRepeats(xs);
    assert forall x :: multiset(xs + [n])[x] <= 1 by {
      assert multiset(xs + [n]) == multiset(xs) + multiset{n};
      assert multiset(xs)[n] == 0;
    }
    SortedUniqueRises(out);
    RisingUnique(out, Insert(xs, n));
  }

  method RemoveID(xs: seq<NodeId>, n: NodeId) returns (out: seq<NodeId>)
    ensures out == Remove(xs, n)
  {
    out := [];
    var i := 0;
    while i < |xs|
      invariant 0 <= i <= |xs| && out == Remove(xs[..i], n)
    {
      assert xs[..i + 1][..i] == xs[..i];
      if xs[i] != n { out := out + [xs[i]]; }
      i := i + 1;
    }
    assert xs[..i] == xs;
  }

  // --- changes ---------------------------------------------------------------

  function Apply(c: Configuration, ch: Change): Result {
    var out := match ch.kind
      case AddVoter => Accepted(Configuration(Insert(c.voters, ch.node), Remove(c.learners, ch.node)))
      case AddLearner => if ch.node in c.voters then Refused else Accepted(c.(learners := Insert(c.learners, ch.node)))
      case RemoveNode => Accepted(Configuration(Remove(c.voters, ch.node), Remove(c.learners, ch.node)))
      case Invalid => Refused
      case Unknown => Accepted(c);
    if out.Accepted? && out.conf.voters == [] then Refused else out
  }

  /** One simple change at a time, whoever proposed it. */
  function ApplyConfEntry(c: Configuration, e: ConfEntry): Result {
    if !e.simple || |e.changes| != 1 then Refused else Apply(c, e.changes[0])
  }

  lemma ApplyWellFormed(c: Configuration, e: ConfEntry)
    requires WellFormed(c) && ApplyConfEntry(c, e).Accepted?
    ensures WellFormed(ApplyConfEntry(c, e).conf)
  {
    var n := e.changes[0].node;
    InsertRises(c.voters, n);
    InsertRises(c.learners, n);
    RemoveRises(c.voters, n);
    RemoveRises(c.learners, n);
  }

  /** What each accepted change does to who votes and who learns. */
  lemma ApplyActs(c: Configuration, ch: Change, x: NodeId)
    requires Apply(c, ch).Accepted?
    ensures var d, n := Apply(c, ch).conf, ch.node;
      match ch.kind
      case AddVoter => (x in d.voters <==> x in c.voters || x == n) && (x in d.learners <==> x in c.learners && x != n)
      case AddLearner => (x in d.voters <==> x in c.voters) && (x in d.learners <==> x in c.learners || x == n)
      case RemoveNode =>
        && (x in d.voters <==> x in c.voters && x != n)
        && (x in d.learners <==> x in c.learners && x != n)
      case _ => d == c
  {}

  /** A change is refused exactly when its kind is invalid, it would demote a voter to a
      learner, or it would leave nobody to vote. */
  lemma ApplyRefuses(c: Configuration, ch: Change)
    requires WellFormed(c)
    ensures Apply(c, ch).Refused? <==>
      || ch.kind == Invalid || (ch.kind == AddLearner && ch.node in c.voters)
      || (ch.kind == RemoveNode && forall x :: x in c.voters ==> x == ch.node)
  {
    if ch.kind == AddVoter {
      assert ch.node in Insert(c.voters, ch.node);
    } else if ch.kind == RemoveNode {
      var rest := Remove(c.voters, ch.node);
      if rest != [] { assert rest[0] in rest; }
    }
  }

  ghost function IdSet(xs: seq<NodeId>): set<NodeId> { set n | n in xs }

  ghost function Voters(c: Configuration): set<NodeId> { IdSet(c.voters) }

  ghost predicate Majority(c: Configuration, q: set<NodeId>) { q <= Voters(c) && |q| >= |c.voters| / 2 + 1 }

  lemma {:induction false} CountIds(xs: seq<NodeId>)
    requires Rising(xs)
    ensures |IdSet(xs)| == |xs|
  {
    if xs != [] {
      var pre, x := xs[..|xs| - 1], xs[|xs| - 1];
      CountIds(pre);
      assert IdSet(xs) == IdSet(pre) + {x} by { assert xs == pre + [x]; }
      assert x !in IdSet(pre);
    }
  }

  lemma SubsetSize<T>(a: set<T>, b: set<T>)
    requires a <= b
    ensures |a| <= |b|
  {
    assert b == a + (b - a) && |b| == |a| + |b - a|;
  }

  /** Sets too large to fit side by side meet. */
  lemma Pigeonhole(a: set<NodeId>, b: set<NodeId>, u: set<NodeId>)
    requires a <= u && b <= u && |a| + |b| > |u|
    ensures exists n :: n in a && n in b
  {
    if a * b == {} {
      SubsetSize(a + b, u);
    } else {
      var n :| n in a * b;
    }
  }

  /** An accepted entry adds one voter, removes one, or leaves them alone. */
  lemma OneVoterAtMost(c: Configuration, e: ConfEntry)
    requires ApplyConfEntry(c, e).Accepted?
    ensures var d, n := ApplyConfEntry(c, e).conf, e.changes[0].node;
      Voters(d) == Voters(c) || Voters(d) == Voters(c) + {n} || Voters(d) == Voters(c) - {n}
  {
    var d, n := ApplyConfEntry(c, e).conf, e.changes[0].node;
    if e.changes[0].kind == AddVoter { assert Voters(d) == Voters(c) + {n}; }
    else if e.changes[0].kind == RemoveNode { assert Voters(d) == Voters(c) - {n}; }
  }

  lemma MajoritiesMeetIn(v: set<NodeId>, w: set<NodeId>, n: NodeId, q: set<NodeId>, r: set<NodeId>)
    requires w == v || w == v + {n} || w == v - {n}
    requires q <= v && r <= w && |q| >= |v| / 2 + 1 && |r| >= |w| / 2 + 1
    ensures exists x :: x in q && x in r
  {
    if n in v && w == v - {n} { assert v == w + {n}; }
    Pigeonhole(q, r, if |v| <= |w| then w else v);
  }

  /** Any majority before an accepted change meets any majority after it. */
  lemma MajoritiesMeet(c: Configuration, e: ConfEntry, q: set<NodeId>, r: set<NodeId>)
    requires WellFormed(c) && ApplyConfEntry(c, e).Accepted?
    requires Majority(c, q) && Majority(ApplyConfEntry(c, e).conf, r)
    ensures exists n :: n in q && n in r
  {
    var d := ApplyConfEntry(c, e).conf;
    ApplyWellFormed(c, e);
    CountIds(c.voters);
    CountIds(d.voters);
    OneVoterAtMost(c, e);
    MajoritiesMeetIn(Voters(c), Voters(d), e.changes[0].node, q, r);
  }

  /** Two servers at once need not: why an entry carrying two is refused. */
  lemma TwoAtOnceNeedNotMeet()
    ensures var c, d := Configuration([1], []), Configuration([1, 2, 3], []);
      Majority(c, {1}) && Majority(d, {2, 3}) && {1} * {2, 3} == {}
  {}

  // --- the configuration a log describes -------------------------------------

  /** One more log entry. A change that is refused leaves the configuration as it was. */
  function Step(c: Configuration, x: Item): Configuration {
    match x
    case Conf(e) => (match ApplyConfEntry(c, e) case Accepted(d) => d case Refused => c)
    case _ => c
  }

  function FoldConf(base: Configuration, log: seq<Item>): Configuration {
    if log == [] then base else Step(FoldConf(base, log[..|log| - 1]), log[|log| - 1])
  }

  lemma {:induction false} FoldSplit(base: Configuration, a: seq<Item>, b: seq<Item>)
    ensures FoldConf(base, a + b) == FoldConf(FoldConf(base, a), b)
  {
    if b == [] {
      assert a + b == a;
    } else {
      FoldSplit(base, a, b[..|b| - 1]);
      assert (a + b)[..|a + b| - 1] == a + b[..|b| - 1];
    }
  }

  /** The entry says nothing about node n. */
  ghost predicate Spares(x: Item, n: NodeId) {
    x.Conf? && x.entry.changes != [] ==> x.entry.changes[0].node != n
  }

  /** What the log last said about a node stands: nothing else moves it. */
  lemma {:induction false} LastWordStands(c: Configuration, rest: seq<Item>, n: NodeId)
    requires forall x :: x in rest ==> Spares(x, n)
    ensures n in FoldConf(c, rest).voters <==> n in c.voters
    ensures n in FoldConf(c, rest).learners <==> n in c.learners
  {
    if rest != [] {
      var pre, x := rest[..|rest| - 1], rest[|rest| - 1];
      LastWordStands(c, pre, n);
      assert Spares(x, n);
      if x.Conf? && ApplyConfEntry(FoldConf(c, pre), x.entry).Accepted? {
        ApplyActs(FoldConf(c, pre), x.entry.changes[0], n);
      }
    }
  }

  lemma {:induction false} OrdinaryKeeps(c: Configuration, b: seq<Item>)
    requires forall x :: x in b ==> x.Ordinary?
    ensures FoldConf(c, b) == c
  {
    if b != [] { OrdinaryKeeps(c, b[..|b| - 1]); }
  }

  lemma {:induction false} FoldWellFormed(base: Configuration, log: seq<Item>)
    requires WellFormed(base)
    ensures WellFormed(FoldConf(base, log))
  {
    if log != [] {
      FoldWellFormed(base, log[..|log| - 1]);
      var c, x := FoldConf(base, log[..|log| - 1]), log[|log| - 1];
      if x.Conf? && ApplyConfEntry(c, x.entry).Accepted? { ApplyWellFormed(c, x.entry); }
    }
  }

  /** Moving the base up to any position of the log and dropping the prefix leaves the
      active configuration unchanged. */
  lemma CompactionKeepsConf(base: Configuration, log: seq<Item>, p: nat)
    requires p <= |log|
    ensures FoldConf(FoldConf(base, log[..p]), log[p..]) == FoldConf(base, log)
  {
    FoldSplit(base, log[..p], log[p..]);
    assert log == log[..p] + log[p..];
  }

  method Fold(base: Configuration, log: seq<Item>) returns (conf: Configuration)
    ensures conf == FoldConf(base, log)
  {
    conf := base;
    var i := 0;
    while i < |log|
      invariant 0 <= i <= |log| && conf == FoldConf(base, log[..i])
    {
      assert log[..i + 1][..i] == log[..i];
      if log[i].Conf? {
        var next := ApplyConfEntry(conf, log[i].entry);
        if next.Accepted? { conf := next.conf; }
      }
      i := i + 1;
    }
    assert log[..i] == log;
  }

  /** What a node's column of a peer table holds, looked up by identity. */
  function Held<T>(peers: seq<NodeId>, column: seq<T>, p: NodeId, none: T): T
    requires |peers| == |column|
  { if peers == [] then none else if peers[0] == p then column[0] else Held(peers[1..], column[1..], p, none) }

  /** A column rebuilt for a new peer list holds each node's own value, and `none` for a
      newcomer. */
  method Carry<T>(oldPeers: seq<NodeId>, old_: seq<T>, peers: seq<NodeId>, none: T) returns (out: seq<T>)
    requires |old_| == |oldPeers|
    ensures |out| == |peers| && forall i :: 0 <= i < |peers| ==> out[i] == Held(oldPeers, old_, peers[i], none)
  {
    out := [];
    var i := 0;
    while i < |peers|
      invariant 0 <= i <= |peers| && |out| == i
      invariant forall k :: 0 <= k < i ==> out[k] == Held(oldPeers, old_, peers[k], none)
    {
      var j := 0;
      while j < |oldPeers| && oldPeers[j] != peers[i]
        invariant 0 <= j <= |oldPeers|
        invariant Held(oldPeers, old_, peers[i], none) == Held(oldPeers[j..], old_[j..], peers[i], none)
      {
        j := j + 1;
      }
      out := out + [if j < |oldPeers| then old_[j] else none];
      i := i + 1;
    }
  }

  /** The peer tables: progress, and the votes of an election under way. */
  datatype Tables = Tables(next: seq<Index>, matched: seq<Index>, granted: seq<bool>, denied: seq<bool>, pre: seq<bool>)

  ghost predicate Fits(t: Tables, n: nat) {
    |t.next| == |t.matched| == |t.granted| == |t.denied| == |t.pre| == n
  }

  /** The tables rebuilt for a new peer list: each node keeps its own row, and one without a
      next index starts from the end of the log. */
  method CarryTables(oldPeers: seq<NodeId>, t: Tables, peers: seq<NodeId>, last: Index) returns (u: Tables)
    requires Fits(t, |oldPeers|)
    ensures Fits(u, |peers|)
    ensures forall i :: 0 <= i < |peers| ==>
      && u.next[i] == (var n := Held(oldPeers, t.next, peers[i], 0); if n == 0 then last + 1 else n)
      && u.matched[i] == Held(oldPeers, t.matched, peers[i], 0)
      && u.granted[i] == Held(oldPeers, t.granted, peers[i], false)
      && u.denied[i] == Held(oldPeers, t.denied, peers[i], false)
      && u.pre[i] == Held(oldPeers, t.pre, peers[i], false)
  {
    var next := Carry(oldPeers, t.next, peers, 0);
    var matched := Carry(oldPeers, t.matched, peers, 0);
    var granted := Carry(oldPeers, t.granted, peers, false);
    var denied := Carry(oldPeers, t.denied, peers, false);
    var pre := Carry(oldPeers, t.pre, peers, false);
    next := seq(|peers|, i requires 0 <= i < |peers| => if next[i] == 0 then last + 1 else next[i]);
    u := Tables(next, matched, granted, denied, pre);
  }

  /** A node that stays keeps its progress and its vote, whatever else the change did. */
  lemma {:induction false} HeldStays<T>(peers: seq<NodeId>, column: seq<T>, j: nat, none: T)
    requires |peers| == |column| && j < |peers| && forall i, k :: 0 <= i < k < |peers| ==> peers[i] != peers[k]
    ensures Held(peers, column, peers[j], none) == column[j]
  {
    if j > 0 { HeldStays(peers[1..], column[1..], j - 1, none); }
  }

  /** A node's membership state: the base, the log above it, and the cached active
      configuration, which must always be the one the log describes. */
  class Member {
    var base: Configuration
    var snapIndex: Index
    var log: seq<Item>
    var conf: Configuration

    ghost predicate Consistent()
      reads this
    { conf == FoldConf(base, log) }

    function LastIndex(): Index
      reads this
    { snapIndex + |log| }

    constructor Restore(base: Configuration, snapIndex: Index, entries: seq<Item>)
      ensures Consistent() && this.base == base && this.snapIndex == snapIndex && log == entries
    {
      this.base, this.snapIndex, log := base, snapIndex, entries;
      conf := base;
      new;
      RecomputeConf();
    }

    method RecomputeConf()
      modifies this`conf
      ensures Consistent()
    {
      conf := Fold(base, log);
    }

    /** Recomputed only when a configuration entry arrives, since no other changes it. */
    method AppendEntries(es: seq<Item>)
      requires Consistent()
      modifies this`log, this`conf
      ensures Consistent() && log == old(log) + es
    {
      var changed := false;
      var i := 0;
      while i < |es|
        invariant 0 <= i <= |es| && log == old(log) + es[..i]
        invariant changed <==> exists k :: 0 <= k < i && !es[k].Ordinary?
        invariant conf == old(conf)
      {
        log := log + [es[i]];
        if !es[i].Ordinary? { changed := true; }
        assert old(log) + es[..i] + [es[i]] == old(log) + es[..i + 1];
        i := i + 1;
      }
      assert es[..i] == es;
      if changed {
        RecomputeConf();
      } else {
        FoldSplit(base, old(log), es);
        OrdinaryKeeps(conf, es);
      }
    }

    /** A truncation may take back a configuration entry. */
    method TruncateFrom(i: Index)
      requires Consistent() && (1 <= i <= LastIndex() ==> snapIndex < i)
      modifies this`log, this`conf
      ensures Consistent() && log == if 1 <= i <= old(LastIndex()) then old(log)[..i - snapIndex - 1] else old(log)
    {
      if i < 1 || i > LastIndex() { return; }
      log := log[..i - snapIndex - 1];
      RecomputeConf();
    }

    /** The configuration in effect at an index the log still reaches. */
    method ConfigurationAt(i: Index) returns (c: Result)
      ensures c == if snapIndex <= i <= LastIndex() then Accepted(FoldConf(base, log[..i - snapIndex])) else Refused
    {
      if i < snapIndex || i > LastIndex() { return Refused; }
      var conf := Fold(base, log[..i - snapIndex]);
      return Accepted(conf);
    }

    /** The prefix dropped and its configuration made the base: what was active stays so.
        Refused past what is applied or durable. */
    method Compact(i: Index, applied: Index, persisted: Index) returns (c: Result)
      requires Consistent() && applied <= LastIndex()
      modifies this
      ensures Consistent() && conf == old(conf)
      ensures c.Refused? <==> i > old(snapIndex) && (i > applied || i > persisted)
      ensures i > old(snapIndex) && c.Accepted? ==>
        && snapIndex == i && log == old(log)[i - old(snapIndex)..]
        && base == c.conf == FoldConf(old(base), old(log)[..i - old(snapIndex)])
    {
      if i <= snapIndex { return Accepted(base); }
      if i > applied || i > persisted { return Refused; }
      c := ConfigurationAt(i);
      CompactionKeepsConf(base, log, i - snapIndex);
      log := log[i - snapIndex..];
      snapIndex, base := i, c.conf;
      RecomputeConf();
    }

    /** An installed snapshot replaces the log and the base. One already covered by what is
        committed, or whose configuration does not decode, changes nothing. */
    method Install(i: Index, commit: Index, snapConf: Result) returns (ok: bool)
      requires Consistent()
      modifies this
      ensures Consistent() && (ok <==> i > commit && snapConf.Accepted?)
      ensures ok ==> conf == base == snapConf.conf && log == [] && snapIndex == i
      ensures !ok ==> conf == old(conf) && base == old(base) && log == old(log) && snapIndex == old(snapIndex)
    {
      if i <= commit || snapConf.Refused? { return false; }
      log, base := [], snapConf.conf;
      RecomputeConf();
      snapIndex := i;
      return true;
    }
  }

  /** A stored log entry, with the index it claims. */
  datatype Stored = Stored(index: Index, item: Item)

  ghost predicate Gapless(entries: seq<Stored>, snapIndex: Index) {
    forall i :: 0 <= i < |entries| ==> entries[i].index == snapIndex + i + 1
  }

  /** Recovery refuses a log that does not continue the snapshot without a gap. The base is
      the snapshot's configuration, or the configured one where it has none. */
  method RestoreMember(configured: Configuration, snapConf: Configuration, snapIndex: Index, entries: seq<Stored>)
    returns (m: Member?)
    ensures m != null <==> Gapless(entries, snapIndex)
    ensures m != null ==>
      && fresh(m) && m.Consistent() && m.snapIndex == snapIndex && |m.log| == |entries|
      && m.base == (if snapConf.voters != [] then snapConf else configured)
      && forall i :: 0 <= i < |entries| ==> m.log[i] == entries[i].item
  {
    var log: seq<Item> := [];
    var i := 0;
    while i < |entries|
      invariant 0 <= i <= |entries| == |entries| && |log| == i
      invariant forall k :: 0 <= k < i ==> entries[k].index == snapIndex + k + 1 && log[k] == entries[k].item
    {
      if entries[i].index != snapIndex + i + 1 { return null; }
      log := log + [entries[i].item];
      i := i + 1;
    }
    m := new Member.Restore(if snapConf.voters != [] then snapConf else configured, snapIndex, log);
  }
}
