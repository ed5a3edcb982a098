/** One Raft node as a value, and every transition of it as a function. The class
    `RaftMachine.Raft` is proved to compute exactly these functions, and the cluster
    theorems are proved about them.

    Voters are fixed and there is no snapshot, so log position i sits at log[i - 1]. */
module RaftNode {
  import opened RaftTypes

  datatype Node = Node(
    id: NodeId,
    peers: seq<NodeId>,
    // Persistent, and durable before it is acted upon.
    term: Term,
    vote: NodeId,
    log: seq<Entry>,
    // Volatile.
    role: Role,
    commit: Index,
    applied: Index,
    leader: NodeId,
    next: seq<Index>,
    matched: seq<Index>,
    granted: seq<bool>,
    denied: seq<bool>,
    // Output.
    msgs: seq<Message>,
    gated: seq<Gated>,
    // What has been handed to the driver and what is durable.
    tailPersisted: Index,
    tailHanded: Index,
    markLastIdx: Index,
    lastHandedMark: Mark,
    hardDirty: bool,
    nextMark: Mark,
    persisted: Mark,
    dirtyMark: Mark,
    hsMark: Mark,
    markHandedOff: bool)

  function Quorum(n: Node): nat { |n.peers| / 2 + 1 }

  /** Position of p in the peer list, or the list's length when absent. */
  function PeerIdx(peers: seq<NodeId>, p: NodeId): (k: nat)
    ensures k <= |peers|
    ensures k < |peers| ==> peers[k] == p
    ensures k == |peers| ==> p !in peers
    ensures forall j :: 0 <= j < k ==> peers[j] != p
  {
    if peers == [] then 0 else if peers[0] == p then 0 else 1 + PeerIdx(peers[1..], p)
  }

  /** The four per-peer tables are parallel to the peer list, and the node is its own peer. */
  ghost predicate Shaped(n: Node) {
    && |n.next| == |n.matched| == |n.granted| == |n.denied| == |n.peers|
    && n.id in n.peers
    && n.id != 0
    && (forall i, j :: 0 <= i < j < |n.peers| ==> n.peers[i] != n.peers[j])
    && Indexed(n.log)
  }

  /** The bookkeeping invariant of the durability marks. A mark is open and unhanded
      exactly when there is something to hand over; with no mark open the whole log is
      durable; and the mark carrying the hard state is either acknowledged or in flight. */
  ghost predicate MarksOk(n: Node) {
    && n.tailPersisted <= n.tailHanded <= |n.log|
    && n.markLastIdx == n.tailHanded
    && n.persisted <= n.lastHandedMark <= n.nextMark
    && (n.hardDirty || n.tailHanded < |n.log| <==> n.dirtyMark != 0 && !n.markHandedOff)
    && (n.dirtyMark != 0 && n.markHandedOff ==> n.dirtyMark == n.lastHandedMark > n.persisted)
    && (n.dirtyMark != 0 && !n.markHandedOff ==> n.dirtyMark == n.nextMark > n.lastHandedMark)
    && (n.dirtyMark == 0 ==> n.tailPersisted == |n.log| && n.persisted == n.lastHandedMark && !n.markHandedOff)
    && n.hsMark <= n.lastHandedMark
    && (n.hsMark != 0 ==> n.hsMark > n.persisted)
    && (forall g :: g in n.gated ==> !Lands(g, n.persisted) && g.mark <= n.nextMark && g.termMark <= n.nextMark)
  }

  // --- durability bookkeeping ------------------------------------------------

  /** Open a durability point, or extend the open one if it has not been handed over. */
  function Dirty(n: Node): Node {
    if n.dirtyMark == 0 || n.markHandedOff
    then n.(nextMark := n.nextMark + 1, dirtyMark := n.nextMark + 1, markHandedOff := false)
    else n
  }

  function SetHard(n: Node, t: Term, v: NodeId): Node {
    if n.term == t && n.vote == v then n
    else Dirty(n.(term := t, vote := v, hardDirty := true))
  }

  function TermMark(n: Node): Mark {
    if n.hardDirty && n.dirtyMark > n.hsMark then n.dirtyMark else n.hsMark
  }

  /** The mark covering log position idx. */
  function MarkFor(n: Node, idx: Index): Mark {
    if idx == 0 || idx <= n.tailPersisted then 0 else n.dirtyMark
  }

  function SendOn(n: Node, mark: Mark, m: Message): Node {
    if mark == 0 && TermMark(n) == 0 then n.(msgs := n.msgs + [m])
    else n.(gated := n.gated + [Gated(m, mark, TermMark(n))])
  }

  function Send(n: Node, m: Message): Node { SendOn(n, 0, m) }

  function Release(n: Node): Node {
    n.(msgs := n.msgs + Landed(n.gated, n.persisted), gated := Kept(n.gated, n.persisted))
  }

  // --- the log ---------------------------------------------------------------

  function AppendEntry(n: Node, e: Entry): Node { Dirty(n.(log := n.log + [e])) }

  function CutTo(x: Index, i: Index): Index
    requires i >= 1
  { if x >= i then i - 1 else x }

  function TruncateFrom(n: Node, i: Index): Node {
    if i < 1 || i > |n.log| then n
    else n.(log := n.log[..i - 1],
            tailPersisted := CutTo(n.tailPersisted, i),
            tailHanded := CutTo(n.tailHanded, i),
            markLastIdx := CutTo(n.markLastIdx, i),
            gated := DropAcks(n.gated, i))
  }

  /** One incoming entry: kept if already present, else appended over any conflict. */
  function MergeOne(n: Node, e: Entry): Node {
    if e.index <= |n.log| then
      if TermOf(n.log, e.index) == e.term then n else AppendEntry(TruncateFrom(n, e.index), e)
    else AppendEntry(n, e)
  }

  function Merge(n: Node, es: seq<Entry>): Node {
    if es == [] then n else MergeOne(Merge(n, es[..|es| - 1]), es[|es| - 1])
  }

  predicate Matches(n: Node, idx: Index, term: Term) {
    idx == 0 || (idx <= |n.log| && TermOf(n.log, idx) == term)
  }

  // --- replication -----------------------------------------------------------

  function AppFor(n: Node, k: nat): Message
    requires k < |n.peers| == |n.next|
  {
    var next := Max(n.next[k], 1);
    App(n.id, n.peers[k], n.term, next - 1, TermOf(n.log, next - 1),
        if next <= |n.log| then n.log[next - 1..] else [], n.commit)
  }

  function SendAppend(n: Node, k: nat): Node
    requires k < |n.peers| == |n.next|
  { Send(n, AppFor(n, k)) }

  /** Append messages to the first k peers other than this node. */
  function Broadcast(n: Node, k: nat): (r: Node)
    requires k <= |n.peers| == |n.next|
    ensures r == n.(msgs := r.msgs, gated := r.gated)
  {
    if k == 0 then n
    else
      var b := Broadcast(n, k - 1);
      if n.peers[k - 1] == n.id then b else SendAppend(b, k - 1)
  }

  /** Which match indices reach position i. */
  function Reached(matched: seq<Index>, i: Index): (flags: seq<bool>)
    ensures |flags| == |matched| && forall k :: 0 <= k < |matched| ==> flags[k] == (matched[k] >= i)
  {
    seq(|matched|, k requires 0 <= k < |matched| => matched[k] >= i)
  }

  function ReplicasAt(n: Node, i: Index): nat { CountTrue(Reached(n.matched, i)) }

  /** Position i may be committed by counting: replicated on a quorum, and of this term. */
  predicate Countable(n: Node, i: Index) {
    TermOf(n.log, i) == n.term && ReplicasAt(n, i) >= Quorum(n)
  }

  /** The highest countable position in (commit, i], or the commit index itself. */
  function CommitScan(n: Node, i: Index): (c: Index)
    ensures c == n.commit || (n.commit < c <= i && Countable(n, c))
    ensures forall j :: Max(c, n.commit) < j <= i ==> !Countable(n, j)
  {
    if i <= n.commit then n.commit else if Countable(n, i) then i else CommitScan(n, i - 1)
  }

  function MaybeCommit(n: Node): Node { n.(commit := CommitScan(n, |n.log|)) }

  // --- roles -----------------------------------------------------------------

  function BecomeFollower(n: Node, t: Term, v: NodeId): Node {
    (if t > n.term then SetHard(n, t, v) else n).(role := Follower)
  }

  function NoOp(n: Node): Entry { Entry(Normal, n.term, |n.log| + 1, ProposalId(0, 0), []) }

  /** Leadership taken, before the term-start no-op is appended. */
  function TakeOffice(n: Node): Node
    requires Shaped(n)
  {
    n.(role := Leader, leader := n.id,
       next := seq(|n.peers|, _ => |n.log| + 1),
       matched := seq(|n.peers|, k => if k == PeerIdx(n.peers, n.id) then n.tailPersisted else 0))
  }

  function BecomeLeader(n: Node): Node
    requires Shaped(n)
  {
    var l := AppendEntry(TakeOffice(n), NoOp(n));
    Broadcast(l, |l.peers|)
  }

  /** Candidacy declared: next term, own vote, no votes counted but this node's. */
  function Declare(n: Node): Node
    requires Shaped(n)
  {
    var c := SetHard(n.(role := Candidate), n.term + 1, n.id);
    c.(leader := 0,
       granted := seq(|n.peers|, k => k == PeerIdx(n.peers, n.id)),
       denied := seq(|n.peers|, _ => false))
  }

  function VoteReqFor(n: Node, k: nat): Message
    requires k < |n.peers|
  { VoteReq(n.id, n.peers[k], n.term, |n.log|, LastTerm(n.log)) }

  function Solicit(n: Node, k: nat): (r: Node)
    requires k <= |n.peers|
    ensures r == n.(msgs := r.msgs, gated := r.gated)
  {
    if k == 0 then n
    else
      var b := Solicit(n, k - 1);
      if n.peers[k - 1] == n.id then b else Send(b, VoteReqFor(b, k - 1))
  }

  function ForceCampaign(n: Node): Node
    requires Shaped(n)
  {
    var c := Declare(n);
    if Quorum(c) == 1 then BecomeLeader(c) else Solicit(c, |c.peers|)
  }

  // --- input -----------------------------------------------------------------

  predicate Grants(n: Node, m: Message)
    requires m.VoteReq?
  {
    m.term >= n.term && (n.vote == 0 || n.vote == m.from) && UpToDate(n.log, m.lastIndex, m.lastTerm)
  }

  function StepVote(n: Node, m: Message): Node
    requires m.VoteReq?
  {
    var g := Grants(n, m);
    var v := if g then SetHard(n, n.term, m.from) else n;
    Send(v, VoteResp(n.id, m.from, n.term, g))
  }

  /** A vote response counted, before any change of role. */
  function CountVote(n: Node, m: Message): Node
    requires m.VoteResp? && Shaped(n) && m.from in n.peers
  {
    var k := PeerIdx(n.peers, m.from);
    if m.granted then n.(granted := n.granted[k := true]) else n.(denied := n.denied[k := true])
  }

  function StepVoteResp(n: Node, m: Message): Node
    requires m.VoteResp? && Shaped(n)
  {
    if n.role != Candidate || m.term != n.term || m.from !in n.peers then n
    else
      var c := CountVote(n, m);
      if CountTrue(c.granted) >= Quorum(n) then BecomeLeader(c)
      else if CountTrue(c.denied) >= Quorum(n) then c.(role := Follower)
      else c
  }

  function Reject(n: Node, to: NodeId, hint: Index): Node {
    Send(n, AppResp(n.id, to, n.term, false, 0, hint))
  }

  /** The append accepted: entries merged, the commit index raised, the reply not yet sent. */
  function Accept(n: Node, m: Message): Node
    requires m.App?
  {
    var g := Merge(n, m.entries);
    if m.commit > g.commit then g.(commit := Min(m.commit, m.prevIndex + |m.entries|)) else g
  }

  function StepApp(n: Node, m: Message): Node
    requires m.App?
  {
    if m.term < n.term then Reject(n, m.from, 0)
    else
      var f := BecomeFollower(n, m.term, n.vote).(leader := m.from);
      if !Matches(f, m.prevIndex, m.prevTerm) then Reject(f, m.from, |f.log|)
      else
        var a := Accept(f, m);
        var last := m.prevIndex + |m.entries|;
        SendOn(a, MarkFor(a, last), AppResp(a.id, m.from, a.term, true, last, 0))
  }

  /** The entry lands without a gap and overwrites nothing committed. */
  predicate CleanAt(n: Node, e: Entry) {
    && 1 <= e.index <= |n.log| + 1
    && (e.index <= |n.log| && TermOf(n.log, e.index) != e.term ==> n.commit < e.index)
  }

  ghost predicate MergeClean(n: Node, es: seq<Entry>) {
    forall j :: 0 <= j < |es| ==> CleanAt(Merge(n, es[..j]), es[j])
  }

  /** The position has a mark to wait for, or needs none. */
  predicate HasMark(n: Node, i: Index) { i <= n.tailPersisted || n.dirtyMark != 0 }

  /** Handling m reaches none of the state machine's panics: no gap in the log, no
      committed entry overwritten, no position left without a mark. */
  ghost predicate StepClean(n: Node, m: Message) {
    m.App? && m.term >= n.term ==>
      var u := if m.term > n.term then BecomeFollower(n, m.term, 0) else n;
      var f := BecomeFollower(u, m.term, u.vote).(leader := m.from);
      Matches(f, m.prevIndex, m.prevTerm) ==>
        MergeClean(f, m.entries) && HasMark(Accept(f, m), m.prevIndex + |m.entries|)
  }

  /** An acknowledgement of matchIndex from peer k recorded in the progress tables. */
  function Progress(n: Node, k: nat, matchIndex: Index): Node
    requires k < |n.matched| == |n.next|
  {
    var mt := Max(n.matched[k], matchIndex);
    n.(matched := n.matched[k := mt], next := n.next[k := Max(n.next[k], mt + 1)])
  }

  function BackUp(next: Index, hint: Index): Index {
    Max(if hint + 1 < next then hint + 1 else if next > 1 then next - 1 else next, 1)
  }

  function StepAppResp(n: Node, m: Message): Node
    requires m.AppResp? && Shaped(n)
  {
    if n.role != Leader || m.term != n.term || m.from !in n.peers then n
    else
      var k := PeerIdx(n.peers, m.from);
      if !m.success then SendAppend(n.(next := n.next[k := BackUp(n.next[k], m.hint)]), k)
      else MaybeCommit(Progress(n, k, m.matchIndex))
  }

  function Step(n: Node, m: Message): Node
    requires Shaped(n)
  {
    var u := if m.term > n.term then BecomeFollower(n, m.term, 0) else n;
    match m
    case VoteReq(_, _, _, _, _) => StepVote(u, m)
    case VoteResp(_, _, _, _) => StepVoteResp(u, m)
    case App(_, _, _, _, _, _, _) => StepApp(u, m)
    case AppResp(_, _, _, _, _, _) => StepAppResp(u, m)
  }

  function Propose(n: Node, id: ProposalId, data: seq<bv8>): Node
    requires |n.next| == |n.peers|
  {
    if id.Zero() || n.role != Leader then n
    else
      var a := AppendEntry(n, Entry(Normal, n.term, |n.log| + 1, id, data));
      Broadcast(a, |a.peers|)
  }

  // --- output ----------------------------------------------------------------

  /** A mark that covers nothing is struck from the messages it gated, and from no other. */
  function Strike(gated: seq<Gated>, m: Mark): seq<Gated> {
    seq(|gated|, i requires 0 <= i < |gated| =>
      gated[i].(mark := if gated[i].mark == m then 0 else gated[i].mark,
                termMark := if gated[i].termMark == m then 0 else gated[i].termMark))
  }

  function CloseEmptyMark(n: Node, m: Mark): Node {
    var c := if n.dirtyMark == m then n.(dirtyMark := 0, markHandedOff := false) else n;
    Release(c.(gated := Strike(c.gated, m)))
  }

  predicate HandsOver(n: Node) { n.hardDirty || n.tailHanded < |n.log| }

  function ReadyOf(n: Node): Ready
    requires n.tailHanded <= |n.log|
  {
    Ready(if n.hardDirty then Some(HardState(n.term, n.vote)) else None,
          n.log[n.tailHanded..],
          if HandsOver(n) then n.dirtyMark else 0,
          n.msgs,
          if n.applied < Min(n.commit, |n.log|) then n.log[n.applied..Min(n.commit, |n.log|)] else [])
  }

  function AfterReady(n: Node): Node
    requires n.tailHanded <= |n.log|
  {
    var h := if n.hardDirty then n.(hsMark := n.dirtyMark) else n;
    var k :=
      if HandsOver(n) then
        h.(markHandedOff := true, lastHandedMark := n.dirtyMark,
           tailHanded := |n.log|,
           markLastIdx := if n.tailHanded < |n.log| then |n.log| else n.markLastIdx)
      else if n.dirtyMark != 0 && !n.markHandedOff then CloseEmptyMark(h, n.dirtyMark)
      else h;
    k.(msgs := [], hardDirty := false)
  }

  /** The watermarks moved by an acknowledgement of mark m, before anything is released. */
  function Persisted(n: Node, m: Mark): Node {
    n.(persisted := m,
       hsMark := if n.hsMark != 0 && n.hsMark <= m then 0 else n.hsMark,
       tailPersisted := if n.lastHandedMark != 0 && m >= n.lastHandedMark && n.markLastIdx > n.tailPersisted
                        then n.markLastIdx else n.tailPersisted,
       dirtyMark := if n.dirtyMark != 0 && n.dirtyMark <= m then 0 else n.dirtyMark,
       markHandedOff := if n.dirtyMark != 0 && n.dirtyMark <= m then false else n.markHandedOff)
  }

  /** A leader counts its own copy only once it is durable. */
  function CountSelf(n: Node): Node
    requires Shaped(n)
  {
    var k := PeerIdx(n.peers, n.id);
    if n.role == Leader && n.tailPersisted > n.matched[k]
    then MaybeCommit(n.(matched := n.matched[k := n.tailPersisted])) else n
  }

  function AckPersisted(n: Node, m: Mark): Node
    requires Shaped(n)
  {
    if m <= n.persisted then n else CountSelf(Release(Persisted(n, m)))
  }

  function AckApplied(n: Node, i: Index): Node { n.(applied := Max(n.applied, i)) }

  /** A fresh node over what the engine gave back after a crash. */
  function Restore(id: NodeId, peers: seq<NodeId>, hs: HardState, entries: seq<Entry>): Node {
    Node(id, peers, hs.term, hs.vote, entries, Follower, 0, 0, 0,
         seq(|peers|, _ => |entries| + 1), seq(|peers|, _ => 0),
         seq(|peers|, _ => false), seq(|peers|, _ => false),
         [], [], |entries|, |entries|, |entries|, 0, false, 0, 0, 0, 0, false)
  }
}
