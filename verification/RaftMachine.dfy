/** The node as the program keeps it: a mutable object, its slices grown and filtered by
    loops. Each method is proved to take the node's value to exactly what the function of
    `RaftNode` with its name gives, so the cluster theorems speak about this code. */
module RaftMachine {
  import opened RaftTypes
  import N = RaftNode

  /** The withheld messages parted into those whose marks have landed and the rest. */
  method PartLanded(gated: seq<Gated>, persisted: Mark) returns (out: seq<Message>, kept: seq<Gated>)
    ensures out == Landed(gated, persisted) && kept == Kept(gated, persisted)
  {
    out, kept := [], [];
    var i := 0;
    while i < |gated|
      invariant 0 <= i <= |gated| && kept == Kept(gated[..i], persisted) && out == Landed(gated[..i], persisted)
    {
      var g := gated[i];
      assert gated[..i + 1][..i] == gated[..i];
      if g.mark <= persisted && g.termMark <= persisted {
        out := out + [g.msg];
      } else {
        kept := kept + [g];
      }
      i := i + 1;
    }
    assert gated[..i] == gated;
  }

  /** Acknowledgements of a truncated position dropped. */
  method DropTruncated(gated: seq<Gated>, i: Index) returns (kept: seq<Gated>)
    ensures kept == DropAcks(gated, i)
  {
    kept := [];
    var k := 0;
    while k < |gated|
      invariant 0 <= k <= |gated| && kept == DropAcks(gated[..k], i)
    {
      var g := gated[k];
      assert gated[..k + 1][..k] == gated[..k];
      if !(g.msg.IsAck() && g.msg.matchIndex >= i) { kept := kept + [g]; }
      k := k + 1;
    }
    assert gated[..k] == gated;
  }

  /** A closed mark struck from every constraint that names it. */
  method StrikeMark(gated: seq<Gated>, m: Mark) returns (out: seq<Gated>)
    ensures out == N.Strike(gated, m)
  {
    out := gated;
    var i := 0;
    while i < |gated|
      invariant 0 <= i <= |gated| == |out|
      invariant forall j :: 0 <= j < i ==> out[j] == N.Strike(gated, m)[j]
      invariant forall j :: i <= j < |gated| ==> out[j] == gated[j]
    {
      if out[i].mark == m { out := out[i := out[i].(mark := 0)]; }
      if out[i].termMark == m { out := out[i := out[i].(termMark := 0)]; }
      i := i + 1;
    }
  }

  method CountSet(flags: seq<bool>) returns (n: nat)
    ensures n == CountTrue(flags)
  {
    n := 0;
    var i := 0;
    while i < |flags|
      invariant 0 <= i <= |flags| && n + CountTrue(flags[i..]) == CountTrue(flags)
    {
      if flags[i] { n := n + 1; }
      i := i + 1;
    }
  }

  /** How many match indices reach position i. */
  method CountReached(matched: seq<Index>, i: Index) returns (n: nat)
    ensures n == CountTrue(N.Reached(matched, i))
  {
    ghost var flags := N.Reached(matched, i);
    n := 0;
    var k := 0;
    while k < |matched|
      invariant 0 <= k <= |matched| && n + CountTrue(flags[k..]) == CountTrue(flags)
    {
      if matched[k] >= i { n := n + 1; }
      k := k + 1;
    }
  }

  lemma StaysValid(n: N.Node)
    requires N.Shaped(n) && n.tailHanded <= |n.log|
    ensures N.Shaped(N.AfterReady(n)) && N.AfterReady(n).tailHanded <= |N.AfterReady(n).log|
  {}

  class Raft {
    const id: NodeId
    const peers: seq<NodeId>
    var term: Term
    var vote: NodeId
    var log: seq<Entry>
    var role: Role
    var commitIndex: Index
    var appliedIdx: Index
    var leader: NodeId
    var nextIndex: seq<Index>
    var matchIndex: seq<Index>
    var votesGranted: seq<bool>
    var votesDenied: seq<bool>
    var msgs: seq<Message>
    var gated: seq<Gated>
    var tailPersisted: Index
    var tailHanded: Index
    var markLastIdx: Index
    var lastHandedMark: Mark
    var hardStateDirty: bool
    var nextMark: Mark
    var persisted: Mark
    var dirtyMark: Mark
    var hsMark: Mark
    var markHandedOff: bool

    /** The object's value. */
    ghost function View(): N.Node
      reads this
    {
      N.Node(id, peers, term, vote, log, role, commitIndex, appliedIdx, leader, nextIndex, matchIndex,
             votesGranted, votesDenied, msgs, gated, tailPersisted, tailHanded, markLastIdx, lastHandedMark,
             hardStateDirty, nextMark, persisted, dirtyMark, hsMark, markHandedOff)
    }

    ghost predicate Valid()
      reads this
    { N.Shaped(View()) && tailHanded <= |log| }

    /** A node over recovered state whose indices are gapless. */
    constructor (id: NodeId, peers: seq<NodeId>, hs: HardState, entries: seq<Entry>)
      ensures View() == N.Restore(id, peers, hs, entries)
    {
      this.id, this.peers := id, peers;
      term, vote, log := hs.term, hs.vote, entries;
      role, commitIndex, appliedIdx, leader := Follower, 0, 0, 0;
      nextIndex, matchIndex := seq(|peers|, _ => |entries| + 1), seq(|peers|, _ => 0);
      votesGranted, votesDenied := seq(|peers|, _ => false), seq(|peers|, _ => false);
      msgs, gated := [], [];
      tailPersisted, tailHanded, markLastIdx := |entries|, |entries|, |entries|;
      lastHandedMark, hardStateDirty, nextMark, persisted := 0, false, 0, 0;
      dirtyMark, hsMark, markHandedOff := 0, 0, false;
    }

    function LastIndex(): (i: Index)
      reads this
      requires Valid()
      ensures i == |log|
    { if log == [] then 0 else log[|log| - 1].index }

    method PeerIdx(p: NodeId) returns (k: int)
      ensures k == if p in peers then N.PeerIdx(peers, p) else -1
    {
      var i := 0;
      while i < |peers|
        invariant 0 <= i <= |peers| && p !in peers[..i]
      {
        if peers[i] == p {
          assert forall j :: 0 <= j < i ==> peers[..i][j] == peers[j];
          return i;
        }
        i := i + 1;
      }
      assert peers[..i] == peers;
      return -1;
    }

    // --- durability ------------------------------------------------------------

    method MarkDirty()
      modifies `nextMark, `dirtyMark, `markHandedOff
      ensures View() == N.Dirty(old(View()))
    {
      if dirtyMark == 0 || markHandedOff {
        nextMark := nextMark + 1;
        dirtyMark := nextMark;
        markHandedOff := false;
      }
    }

    method SetTermAndVote(t: Term, v: NodeId)
      modifies `term, `vote, `hardStateDirty, `nextMark, `dirtyMark, `markHandedOff
      ensures View() == N.SetHard(old(View()), t, v)
      ensures t > old(term) ==> term == t && vote == v && hardStateDirty
    {
      if term != t || vote != v {
        term, vote := t, v;
        hardStateDirty := true;
        MarkDirty();
      }
    }

    method SetVote(v: NodeId)
      modifies `vote, `hardStateDirty, `nextMark, `dirtyMark, `markHandedOff
      ensures View() == N.SetHard(old(View()), old(term), v)
    {
      if vote != v {
        vote := v;
        hardStateDirty := true;
        MarkDirty();
      }
    }

    method TermMark() returns (m: Mark)
      ensures m == N.TermMark(View())
    {
      m := hsMark;
      if hardStateDirty && dirtyMark > m { m := dirtyMark; }
    }

    /** Panics when the position is neither durable nor pending. */
    method MarkFor(idx: Index) returns (m: Mark)
      requires idx == 0 || N.HasMark(View(), idx)
      ensures m == N.MarkFor(View(), idx)
    {
      if idx == 0 || idx <= tailPersisted { return 0; }
      return dirtyMark;
    }

    method SendGatedOn(mark: Mark, m: Message)
      modifies `msgs, `gated
      ensures View() == N.SendOn(old(View()), mark, m)
    {
      var tm := TermMark();
      if mark == 0 && tm == 0 {
        msgs := msgs + [m];
        return;
      }
      gated := gated + [Gated(m, mark, tm)];
    }

    method SendGated(m: Message)
      modifies `msgs, `gated
      ensures View() == N.Send(old(View()), m)
    {
      SendGatedOn(0, m);
    }

    method Release()
      modifies `msgs, `gated
      ensures View() == N.Release(old(View()))
    {
      var out, kept := PartLanded(gated, persisted);
      msgs := msgs + out;
      gated := kept;
    }

    method CloseEmptyMark(m: Mark)
      modifies `msgs, `gated, `dirtyMark, `markHandedOff
      ensures View() == N.CloseEmptyMark(old(View()), m)
    {
      if dirtyMark == m {
        dirtyMark := 0;
        markHandedOff := false;
      }
      gated := StrikeMark(gated, m);
      Release();
    }

    // --- the log ---------------------------------------------------------------

    function TermAt(i: Index): (t: Term)
      reads this
      ensures t == TermOf(log, i)
    { if 1 <= i <= |log| then log[i - 1].term else 0 }

    function SuffixFrom(i: Index): seq<Entry>
      reads this
      requires i >= 1
    { if i <= |log| then log[i - 1..] else [] }

    /** Panics on a gap. */
    method AppendEntries(e: Entry)
      requires Valid() && e.index == |log| + 1
      modifies `log, `nextMark, `dirtyMark, `markHandedOff
      ensures View() == N.AppendEntry(old(View()), e) && Valid()
    {
      log := log + [e];
      MarkDirty();
    }

    /** Panics when a committed entry would be discarded. */
    method TruncateFrom(i: Index)
      requires Valid() && (1 <= i <= |log| ==> commitIndex < i)
      modifies `log, `tailPersisted, `tailHanded, `markLastIdx, `gated
      ensures View() == N.TruncateFrom(old(View()), i) && Valid()
    {
      if i < 1 || i > LastIndex() { return; }
      log := log[..i - 1];
      tailPersisted, tailHanded := N.CutTo(tailPersisted, i), N.CutTo(tailHanded, i);
      markLastIdx := N.CutTo(markLastIdx, i);
      gated := DropTruncated(gated, i);
    }

    method Matches(idx: Index, t: Term) returns (ok: bool)
      requires Valid()
      ensures ok == N.Matches(View(), idx, t)
    {
      if idx == 0 { return true; }
      if idx > LastIndex() { return false; }
      return TermAt(idx) == t;
    }

    method LogIsUpToDate(idx: Index, t: Term) returns (ok: bool)
      requires Valid()
      ensures ok == UpToDate(log, idx, t)
    {
      var mine := TermAt(LastIndex());
      if t != mine { return t > mine; }
      return idx >= LastIndex();
    }

    // --- replication -----------------------------------------------------------

    method SendAppend(k: nat)
      requires Valid() && k < |peers|
      modifies `msgs, `gated
      ensures View() == N.SendAppend(old(View()), k) && Valid()
    {
      var next := nextIndex[k];
      if next < 1 { next := 1; }
      var ents := if next <= LastIndex() then SuffixFrom(next) else [];
      SendGated(App(id, peers[k], term, next - 1, TermAt(next - 1), ents, commitIndex));
    }

    method BroadcastAppend()
      requires Valid()
      modifies `msgs, `gated
      ensures View() == N.Broadcast(old(View()), |peers|) && Valid()
    {
      ghost var was := View();
      var k := 0;
      while k < |peers|
        invariant 0 <= k <= |peers|
        invariant View() == N.Broadcast(was, k)
      {
        if peers[k] != id { SendAppend(k); }
        k := k + 1;
      }
    }

    method MaybeCommit()
      requires Valid()
      modifies `commitIndex
      ensures View() == N.MaybeCommit(old(View())) && Valid()
    {
      var n := LastIndex();
      while n > commitIndex
        invariant View() == old(View())
        invariant n >= 0 && N.CommitScan(View(), |log|) == N.CommitScan(View(), n)
      {
        if TermAt(n) == term {
          var cnt := CountReached(matchIndex, n);
          if cnt >= |peers| / 2 + 1 {
            commitIndex := n;
            return;
          }
        }
        n := n - 1;
      }
    }

    // --- roles -----------------------------------------------------------------

    method BecomeFollower(t: Term, v: NodeId)
      modifies `role, `term, `vote, `hardStateDirty, `nextMark, `dirtyMark, `markHandedOff
      ensures View() == N.BecomeFollower(old(View()), t, v)
    {
      if t > term { SetTermAndVote(t, v); }
      role := Follower;
    }

    /** Fresh progress tables: everyone at the end of the log, nobody matched but this node. */
    method ResetProgress(last: Index)
      requires Valid()
      modifies this`nextIndex, this`matchIndex
      ensures |nextIndex| == |matchIndex| == |peers|
      ensures forall k :: 0 <= k < |peers| ==> nextIndex[k] == last + 1
      ensures forall k :: 0 <= k < |peers| ==> matchIndex[k] == if k == N.PeerIdx(peers, id) then tailPersisted else 0
    {
      var k := 0;
      while k < |peers|
        invariant 0 <= k <= |peers| == |nextIndex| == |matchIndex|
        invariant forall j :: 0 <= j < k ==> nextIndex[j] == last + 1 && matchIndex[j] == 0
      {
        nextIndex := nextIndex[k := last + 1];
        matchIndex := matchIndex[k := 0];
        k := k + 1;
      }
      var me := PeerIdx(id);
      matchIndex := matchIndex[me := tailPersisted];
    }

    method TakeOffice()
      requires Valid()
      modifies `role, `leader, `nextIndex, `matchIndex
      ensures View() == N.TakeOffice(old(View())) && Valid()
    {
      ResetProgress(LastIndex());
      role := Leader;
      leader := id;
      assert nextIndex == N.TakeOffice(old(View())).next && matchIndex == N.TakeOffice(old(View())).matched;
    }

    method BecomeLeader()
      requires Valid()
      modifies this
      ensures View() == N.BecomeLeader(old(View())) && Valid()
    {
      TakeOffice();
      AppendEntries(Entry(Normal, term, LastIndex() + 1, ProposalId(0, 0), []));
      BroadcastAppend();
    }

    /** No votes counted but this node's own. */
    method ResetVotes()
      requires |votesGranted| == |votesDenied| == |peers| && id in peers
      modifies this`votesGranted, this`votesDenied
      ensures |votesGranted| == |votesDenied| == |peers|
      ensures forall k :: 0 <= k < |peers| ==> votesGranted[k] == (k == N.PeerIdx(peers, id)) && !votesDenied[k]
    {
      var k := 0;
      while k < |votesGranted|
        invariant 0 <= k <= |votesGranted| == |votesDenied| == |peers|
        invariant forall j :: 0 <= j < k ==> !votesGranted[j] && !votesDenied[j]
      {
        votesGranted := votesGranted[k := false];
        votesDenied := votesDenied[k := false];
        k := k + 1;
      }
      var me := PeerIdx(id);
      votesGranted := votesGranted[me := true];
    }

    method NextTerm()
      requires Valid()
      modifies this
      ensures View() == N.SetHard(old(View()).(role := Candidate), old(term) + 1, id) && Valid()
    {
      role := Candidate;
      ghost var c := View();
      assert c == old(View()).(role := Candidate);
      SetTermAndVote(term + 1, id);
    }

    method Declare()
      requires Valid()
      modifies this
      ensures View() == N.Declare(old(View())) && Valid()
    {
      NextTerm();
      leader := 0;
      ResetVotes();
      assert votesGranted == N.Declare(old(View())).granted && votesDenied == N.Declare(old(View())).denied;
    }

    method SolicitVotes()
      requires Valid()
      modifies `msgs, `gated
      ensures View() == N.Solicit(old(View()), |peers|) && Valid()
    {
      ghost var was := View();
      var k := 0;
      while k < |peers|
        invariant 0 <= k <= |peers|
        invariant View() == N.Solicit(was, k)
      {
        if peers[k] != id {
          SendGated(VoteReq(id, peers[k], term, LastIndex(), TermAt(LastIndex())));
        }
        k := k + 1;
      }
    }

    method ForceCampaign()
      requires Valid()
      modifies this
      ensures View() == N.ForceCampaign(old(View())) && Valid()
    {
      Declare();
      if |peers| / 2 + 1 == 1 {
        BecomeLeader();
      } else {
        SolicitVotes();
      }
    }

    // --- input -----------------------------------------------------------------

    method StepVote(m: Message)
      requires Valid() && m.VoteReq?
      modifies this
      ensures View() == N.StepVote(old(View()), m) && Valid()
    {
      var grant := false;
      var upToDate := LogIsUpToDate(m.lastIndex, m.lastTerm);
      if m.term < term {
      } else if vote != 0 && vote != m.from {
      } else if !upToDate {
      } else {
        grant := true;
        SetVote(m.from);
      }
      SendGated(VoteResp(id, m.from, term, grant));
    }

    method CountVote(m: Message)
      requires Valid() && m.VoteResp? && m.from in peers
      modifies `votesGranted, `votesDenied
      ensures View() == N.CountVote(old(View()), m) && Valid()
    {
      var i := PeerIdx(m.from);
      if m.granted {
        votesGranted := votesGranted[i := true];
      } else {
        votesDenied := votesDenied[i := true];
      }
    }

    method StepVoteResp(m: Message)
      requires Valid() && m.VoteResp?
      modifies this
      ensures View() == N.StepVoteResp(old(View()), m) && Valid()
    {
      if role != Candidate || m.term != term || m.from !in peers { return; }
      CountVote(m);
      var yes := CountSet(votesGranted);
      var no := CountSet(votesDenied);
      if yes >= |peers| / 2 + 1 {
        BecomeLeader();
      } else if no >= |peers| / 2 + 1 {
        BecomeFollower(term, vote);
      }
    }

    method MergeOne(e: Entry)
      requires Valid() && N.CleanAt(View(), e)
      modifies this
      ensures View() == N.MergeOne(old(View()), e) && Valid()
    {
      if e.index <= LastIndex() {
        if TermAt(e.index) == e.term { return; }
        TruncateFrom(e.index);
      }
      AppendEntries(e);
    }

    method MergeEntries(es: seq<Entry>)
      requires Valid() && N.MergeClean(View(), es)
      modifies this
      ensures View() == N.Merge(old(View()), es) && Valid()
    {
      var k := 0;
      while k < |es|
        invariant 0 <= k <= |es| && Valid()
        invariant View() == N.Merge(old(View()), es[..k])
      {
        assert N.CleanAt(N.Merge(old(View()), es[..k]), es[k]);
        MergeOne(es[k]);
        assert es[..k + 1][..k] == es[..k];
        k := k + 1;
      }
      assert es[..k] == es;
    }

    method MergeAndCommit(m: Message)
      requires Valid() && m.App? && N.MergeClean(View(), m.entries)
      modifies this
      ensures View() == N.Accept(old(View()), m) && Valid()
    {
      MergeEntries(m.entries);
      if m.commit > commitIndex { commitIndex := Min(m.commit, m.prevIndex + |m.entries|); }
    }

    /** The append agreed to: merge, raise the commit index, acknowledge on the right marks. */
    method AcceptAppend(m: Message)
      requires Valid() && m.App? && N.MergeClean(View(), m.entries)
      requires N.HasMark(N.Accept(View(), m), m.prevIndex + |m.entries|)
      modifies this
      ensures var a := N.Accept(old(View()), m); var last := m.prevIndex + |m.entries|;
        View() == N.SendOn(a, N.MarkFor(a, last), AppResp(a.id, m.from, a.term, true, last, 0))
      ensures Valid()
    {
      MergeAndCommit(m);
      var last := m.prevIndex + |m.entries|;
      var lm := MarkFor(last);
      SendGatedOn(lm, AppResp(id, m.from, term, true, last, 0));
    }

    method Follow(t: Term, from: NodeId)
      requires Valid() && t == term
      modifies `role, `leader
      ensures View() == N.BecomeFollower(old(View()), t, old(vote)).(leader := from) && Valid()
    {
      role := Follower;
      leader := from;
    }

    method StepApp(m: Message)
      requires Valid() && m.App? && N.StepClean(View(), m) && m.term <= term
      modifies this
      ensures View() == N.StepApp(old(View()), m) && Valid()
    {
      if m.term < term {
        SendGated(AppResp(id, m.from, term, false, 0, 0));
        return;
      }
      Follow(m.term, m.from);
      var ok := Matches(m.prevIndex, m.prevTerm);
      if !ok {
        SendGated(AppResp(id, m.from, term, false, 0, LastIndex()));
        return;
      }
      AcceptAppend(m);
    }

    method BackUp(k: nat, hint: Index)
      requires Valid() && k < |peers|
      modifies `nextIndex
      ensures View() == old(View()).(next := old(nextIndex)[k := N.BackUp(old(nextIndex)[k], hint)]) && Valid()
    {
      var next := nextIndex[k];
      if hint + 1 < next {
        next := hint + 1;
      } else if next > 1 {
        next := next - 1;
      }
      if next < 1 { next := 1; }
      nextIndex := nextIndex[k := next];
    }

    method Progress(k: nat, reached: Index)
      requires Valid() && k < |peers|
      modifies `nextIndex, `matchIndex
      ensures View() == N.Progress(old(View()), k, reached) && Valid()
    {
      if reached > matchIndex[k] { matchIndex := matchIndex[k := reached]; }
      if matchIndex[k] + 1 > nextIndex[k] { nextIndex := nextIndex[k := matchIndex[k] + 1]; }
    }

    method StepAppResp(m: Message)
      requires Valid() && m.AppResp?
      modifies this
      ensures View() == N.StepAppResp(old(View()), m) && Valid()
    {
      if role != Leader || m.term != term { return; }
      var i := PeerIdx(m.from);
      if i < 0 { return; }
      if !m.success {
        BackUp(i, m.hint);
        SendAppend(i);
        return;
      }
      Progress(i, m.matchIndex);
      MaybeCommit();
    }

    /** A message for another node is refused and changes nothing. */
    method Step(m: Message) returns (ok: bool)
      requires Valid() && (m.to == id ==> N.StepClean(View(), m))
      modifies this
      ensures ok == (m.to == id) && Valid()
      ensures View() == if ok then N.Step(old(View()), m) else old(View())
    {
      if m.to != id { return false; }
      if m.term > term { BecomeFollower(m.term, 0); }
      match m {
        case VoteReq(_, _, _, _, _) => StepVote(m);
        case VoteResp(_, _, _, _) => StepVoteResp(m);
        case App(_, _, _, _, _, _, _) => StepApp(m);
        case AppResp(_, _, _, _, _, _) => StepAppResp(m);
      }
      return true;
    }

    method Propose(pid: ProposalId, data: seq<bv8>) returns (ok: bool)
      requires Valid()
      modifies this
      ensures View() == N.Propose(old(View()), pid, data) && Valid()
      ensures ok == (!pid.Zero() && old(role) == Leader)
      ensures log == if ok then old(log) + [Entry(Normal, old(term), |old(log)| + 1, pid, data)] else old(log)
    {
      if pid.Zero() || role != Leader { return false; }
      AppendEntries(Entry(Normal, term, LastIndex() + 1, pid, data));
      BroadcastAppend();
      return true;
    }

    // --- output ----------------------------------------------------------------

    /** The entries committed and not yet applied. */
    method CommittedEntries() returns (es: seq<Entry>)
      ensures es == if appliedIdx < Min(commitIndex, |log|) then log[appliedIdx..Min(commitIndex, |log|)] else []
    {
      es := [];
      var i := appliedIdx;
      while i < commitIndex && i < |log|
        invariant appliedIdx <= i && (i > appliedIdx ==> i <= Min(commitIndex, |log|))
        invariant es == if i > appliedIdx then log[appliedIdx..i] else []
      {
        es := es + [log[i]];
        i := i + 1;
      }
    }

    /** The mark names this handover, or closes if it covers nothing. */
    method HandOver(mark: Mark, hard: bool, ents: seq<Entry>) returns (m: Mark)
      requires Valid() && mark == dirtyMark && hard == hardStateDirty && ents == log[tailHanded..]
      modifies this
      ensures m == (if N.HandsOver(old(View())) then mark else 0)
      ensures View() == if N.HandsOver(old(View()))
        then old(View()).(markHandedOff := true, lastHandedMark := mark, tailHanded := |log|,
                          markLastIdx := if ents == [] then old(markLastIdx) else |log|)
        else if mark != 0 && !old(markHandedOff) then N.CloseEmptyMark(old(View()), mark) else old(View())
    {
      m := mark;
      if hard || |ents| > 0 {
        markHandedOff := true;
        lastHandedMark := mark;
        if |ents| > 0 {
          tailHanded := ents[|ents| - 1].index;
          markLastIdx := tailHanded;
        }
      } else {
        if mark != 0 && !markHandedOff { CloseEmptyMark(mark); }
        m := 0;
      }
    }

    /** The state after a Ready: the mark handed over or closed, and nothing left to send. */
    method TurnOver(ents: seq<Entry>) returns (mark: Mark)
      requires Valid() && ents == log[tailHanded..]
      modifies this
      ensures View() == N.AfterReady(old(View())) && Valid()
      ensures mark == if N.HandsOver(old(View())) then old(dirtyMark) else 0
    {
      var hard := hardStateDirty;
      if hard { hsMark := dirtyMark; }
      assert View() == if hard then old(View()).(hsMark := old(dirtyMark)) else old(View());
      mark := HandOver(dirtyMark, hard, ents);
      assert N.AfterReady(old(View())) == View().(msgs := [], hardDirty := false);
      msgs := [];
      hardStateDirty := false;
      StaysValid(old(View()));
    }

    method Ready() returns (rd: Ready)
      requires Valid()
      modifies this
      ensures rd == N.ReadyOf(old(View())) && View() == N.AfterReady(old(View())) && Valid()
      ensures old(appliedIdx) <= old(commitIndex) <= |old(log)| ==>
        rd.committed == old(log)[old(appliedIdx)..old(commitIndex)]
      ensures rd.messages == old(msgs) && rd.entries == old(log)[old(tailHanded)..]
      ensures rd.hard == if old(hardStateDirty) then Some(HardState(old(term), old(vote))) else None
    {
      var out := msgs;
      var ents := if tailHanded < LastIndex() then SuffixFrom(tailHanded + 1) else [];
      var hard := if hardStateDirty then Some(HardState(term, vote)) else None;
      var committed := CommittedEntries();
      var mark := TurnOver(ents);
      return RaftTypes.Ready(hard, ents, mark, out, committed);
    }

    method NoteDurable(m: Mark)
      requires Valid()
      modifies `persisted, `hsMark, `tailPersisted
      ensures View() == old(View()).(persisted := m, hsMark := hsMark, tailPersisted := tailPersisted) && Valid()
      ensures hsMark == if old(hsMark) != 0 && old(hsMark) <= m then 0 else old(hsMark)
      ensures tailPersisted == if lastHandedMark != 0 && m >= lastHandedMark && markLastIdx > old(tailPersisted)
        then markLastIdx else old(tailPersisted)
    {
      persisted := m;
      if hsMark != 0 && hsMark <= m { hsMark := 0; }
      if lastHandedMark != 0 && m >= lastHandedMark && markLastIdx > tailPersisted { tailPersisted := markLastIdx; }
    }

    method CloseThrough(m: Mark)
      requires Valid()
      modifies `dirtyMark, `markHandedOff
      ensures View() == old(View()).(dirtyMark := dirtyMark, markHandedOff := markHandedOff) && Valid()
      ensures dirtyMark == if old(dirtyMark) != 0 && old(dirtyMark) <= m then 0 else old(dirtyMark)
      ensures markHandedOff == if old(dirtyMark) != 0 && old(dirtyMark) <= m then false else old(markHandedOff)
    {
      if dirtyMark != 0 && dirtyMark <= m {
        dirtyMark := 0;
        markHandedOff := false;
      }
    }

    method CountSelf()
      requires Valid()
      modifies this
      ensures View() == N.CountSelf(old(View())) && Valid()
    {
      if role == Leader {
        var i := PeerIdx(id);
        if i >= 0 && tailPersisted > matchIndex[i] {
          matchIndex := matchIndex[i := tailPersisted];
          MaybeCommit();
        }
      }
    }

    method AckPersisted(m: Mark)
      requires Valid()
      modifies this
      ensures View() == N.AckPersisted(old(View()), m) && Valid()
    {
      if m <= persisted { return; }
      NoteDurable(m);
      CloseThrough(m);
      assert View() == N.Persisted(old(View()), m);
      Release();
      CountSelf();
    }

    method AckApplied(i: Index)
      modifies `appliedIdx
      ensures View() == N.AckApplied(old(View()), i)
    {
      if i > appliedIdx { appliedIdx := i; }
    }
  }

  /** A node is one of its own peers, which are strictly increasing and none of them zero. */
  ghost predicate Configured(id: NodeId, peers: seq<NodeId>) {
    id != 0 && id in peers && 0 !in peers && forall i, j :: 0 <= i < j < |peers| ==> peers[i] < peers[j]
  }

  method CheckConfig(id: NodeId, peers: seq<NodeId>) returns (ok: bool)
    ensures ok <==> Configured(id, peers)
  {
    if id == 0 || |peers| == 0 { return false; }
    var found := false;
    var i := 0;
    while i < |peers|
      invariant 0 <= i <= |peers| && (found <==> id in peers[..i]) && 0 !in peers[..i]
      invariant forall j, k :: 0 <= j < k < i ==> peers[j] < peers[k]
    {
      assert peers[..i + 1] == peers[..i] + [peers[i]];
      if peers[i] == 0 { return false; }
      if i > 0 && peers[i - 1] >= peers[i] { return false; }
      if peers[i] == id { found := true; }
      i := i + 1;
    }
    assert peers[..i] == peers;
    return found;
  }

  /** Recovery refuses a peer list the node cannot run with and a log whose indices are not
      gapless, and takes every other. */
  method Restore(id: NodeId, peers: seq<NodeId>, hs: HardState, entries: seq<Entry>) returns (r: Option<Raft>)
    ensures r.Some? <==> Configured(id, peers) && Indexed(entries)
    ensures r.Some? ==> fresh(r.value) && r.value.View() == N.Restore(id, peers, hs, entries) && r.value.Valid()
  {
    var ok := CheckConfig(id, peers);
    if !ok { return None; }
    var i := 0;
    while i < |entries|
      invariant 0 <= i <= |entries| && Indexed(entries[..i])
    {
      if entries[i].index != i + 1 { return None; }
      i := i + 1;
    }
    assert entries[..i] == entries;
    var n := new Raft(id, peers, hs, entries);
    return Some(n);
  }
}
