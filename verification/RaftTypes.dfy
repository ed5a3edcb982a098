/** The wire and storage vocabulary of the Raft state machine. */
module RaftTypes {

  /** Zero is "no node": a zero vote is an unset vote. */
  type NodeId = nat
  type Term = nat
  /** Log positions count from 1; 0 is "before the log begins". */
  type Index = nat
  /** A durability point. Zero is "nothing to persist". */
  type Mark = nat

  datatype ProposalId = ProposalId(node: NodeId, number: nat) {
    predicate Zero() { node == 0 && number == 0 }
  }

  datatype EntryKind = Normal | ConfChange

  datatype Entry = Entry(kind: EntryKind, term: Term, index: Index, id: ProposalId, data: seq<bv8>)

  datatype Message =
    | VoteReq(from: NodeId, to: NodeId, term: Term, lastIndex: Index, lastTerm: Term)
    | VoteResp(from: NodeId, to: NodeId, term: Term, granted: bool)
    | App(from: NodeId, to: NodeId, term: Term, prevIndex: Index, prevTerm: Term,
          entries: seq<Entry>, commit: Index)
    | AppResp(from: NodeId, to: NodeId, term: Term, success: bool, matchIndex: Index, hint: Index)
  {
    predicate IsAck() { AppResp? && success }
    predicate IsGrant() { VoteResp? && granted }
  }

  datatype Role = Follower | Candidate | Leader

  /** A message withheld until both marks it attests to are durable. */
  datatype Gated = Gated(msg: Message, mark: Mark, termMark: Mark)

  datatype HardState = HardState(term: Term, vote: NodeId)

  datatype Option<+T> = None | Some(value: T)

  /** What one Ready hands to the driver: writes to make durable under `mark`,
      messages that may leave at once, and entries to apply. */
  datatype Ready = Ready(hard: Option<HardState>, entries: seq<Entry>, mark: Mark,
                         messages: seq<Message>, committed: seq<Entry>)

  function Min(a: nat, b: nat): nat { if a <= b then a else b }

  function Max(a: nat, b: nat): nat { if a <= b then b else a }

  /** Positions agree with the indices the entries carry. */
  ghost predicate Indexed(log: seq<Entry>) {
    forall k :: 0 <= k < |log| ==> log[k].index == k + 1
  }

  function TermOf(log: seq<Entry>, i: Index): Term {
    if 1 <= i <= |log| then log[i - 1].term else 0
  }

  function LastTerm(log: seq<Entry>): Term { TermOf(log, |log|) }

  /** The candidate-log test: a later last term wins, and at equal terms the longer log. */
  predicate UpToDate(log: seq<Entry>, idx: Index, term: Term) {
    if term != LastTerm(log) then term > LastTerm(log) else idx >= |log|
  }

  function CountTrue(flags: seq<bool>): nat {
    if flags == [] then 0 else (if flags[0] then 1 else 0) + CountTrue(flags[1..])
  }

  /** The withheld messages whose marks have both landed, in generation order. */
  function Landed(gated: seq<Gated>, persisted: Mark): (out: seq<Message>)
    ensures forall m :: m in out <==> exists g :: g in gated && Lands(g, persisted) && g.msg == m
  {
    if gated == [] then []
    else
      var g := gated[|gated| - 1];
      var rest := Landed(gated[..|gated| - 1], persisted);
      assert gated == gated[..|gated| - 1] + [g];
      if Lands(g, persisted) then rest + [g.msg] else rest
  }

  predicate Lands(g: Gated, persisted: Mark) { g.mark <= persisted && g.termMark <= persisted }

  /** The messages that stay withheld, in generation order. */
  function Kept(gated: seq<Gated>, persisted: Mark): (out: seq<Gated>)
    ensures forall g :: g in out <==> g in gated && !Lands(g, persisted)
  {
    if gated == [] then []
    else
      var g := gated[|gated| - 1];
      var rest := Kept(gated[..|gated| - 1], persisted);
      assert gated == gated[..|gated| - 1] + [g];
      if Lands(g, persisted) then rest else rest + [g]
  }

  predicate AttestsFrom(g: Gated, i: Index) { g.msg.IsAck() && g.msg.matchIndex >= i }

  /** Withheld acknowledgements of position i or later dropped, everything else kept. */
  function DropAcks(gated: seq<Gated>, i: Index): (out: seq<Gated>)
    ensures forall g :: g in out <==> g in gated && !AttestsFrom(g, i)
  {
    if gated == [] then []
    else
      var g := gated[|gated| - 1];
      var rest := DropAcks(gated[..|gated| - 1], i);
      assert gated == gated[..|gated| - 1] + [g];
      if AttestsFrom(g, i) then rest else rest + [g]
  }
}
