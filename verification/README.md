# Rift, in Dafny

A model of the parts of Rift that carry its guarantees, and proofs about them.

- **The Raft node and the cluster around it.** `RaftNode` holds a node's transitions as functions, durability marks
  and gated messages included. `RaftCluster` puts such nodes on disks and on a network that loses, repeats and
  reorders, and lets them crash back to any image from the durable one on. `RaftHistory` to `RaftDisk` carry one
  inductive invariant through every step; `RaftSafety` draws the theorems from it, and `RaftApplied` what each server
  applies. `RaftEffects` says what every step does for the cluster's progress, apart from what it must not do.
  `RaftMachine` is the node as a mutable object, every method proved equal to the transition the theorems are about.
- **The storage driver.** `StorageDriver` sets the engine (a map with range deletes) against the driver's own record
  (a sequence). `DriverRun` ties the two at every sequence number of every run, and `DriverEffects` says what each
  event leaves there. `DriverMachine` is the driver as an object, and shows its disk is the disk of the cluster model.
- **Transactions.** `Mvcc` is the state and its steps, `Transactions`, `FirstCommitter` and `CommandEffects` the
  theorems over every interleaving, `MvccStore` the mutable store. The client coordinator is an environment that keeps
  a discipline: it commits a key only after prewriting it and seeing the primary's committed record, commits strictly
  above its start, and uses no timestamp twice.
- **Ranges.** `RangeMachine` and `Splits` for records and extents, `ApplyPaths` for the driver's and the replay's way
  through one log, `Bytes` and `KeyEncoding` for the keys.
- **Clocks.** `Timeline`, `Skew`, `SkewExact` and `Hlc`.
- **Membership**, the simulator's **event loop** and the benchmark's **histogram**.

Time, I/O, randomness and the network are parameters or choices of the environment. Counters are modelled only where a
contract mentions them. Integers are unbounded except where a width shows: key encodings, hybrid clock counters and the
histogram's 64-bit words.

## Where code and documentation differ

The model follows the code.

- `solveOsc` is documented to return the earliest instant. On a slow clock rounding toward zero reads ahead and an
  earlier instant may already have reached the target; `EarliestIff` gives the exact condition on timeline and target.
- `MaxSkew` is documented as the largest skew of a window. Where two rates share their whole part and neither is whole,
  rounding lets the walls drift one nanosecond further between breakpoints. `ExactIff` says for which rates the result is
  exact for all clocks, `SkewBound` is the bound that holds always, and `HalfRateEscapes` is an input that needs it. For a
  rate pair that can lose a unit, whether a given window does depends on where the two roundings fall in it; no shorter
  test than reading the window is claimed there.
- `value` is documented as an upper edge. From 2^57 ns on its product can wrap; `CoveredIff` gives the exact condition.
- Inverted timestamps are documented to sort newest first. That holds exactly between walls of one sign, and
  `SeekIsNewestIff` says when a seek is unaffected.
- A breakpoint list is not always sorted, though `mergePoints` is written for sorted input: `PointListOrdered` says
  exactly when it is, and `StepBeforeStart` shows one that is not. The points merged are the right ones either way.
- The branch of `NextTick` for a tick that lands on the starting instant is never taken.
- `newestCommit` counts rollback tombstones, and an unknown kind of configuration change is accepted and changes nothing.

## Model

| member | source | states |
|---|---|---|
| `RaftSafety.StateMachineSafety` | raft/raft.go:1991-2120 | Over every run of a cluster of any size, with lost, duplicated and reordered messages and crashes back to any disk image from the durable one on, no two servers at any two moments commit different entries at one position |
| `RaftSafety.ElectionSafety` | raft/raft.go:1943-1989 | Two servers that lead in one term, at any two moments of a run, are the same server, across any number of crashes and restores |
| `RaftSafety.CommittedIsForever` | raft/raft.go:3086-3092 | What a server has committed is a prefix of the log of every leader of that term or a later one, from then on |
| `RaftSafety.LogMatchingHolds` | raft/raft.go:3051-3082 | Two logs holding an entry of one term at one position are identical up to it |
| `RaftSafety.PersistBeforeReply` | raftcheck/oracles.go:397-504 | A message on the network carries a term its sender has durable, and a grant has that vote, or a later term, durable, no matter when the sender crashed |
| `RaftSafety.AckIsDurable` | raft/raft.go:2834-2841 | A successful append response leaving a node has its match index durable, and the durable prefix is the leader's |
| `RaftSafety.PanicsUnreachable` | raft/raft.go:2907-2931 | In every reachable state no message makes a node overwrite a committed entry, append out of order or look for a mark that does not cover an index |
| `RaftSafety.ReachableWellFormed` | raft/raft.go:1171-1211 | Every reachable server keeps its identity, its voter list and at least one disk image |
| `RaftSafety.NextInv` | raft/raft.go:1390-1455 | Every step of a cluster of two or more voters keeps the whole inductive invariant and only extends the recorded history |
| `RaftSafety.InitInv` | raft/raft.go:1105-1166 | The start of a cluster of two or more voters satisfies the invariant |
| `RaftSolo.SoloRun` | raft/raft.go:2462-2508 | A one-voter cluster, which leads without waiting for its disk, never commits beyond what is durable and never loses what was durable |
| `RaftApplied.AppliedIsPrefix` | raft/raft.go:2373-2454 | In every state of every run, the entries a server has been handed to apply since it last restarted, joined, are its log up to its applied index: each once, in order, none left out |
| `RaftApplied.AppliedAgree` | raft/raft.go:2373-2454 | What any two servers have been handed to apply, at any two moments, are prefixes of one sequence |
| `RaftApplied.CommitNeverFalls` | raft/raft.go:1991-2053 | A server's commit index falls only in a crash |
| `RaftApplied.AppCarriesCommit` | raft/raft.go:2330-2360 | An append on the network carries the log up to the commit index it names |
| `RaftEffects.RoundCommits` | raft/raft.go:1991-2090 | One append, its answer and the answer's arrival commit the leader's whole log, if with this follower a majority has it and it ends in the leader's term |
| `RaftEffects.Replicates` | raft/raft.go:1991-2053 | A follower that agrees up to where an append starts ends with the leader's whole log and commit index, and acknowledges all of it |
| `RaftEffects.MergeCopies` | raft/raft.go:1991-2053 | Merging a run of the leader's entries onto what precedes them gives the leader's log that far, conflicts or not |
| `RaftEffects.RefusesGap` | raft/raft.go:1991-2053 | An append that does not fit changes no log and is refused with the length of the follower's |
| `RaftEffects.RefusesStale` | raft/raft.go:1991-2053 | An append of an earlier term is refused with the later one |
| `RaftEffects.FollowsLeader` | raft/raft.go:1390-1455 | Any other makes the node a follower of its sender, in its term |
| `RaftEffects.RefusalBacksUp` | raft/raft.go:2055-2090 | A refusal moves only that peer's next index and sends the append from there |
| `RaftEffects.BackUpFalls` | raft/raft.go:2055-2090 | The next index falls by at least one, to just past the hint if that is lower, and never below one |
| `RaftEffects.AckRecorded` | raft/raft.go:2055-2090 | An acknowledgement is recorded for its sender and no other, and commits every entry of this term that a majority then has |
| `RaftEffects.CommitsMajority` | raft/raft.go:2103-2120 | The commit index rises to the highest entry of the leader's own term held by a majority of voters, as a set, and only so |
| `RaftEffects.VoteActs` | raft/raft.go:1943-1966 | A vote is given if and only if the request is of this term, the vote is free or the candidate's already, and its log is at least as up to date; the answer says which |
| `RaftEffects.LaterVote` | raft/raft.go:1390-1455 | A request of a later term is answered in that term by a follower whose vote is free |
| `RaftEffects.VoteRespActs` | raft/raft.go:1968-1989 | A candidate leads if and only if a majority of voters, as a set, has granted, and gives up if and only if one has denied and none granted |
| `RaftEffects.CampaignActs` | raft/raft.go:2214-2241 | A campaign is for the next term, with the node's own vote, and puts the end of its own log to every other voter |
| `RaftEffects.OfficeActs` | raft/raft.go:2252-2319 | A new leader's no-op is sent to every other voter, to follow the last entry before it |
| `RaftEffects.ProposeActs` | raft/raft.go:1292-1314 | A proposal is appended with the id and data given, and every other voter is sent an append that ends with it |
| `RaftEffects.BroadcastReaches` | raft/raft.go:2321-2360 | A broadcast sends every other voter the append that brings it up to date |
| `RaftEffects.SendEmits` | raft/raft.go:2834-2841 | A send adds its message and loses none, and one with nothing to wait for leaves at once |
| `RaftEffects.AckReleases` | raft/raft.go:2462-2508 | An acknowledgement from the disk lets out every message whose marks it reaches and keeps the others |
| `RaftEffects.AckSettles` | raft/raft.go:2462-2508 | Once all has been handed over and acknowledged, the whole log counts as durable and the next message leaves at once |
| `RaftEffects.ReadyOnce` | raft/raft.go:2373-2454 | Draining twice hands over nothing a second time |
| `RaftHistory.QuorumsMeet` | raft/raft.go:3096-3109 | Two quorums of one voter list share a voter |
| `RaftHistory.LeaderCompleteness` | raft/raft.go:2103-2120 | An entry committed in one term is in the log that the history records for every later leader |
| `RaftHistory.CommittedNotDead` | raft/raft.go:2103-2120 | A position a quorum has acknowledged can never be given up by a quorum that moved on |
| `RaftElection.NoPriorLeader` | raft/raft.go:1968-1989 | A candidate with a quorum of grants is the first to lead its term |
| `RaftElection.CrownComplete` | raft/raft.go:2252-2319 | Every position of an earlier term is in the log a new leader takes office with, or can never be committed |
| `RaftSends.SendMove` | raft/raft.go:2817-2841 | Sending behind the open mark keeps the invariant: nothing becomes public before the write it depends on |
| `RaftHandlers.VoteMove` | raft/raft.go:1943-1966 | Handling a vote request keeps the invariant, grant or refusal |
| `RaftHandlers.VoteRespMove` | raft/raft.go:1968-1989 | Counting a vote response keeps the invariant, including taking office on a quorum |
| `RaftHandlers.AppMove` | raft/raft.go:1991-2053 | Handling an append, with any conflict it resolves and any commit it carries, keeps the invariant |
| `RaftHandlers.AppRespMove` | raft/raft.go:2055-2090 | Handling an append response keeps the invariant, including the commit it may allow |
| `RaftHandlers.StepMove` | raft/raft.go:1390-1455 | Delivering any public message keeps the invariant |
| `RaftHandlers.CampaignMove` | raft/raft.go:2214-2241 | Campaigning keeps the invariant |
| `RaftHandlers.SubmitMove` | raft/raft.go:1292-1314 | Proposing keeps the invariant |
| `RaftDisk.DrainMove` | raft/raft.go:2373-2454 | Handing a Ready to the driver keeps the invariant |
| `RaftDisk.SyncMove` | raft/raft.go:2462-2508 | Acknowledging a completed write, releasing what waited for it and committing on the strength of it keeps the invariant |
| `RaftDisk.CrashMove` | raft/raft.go:1171-1211 | A crash back to any disk image from the durable one on, and the restore from it, keeps the invariant |
| `RaftMachine.Restore` | raft/raft.go:1171-1211 | Accepts if and only if the node is one of its own strictly increasing, non-zero peers and the stored log is gapless from one, and then starts in exactly the restored state |
| `RaftMachine.CheckConfig` | raft/raft.go:1105-1166 | Accepts exactly the peer lists a node can run with |
| `RaftMachine.Raft.constructor` | raft/raft.go:1105-1166 | A new node is in the state the cluster model restores it to |
| `RaftMachine.Raft.PeerIdx` | raft/raft.go:3203-3210 | The position of a voter in the voter list, or -1 |
| `RaftMachine.Raft.MarkDirty` | raft/raft.go:2845-2864 | Opens a fresh mark unless one is open and not yet handed over |
| `RaftMachine.Raft.SetTermAndVote` | raft/raft.go:2874-2880 | Adopts a term and vote, dirty until the mark lands |
| `RaftMachine.Raft.SetVote` | raft/raft.go:2866-2872 | Records a vote in the current term, dirty until the mark lands |
| `RaftMachine.Raft.TermMark` | raft/raft.go:2817-2823 | The mark that makes the current term and vote durable, or none |
| `RaftMachine.Raft.MarkFor` | raft/raft.go:2639-2657 | The mark that makes an index durable, for every index that has one |
| `RaftMachine.Raft.SendGatedOn` | raft/raft.go:2834-2841 | A message goes out at once exactly when its mark is already persisted, else it waits in order |
| `RaftMachine.Raft.SendGated` | raft/raft.go:2794-2794 | An ordinary message waits for the term it advertises |
| `RaftMachine.Raft.Release` | raft/raft.go:2603-2613 | Releases exactly the waiting messages whose mark has landed, in order, and keeps the rest |
| `RaftMachine.Raft.CloseEmptyMark` | raft/raft.go:2581-2598 | A mark with nothing to write is struck from every waiting message |
| `RaftMachine.Raft.AppendEntries` | raft/raft.go:2882-2905 | Appends at the end of a gapless log under the open mark |
| `RaftMachine.Raft.TruncateFrom` | raft/raft.go:2907-2979 | Cuts the log, pulls the durability tail back and drops the acknowledgements of what was cut |
| `RaftMachine.Raft.Matches` | raft/raft.go:3051-3082 | The consistency check on the previous entry |
| `RaftMachine.Raft.LogIsUpToDate` | raft/raft.go:3086-3092 | The election restriction |
| `RaftMachine.Raft.SendAppend` | raft/raft.go:2330-2360 | The append a leader sends one peer from that peer's next index |
| `RaftMachine.Raft.BroadcastAppend` | raft/raft.go:2321-2328 | An append to every other voter |
| `RaftMachine.Raft.MaybeCommit` | raft/raft.go:2103-2120 | The scan from the end of the log finds the highest entry of this term on a quorum |
| `RaftMachine.Raft.BecomeFollower` | raft/raft.go:2243-2250 | Steps down, adopting a higher term |
| `RaftMachine.Raft.BecomeLeader` | raft/raft.go:2252-2319 | Takes office: fresh progress, a no-op of its term, and an append to everyone |
| `RaftMachine.Raft.SolicitVotes` | raft/raft.go:2214-2241 | A vote request to every other voter |
| `RaftMachine.Raft.ForceCampaign` | raft/raft.go:2214-2241 | Starts a term, votes for itself and asks for votes, or leads at once when alone |
| `RaftMachine.Raft.StepVote` | raft/raft.go:1943-1966 | The answer to a vote request |
| `RaftMachine.Raft.StepVoteResp` | raft/raft.go:1968-1989 | Counts a vote; leads on a quorum of grants, follows on a quorum of denials |
| `RaftMachine.Raft.MergeEntries` | raft/raft.go:1991-2053 | Skips what is held, truncates at the first conflict and appends the rest |
| `RaftMachine.Raft.StepApp` | raft/raft.go:1991-2053 | The whole append handler, refusal with a hint included |
| `RaftMachine.Raft.StepAppResp` | raft/raft.go:2055-2090 | The whole append-response handler |
| `RaftMachine.Raft.Step` | raft/raft.go:1390-1455 | Delivery: refuses a message for another node, adopts higher terms, drops stale ones |
| `RaftMachine.Raft.Propose` | raft/raft.go:1292-1314 | Refused exactly when the id is zero or the node does not lead; otherwise the log ends with the id and data given |
| `RaftMachine.Raft.CommittedEntries` | raft/raft.go:2373-2454 | The committed entries not yet applied |
| `RaftMachine.Raft.Ready` | raft/raft.go:2373-2454 | Hands over the log from the applied to the commit index, the log past what was handed before, the hard state if it changed and every message free to leave; the node goes on from there |
| `RaftMachine.Raft.AckPersisted` | raft/raft.go:2462-2508 | The effect of a durability acknowledgement, in the source's order |
| `RaftMachine.Raft.AckApplied` | raft/raft.go:2616-2620 | The applied index only rises |
| `RaftMachine.PartLanded` | raft/raft.go:2603-2613 | The release loop parts the queue by mark and keeps order |
| `RaftMachine.DropTruncated` | raft/raft.go:2907-2979 | Drops exactly the waiting acknowledgements at or past a cut |
| `RaftMachine.StrikeMark` | raft/raft.go:2581-2598 | Replaces one mark by none throughout the queue |
| `RaftMachine.CountReached` | raft/raft.go:3101-3109 | Counts the voters whose match index has reached a position |
| `DriverRun.RecordIsEngine` | store/node.go:1535-1570 | In every run of Readys, conflicting appends, compactions, installs, completions and crashes, and at every sequence number that may survive, reading the engine back gives exactly the folded record, and its log is gapless |
| `DriverRun.CrashRecovers` | store/node.go:2056-2156 | A crash at any point recovers exactly the durable record with a gapless log |
| `DriverRun.AckCoversMark` | store/node.go:1432-1530 | When a completion acknowledges a mark, every write of that mark has completed |
| `DriverRun.MarksInOrder` | store/node.go:1432-1530 | A pending write has completed if and only if its mark is at or below the mark acknowledged |
| `DriverRun.GoodNext` | store/node.go:677-807 | Every driver event keeps the invariant that ties record, pending writes and engine |
| `DriverRun.RunGood` | store/node.go:677-807 | The invariant holds in every state of every run |
| `DriverRun.FoldSplit` | store/node.go:1535-1570 | Folding in two steps is folding once |
| `DriverEffects.HandoverSettles` | store/node.go:754-807 | Whatever is in flight, after a Ready the record a restart will read once all has landed has its hard state and its entries from the first of them on |
| `DriverEffects.InstallSettles` | store/node.go:708-729 | After an install it is the old hard state, the snapshot installed and an empty log |
| `DriverEffects.CompactSettles` | store/node.go:1663-1694 | After a compaction it is the old hard state, the snapshot taken and the log above it |
| `DriverEffects.ElsewhereSettles` | store/node.go:1432-1530 | A sequence number taken by another replica's batch changes nothing of it |
| `DriverEffects.DurableSettles` | store/node.go:1432-1530 | No completion changes what it will be |
| `DriverEffects.AllDurable` | store/node.go:1432-1530 | One that reaches everything makes it the record, with nothing in flight |
| `DriverEffects.CrashSettles` | store/node.go:2056-2070 | A crash leaves exactly the durable record |
| `DriverEffects.HandoverAcks` | store/node.go:1432-1530 | Once all has landed after a Ready, its mark is the one acknowledged |
| `StorageDriver.ReadyAgrees` | store/node.go:754-807 | A Ready's batch of sets and range deletes does to the engine's map what the fold does to the record, conflicting append included |
| `StorageDriver.InstallAgrees` | store/node.go:708-729 | A snapshot install's batch agrees with its fold |
| `StorageDriver.CompactAgrees` | store/node.go:1663-1694 | A compaction's batch agrees with its fold and leaves the last index alone |
| `StorageDriver.FoldAppend` | store/node.go:1535-1570 | The fold's entry-by-entry placement is a splice at the first new index with the tail cut, and stays gapless |
| `StorageDriver.ScanReads` | store/node.go:1593-1621 | The scan of the log keys yields the record's log |
| `DriverMachine.SameDurableState` | store/node.go:2263-2283 | Never fails on equal records, and success means equal hard state, snapshot and log |
| `DriverMachine.KeepAboveLoop` | store/node.go:1535-1570 | The fold's filter of compacted entries |
| `DriverMachine.PlaceLoop` | store/node.go:1535-1570 | The fold's loop places each entry at its index, extending or overwriting |
| `DriverMachine.Replica.constructor` | store/node.go:521-543 | A fresh driver is in a good state |
| `DriverMachine.Replica.Persist` | store/node.go:754-807 | Writes a Ready as one batch and queues its fold; once it lands the record is the old one with the entries spliced in and the hard state replaced |
| `DriverMachine.Replica.Install` | store/node.go:708-729 | Writes a snapshot install as its own batch: what is then visible is the old hard state, that snapshot and no entry, and so is the record once it lands |
| `DriverMachine.Replica.TakeSnapshot` | store/node.go:1663-1694 | Writes a compaction as one batch; once it lands the record has that snapshot and the entries above it |
| `DriverMachine.Replica.FoldWrite` | store/node.go:1535-1570 | Folds one completed write into the durable record |
| `DriverMachine.Replica.FoldThrough` | store/node.go:1432-1530 | Folds exactly the pending writes completed by a sequence number, and returns the highest mark among them |
| `DriverMachine.Replica.MarkToAck` | store/node.go:1432-1530 | The guard against a mark that is still partly pending never withholds an acknowledgement |
| `DriverMachine.Replica.OnDurable` | store/node.go:1432-1530 | A completion advances record and engine together, its cross-check never fails, and one that reaches everything makes durable all that was in flight |
| `DriverMachine.Replica.OnCrash` | store/node.go:2056-2070 | A crash drops the pending writes, leaves the record and keeps the invariant |
| `DriverMachine.Replica.Restart` | store/node.go:2122-2156 | What is read back after a crash is the durable record and is gapless |
| `DriverMachine.RaftHandsOverFits` | store/node.go:754-807 | What a Raft node hands over always continues what its disk holds, so the driver's demand on Readys is met |
| `DriverMachine.FoldIsWriteOver` | store/node.go:1535-1570 | The driver's fold is the disk write of the cluster model, so the two theorems speak of one disk |
| `DriverMachine.NoMarkSpans` | store/node.go:1432-1530 | No write left pending carries the acknowledged mark |
| `Transactions.AtomicCommit` | kv/txn.go:194-208 | In every interleaving of coordinators that may stop anywhere and any number of resolvers, one committed key means the transaction's record says committed at that very timestamp and every key of it is committed there or still locked with its value in place, none rolled back |
| `Transactions.NothingAfterRollback` | kv/txn.go:217-230 | Once the record says rolled back, no key of the transaction ever commits |
| `Transactions.DecisionsStand` | kv/txn.go:285-299 | A decision record once written is never changed or removed |
| `Transactions.NextKeeps` | store/replay.go:253-319 | Every command keeps the agreement between plans, locks, values, commits and decisions |
| `Transactions.RunConsistent` | store/replay.go:253-319 | That agreement holds in every state of every run |
| `Transactions.SnapshotStable` | kv/txn.go:100-185 | Once a read of a key at T has been applied, no later sequence of prewrites, commits, rollbacks, reads and resolutions changes the settled answer at T |
| `Transactions.NextPins` | kv/txn.go:100-185 | No single command changes what is visible of a key at or below a noted read |
| `FirstCommitter.FirstCommitterWins` | kv/txn.go:100-131 | Of two transactions that committed one key, in any state of any run, one began at or above the other's commit: no update is lost between them |
| `FirstCommitter.CommittedIsUnlocked` | kv/txn.go:194-208 | A transaction never holds the lock of a key it has committed, so committed and locked exclude each other |
| `FirstCommitter.VerdictStands` | kv/resolve.go:89-111 | A resolver's verdict, taken when its status entry is applied, is what the record says in every later state, and it waits only for an undecided owner not past its deadline |
| `FirstCommitter.NextInTurn` | store/replay.go:253-319 | Every command keeps the commits of a key apart and the holder of its lock after all of them |
| `CommandEffects.ReadsCommitted` | kv/read.go:77-141 | Over every run: once a key is committed, every later read at or above the commit that no lock blocks, no newer commit hides and none makes uncertain finds the value its transaction wrote |
| `CommandEffects.CommitKeyCommits` | store/replay.go:253-319 | A commit command in a run commits its key at its transaction's commit timestamp |
| `CommandEffects.RollForwardCommits` | kv/resolve.go:89-111 | So does a resolution that rolls a lock forward |
| `CommandEffects.CommitStays` | kv/txn.go:194-208 | No later command takes a commit back |
| `CommandEffects.PrewriteActs` | kv/txn.go:100-131 | An unrefused prewrite leaves its lock and value, a refused one nothing |
| `CommandEffects.CommitActs` | kv/txn.go:194-208 | A commit leaves its record, no lock of its own, and every value and other lock |
| `CommandEffects.RollbackActs` | kv/txn.go:217-230 | A rollback leaves a tombstone, no value or lock of its own, and every other |
| `CommandEffects.PutTxnActs` | kv/txn.go:285-299 | The first decision put is the one recorded |
| `CommandEffects.GetActs` | kv/txn.go:321-338 | A read leaves the key's mark at or above it and lowers none |
| `CommandEffects.ResolveStatusActs` | store/replay.go:253-319 | Makes dead exactly the undecided owner whose deadline has passed |
| `CommandEffects.ApplyResolutionActs` | store/replay.go:253-319 | Settles the lock it finds as the verdict says, and otherwise changes nothing |
| `MvccStore.Store.constructor` | kv/store.go:94-99 | An empty store |
| `MvccStore.Store.NewestCommit` | kv/txn.go:383-399 | The greatest commit record of a key, tombstones counted |
| `MvccStore.Store.PrewriteInto` | kv/txn.go:100-131 | Succeeds if and only if no lock, no record above the start and no read mark above it stands in the way; names which guard refused |
| `MvccStore.Store.ReleaseLockOf` | kv/txn.go:254-268 | Releases only the transaction's own lock |
| `MvccStore.Store.CommitInto` | kv/txn.go:194-208 | Refused exactly when a timestamp is unset or the commit is below the start; otherwise the key has its commit record and its own lock is gone |
| `MvccStore.Store.RollbackInto` | kv/txn.go:217-230 | Refused exactly when the start is unset; otherwise value and own lock are gone and a tombstone stands |
| `MvccStore.Store.PutTxnInto` | kv/txn.go:285-299 | First decision wins |
| `MvccStore.Store.NoteReadInto` | kv/txn.go:321-338 | After an accepted read the mark is at or above it |
| `MvccStore.Store.ApplyCommand` | store/replay.go:253-319 | Dispatch of every transaction command to the step whose effect is stated above |
| `MvccStore.Store.GetTxn` | kv/read.go:77-141 | The newest-first scan meets its specification: blocked by a lock at or below T, else uncertain on the greatest real commit up to the ceiling, else the newest real commit at or below T |
| `MvccStore.Store.ScanCommits` | kv/read.go:77-141 | The commit scan alone, tombstones skipped |
| `MvccStore.Store.ReadAt` | kv/store.go:134-168 | The newest version at or before T, or refusal at or below the mark |
| `MvccStore.Store.Doomed` | kv/store.go:233-279 | The versions collected are exactly those not kept |
| `MvccStore.Store.AdvanceGCInto` | kv/store.go:233-279 | Removes exactly the versions below the mark that are not the newest such, and moves the mark |
| `MvccStore.GetSettles` | kv/read.go:77-141 | A read that finds or misses gives the settled answer that snapshot stability is about |
| `MvccStore.GetDecides` | kv/read.go:77-141 | Which answer is given when: refused, blocked, uncertain and settled, each if and only if |
| `MvccStore.RestartShrinks` | kv/read.go:38-40 | Restarting at the uncertain commit strictly shrinks the room below a fixed ceiling |
| `MvccStore.RestartsEnd` | kv/read.go:38-40 | So a chain of restarts under a fixed ceiling is no longer than that room |
| `Mvcc.GcPreservesReads` | kv/store.go:233-279 | Advancing the mark changes no read above it |
| `Mvcc.GcCollects` | kv/store.go:233-279 | Every version below the mark that is not its key's newest there goes, and nothing but data does |
| `KeyEncoding.EncodeDecodes` | kv/encoding.go:51-101 | Decoding an encoded key gives back key and timestamp |
| `KeyEncoding.DecodeEncodes` | kv/encoding.go:87-101 | Whatever decodes was encoded so: the decoder accepts nothing else |
| `KeyEncoding.NewestSortsFirst` | kv/encoding.go:80-83 | Byte order within a key is reverse timestamp order exactly when the two walls have the same sign |
| `KeyEncoding.ChainIsExact` | kv/encoding.go:65-71 | A prefix scan holds that key's versions and no other key's |
| `KeyEncoding.SeekIsNewest` | kv/store.go:134-168 | The first encoded version at or after the seek key is the newest version at or before T, for walls of either sign, given a version of T's sign at or before T or none of the other sign |
| `KeyEncoding.SeekIsNewestIff` | kv/store.go:134-168 | The two agree if and only if that holds |
| `KeyEncoding.ReNamespaceKeepsKey` | store/machine.go:1040-1048 | Moving a record to another range keeps its user key and is undone by moving back |
| `KeyEncoding.ReNamespaceVersioned` | store/machine.go:1040-1048 | A moved versioned key is the key the new range would have written |
| `Bytes.PrefixScanExact` | kv/store.go:310-319 | A byte string has a prefix if and only if it lies between the prefix and its end, all-0xff prefixes included |
| `Bytes.PrefixEndLoop` | kv/store.go:310-319 | The loop that raises the last byte below 0xff computes that end |
| `Bytes.BigEndianOrder` | kv/encoding.go:80-83 | Fixed-width big-endian numbers sort by value |
| `RangeMachine.SnapshotRoundTrip` | store/node.go:1852-1871 | Ingesting a full listing restores the state machine whatever was there before |
| `RangeMachine.IngestHalf` | store/machine.go:886-1030 | Ingesting a listed half gives that half |
| `RangeMachine.HalvesPartition` | store/range.go:29-34 | Each key of the parent is in exactly one half |
| `RangeMachine.SplitPartitionsRecords` | store/machine.go:886-1030 | Every record of every kind lands in exactly one half |
| `RangeMachine.SplitInventsNothing` | store/machine.go:886-1030 | A half holds nothing the parent did not |
| `RangeMachine.RestrictKeepsGets` | store/machine.go:886-1030 | Every transactional read on the owning half answers as before, blocked and uncertain cases included |
| `RangeMachine.RestrictKeepsReads` | store/machine.go:886-1030 | Every plain read on the owning half answers as before |
| `ApplyPaths.DriveAndReplay` | store/replay.go:122-245 | A driver fed Readys and a replay of the whole log, from one state, end in one state, however the log was cut |
| `ApplyPaths.Path.DriveReadys` | store/node.go:862-1032 | The driver, batching within each Ready, reaches the state of applying the joined log in order |
| `ApplyPaths.SnapshotPlusTail` | store/replay.go:122-130 | A snapshot at any position plus the tail is applying everything |
| `ApplyPaths.Path.DriveReady` | store/node.go:862-1032 | The driver's batched apply equals applying the entries in order, with nothing left staged |
| `ApplyPaths.PutActs` | kv/store.go:109-124 | A write inside the extent and above the mark is what a read at its timestamp finds, and no other version changes |
| `ApplyPaths.PutRefused` | kv/store.go:109-124 | Outside the extent, unset, or at or below the mark it changes nothing |
| `ApplyPaths.TxnActs` | store/node.go:862-1032 | A transaction command acts on the store inside the extent and on nothing outside it |
| `ApplyPaths.CollectActs` | kv/store.go:233-279 | A collection moves the mark up to where it says, and reads at or below it are refused |
| `ApplyPaths.LastPutReads` | store/node.go:862-1032 | The last accepted write of a version is what a read at its timestamp finds at the end of any log |
| `ApplyPaths.Path.DriveAndRead` | store/node.go:862-1032 | So a driver that has applied a Ready, batched as it is, reads back that write |
| `ApplyPaths.Path.ReplayFrom` | store/replay.go:122-245 | Replay from a cursor equals applying the rest in order, so it equals the driver |
| `ApplyPaths.Path.DriveSplit` | store/machine.go:886-1030 | The driver's split restricts the parent, and hands over records that rebuild the right half exactly when the split is current and the node does not hold the right range already |
| `ApplyPaths.Path.ReplaySplit` | store/replay.go:182-245 | Replay's split reaches the same state |
| `ApplyPaths.Path.DriveTxn` | store/txnapply.go:27-112 | The driver's transaction step, which may stage one decision twice into one unflushed batch, does what the shared step does |
| `ApplyPaths.Path.ApplyTxn` | store/replay.go:253-319 | A transaction command outside the extent changes nothing, inside it takes effect after what is staged |
| `ApplyPaths.Path.CollectTo` | store/node.go:862-1032 | A collection entry takes effect after what is staged |
| `ApplyPaths.Path.StagePut` | kv/store.go:109-124 | A staged write counts as applied: inside the extent and above the mark a read at its timestamp finds it, and otherwise nothing changes |
| `ApplyPaths.Path.Flush` | store/replay.go:150-158 | Flushing changes nothing observable |
| `ApplyPaths.Path.constructor` | store/replay.go:91-117 | A fresh path has nothing staged |
| `ApplyPaths.Records` | kv/store.go:425-440 | The listing holds exactly what the store holds |
| `ApplyPaths.Partition` | store/machine.go:886-1030 | The loop parts a listing into its halves |
| `ApplyPaths.AllSound` | store/node.go:862-1032 | No entry ever puts a record outside the extent |
| `ApplyPaths.MedianCuts` | store/range.go:141-146 | The median key of a range cuts strictly inside it and leaves a key on either side |
| `Splits.ExtentsAlwaysTile` | store/machine.go:886-1030 | Through any run of splits every key is owned by exactly one extent |
| `Splits.SplitKeepsTiling` | store/machine.go:886-1030 | One split keeps that |
| `Splits.AtMostOneSplit` | store/machine.go:886-1030 | Of two committed splits cut from one descriptor the second changes nothing |
| `Splits.EpochNeverFalls` | store/machine.go:886-1030 | An extent's epoch never falls |
| `Splits.StepsAreLocal` | store/txnapply.go:27-112 | Applying a command and then splitting is splitting and then applying it on the owning half |
| `Timeline.Validate` | clock/timeline.go:72-113 | Accepts exactly the valid timelines |
| `Timeline.OscNeverFalls` | clock/timeline.go:132-134 | On every valid timeline the oscillator never decreases, rate changes and rounding included |
| `Timeline.SolveReaches` | clock/timeline.go:227-248 | The instant solved for has reached the target |
| `Timeline.SolveIsEarliest` | clock/timeline.go:227-248 | It is the earliest when no segment is slow |
| `Timeline.SolveAt` | clock/timeline.go:227-248 | The answer in closed form: the last segment that starts short of the target solves for it, unless the next one starts first |
| `Timeline.EarliestIff` | clock/timeline.go:227-248 | On every valid timeline and for every target it is the earliest if and only if every segment starts at or past the target, or the last that starts short of it is not slow, or that one ends while its exact line is still a whole unit short; all of it read off the inputs |
| `Timeline.SlowInsideIsLate` | clock/timeline.go:227-248 | When the last segment that starts short of the target is slow and reaches it before it ends, the answer is never the earliest |
| `Timeline.SlowClockReadsAhead` | clock/timeline.go:227-248 | A concrete slow clock where the answer is late |
| `Timeline.SolveOscLoop` | clock/timeline.go:227-248 | The loop over segments computes that answer and always returns |
| `Timeline.BootAtMeaning` | clock/timeline.go:161-170 | The boot in force is the latest at or before the instant, or zero before every boot |
| `Timeline.BootAtLoop` | clock/timeline.go:161-170 | The loop finds that boot |
| `Timeline.NextBootAfter` | clock/timeline.go:214-221 | The first boot after an instant, or none |
| `Timeline.TickIsLater` | clock/timeline.go:184-212 | The next multiple of the interval is solved strictly later |
| `Timeline.NextTick` | clock/timeline.go:184-212 | Terminates with an instant strictly later, inside one boot, that is due from its start and where the monotonic reading has reached ordinal times interval; every start before that one is cut short by a restart no later than its own tick is due |
| `Timeline.FirstTick` | clock/timeline.go:184-212 | Where no segment is slow, the boot's clock passes a multiple of the interval there and at no earlier instant after the starting one |
| `Skew.Breakpoints` | clock/timeline.go:287-301 | The breakpoints of a window, all and only, listed as the source lists them |
| `Skew.WallReads` | clock/timeline.go:146-157 | A wall is its epoch, its oscillator and every correction so far, and it jumps at an instant by exactly the corrections made there |
| `Skew.PointListOrdered` | clock/timeline.go:287-301 | That list is in order if and only if every segment start strictly inside the window is at or before every step strictly inside it |
| `Skew.StepBeforeStart` | clock/timeline.go:287-301 | A concrete clock whose list is out of order |
| `Skew.MergePoints` | clock/skew.go:82-100 | Keeps every point of both lists and no other, strictly ordered when the inputs are ordered |
| `Skew.MaxSkew` | clock/skew.go:36-59 | The result dominates both one-sided readings at every breakpoint and is attained at the instant returned |
| `Skew.SkewBound` | clock/skew.go:36-59 | At every instant of the window the two walls are within the result plus one nanosecond |
| `Skew.StretchBound` | clock/skew.go:36-59 | Between breakpoints rounded readings cannot escape the endpoints by more than one unit |
| `Skew.StretchWall` | clock/timeline.go:146-157 | Between breakpoints a wall is one rounded line, and its limit at the end is that line there |
| `SkewExact.ExactIff` | clock/skew.go:36-59 | Two rates never read beyond the breakpoints, for any two valid clocks and any window, if and only if in every nanosecond one of them adds at least what the other does, rounding included |
| `SkewExact.ExactWhereSteady` | clock/skew.go:36-59 | For any two clocks whose rates in force through the window are all such pairs, or the same line up to a constant, the result is the maximum over the whole window |
| `SkewExact.UnsteadyLoses` | clock/skew.go:36-59 | For every other pair of rates there are two valid clocks and a window of two nanoseconds that read one more inside than at its breakpoints |
| `SkewExact.HalfRateEscapes` | clock/skew.go:36-59 | A concrete pair of clocks: zero at the breakpoints of a window, one at the instant between |
| `Hlc.NextIsSuccessor` | hlc/hlc.go:68-74 | Next is the immediate successor |
| `Hlc.NextTaggedLeast` | hlc/hlc.go:176-182 | The tagged successor is above the timestamp exactly when the logical counter has room, and is then the least such with that tag |
| `Hlc.IssuesDistinct` | hlc/hlc.go:280-291 | Over any run of any number of clocks, issued timestamps are pairwise distinct, and increase per node |
| `Hlc.IssuesAboveAbsorbed` | hlc/hlc.go:294-325 | A timestamp is above every peer timestamp its node has absorbed |
| `Hlc.IssuesWithinEnvelope` | hlc/hlc.go:294-325 | A timestamp's wall is at most the offset bound above the node's highest physical reading, or zero where that is negative |
| `Hlc.IssuesFollowReadings` | hlc/hlc.go:280-325 | Over any run, a timestamp's wall is at or above every reading its node has accepted up to then |
| `Hlc.StampFollows` | hlc/hlc.go:280-325 | An operation puts the wall at the physical reading when that is ahead of all it must exceed, with a fresh counter, and else at the greatest of those |
| `Hlc.ClockNeverFalls` | hlc/hlc.go:280-325 | A clock's last timestamp never falls |
| `Hlc.Clock.constructor` | hlc/hlc.go:223-233 | An unseeded clock |
| `Hlc.Clock.Now` | hlc/hlc.go:280-291 | Issues and remembers the next timestamp of the run model: the physical reading when it is ahead of the last timestamp, else the last wall |
| `Hlc.Clock.Update` | hlc/hlc.go:294-325 | Refuses exactly a peer too far ahead, else absorbs it: the wall is the greatest of the reading, the last and the peer's |
| `Membership.MajoritiesMeet` | raft/raft.go:368-382 | Any majority before an accepted change meets any majority after it |
| `Membership.OneVoterAtMost` | raft/raft.go:368-382 | An accepted change adds or removes at most one voter |
| `Membership.TwoAtOnceNeedNotMeet` | raft/raft.go:368-382 | Why: two voters added at once allow disjoint majorities |
| `Membership.ApplyWellFormed` | raft/raft.go:392-414 | A change keeps both lists strictly ordered and disjoint |
| `Membership.ApplyActs` | raft/raft.go:392-414 | Who votes and who learns after each kind of accepted change |
| `Membership.ApplyRefuses` | raft/raft.go:392-414 | Refused if and only if the kind is invalid, a voter would be demoted or nobody would be left to vote |
| `Membership.LastWordStands` | raft/raft.go:3125-3147 | What the log last said about a node stands in the fold: no other entry moves it |
| `Membership.CompactionKeepsConf` | raft/raft.go:1637-1665 | Folding over the compacted base and the rest is folding over everything |
| `Membership.FoldWellFormed` | raft/raft.go:3125-3147 | Every fold is well formed |
| `Membership.Fold` | raft/raft.go:3125-3147 | The loop computes the fold |
| `Membership.InsertID` | raft/raft.go:425-432 | Sorted insertion without repeats |
| `Membership.RemoveID` | raft/raft.go:434-442 | Removal keeps order |
| `Membership.SortIDs` | raft/raft.go:446-452 | Sorts a permutation |
| `Membership.CarryTables` | raft/raft.go:3155-3197 | Each peer keeps its own progress and votes across a change; a newcomer has none and starts from the end of the log |
| `Membership.HeldStays` | raft/raft.go:3155-3197 | Looked up by identity, a peer that stays finds its own row |
| `Membership.Member.Restore` | raft/raft.go:1171-1211 | The active configuration after a restore is the fold |
| `Membership.RestoreMember` | raft/raft.go:1171-1211 | Refused exactly when the log does not continue the snapshot without a gap; otherwise the active configuration is the fold over the snapshot's configuration, or the configured one where it has none |
| `Membership.Member.RecomputeConf` | raft/raft.go:3125-3147 | Makes the active configuration the fold |
| `Membership.Member.AppendEntries` | raft/raft.go:2882-2905 | Appending keeps the active configuration equal to the fold |
| `Membership.Member.TruncateFrom` | raft/raft.go:2907-2979 | So does truncating, which undoes the changes cut off |
| `Membership.Member.ConfigurationAt` | raft/raft.go:1686-1712 | The fold up to an index, refused outside the retained log |
| `Membership.Member.Compact` | raft/raft.go:1637-1665 | Refused exactly beyond what is applied or persisted; otherwise the base moves and the active configuration does not |
| `Membership.Member.Install` | raft/raft.go:1537-1609 | A snapshot beyond what is committed whose configuration decodes replaces base and active; any other changes neither |
| `EventLoop.Queue.constructor` | sim/event.go:100-103 | An empty queue |
| `EventLoop.Queue.Push` | sim/event.go:105-116 | Sift-up restores the heap and adds exactly the event |
| `EventLoop.Queue.SiftDown` | sim/event.go:118-144 | Sift-down restores the heap and loses nothing |
| `EventLoop.Queue.Pop` | sim/event.go:118-144 | Removes exactly one event, the first in (instant, insertion) order |
| `EventLoop.RootIsFirst` | sim/event.go:86-91 | The root of a heap is first |
| `EventLoop.FireAhead` | sim/loop.go:219-304 | Firing the first waiting event never moves time back and keeps the fired events in order |
| `EventLoop.ScheduleAhead` | sim/loop.go:166-175 | Scheduling at or after now keeps everything waiting ahead of everything fired |
| `EventLoop.Loop.constructor` | sim/loop.go:110-142 | A loop with exactly each node's first tick scheduled |
| `EventLoop.Loop.At` | sim/loop.go:166-175 | Adds exactly one event with the next sequence number |
| `EventLoop.Loop.Fire` | sim/loop.go:219-304 | Fires a waiting event at its instant, which is not before now |
| `EventLoop.Loop.Step` | sim/loop.go:219-304 | The first event waiting fires, and whatever it asks for is scheduled |
| `EventLoop.Loop.Check` | sim/loop.go:186-211 | Emptiness, deadline and step limit, tested in that order |
| `EventLoop.Loop.Run` | sim/loop.go:186-211 | Fired events are in strict (instant, insertion) order and all were scheduled; all of them when quiescent, all up to the deadline, where time then stands, at a deadline; the other outcomes only with events waiting or on a halting handler |
| `Histogram.Hist.Quantile` | bench/hist.go:111-130 | The quantile is the edge of the first bucket that brings the running total to its rank; for samples below 2^57 it is never below the sample of that rank in the sorted list, and above by at most 1/128 of it, or 1 for a zero sample |
| `Histogram.Hist.Add` | bench/hist.go:91-104 | Adds exactly the clamped sample to the sorted list the counters, extremes and total stand for |
| `Histogram.InsertBounded` | bench/hist.go:91-104 | Samples below 2^57 keep the histogram within the range its quantiles cover |
| `Histogram.Hist.constructor` | bench/hist.go:53-55 | An empty histogram |
| `Histogram.BucketLoop` | bench/hist.go:58-78 | The shift loop finds the band of the highest set bit |
| `Histogram.BucketMono` | bench/hist.go:58-78 | Bucketing is monotone below 2^57 |
| `Histogram.CoveredIff` | bench/hist.go:83-88 | A bucket's edge covers the sample if and only if the sample is below 2^57 or near enough the start of its band for no word to wrap |
| `Histogram.WrapsAboveCeiling` | bench/hist.go:83-88 | The largest sample below 2^58 is reported as 2^57 |
| `Histogram.RankFound` | bench/hist.go:111-130 | The first bucket whose running total reaches a rank is the bucket of that rank's sample |
| `Histogram.RankLeast` | bench/hist.go:111-130 | The rank is the least whole one, from one on, that covers the given part of the samples |

## Left out

- Membership change inside the cluster theorems: voters are fixed there, and the fold and the meeting of majorities are proved on their own.
- Snapshot transfer, leadership transfer, pre-vote and timers in the cluster model: a node may campaign at any time it does not lead.
- Reads by read index, and their linearizability.
- Liveness: nothing says a message is eventually released, a leader eventually elected or a proposal eventually committed.
- Collection together with transactional reads: preservation is stated for plain reads at a timestamp.
- Storage errors on a write and the engine itself, which is a map with sequence numbers here.
- Fixed-width codecs other than the keys', and the bytes of snapshots.
- Uniqueness of range ids across process restarts: the id of a right half is part of the split.
- Routing, balancing, transport, the fault injectors, the process wrapper, trace hashing and reporting.
- RaftMachine.Restore: does not model the checks of the two timeouts or a separate learner list, because neither is in the cluster model.
- RaftMachine.Raft.MarkFor: does not model the snapshot mark, because snapshot transfer is left out of the node.
- RaftMachine.Raft.SendGatedOn: does not model the snapshot mark, because snapshot transfer is left out of the node.
- RaftMachine.Raft.SendAppend: does not model sending a snapshot to a peer behind the log, because nothing is compacted here.
- RaftMachine.Raft.StepAppResp: does not model finishing a leadership transfer or confirming reads, which are left out of the node.
- RaftMachine.Raft.Step: does not model pre-vote, snapshot, read-index and timeout-now messages, which are left out of the node.
- RaftMachine.Raft.Propose: does not model the refusal during a leadership transfer, which is left out of the node.
- RaftMachine.Raft.Ready: does not model the snapshot and read-state fields, which are left out of the node.
- RaftMachine.Raft.AckPersisted: does not model the acknowledgement of snapshot marks, which are left out of the node.
- DriverMachine.Replica.OnDurable: does not model the snapshot-mark stream or the check of the acknowledged sequence number, because one stream of marks is modelled.
- Membership.Member.Install: does not model the acknowledgement sent back, because messages are not part of that model.
- Skew.MaxSkew: states the maximum over breakpoints, because the largest skew of the whole window may be one nanosecond more where `SkewExact.ExactIff` says so.
- Timeline.Validate: does not model the overflow panics of mulDiv and mulDivCeil, because instants are unbounded here.
- Timeline.FirstTick: asks that no segment be slow, because on a slow one the solved instant itself may be late.
- Hlc.IssuesDistinct: asks that the logical counter stay clear of its last 256 values and that the clock was not seeded, because past them the counter wraps.
- Histogram.Hist.Quantile: takes the quantile in parts per million instead of a float, and covers the sample only below 2^57, because beyond it the edge wraps; counts are unbounded.
- EventLoop.Loop.Run: takes what each handler does as a script, asks that time not already be past the deadline, and leaves out oracles, traces and crashed nodes.
- Splits.ExtentsAlwaysTile: follows the extents of one replica of each range, because replicas that lag hold older extents.
- MvccStore.RestartsEnd: bounds the restarts of one ceiling, and says nothing about waiting on locks.
